/**
 * The draft `generate_image_async` of bot_nanobanana_fix.py: the same 36
 * polls, but the decision reads free-form `status`/`state` strings and
 * looks for the image URL under five keys.
 *
 * `statuses[i]` is what `get_task_status` returned at poll `i` (`None` for
 * `None` or an empty dict); polls past the end of the sequence get `None`.
 */
module NanoBananaDraft {
  import opened Wrappers
  import opened Text
  import opened ImageApi

  const MaxAttempts: nat := 36

  /** A JSON value under one key: absent, null, a string, or a list of strings. */
  datatype Field = Absent | Null | Str(s: string) | Items(xs: seq<string>)

  /** The keys the draft reads. The five URL keys are, in lookup order,
      `imageUrl`, `image_url`, `resultUrl`, `result_url` and `url`. */
  datatype DraftStatus = DraftStatus(
    status: Field,
    state: Field,
    imageUrl: Field,
    imageUrlSnake: Field,
    resultUrl: Field,
    resultUrlSnake: Field,
    url: Field)

  function At(statuses: seq<Option<DraftStatus>>, i: nat): Option<DraftStatus> {
    if i < |statuses| then statuses[i] else None
  }

  /** Python truthiness of a JSON value. */
  predicate Truthy(f: Field) {
    match f
    case Absent => false
    case Null => false
    case Str(s) => s != []
    case Items(xs) => xs != []
  }

  /** `d.get(key, '').lower()`; `None` is the AttributeError that null or a
      list raises. */
  function LoweredField(f: Field): Option<string> {
    match f
    case Absent => Some("")
    case Str(s) => Some(LowerStr(s))
    case Null => None
    case Items(_) => None
  }

  /** `a or b or c or d or e`: the first truthy value, else the last one. */
  function FirstTruthy(d: DraftStatus): (f: Field)
    ensures Truthy(f) <==> Truthy(d.imageUrl) || Truthy(d.imageUrlSnake) || Truthy(d.resultUrl)
                           || Truthy(d.resultUrlSnake) || Truthy(d.url)
  {
    if Truthy(d.imageUrl) then d.imageUrl
    else if Truthy(d.imageUrlSnake) then d.imageUrlSnake
    else if Truthy(d.resultUrl) then d.resultUrl
    else if Truthy(d.resultUrlSnake) then d.resultUrlSnake
    else d.url
  }

  /** The URL the draft would return, after taking the first element of a
      list; `None` when that value is falsy. */
  function PickedUrl(d: DraftStatus): Option<string> {
    match FirstTruthy(d)
    case Str(s) => if s != [] then Some(s) else None
    case Items(xs) => if xs != [] && xs[0] != [] then Some(xs[0]) else None
    case Absent => None
    case Null => None
  }

  predicate IsDone(status: string, state: string) {
    status == "completed" || state == "completed" || status == "success" || state == "success"
  }

  predicate IsFailed(status: string, state: string) {
    status == "failed" || state == "failed" || status == "error" || state == "error"
  }

  /** Both `status` and `state` read as strings and one of them says the
      task finished. */
  predicate Finished(d: DraftStatus) {
    && LoweredField(d.status).Some? && LoweredField(d.state).Some?
    && IsDone(LoweredField(d.status).value, LoweredField(d.state).value)
  }

  /** Both fields read as strings, neither says finished, and one says failed. */
  predicate Failed(d: DraftStatus) {
    && LoweredField(d.status).Some? && LoweredField(d.state).Some?
    && !IsDone(LoweredField(d.status).value, LoweredField(d.state).value)
    && IsFailed(LoweredField(d.status).value, LoweredField(d.state).value)
  }

  /** What one poll decides: `None` to keep polling, or the result. */
  function Verdict(reply: Option<DraftStatus>): (v: Option<ImageOutcome>)
    ensures v.Some? && v.value.Ready? ==> reply.Some? && Finished(reply.value) && PickedUrl(reply.value) == Some(v.value.url)
    ensures reply.None? ==> v.None?
  {
    match reply
    case None => None
    case Some(d) =>
      var status := LoweredField(d.status);
      var state := LoweredField(d.state);
      if status.None? || state.None? then Some(Crashed)
      else if IsDone(status.value, state.value) then
        match PickedUrl(d)
        case Some(u) => Some(Ready(u))
        case None => None
      else if IsFailed(status.value, state.value) then Some(NoImage)
      else None
  }

  datatype Poll = Poll(outcome: ImageOutcome, polls: nat)

  /** The loop from attempt `i` on. */
  function PollFrom(statuses: seq<Option<DraftStatus>>, i: nat): Poll
    decreases MaxAttempts - i
  {
    if i >= MaxAttempts then Poll(NoImage, i)
    else
      match Verdict(At(statuses, i))
      case Some(o) => Poll(o, i + 1)
      case None => PollFrom(statuses, i + 1)
  }

  /** The polling part of the draft `generate_image_async`. */
  method AwaitImage(statuses: seq<Option<DraftStatus>>) returns (outcome: ImageOutcome, polls: nat)
    ensures Poll(outcome, polls) == PollFrom(statuses, 0)
  {
    for attempt := 0 to MaxAttempts
      invariant PollFrom(statuses, 0) == PollFrom(statuses, attempt)
    {
      var reply := At(statuses, attempt);
      if reply.None? {
        continue;
      }
      var data := reply.value;
      var status := LoweredField(data.status);
      var state := LoweredField(data.state);
      if status.None? || state.None? {
        return Crashed, attempt + 1;
      }
      if IsDone(status.value, state.value) {
        var found := FirstTruthy(data);
        var url: Option<string> := None;
        match found {
          case Str(s) =>
            url := Some(s);
          case Items(xs) =>
            if xs != [] {
              url := Some(xs[0]);
            }
          case Absent =>
          case Null =>
        }
        if url.Some? && url.value != [] {
          return Ready(url.value), attempt + 1;
        } else {
          continue;
        }
      } else if IsFailed(status.value, state.value) {
        return NoImage, attempt + 1;
      }
    }
    return NoImage, MaxAttempts;
  }

  /** The draft `generate_image_async(prompt, mode, image_urls)`. */
  method GenerateImageAsync(prompt: string, mode: string, imageUrls: Option<seq<string>>,
                            callbackUrl: string, reply: SubmitReply,
                            statuses: seq<Option<DraftStatus>>)
    returns (outcome: ImageOutcome, polls: nat, payload: Option<Payload>)
    ensures payload.None? <==> mode == "edit" && !HasUrls(imageUrls)
    ensures payload.None? || TaskIdOf(reply).None? ==> outcome == NoImage && polls == 0
    ensures payload.Some? && TaskIdOf(reply).Some? ==> Poll(outcome, polls) == PollFrom(statuses, 0)
    ensures polls > 0 ==> payload.Some? && reply.Reply? && reply.status == 200 && reply.code == Some(200)
    ensures polls <= MaxAttempts
  {
    payload := BuildPayload(prompt, mode, imageUrls, 1, "1:1", callbackUrl);
    if payload.None? {
      return NoImage, 0, payload;
    }
    var taskId := TaskIdOf(reply);
    if taskId.None? {
      return NoImage, 0, payload;
    }
    outcome, polls := AwaitImage(statuses);
    PollBound(statuses, 0);
  }

  // ---------------------------------------------------------------- properties

  lemma {:induction false} PollBound(statuses: seq<Option<DraftStatus>>, i: nat)
    requires i <= MaxAttempts
    ensures i <= PollFrom(statuses, i).polls <= MaxAttempts
    decreases MaxAttempts - i
  {
    if i < MaxAttempts && Verdict(At(statuses, i)).None? {
      PollBound(statuses, i + 1);
    }
  }

  lemma {:induction false} PollSkips(statuses: seq<Option<DraftStatus>>, i: nat, k: nat)
    requires i <= k <= MaxAttempts
    requires forall j :: i <= j < k ==> Verdict(At(statuses, j)).None?
    ensures PollFrom(statuses, i) == PollFrom(statuses, k)
    decreases k - i
  {
    if i < k {
      PollSkips(statuses, i + 1, k);
    }
  }

  /** 36 polls that decide nothing end with `None` after 36 requests. */
  lemma TimeoutGivesNoImage(statuses: seq<Option<DraftStatus>>)
    requires forall j :: 0 <= j < MaxAttempts ==> Verdict(At(statuses, j)).None?
    ensures PollFrom(statuses, 0) == Poll(NoImage, MaxAttempts)
  {
    PollSkips(statuses, 0, MaxAttempts);
  }

  /** A finished task whose reply names no URL does not end the loop: the
      next reply decides. */
  lemma SuccessWithoutUrlContinues(statuses: seq<Option<DraftStatus>>, i: nat, d: DraftStatus)
    requires i < MaxAttempts && At(statuses, i) == Some(d)
    requires Finished(d) && PickedUrl(d).None?
    ensures PollFrom(statuses, i) == PollFrom(statuses, i + 1)
  {
  }

  /** Success is tested before failure: a finished reply naming a URL
      returns it, whatever failure words its other field holds. */
  lemma SuccessBeatsFailure(d: DraftStatus, u: string)
    requires Finished(d) && PickedUrl(d) == Some(u)
    ensures Verdict(Some(d)) == Some(Ready(u))
  {
  }

  /** A 'failed' or 'error' reply that is not also finished ends the loop
      with no image. */
  lemma FailureGivesNoImage(statuses: seq<Option<DraftStatus>>, i: nat, d: DraftStatus)
    requires i < MaxAttempts && At(statuses, i) == Some(d) && Failed(d)
    ensures PollFrom(statuses, i) == Poll(NoImage, i + 1)
  {
  }

  /** A missing reply (`None` or an empty dict) keeps the loop polling. */
  lemma MissingReplyContinues(statuses: seq<Option<DraftStatus>>, i: nat)
    requires i < MaxAttempts && At(statuses, i).None?
    ensures PollFrom(statuses, i) == PollFrom(statuses, i + 1)
  {
  }

  /** The example of a 'Success' status with a 'failed' state. */
  lemma SuccessStatusFailedState(u: string)
    requires u != []
    ensures Verdict(Some(DraftStatus(Str("Success"), Str("failed"), Absent, Absent, Absent, Absent, Items([u]))))
            == Some(Ready(u))
  {
    assert LowerStr("Success") == "success" by {
      assert Lower('S') == 's';
    }
    assert LowerStr("failed") == "failed";
  }

  /** A null `status` crashes the loop instead of counting as missing. */
  lemma NullStatusCrashes(statuses: seq<Option<DraftStatus>>, d: DraftStatus)
    requires |statuses| > 0 && statuses[0] == Some(d) && d.status == Null
    ensures PollFrom(statuses, 0) == Poll(Crashed, 1)
  {
  }

  /** An image URL is only returned from a finished reply that names it
      under the first truthy URL key. */
  lemma {:induction false} ReadyComesFromDone(statuses: seq<Option<DraftStatus>>, i: nat)
    requires PollFrom(statuses, i).outcome.Ready?
    ensures exists j ::
      i <= j < MaxAttempts && At(statuses, j).Some? && Finished(At(statuses, j).value)
      && PickedUrl(At(statuses, j).value) == Some(PollFrom(statuses, i).outcome.url)
    decreases MaxAttempts - i
  {
    if Verdict(At(statuses, i)).None? {
      ReadyComesFromDone(statuses, i + 1);
    } else {
      assert i < MaxAttempts && At(statuses, i).Some?;
    }
  }
}
