/**
 * `NanoBananaImageGenerator.generate_image_async` of bot.py: submit the
 * task, then poll its status at most 36 times and decide on `successFlag`.
 *
 * The status replies are an input: `statuses[i]` is what `get_task_status`
 * returned at poll `i` (`None` for `None` or an empty dict); polls past the
 * end of the sequence get `None`. The five-second sleeps are not modelled.
 */
module NanoBanana {
  import opened Wrappers
  import opened ImageApi

  /** `max_attempts` */
  const MaxAttempts: nat := 36

  /** The `response` entry of a status: missing, JSON null, or an object with
      `resultImageUrl` and `originImageUrl`. */
  datatype ResponseField = Missing | Null | Urls(result: Option<string>, origin: Option<string>)

  /** The task data `get_task_status` returns. */
  datatype TaskData = TaskData(successFlag: Option<int>, response: ResponseField)

  function At(statuses: seq<Option<TaskData>>, i: nat): Option<TaskData> {
    if i < |statuses| then statuses[i] else None
  }

  /** Python truthiness of an optional string. */
  predicate Truthy(s: Option<string>) {
    s.Some? && s.value != []
  }

  /** What one poll decides: `None` to keep polling, or the result.
      `None.get` on a JSON-null `response` raises, which nothing catches. */
  function Verdict(status: Option<TaskData>): (v: Option<ImageOutcome>)
    ensures v.Some? <==> status.Some? && status.value.successFlag in {Some(1), Some(2), Some(3)}
    ensures v.Some? && v.value.Ready? ==> status.value.successFlag == Some(1)
    ensures status.Some? && status.value.successFlag in {Some(2), Some(3)} ==> v == Some(NoImage)
    ensures status.Some? && status.value.successFlag == Some(1) && status.value.response.Urls?
            && Truthy(status.value.response.result)
            ==> v == Some(Ready(status.value.response.result.value))
    ensures status.Some? && status.value.successFlag == Some(1) && status.value.response.Urls?
            && !Truthy(status.value.response.result) && Truthy(status.value.response.origin)
            ==> v == Some(Ready(status.value.response.origin.value))
  {
    match status
    case None => None
    case Some(d) =>
      if d.successFlag == Some(1) then
        match d.response
        case Missing => Some(NoImage)
        case Null => Some(Crashed)
        case Urls(result, origin) =>
          if Truthy(result) then Some(Ready(result.value))
          else if Truthy(origin) then Some(Ready(origin.value))
          else Some(NoImage)
      else if d.successFlag == Some(2) || d.successFlag == Some(3) then Some(NoImage)
      else None
  }

  /** The result of a poll loop and the number of status requests it made. */
  datatype Poll = Poll(outcome: ImageOutcome, polls: nat)

  /** The loop from attempt `i` on. */
  function PollFrom(statuses: seq<Option<TaskData>>, i: nat): Poll
    decreases MaxAttempts - i
  {
    if i >= MaxAttempts then Poll(NoImage, i)
    else
      match Verdict(At(statuses, i))
      case Some(o) => Poll(o, i + 1)
      case None => PollFrom(statuses, i + 1)
  }

  /** The polling part of `generate_image_async` for a started task. */
  method AwaitImage(statuses: seq<Option<TaskData>>) returns (outcome: ImageOutcome, polls: nat)
    ensures Poll(outcome, polls) == PollFrom(statuses, 0)
  {
    for attempt := 0 to MaxAttempts
      invariant PollFrom(statuses, 0) == PollFrom(statuses, attempt)
    {
      var status := At(statuses, attempt);
      if status.None? {
        continue;
      }
      var data := status.value;
      var flag := data.successFlag;
      if flag == Some(1) {
        match data.response
        case Null =>
          return Crashed, attempt + 1;
        case Missing =>
          return NoImage, attempt + 1;
        case Urls(result, origin) =>
          if Truthy(result) {
            return Ready(result.value), attempt + 1;
          } else if Truthy(origin) {
            return Ready(origin.value), attempt + 1;
          }
          return NoImage, attempt + 1;
      } else if flag == Some(2) {
        return NoImage, attempt + 1;
      } else if flag == Some(3) {
        return NoImage, attempt + 1;
      } else if flag == Some(0) {
        continue;
      } else {
        continue;
      }
    }
    return NoImage, MaxAttempts;
  }

  /**
   * `generate_image_async(prompt, mode, image_urls)`: `generate_image` with
   * one image of size "1:1", then the poll loop. `polls` is the number of
   * status requests; `payload` is what would be sent (`None`: no request).
   */
  method GenerateImageAsync(prompt: string, mode: string, imageUrls: Option<seq<string>>,
                            callbackUrl: string, reply: SubmitReply,
                            statuses: seq<Option<TaskData>>)
    returns (outcome: ImageOutcome, polls: nat, payload: Option<Payload>)
    ensures payload.None? <==> mode == "edit" && !HasUrls(imageUrls)
    ensures payload.None? || TaskIdOf(reply).None? ==> outcome == NoImage && polls == 0
    ensures payload.Some? && TaskIdOf(reply).Some? ==> Poll(outcome, polls) == PollFrom(statuses, 0)
    ensures payload.Some? ==> payload.value.numImages == 1 && payload.value.imageSize == "1:1"
    ensures polls > 0 ==> payload.Some? && reply.Reply? && reply.status == 200 && reply.code == Some(200)
    ensures polls <= MaxAttempts
  {
    payload := BuildPayload(prompt, mode, imageUrls, 1, "1:1", callbackUrl);
    if payload.None? {
      return NoImage, 0, payload;
    }
    var taskId := TaskIdOf(reply);
    if taskId.None? {
      return NoImage, 0, payload;
    }
    outcome, polls := AwaitImage(statuses);
    PollBound(statuses, 0);
  }

  // ---------------------------------------------------------------- properties of the loop

  /** A loop started at attempt `i` makes at most 36 polls in all. */
  lemma {:induction false} PollBound(statuses: seq<Option<TaskData>>, i: nat)
    requires i <= MaxAttempts
    ensures i <= PollFrom(statuses, i).polls <= MaxAttempts
    decreases MaxAttempts - i
  {
    if i < MaxAttempts && Verdict(At(statuses, i)).None? {
      PollBound(statuses, i + 1);
    }
  }

  /** Polls that decide nothing are skipped over. */
  lemma {:induction false} PollSkips(statuses: seq<Option<TaskData>>, i: nat, k: nat)
    requires i <= k <= MaxAttempts
    requires forall j :: i <= j < k ==> Verdict(At(statuses, j)).None?
    ensures PollFrom(statuses, i) == PollFrom(statuses, k)
    decreases k - i
  {
    if i < k {
      PollSkips(statuses, i + 1, k);
    }
  }

  /** The first deciding poll decides the loop. */
  lemma FirstVerdictDecides(statuses: seq<Option<TaskData>>, k: nat)
    requires k < MaxAttempts
    requires forall j :: 0 <= j < k ==> Verdict(At(statuses, j)).None?
    requires Verdict(At(statuses, k)).Some?
    ensures PollFrom(statuses, 0) == Poll(Verdict(At(statuses, k)).value, k + 1)
  {
    PollSkips(statuses, 0, k);
  }

  /** 36 polls that decide nothing end with `None` after exactly 36 requests. */
  lemma TimeoutGivesNoImage(statuses: seq<Option<TaskData>>)
    requires forall j :: 0 <= j < MaxAttempts ==> Verdict(At(statuses, j)).None?
    ensures PollFrom(statuses, 0) == Poll(NoImage, MaxAttempts)
  {
    PollSkips(statuses, 0, MaxAttempts);
  }

  /** `url` is the image a `successFlag` 1 status names: its non-empty
      `resultImageUrl`, or else its non-empty `originImageUrl`. */
  predicate NamesImage(d: TaskData, url: string) {
    && d.successFlag == Some(1)
    && d.response.Urls?
    && (if Truthy(d.response.result) then url == d.response.result.value
        else Truthy(d.response.origin) && url == d.response.origin.value)
  }

  /** An image URL is only ever returned from a poll whose status names it. */
  lemma {:induction false} ReadyComesFromSuccess(statuses: seq<Option<TaskData>>, i: nat)
    requires PollFrom(statuses, i).outcome.Ready?
    ensures exists j ::
      i <= j < MaxAttempts && At(statuses, j).Some?
      && NamesImage(At(statuses, j).value, PollFrom(statuses, i).outcome.url)
    decreases MaxAttempts - i
  {
    if Verdict(At(statuses, i)).None? {
      ReadyComesFromSuccess(statuses, i + 1);
    } else {
      assert i < MaxAttempts && At(statuses, i).Some?;
      assert NamesImage(At(statuses, i).value, PollFrom(statuses, i).outcome.url);
    }
  }

  /** A failed task (`successFlag` 2 or 3) ends the loop there with no image. */
  lemma FailedFlagGivesNoImage(statuses: seq<Option<TaskData>>, i: nat, d: TaskData)
    requires i < MaxAttempts && At(statuses, i) == Some(d) && d.successFlag in {Some(2), Some(3)}
    ensures PollFrom(statuses, i) == Poll(NoImage, i + 1)
  {
  }

  /** A success naming an image (`resultImageUrl` when truthy, else
      `originImageUrl`) ends the loop there with that image. */
  lemma NamedImageReturned(statuses: seq<Option<TaskData>>, i: nat, d: TaskData, url: string)
    requires i < MaxAttempts && At(statuses, i) == Some(d) && NamesImage(d, url)
    ensures PollFrom(statuses, i) == Poll(Ready(url), i + 1)
  {
  }

  /** Unlike the draft in bot_nanobanana_fix.py, a success without either URL
      stops the loop at once with `None`. */
  lemma SuccessWithoutUrlStops(statuses: seq<Option<TaskData>>, i: nat, d: TaskData)
    requires i < MaxAttempts && At(statuses, i) == Some(d) && d.successFlag == Some(1)
    requires d.response.Missing? || (d.response.Urls? && !Truthy(d.response.result) && !Truthy(d.response.origin))
    ensures PollFrom(statuses, i) == Poll(NoImage, i + 1)
  {
  }

  /** An empty reply, `successFlag` 0 and an unknown flag all keep polling. */
  lemma ContinuingStatuses()
    ensures Verdict(None).None?
    ensures Verdict(Some(TaskData(Some(0), Missing))).None?
    ensures Verdict(Some(TaskData(None, Null))).None?
    ensures Verdict(Some(TaskData(Some(7), Urls(Some("u"), None)))).None?
  {
  }
}
