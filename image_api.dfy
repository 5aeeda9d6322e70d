/**
 * The request side of `NanoBananaImageGenerator.generate_image`, which is
 * the same in bot.py and bot_nanobanana_fix.py: the rules that build the
 * JSON payload and the reading of the submit reply. The HTTP call itself
 * is an input (`SubmitReply`).
 */
module ImageApi {
  import opened Wrappers

  /** The stand-in callback used when none is configured. */
  const DefaultCallbackUrl: string := "https://example.com/callback"

  /** `callback_url or "https://example.com/callback"` */
  function CallbackUrl(configured: Option<string>): (url: string)
    ensures configured.Some? && configured.value != [] ==> url == configured.value
    ensures configured.None? || configured.value == [] ==> url == DefaultCallbackUrl
    ensures url != []
  {
    if configured.Some? && configured.value != [] then configured.value else DefaultCallbackUrl
  }

  /** What a finished poll loop hands back: an image URL, `None`, or an
      exception that escapes `generate_image_async`. */
  datatype ImageOutcome = Ready(url: string) | NoImage | Crashed

  /** The request body; `imageUrls` is `None` when the key is absent. */
  datatype Payload = Payload(
    prompt: string,
    kind: string,
    callBackUrl: string,
    numImages: int,
    imageSize: string,
    imageUrls: Option<seq<string>>)

  /** `min(max(num_images, 1), 4)` */
  function ClampImages(n: int): (k: int)
    ensures 1 <= k <= 4
    ensures 1 <= n <= 4 ==> k == n
    ensures n < 1 ==> k == 1
    ensures n > 4 ==> k == 4
  {
    if n < 1 then 1 else if n > 4 then 4 else n
  }

  /** Python truthiness of the `image_urls` argument. */
  predicate HasUrls(urls: Option<seq<string>>) {
    urls.Some? && urls.value != []
  }

  /** The generation type for a mode, with the API's own spelling. */
  function KindOf(mode: string): string {
    if mode == "edit" then "IMAGETOIAMGE" else "TEXTTOIAMGE"
  }

  /**
   * The payload part of `generate_image`. `None` is the early `return None`
   * for edit mode without image URLs, taken before any request is sent.
   */
  method BuildPayload(prompt: string, mode: string, imageUrls: Option<seq<string>>,
                      numImages: int, imageSize: string, callbackUrl: string)
    returns (payload: Option<Payload>)
    ensures payload.None? <==> mode == "edit" && !HasUrls(imageUrls)
    ensures payload.Some? ==>
      && payload.value.prompt == prompt
      && payload.value.kind == KindOf(mode)
      && payload.value.callBackUrl == callbackUrl
      && payload.value.numImages == ClampImages(numImages)
      && 1 <= payload.value.numImages <= 4
      && payload.value.imageSize == imageSize
      && payload.value.imageUrls == (if mode == "edit" then imageUrls else None)
  {
    var kind: string;
    if mode == "edit" {
      kind := "IMAGETOIAMGE";
      if !HasUrls(imageUrls) {
        return None;
      }
    } else {
      kind := "TEXTTOIAMGE";
    }
    var p := Payload(prompt, kind, callbackUrl, ClampImages(numImages), imageSize, None);
    if mode == "edit" && HasUrls(imageUrls) {
      p := p.(imageUrls := imageUrls);
    }
    return Some(p);
  }

  /** The outcome of the submit request: an exception, or an HTTP status
      with the `code` and `data.taskId` fields of the JSON body. */
  datatype SubmitReply = Raised | Reply(status: int, code: Option<int>, taskId: Option<string>)

  /** The task id `generate_image` returns, or `None`. */
  function TaskIdOf(reply: SubmitReply): (id: Option<string>)
    ensures id.Some? <==> reply.Reply? && reply.status == 200 && reply.code == Some(200)
                           && reply.taskId.Some? && reply.taskId.value != []
    ensures id.Some? ==> id == reply.taskId && id.value != []
  {
    match reply
    case Raised => None
    case Reply(status, code, taskId) =>
      if status == 200 && code == Some(200) && taskId.Some? && taskId.value != [] then taskId else None
  }
}
