/**
 * `TelegramChannelBot` of bot.py: the duplicate guard, the publishing
 * state transitions and the scheduler that decides when to post.
 *
 * Everything outside the process is an input: the image outcome, what each
 * Telegram send does, the DeepSeek texts, the news fetch, the TON price
 * (only whether one was fetched matters) and the clock (Unix seconds).
 * The state the bot changes is described by pure transition functions on
 * `Memory`, the value of its fields; each method is proved to perform the
 * transition its function describes.
 */
module Bot {
  import opened Wrappers
  import opened Text
  import Config
  import opened Schedule
  import opened StateStore
  import Opinion
  import Relevance
  import Ingestion
  import opened ImageApi

  /** What a Telegram send call does: it returns, raises `TelegramError`, or
      raises another exception. */
  datatype Send = Delivered | TelegramFailure | OtherFailure

  /** A post and the DeepSeek phrase of its reaction line. */
  datatype Caption = Caption(content: string, phrase: Option<string>)

  /** The text Telegram receives for a caption: `_add_opinion_text(content)`. */
  function MessageText(c: Caption): (text: string)
    ensures |text| > |c.content| && text[..|c.content|] == c.content
  {
    Opinion.WithOpinion(c.content, c.phrase)
  }

  /** The message that reached the channel, a photo with a caption or a text. */
  datatype Post = PhotoPost(photo: string, caption: Caption) | TextPost(text: Caption)

  /** The part of `publish_post` that delivered the post: the `try` body, the
      `TelegramError` handler or the generic `Exception` handler. */
  datatype Route = Primary | TelegramFallback | GenericFallback

  /** The outside world during one `publish_post` call. */
  datatype Delivery = Delivery(
    /** what `generate_image_async` returned or raised */
    image: ImageOutcome,
    /** the `send_photo` / `send_message` of the `try` body */
    first: Send,
    /** the text-only `send_message` of the exception handler */
    retry: Send,
    /** the DeepSeek phrase for the reaction of the `try` body */
    reaction: Option<string>,
    /** the DeepSeek phrase for the handler's second reaction */
    retryReaction: Option<string>,
    /** Unix time when the send returned */
    done: int)

  /** The route that delivers the post, if any. An exception escaping the
      image generation goes to the generic handler. */
  function RouteOf(d: Delivery): (r: Option<Route>)
    ensures r.Some? <==> (!d.image.Crashed? && d.first.Delivered?) || d.retry.Delivered?
    ensures r == Some(Primary) <==> !d.image.Crashed? && d.first.Delivered?
    ensures r == Some(GenericFallback) ==> d.image.Crashed? || d.first.OtherFailure?
  {
    if d.image.Crashed? then (if d.retry.Delivered? then Some(GenericFallback) else None)
    else
      match d.first
      case Delivered => Some(Primary)
      case TelegramFailure => if d.retry.Delivered? then Some(TelegramFallback) else None
      case OtherFailure => if d.retry.Delivered? then Some(GenericFallback) else None
  }

  /** What reaches the channel: the post with its reaction line, as a photo
      caption when there is an image and the `try` body delivered it. */
  function SentPost(content: string, d: Delivery): Option<Post> {
    match RouteOf(d)
    case None => None
    case Some(Primary) =>
      var text := Caption(content, d.reaction);
      if d.image.Ready? && d.image.url != [] then Some(PhotoPost(d.image.url, text)) else Some(TextPost(text))
    case Some(_) => Some(TextPost(Caption(content, d.retryReaction)))
  }

  // ---------------------------------------------------------------- the state and its transitions

  /** The fields of the bot that its methods change. Times are host-local
      seconds, price dates MSK day numbers. */
  datatype Memory = Memory(
    lastPostTime: Option<int>,
    hashes: set<string>,
    newsIds: set<int>,
    postsToday: int,
    postsTarget: int,
    resetTime: int,
    morning: Option<int>,
    evening: Option<int>)

  /** `_get_post_hash`. MD5 is replaced by the normalised text itself, so two
      posts share a hash exactly when they normalise alike. */
  function PostHash(content: string): (h: string)
    ensures Normalize(h) == h
  {
    NormalizeIdempotent(content);
    Normalize(content)
  }

  /** Python truthiness of `news_id`: `None` and 0 are false. */
  predicate TruthyId(newsId: Option<int>) {
    newsId.Some? && newsId.value != 0
  }

  /** The two guards at the top of `publish_post`. */
  function Refused(m: Memory, content: string, newsId: Option<int>): (r: bool)
    ensures IsDuplicateIn(m, content) ==> r
    ensures !TruthyId(newsId) ==> (r <==> IsDuplicateIn(m, content))
  {
    PostHash(content) in m.hashes || (TruthyId(newsId) && newsId.value in m.newsIds)
  }

  /** `publish_post` returns True. */
  predicate Publishes(m: Memory, content: string, newsId: Option<int>, d: Delivery) {
    !Refused(m, content, newsId) && RouteOf(d).Some?
  }

  /** `_mark_as_published(content, news_id)` */
  function Marked(m: Memory, content: string, newsId: Option<int>): Memory {
    m.(hashes := m.hashes + {PostHash(content)},
       newsIds := if TruthyId(newsId) then m.newsIds + {newsId.value} else m.newsIds)
  }

  /** The updates after a delivered post: the time (not for price posts),
      the counter, and the marks. */
  function Recorded(m: Memory, content: string, isPrice: bool, newsId: Option<int>, local: int): Memory {
    Marked(m.(lastPostTime := if isPrice then m.lastPostTime else Some(local),
              postsToday := m.postsToday + 1),
           content, newsId)
  }

  /** The `try` body and the handlers of `publish_post` past its guards:
      the generic handler records the post without its news id. */
  function Routed(m: Memory, content: string, isPrice: bool, newsId: Option<int>,
                  d: Delivery, utcOffset: int): Memory
  {
    match RouteOf(d)
    case None => m
    case Some(GenericFallback) => Recorded(m, content, isPrice, None, d.done + utcOffset)
    case Some(_) => Recorded(m, content, isPrice, newsId, d.done + utcOffset)
  }

  /** `publish_post(content, is_price_post, news_id)` */
  function AfterPublish(m: Memory, content: string, isPrice: bool, newsId: Option<int>,
                        d: Delivery, utcOffset: int): Memory
  {
    if Refused(m, content, newsId) then m else Routed(m, content, isPrice, newsId, d, utcOffset)
  }

  /** `publish_post_manual`: only the duplicate guard; any exception gives False. */
  function AfterManual(m: Memory, content: string, send: Send, local: int): Memory {
    if PostHash(content) in m.hashes || !send.Delivered? then m
    else Recorded(m, content, false, None, local)
  }

  function QuotaOf(m: Memory): Quota {
    Quota(m.postsToday, m.postsTarget, m.resetTime)
  }

  function WithQuota(m: Memory, q: Quota): Memory {
    m.(postsToday := q.postsToday, postsTarget := q.postsTarget, resetTime := q.resetTime)
  }

  /** A DeepSeek result `if post_content:` accepts. */
  predicate Usable(generated: Option<string>) {
    generated.Some? && generated.value != []
  }

  /** The position of the first news item whose id was not used for a post
      (`fresh_news_items[0]`), or `|news|` when there is none. */
  function FreshIndex(news: seq<Ingestion.NewsItem>, used: set<int>): (k: nat)
    ensures k <= |news|
    ensures forall j :: 0 <= j < k ==> news[j].id in used
    ensures k < |news| ==> news[k].id !in used
  {
    if news == [] || news[0].id !in used then 0 else 1 + FreshIndex(news[1..], used)
  }

  /** The publishing part of `check_and_publish_new_news`, given the news the
      fetch returned: the first fresh item, a usable generated post that is
      itself relevant, and `publish_post` with the item's id. */
  predicate CyclePublishes(m: Memory, news: seq<Ingestion.NewsItem>, generated: Option<string>,
                           tab: Relevance.KeywordTable, d: Delivery)
  {
    var k := FreshIndex(news, m.newsIds);
    && k < |news|
    && Usable(generated)
    && Relevance.RelevantBy(tab, generated.value)
    && Publishes(m, generated.value, Some(news[k].id), d)
  }

  function AfterCycle(m: Memory, news: seq<Ingestion.NewsItem>, generated: Option<string>,
                      tab: Relevance.KeywordTable, d: Delivery, utcOffset: int): Memory
  {
    if !CyclePublishes(m, news, generated, tab, d) then m
    else AfterPublish(m, generated.value, false, Some(news[FreshIndex(news, m.newsIds)].id), d, utcOffset)
  }

  /** `generate_and_publish_price`: a price, a usable post, `publish_post`
      as a price post, then the track's MSK date. */
  predicate PricePublishes(m: Memory, available: bool, generated: Option<string>, d: Delivery) {
    available && Usable(generated) && Publishes(m, generated.value, None, d)
  }

  function AfterPrice(m: Memory, isMorning: bool, available: bool, generated: Option<string>,
                      d: Delivery, utcOffset: int): Memory
  {
    if !PricePublishes(m, available, generated, d) then m
    else
      var posted := AfterPublish(m, generated.value, true, None, d, utcOffset);
      if isMorning then posted.(morning := Some(MskDate(d.done)))
      else posted.(evening := Some(MskDate(d.done)))
  }

  /** `generate_and_publish`: `should_publish_now` (whose reset happens in
      any case), some news, a usable post, `publish_post` without news id. */
  function AfterQuotaPath(m: Memory, local: int, news: seq<Ingestion.NewsItem>,
                          generated: Option<string>, d: Delivery, utcOffset: int): Memory
  {
    var rolled := WithQuota(m, RollDay(QuotaOf(m), local));
    if !PublishAllowed(QuotaOf(m), m.lastPostTime, local) || news == [] || !Usable(generated) then rolled
    else AfterPublish(rolled, generated.value, false, None, d, utcOffset)
  }

  /** The inputs of one `check_and_publish_new_news`. */
  datatype CycleInput = CycleInput(at: int, ready: bool, fetch: Ingestion.Fetch,
                                   generated: Option<string>, delivery: Delivery)

  /** The inputs of one price check and its `generate_and_publish_price`. */
  datatype PriceInput = PriceInput(at: int, available: bool, generated: Option<string>, delivery: Delivery)

  function PriceHour(isMorning: bool): int {
    if isMorning then Config.PriceMorningHour else Config.PriceEveningHour
  }

  /** `if self.should_post_price_*(): await self.generate_and_publish_price(...)` */
  function AfterPriceCheck(m: Memory, isMorning: bool, p: PriceInput, utcOffset: int): Memory {
    var last := if isMorning then m.morning else m.evening;
    if ShouldPostPrice(PriceHour(isMorning), last, p.at) then
      AfterPrice(m, isMorning, p.available, p.generated, p.delivery, utcOffset)
    else m
  }

  /** One pass of the `while True` loop after its sleep: news first, then
      the morning and the evening price checks. */
  function AfterIteration(m: Memory, news: seq<Ingestion.NewsItem>, tab: Relevance.KeywordTable,
                          c: CycleInput, morning: PriceInput, evening: PriceInput, utcOffset: int): Memory
  {
    var afterNews := AfterCycle(m, news, c.generated, tab, c.delivery, utcOffset);
    AfterPriceCheck(AfterPriceCheck(afterNews, true, morning, utcOffset), false, evening, utcOffset)
  }

  /** The start of `run_loop`: the price checks first, then the news. */
  function AfterStart(m: Memory, news: seq<Ingestion.NewsItem>, tab: Relevance.KeywordTable,
                      morning: PriceInput, evening: PriceInput, c: CycleInput, utcOffset: int): Memory
  {
    var afterPrices := AfterPriceCheck(AfterPriceCheck(m, true, morning, utcOffset), false, evening, utcOffset);
    AfterCycle(afterPrices, news, c.generated, tab, c.delivery, utcOffset)
  }

  /** The part of the state `_save_state` writes. */
  function PersistedOf(m: Memory): Persisted {
    Persisted(m.lastPostTime, m.hashes, m.newsIds)
  }

  /** The state right after `__init__` at local time `local`. */
  function Booted(p: Persisted, local: int): Memory {
    Memory(p.lastPostTime, p.hashes, p.newsIds, 0, Config.PostsPerDay, Midnight(local), None, None)
  }

  /** A post past both guards is recorded exactly when some route delivers
      it, and without its news id when the generic handler did. */
  lemma PublishedRecords(m: Memory, content: string, isPrice: bool, newsId: Option<int>,
                         d: Delivery, utcOffset: int)
    requires !Refused(m, content, newsId)
    ensures RouteOf(d).None? ==> AfterPublish(m, content, isPrice, newsId, d, utcOffset) == m
    ensures RouteOf(d).Some? ==>
      AfterPublish(m, content, isPrice, newsId, d, utcOffset)
        == Recorded(m, content, isPrice, if RouteOf(d) == Some(GenericFallback) then None else newsId,
                    d.done + utcOffset)
  {
  }

  // ---------------------------------------------------------------- the bot object

  class ChannelBot {
    var lastPostTime: Option<int>
    var publishedHashes: set<string>
    var publishedNewsIds: set<int>
    var postsToday: int
    var postsTarget: int
    var resetTime: int
    var lastPriceMorning: Option<int>
    var lastPriceEvening: Option<int>
    /** bot_state.json */
    var stateFile: StateFile
    /** False when writing bot_state.json raises; the error is only logged. */
    const stateWritable: bool
    /** The host's offset from UTC, in seconds. */
    const utcOffset: int
    const parser: Ingestion.NewsParser

    function Fields(): Memory
      reads this
    {
      Memory(lastPostTime, publishedHashes, publishedNewsIds, postsToday, postsTarget, resetTime,
             lastPriceMorning, lastPriceEvening)
    }

    /** `reset_time` is a midnight, the target is the configured one, and (while the disk accepts writes)
        bot_state.json holds exactly the persisted part of the state. */
    predicate Valid()
      reads this
    {
      Consistent() && (stateWritable ==> LoadState(stateFile) == PersistedOf(Fields()))
    }

    /** `Valid` without the file: what holds between an update and `_save_state`. */
    predicate Consistent()
      reads this
    {
      && resetTime % Day == 0
      && postsTarget == Config.PostsPerDay
    }

    function Local(now: int): int {
      now + utcOffset
    }

    /** `__init__` at Unix time `now`, with the files found on disk. */
    constructor(utcOffset: int, now: int, stateFile: StateFile, stateWritable: bool,
                idsFile: Option<string>, idsWritable: bool)
      ensures Valid()
      ensures Fields() == Booted(LoadState(stateFile), now + utcOffset)
      ensures this.stateFile == stateFile && this.stateWritable == stateWritable
      ensures this.utcOffset == utcOffset
      ensures fresh(parser) && parser.keywords == Relevance.Table()
      ensures parser.processed == Ingestion.LoadProcessedIds(idsFile)
      ensures parser.idsFile == idsFile.GetOr("") && parser.diskWritable == idsWritable
    {
      parser := new Ingestion.NewsParser(idsFile, idsWritable);
      var loaded := LoadState(stateFile);
      lastPostTime := loaded.lastPostTime;
      publishedHashes := loaded.hashes;
      publishedNewsIds := loaded.newsIds;
      this.stateFile := stateFile;
      this.stateWritable := stateWritable;
      this.utcOffset := utcOffset;
      postsToday := 0;
      postsTarget := Config.PostsPerDay;
      resetTime := Midnight(now + utcOffset);
      lastPriceMorning := None;
      lastPriceEvening := None;
      new;
      assert LoadState(stateFile) == PersistedOf(Fields());
    }

    /** `_is_duplicate` */
    function IsDuplicate(content: string): (dup: bool)
      reads this
      ensures dup <==> IsDuplicateIn(Fields(), content)
      ensures dup ==> forall newsId: Option<int>, d: Delivery :: !Publishes(Fields(), content, newsId, d)
    {
      PostHash(content) in publishedHashes
    }

    /** `_save_state` */
    method SaveState()
      modifies this
      ensures Fields() == old(Fields())
      ensures stateWritable ==> LoadState(stateFile) == PersistedOf(Fields())
      ensures !stateWritable ==> stateFile == old(stateFile)
    {
      if stateWritable {
        var snap := TakeSnapshot(Persisted(lastPostTime, publishedHashes, publishedNewsIds));
        stateFile := Present(snap);
      }
    }

    /** `_mark_as_published` */
    method MarkAsPublished(content: string, newsId: Option<int>)
      modifies this
      requires Consistent()
      ensures Valid()
      ensures Fields() == Marked(old(Fields()), content, newsId)
      ensures !stateWritable ==> stateFile == old(stateFile)
    {
      publishedHashes := publishedHashes + {PostHash(content)};
      if TruthyId(newsId) {
        publishedNewsIds := publishedNewsIds + {newsId.value};
      }
      SaveState();
    }

    /** The three updates after a delivered post. */
    method RecordPost(content: string, isPrice: bool, newsId: Option<int>, local: int)
      modifies this
      requires Valid()
      ensures Valid()
      ensures Fields() == Recorded(old(Fields()), content, isPrice, newsId, local)
      ensures !stateWritable ==> stateFile == old(stateFile)
    {
      ghost var counted := old(Fields()).(lastPostTime := if isPrice then lastPostTime else Some(local),
                                          postsToday := postsToday + 1);
      if !isPrice {
        lastPostTime := Some(local);
      }
      postsToday := postsToday + 1;
      assert Fields() == counted;
      MarkAsPublished(content, newsId);
    }

    /**
     * `publish_post(content, is_price_post, news_id)`. Both guards run before
     * anything is generated or sent. `posted` is what reached the channel.
     */
    method PublishPost(content: string, isPrice: bool, newsId: Option<int>, d: Delivery)
      returns (ok: bool, posted: Option<Post>)
      modifies this
      requires Valid()
      ensures Valid()
      ensures ok <==> Publishes(old(Fields()), content, newsId, d)
      ensures Fields() == AfterPublish(old(Fields()), content, isPrice, newsId, d, utcOffset)
      ensures posted == if Refused(old(Fields()), content, newsId) then None else SentPost(content, d)
      ensures !ok || !stateWritable ==> stateFile == old(stateFile)
    {
      if IsDuplicate(content) {
        return false, None;
      }
      if TruthyId(newsId) && newsId.value in publishedNewsIds {
        return false, None;
      }
      ok, posted := Deliver(content, isPrice, newsId, d);
    }

    /** The `try` body of `publish_post` and its two exception handlers, for
        a post past both guards. */
    method Deliver(content: string, isPrice: bool, newsId: Option<int>, d: Delivery)
      returns (ok: bool, posted: Option<Post>)
      modifies this
      requires Valid()
      ensures Valid()
      ensures ok == RouteOf(d).Some?
      ensures Fields() == Routed(old(Fields()), content, isPrice, newsId, d, utcOffset)
      ensures posted == SentPost(content, d)
      ensures !ok || !stateWritable ==> stateFile == old(stateFile)
    {
      if d.image.Crashed? {
        // an exception from the image generation reaches the generic handler
        assert RouteOf(d) == if d.retry.Delivered? then Some(GenericFallback) else None;
        ok, posted := RetryAsText(content, isPrice, None, d);
      } else if d.first.Delivered? {
        assert RouteOf(d) == Some(Primary);
        ok, posted := SendPrimary(content, isPrice, newsId, d);
      } else if d.first.TelegramFailure? {
        assert RouteOf(d) == if d.retry.Delivered? then Some(TelegramFallback) else None;
        ok, posted := RetryAsText(content, isPrice, newsId, d);
      } else {
        assert RouteOf(d) == if d.retry.Delivered? then Some(GenericFallback) else None;
        ok, posted := RetryAsText(content, isPrice, None, d);
      }
    }

    /** The `try` body when the send goes through: a photo with the post as
        its caption when there is an image, else the post as a message. */
    method SendPrimary(content: string, isPrice: bool, newsId: Option<int>, d: Delivery)
      returns (ok: bool, posted: Option<Post>)
      modifies this
      requires Valid()
      ensures Valid()
      ensures ok
      ensures Fields() == Recorded(old(Fields()), content, isPrice, newsId, d.done + utcOffset)
      ensures posted == Some(if d.image.Ready? && d.image.url != []
                             then PhotoPost(d.image.url, Caption(content, d.reaction))
                             else TextPost(Caption(content, d.reaction)))
      ensures !stateWritable ==> stateFile == old(stateFile)
    {
      var caption := Caption(content, d.reaction);
      if d.image.Ready? && d.image.url != [] {
        posted := Some(PhotoPost(d.image.url, caption));
      } else {
        posted := Some(TextPost(caption));
      }
      RecordPost(content, isPrice, newsId, d.done + utcOffset);
      ok := true;
    }

    /** The two exception handlers of `publish_post`: the post is sent again
        as plain text and, when that succeeds, recorded with `newsId`. */
    method RetryAsText(content: string, isPrice: bool, newsId: Option<int>, d: Delivery)
      returns (ok: bool, posted: Option<Post>)
      modifies this
      requires Valid()
      ensures Valid()
      ensures ok == d.retry.Delivered?
      ensures Fields() == if ok then Recorded(old(Fields()), content, isPrice, newsId, d.done + utcOffset)
                          else old(Fields())
      ensures posted == if ok then Some(TextPost(Caption(content, d.retryReaction))) else None
      ensures !ok || !stateWritable ==> stateFile == old(stateFile)
    {
      var text := Caption(content, d.retryReaction);
      if !d.retry.Delivered? {
        return false, None;
      }
      RecordPost(content, isPrice, newsId, d.done + utcOffset);
      return true, Some(TextPost(text));
    }

    /** `publish_post_manual(content, image_url)` for the /p command. */
    method PublishPostManual(content: string, imageUrl: Option<string>, reaction: Option<string>,
                             send: Send, done: int)
      returns (ok: bool, posted: Option<Post>)
      modifies this
      requires Valid()
      ensures Valid()
      ensures ok <==> !IsDuplicateIn(old(Fields()), content) && send.Delivered?
      ensures Fields() == AfterManual(old(Fields()), content, send, Local(done))
      ensures ok ==> posted == Some(
        if imageUrl.Some? && imageUrl.value != [] then PhotoPost(imageUrl.value, Caption(content, reaction))
        else TextPost(Caption(content, reaction)))
      ensures !ok ==> posted.None? && stateFile == old(stateFile)
    {
      if IsDuplicate(content) {
        return false, None;
      }
      var text := Caption(content, reaction);
      if !send.Delivered? {
        return false, None;
      }
      if imageUrl.Some? && imageUrl.value != [] {
        posted := Some(PhotoPost(imageUrl.value, text));
      } else {
        posted := Some(TextPost(text));
      }
      RecordPost(content, false, None, Local(done));
      ok := true;
    }

    /** `should_publish_now` at Unix time `now`. */
    method ShouldPublishNow(now: int) returns (ok: bool)
      modifies this
      requires Valid()
      ensures Valid()
      ensures ok == PublishAllowed(QuotaOf(old(Fields())), old(lastPostTime), Local(now))
      ensures Fields() == WithQuota(old(Fields()), RollDay(QuotaOf(old(Fields())), Local(now)))
      ensures old(resetTime) <= Local(now) ==> resetTime <= Local(now) < resetTime + Day
      ensures stateFile == old(stateFile)
    {
      var local := Local(now);
      if local >= resetTime + Day {
        postsToday := 0;
        postsTarget := Config.PostsPerDay;
        resetTime := Midnight(local);
      }
      if postsToday >= postsTarget {
        return false;
      }
      if lastPostTime.Some? && local - lastPostTime.value < Config.MinSecondsBetweenPosts() {
        return false;
      }
      return true;
    }

    /**
     * `check_and_publish_new_news` at Unix time `now`. The cycle gate runs
     * before the fetch, so a refused check leaves the processed ids alone;
     * `posts_today` is never consulted. `news` is what the fetch returned.
     */
    method CheckAndPublishNewNews(c: CycleInput) returns (ok: bool, news: seq<Ingestion.NewsItem>)
      modifies this, parser
      requires Valid()
      ensures Valid()
      ensures news == if CycleGateOpen(old(lastPostTime), Local(c.at))
        then Ingestion.Returned(parser.keywords, old(parser.processed), c.ready, c.fetch, Config.NewsScanLimit)
        else []
      ensures CycleGateOpen(old(lastPostTime), Local(c.at))
        ==> parser.Fetched(old(parser.processed), old(parser.idsFile), c.ready, c.fetch, Config.NewsScanLimit)
      ensures !CycleGateOpen(old(lastPostTime), Local(c.at))
        ==> parser.processed == old(parser.processed) && parser.idsFile == old(parser.idsFile)
      ensures ok <==> CyclePublishes(old(Fields()), news, c.generated, parser.keywords, c.delivery)
      ensures Fields() == AfterCycle(old(Fields()), news, c.generated, parser.keywords, c.delivery, utcOffset)
      ensures !ok || !stateWritable ==> stateFile == old(stateFile)
    {
      var local := Local(c.at);
      if lastPostTime.Some? && local - lastPostTime.value < Config.MinSecondsBetweenPosts() - 6 {
        return false, [];
      }
      var waited;
      news, waited := parser.GetNewRelevantNews(c.ready, c.fetch, Config.NewsScanLimit);
      if news == [] {
        return false, news;
      }
      var k := FreshIndex(news, publishedNewsIds);
      if k == |news| {
        return false, news;
      }
      var latest := news[k];
      if !Usable(c.generated) {
        return false, news;
      }
      var post := c.generated.value;
      var relevant := Relevance.Classify(parser.keywords, post);
      if !relevant {
        return false, news;
      }
      var posted;
      ok, posted := PublishPost(post, false, Some(latest.id), c.delivery);
    }

    /** `should_post_price_morning` / `should_post_price_evening` */
    function ShouldPostPriceNow(isMorning: bool, now: int): (due: bool)
      reads this
      ensures due ==> CheckInterval(now) == 60
      ensures due ==> (if isMorning then lastPriceMorning else lastPriceEvening) != Some(MskDate(now))
    {
      ShouldPostPrice(PriceHour(isMorning), if isMorning then lastPriceMorning else lastPriceEvening, now)
    }

    /** `generate_and_publish_price(is_morning)` */
    method GenerateAndPublishPrice(isMorning: bool, available: bool, generated: Option<string>, d: Delivery)
      returns (ok: bool)
      modifies this
      requires Valid()
      ensures Valid()
      ensures ok <==> PricePublishes(old(Fields()), available, generated, d)
      ensures Fields() == AfterPrice(old(Fields()), isMorning, available, generated, d, utcOffset)
      ensures !ok || !stateWritable ==> stateFile == old(stateFile)
    {
      if !available || !Usable(generated) {
        return false;
      }
      var posted;
      ok, posted := PublishPost(generated.value, true, None, d);
      if ok {
        if isMorning {
          lastPriceMorning := Some(MskDate(d.done));
        } else {
          lastPriceEvening := Some(MskDate(d.done));
        }
      }
    }

    /** `generate_and_publish`, the quota-driven path that `run_loop` never takes.
        Its `get_fresh_news` is the parser's fetch; the path only tests
        whether that returned anything, so the items stand for their texts. */
    method GenerateAndPublish(c: CycleInput) returns (ok: bool, news: seq<Ingestion.NewsItem>)
      modifies this, parser
      requires Valid()
      ensures Valid()
      ensures var allowed := PublishAllowed(QuotaOf(old(Fields())), old(lastPostTime), Local(c.at));
        && news == (if allowed
                    then Ingestion.Returned(parser.keywords, old(parser.processed), c.ready, c.fetch, Config.NewsScanLimit)
                    else [])
        && (allowed ==> parser.Fetched(old(parser.processed), old(parser.idsFile), c.ready, c.fetch, Config.NewsScanLimit))
        && (!allowed ==> parser.processed == old(parser.processed) && parser.idsFile == old(parser.idsFile))
        && (ok <==> allowed && news != [] && Usable(c.generated)
                    && Publishes(WithQuota(old(Fields()), RollDay(QuotaOf(old(Fields())), Local(c.at))),
                                 c.generated.value, None, c.delivery))
      ensures Fields() == AfterQuotaPath(old(Fields()), Local(c.at), news, c.generated, c.delivery, utcOffset)
    {
      var allowed := ShouldPublishNow(c.at);
      if !allowed {
        return false, [];
      }
      var waited;
      news, waited := parser.GetNewRelevantNews(c.ready, c.fetch, Config.NewsScanLimit);
      if news == [] {
        return false, news;
      }
      if !Usable(c.generated) {
        return false, news;
      }
      var posted;
      ok, posted := PublishPost(c.generated.value, false, None, c.delivery);
    }

    /** A price check followed, when it says so, by the price post. */
    method PriceCheck(isMorning: bool, p: PriceInput)
      modifies this
      requires Valid()
      ensures Valid()
      ensures Fields() == AfterPriceCheck(old(Fields()), isMorning, p, utcOffset)
    {
      if ShouldPostPriceNow(isMorning, p.at) {
        var published := GenerateAndPublishPrice(isMorning, p.available, p.generated, p.delivery);
      }
    }

    /** The checks `run_loop` makes before entering its loop. */
    method RunLoopStart(morning: PriceInput, evening: PriceInput, c: CycleInput)
      returns (news: seq<Ingestion.NewsItem>)
      modifies this, parser
      requires Valid()
      ensures Valid()
      ensures Fields() == AfterStart(old(Fields()), news, parser.keywords, morning, evening, c, utcOffset)
      ensures news == if CycleGateOpen(old(lastPostTime), Local(c.at))
        then Ingestion.Returned(parser.keywords, old(parser.processed), c.ready, c.fetch, Config.NewsScanLimit)
        else []
      ensures CycleGateOpen(old(lastPostTime), Local(c.at))
        ==> parser.Fetched(old(parser.processed), old(parser.idsFile), c.ready, c.fetch, Config.NewsScanLimit)
      ensures !CycleGateOpen(old(lastPostTime), Local(c.at))
        ==> parser.processed == old(parser.processed) && parser.idsFile == old(parser.idsFile)
    {
      ghost var m0 := Fields();
      PriceCheck(true, morning);
      PriceCheckKeepsMarks(m0, true, morning, utcOffset);
      ghost var m1 := Fields();
      PriceCheck(false, evening);
      PriceCheckKeepsMarks(m1, false, evening, utcOffset);
      var published, fetched := CheckAndPublishNewNews(c);
      news := fetched;
    }

    /**
     * One pass of the `while True` loop of `run_loop` that wakes at Unix time
     * `wake`: the sleep it asks for, then the news check and the two price
     * checks. The quota and its reset are never touched.
     */
    method RunLoopIteration(wake: int, c: CycleInput, morning: PriceInput, evening: PriceInput)
      returns (slept: nat, news: seq<Ingestion.NewsItem>)
      modifies this, parser
      requires Valid()
      ensures Valid()
      ensures slept == CheckInterval(wake)
      ensures Fields() == AfterIteration(old(Fields()), news, parser.keywords, c, morning, evening, utcOffset)
      ensures resetTime == old(resetTime) && postsTarget == old(postsTarget)
      ensures news == if CycleGateOpen(old(lastPostTime), Local(c.at))
        then Ingestion.Returned(parser.keywords, old(parser.processed), c.ready, c.fetch, Config.NewsScanLimit)
        else []
      ensures CycleGateOpen(old(lastPostTime), Local(c.at))
        ==> parser.Fetched(old(parser.processed), old(parser.idsFile), c.ready, c.fetch, Config.NewsScanLimit)
      ensures !CycleGateOpen(old(lastPostTime), Local(c.at))
        ==> parser.processed == old(parser.processed) && parser.idsFile == old(parser.idsFile)
    {
      ghost var m := Fields();
      slept := CheckInterval(wake);
      var published, fetched := CheckAndPublishNewNews(c);
      news := fetched;
      PriceCheck(true, morning);
      PriceCheck(false, evening);
      IterationKeepsQuota(m, news, parser.keywords, c, morning, evening, utcOffset);
    }
  }

  // ---------------------------------------------------------------- properties

  /** A delivered post is marked: the same text, and (unless the generic
      handler delivered it) the same news id, are refused from then on. */
  lemma RepublishRefused(m: Memory, content: string, isPrice: bool, newsId: Option<int>,
                         d: Delivery, utcOffset: int, newsId2: Option<int>, d2: Delivery)
    requires Publishes(m, content, newsId, d)
    ensures Refused(AfterPublish(m, content, isPrice, newsId, d, utcOffset), content, newsId2)
    ensures !Publishes(AfterPublish(m, content, isPrice, newsId, d, utcOffset), content, newsId2, d2)
  {
    PublishedRecords(m, content, isPrice, newsId, d, utcOffset);
  }

  /** The news id of a post the `try` body or the `TelegramError` handler
      delivered blocks any later post for the same news. */
  lemma NewsIdRefused(m: Memory, content: string, isPrice: bool, newsId: Option<int>,
                      d: Delivery, utcOffset: int, other: string)
    requires Publishes(m, content, newsId, d) && TruthyId(newsId)
    requires RouteOf(d) != Some(GenericFallback)
    ensures Refused(AfterPublish(m, content, isPrice, newsId, d, utcOffset), other, newsId)
  {
    PublishedRecords(m, content, isPrice, newsId, d, utcOffset);
  }

  /** The generic handler delivers the post but forgets its news id, so the
      same news can be posted again under a different text. */
  lemma LostNewsIdCanRepeat(m: Memory, content: string, isPrice: bool, newsId: Option<int>,
                            d: Delivery, utcOffset: int, other: string)
    requires Publishes(m, content, newsId, d) && TruthyId(newsId)
    requires RouteOf(d) == Some(GenericFallback)
    requires PostHash(other) != PostHash(content) && PostHash(other) !in m.hashes
    requires newsId.value !in m.newsIds
    ensures !Refused(AfterPublish(m, content, isPrice, newsId, d, utcOffset), other, newsId)
  {
    PublishedRecords(m, content, isPrice, newsId, d, utcOffset);
  }

  /** Changing only the case of a published text does not get it past the guard. */
  lemma RecaseRefused(m: Memory, content: string, isPrice: bool, newsId: Option<int>,
                      d: Delivery, utcOffset: int, other: string)
    requires Publishes(m, content, newsId, d)
    requires LowerStr(other) == LowerStr(content)
    ensures IsDuplicateIn(AfterPublish(m, content, isPrice, newsId, d, utcOffset), other)
  {
    PublishedRecords(m, content, isPrice, newsId, d, utcOffset);
    NormalizeIgnoresCase(other, content);
  }

  /** Nor does changing the whitespace between two words... */
  lemma RespaceRefused(m: Memory, x: string, w1: string, w2: string, y: string, isPrice: bool,
                       newsId: Option<int>, d: Delivery, utcOffset: int)
    requires Publishes(m, x + w1 + y, newsId, d)
    requires w1 != [] && AllSpace(w1) && w2 != [] && AllSpace(w2)
    ensures IsDuplicateIn(AfterPublish(m, x + w1 + y, isPrice, newsId, d, utcOffset), x + w2 + y)
  {
    PublishedRecords(m, x + w1 + y, isPrice, newsId, d, utcOffset);
    NormalizeIgnoresSpacing(x, w1, w2, y);
  }

  /** ...or adding whitespace around it. */
  lemma RepadRefused(m: Memory, content: string, w1: string, w2: string, isPrice: bool,
                     newsId: Option<int>, d: Delivery, utcOffset: int)
    requires Publishes(m, content, newsId, d)
    requires AllSpace(w1) && AllSpace(w2)
    ensures IsDuplicateIn(AfterPublish(m, content, isPrice, newsId, d, utcOffset), w1 + content + w2)
  {
    PublishedRecords(m, content, isPrice, newsId, d, utcOffset);
    NormalizeIgnoresPadding(w1, content, w2);
  }

  /** `publish_post` counts and times the posts it delivers and nothing else;
      a price post leaves `last_post_time` alone. */
  lemma PublishCounts(m: Memory, content: string, isPrice: bool, newsId: Option<int>,
                      d: Delivery, utcOffset: int)
    ensures var r := AfterPublish(m, content, isPrice, newsId, d, utcOffset);
      && r.postsToday == (if Publishes(m, content, newsId, d) then m.postsToday + 1 else m.postsToday)
      && r.lastPostTime == (if Publishes(m, content, newsId, d) && !isPrice then Some(d.done + utcOffset)
                            else m.lastPostTime)
      && r.postsTarget == m.postsTarget && r.resetTime == m.resetTime
      && r.morning == m.morning && r.evening == m.evening
  {
    if Publishes(m, content, newsId, d) {
      PublishedRecords(m, content, isPrice, newsId, d, utcOffset);
    }
  }

  /** What has been marked stays marked. */
  lemma PublishKeepsMarks(m: Memory, content: string, isPrice: bool, newsId: Option<int>,
                          d: Delivery, utcOffset: int)
    ensures m.hashes <= AfterPublish(m, content, isPrice, newsId, d, utcOffset).hashes
    ensures m.newsIds <= AfterPublish(m, content, isPrice, newsId, d, utcOffset).newsIds
  {
    if Publishes(m, content, newsId, d) {
      PublishedRecords(m, content, isPrice, newsId, d, utcOffset);
    }
  }

  lemma PriceCheckKeepsMarks(m: Memory, isMorning: bool, p: PriceInput, utcOffset: int)
    ensures m.hashes <= AfterPriceCheck(m, isMorning, p, utcOffset).hashes
    ensures m.newsIds <= AfterPriceCheck(m, isMorning, p, utcOffset).newsIds
    ensures AfterPriceCheck(m, isMorning, p, utcOffset).lastPostTime == m.lastPostTime
  {
    if p.available && Usable(p.generated) {
      PublishKeepsMarks(m, p.generated.value, true, None, p.delivery, utcOffset);
      PublishCounts(m, p.generated.value, true, None, p.delivery, utcOffset);
    }
  }

  /** Over a whole pass of the loop, no text and no news id is ever forgotten:
      a post refused once is refused on every later pass. */
  lemma IterationKeepsMarks(m: Memory, news: seq<Ingestion.NewsItem>, tab: Relevance.KeywordTable,
                            c: CycleInput, morning: PriceInput, evening: PriceInput, utcOffset: int,
                            content: string, newsId: Option<int>)
    requires Refused(m, content, newsId)
    ensures Refused(AfterIteration(m, news, tab, c, morning, evening, utcOffset), content, newsId)
  {
    var afterNews := AfterCycle(m, news, c.generated, tab, c.delivery, utcOffset);
    if CyclePublishes(m, news, c.generated, tab, c.delivery) {
      PublishKeepsMarks(m, c.generated.value, false, Some(news[FreshIndex(news, m.newsIds)].id),
                        c.delivery, utcOffset);
    }
    var afterMorning := AfterPriceCheck(afterNews, true, morning, utcOffset);
    PriceCheckKeepsMarks(afterNews, true, morning, utcOffset);
    PriceCheckKeepsMarks(afterMorning, false, evening, utcOffset);
  }

  /** A price post neither needs nor moves the posting gate: the news cycle
      that follows it sees the same `last_post_time`. */
  lemma PricePostKeepsGate(m: Memory, isMorning: bool, available: bool, generated: Option<string>,
                           d: Delivery, utcOffset: int, local: int)
    ensures AfterPrice(m, isMorning, available, generated, d, utcOffset).lastPostTime == m.lastPostTime
    ensures CycleGateOpen(AfterPrice(m, isMorning, available, generated, d, utcOffset).lastPostTime, local)
            == CycleGateOpen(m.lastPostTime, local)
  {
    if PricePublishes(m, available, generated, d) {
      PublishCounts(m, generated.value, true, None, d, utcOffset);
    }
  }

  /** A price post stamps its track with the MSK date it finished on, so the
      track is not due again that date. */
  lemma PricePostClosesTrack(m: Memory, isMorning: bool, available: bool, generated: Option<string>,
                             d: Delivery, utcOffset: int, later: int)
    requires PricePublishes(m, available, generated, d)
    requires MskDate(later) == MskDate(d.done)
    ensures var r := AfterPrice(m, isMorning, available, generated, d, utcOffset);
      !ShouldPostPrice(PriceHour(isMorning), if isMorning then r.morning else r.evening, later)
  {
  }

  /** The news cycle never looks at the daily quota: a state past its
      target publishes exactly as one that is not. */
  lemma CycleIgnoresQuota(m: Memory, news: seq<Ingestion.NewsItem>, generated: Option<string>,
                          tab: Relevance.KeywordTable, d: Delivery, count: int)
    ensures CyclePublishes(m.(postsToday := count), news, generated, tab, d)
            == CyclePublishes(m, news, generated, tab, d)
  {
  }

  /** The news cycle publishes the first fresh item's post, with that item's id. */
  lemma CyclePostsFirstFresh(m: Memory, news: seq<Ingestion.NewsItem>, generated: Option<string>,
                             tab: Relevance.KeywordTable, d: Delivery, utcOffset: int)
    requires CyclePublishes(m, news, generated, tab, d)
    ensures var k := FreshIndex(news, m.newsIds);
      && news[k].id !in m.newsIds
      && (forall j :: 0 <= j < k ==> news[j].id in m.newsIds)
      && AfterCycle(m, news, generated, tab, d, utcOffset).lastPostTime == Some(d.done + utcOffset)
      && AfterCycle(m, news, generated, tab, d, utcOffset).postsToday == m.postsToday + 1
      && PostHash(generated.value) in AfterCycle(m, news, generated, tab, d, utcOffset).hashes
  {
    var k := FreshIndex(news, m.newsIds);
    PublishCounts(m, generated.value, false, Some(news[k].id), d, utcOffset);
    PublishedRecords(m, generated.value, false, Some(news[k].id), d, utcOffset);
  }

  /** Whatever the pass does, the quota fields are untouched by `run_loop`. */
  lemma IterationKeepsQuota(m: Memory, news: seq<Ingestion.NewsItem>, tab: Relevance.KeywordTable,
                            c: CycleInput, morning: PriceInput, evening: PriceInput, utcOffset: int)
    ensures AfterIteration(m, news, tab, c, morning, evening, utcOffset).resetTime == m.resetTime
    ensures AfterIteration(m, news, tab, c, morning, evening, utcOffset).postsTarget == m.postsTarget
  {
    var afterNews := AfterCycle(m, news, c.generated, tab, c.delivery, utcOffset);
    if CyclePublishes(m, news, c.generated, tab, c.delivery) {
      PublishCounts(m, c.generated.value, false, Some(news[FreshIndex(news, m.newsIds)].id),
                    c.delivery, utcOffset);
    }
    var afterMorning := AfterPriceCheck(afterNews, true, morning, utcOffset);
    if ShouldPostPrice(PriceHour(true), afterNews.morning, morning.at)
       && PricePublishes(afterNews, morning.available, morning.generated, morning.delivery) {
      PublishCounts(afterNews, morning.generated.value, true, None, morning.delivery, utcOffset);
    }
    if ShouldPostPrice(PriceHour(false), afterMorning.evening, evening.at)
       && PricePublishes(afterMorning, evening.available, evening.generated, evening.delivery) {
      PublishCounts(afterMorning, evening.generated.value, true, None, evening.delivery, utcOffset);
    }
  }

  /** A restart keeps what bot_state.json holds and nothing else: the
      counters start over and both price tracks are empty. */
  lemma RestartRestores(m: Memory, local: int)
    ensures PersistedOf(Booted(PersistedOf(m), local)) == PersistedOf(m)
    ensures Booted(PersistedOf(m), local).postsToday == 0
    ensures Booted(PersistedOf(m), local).morning.None? && Booted(PersistedOf(m), local).evening.None?
  {
  }

  /** So a restart inside a price window posts that price a second time the
      same day. */
  lemma PriceRepeatsAfterRestart(m: Memory, isMorning: bool, now: int, utcOffset: int)
    requires InPriceWindow(PriceHour(isMorning), now)
    ensures var b := Booted(PersistedOf(m), now + utcOffset);
      ShouldPostPrice(PriceHour(isMorning), if isMorning then b.morning else b.evening, now)
  {
  }

  /** `_is_duplicate` on a state value. */
  predicate IsDuplicateIn(m: Memory, content: string) {
    PostHash(content) in m.hashes
  }
}
