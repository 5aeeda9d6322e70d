/**
 * News ingestion (`NewsParser` in bot.py): one scan of the news channel's
 * latest messages, keeping the fresh, relevant, non-service ones and
 * recording their ids in memory and in the append-only file
 * processed_ids.txt, which is read back at start-up.
 *
 * The Telegram client is not modelled: one scan sees the messages the
 * client delivered (newest first, at most `limit` of them) and how the
 * iteration ended.
 */
module Ingestion {
  import opened Wrappers
  import opened Text
  import Relevance

  /** A channel message: Telethon's `message.id`, `message.text`
      ("" when it has none) and `message.date`. */
  datatype Message = Message(id: int, text: string, date: int)

  /** The dict `{'id', 'text', 'date'}` handed to the scheduler; `text` is stripped. */
  datatype NewsItem = NewsItem(id: int, text: string, date: int)

  /** How `iter_messages` ended: normally, with a FloodWaitError, or with another error. */
  datatype FetchEnd = Completed | FloodWait(seconds: nat) | Failed

  /** What one iteration delivered before it ended. */
  datatype Fetch = Fetch(messages: seq<Message>, end: FetchEnd)

  // ---------------------------------------------------------------- the per-message filter

  /** A download banner, or a bare link shorter than 100 characters. */
  function IsServiceMessage(text: string): (service: bool)
    ensures |text| >= 100 && !StartsWith(text, "Download") ==> !service
  {
    StartsWith(text, "Download")
    || (StartsWith(text, "http://") && |text| < 100)
    || (StartsWith(text, "https://") && |text| < 100)
  }

  /** The content test a message must pass, whatever its id, under the
      keyword table `tab` (the parser's is `Relevance.Table()`). */
  function Worthy(tab: Relevance.KeywordTable, text: string): (worthy: bool)
    ensures worthy ==> Strip(text) != [] && !StartsWith(Strip(text), "Download")
  {
    var t := Strip(text);
    t != [] && !IsServiceMessage(t) && Relevance.RelevantBy(tab, t)
  }

  function ItemOf(m: Message): NewsItem {
    NewsItem(m.id, Strip(m.text), m.date)
  }

  function IdsOf(items: seq<NewsItem>): (ids: set<int>)
    ensures forall n :: n in items ==> n.id in ids
  {
    if items == [] then {} else IdsOf(items[..|items| - 1]) + {items[|items| - 1].id}
  }

  lemma {:induction false} IdsOfWitness(items: seq<NewsItem>, i: int)
    requires i in IdsOf(items)
    ensures exists n :: n in items && n.id == i
  {
    var init := items[..|items| - 1];
    if i != items[|items| - 1].id {
      IdsOfWitness(init, i);
      var n :| n in init && n.id == i;
      assert n in items;
    }
  }

  /** The items one scan of `msgs` yields when `seen` ids were processed before:
      a message is taken when it is worthy and its id is neither in `seen` nor
      taken earlier in the same scan. */
  function Scan(tab: Relevance.KeywordTable, msgs: seq<Message>, seen: set<int>): (found: seq<NewsItem>)
    ensures |found| <= |msgs|
  {
    if msgs == [] then []
    else
      var earlier := Scan(tab, msgs[..|msgs| - 1], seen);
      var m := msgs[|msgs| - 1];
      if m.id !in seen + IdsOf(earlier) && Worthy(tab, m.text) then earlier + [ItemOf(m)] else earlier
  }

  /** The messages the client yields for `limit`. */
  function Take(msgs: seq<Message>, limit: nat): seq<Message> {
    if |msgs| <= limit then msgs else msgs[..limit]
  }

  // ---------------------------------------------------------------- processed_ids.txt

  /** The line `f"{message_id}\n"` that `_save_processed_id` appends. */
  function IdLine(id: int): string {
    IntToDecimal(id) + "\n"
  }

  /** The file text after appending the lines for `items`, in order. */
  function RenderIds(items: seq<NewsItem>): string {
    if items == [] then "" else IdLine(items[0].id) + RenderIds(items[1..])
  }

  /** `{int(line.strip()) for line in lines if line.strip().isdigit()}` */
  function LineIds(lines: seq<string>): (ids: set<int>)
    ensures forall i :: i in ids ==> i >= 0
  {
    if lines == [] then {}
    else
      (if IsDigits(Strip(lines[0])) then {DigitsValue(Strip(lines[0])) as int} else {})
      + LineIds(lines[1..])
  }

  /** The ids that a file with text `content` holds. */
  function LoadedIds(content: string): (ids: set<int>)
  {
    LineIds(SplitOn(content, '\n'))
  }

  /** `_load_processed_ids`: `None` stands for a file that is missing or that
      fails to open or read, and gives the empty set. The ids are non-negative,
      since only lines that pass `isdigit` are read. */
  function LoadProcessedIds(file: Option<string>): (ids: set<int>)
    ensures file.None? ==> ids == {}
    ensures forall i :: i in ids ==> i >= 0
  {
    match file
    case None => {}
    case Some(content) => LoadedIds(content)
  }

  /** The ids a line written for `id` reads back as: the id itself unless it is
      negative, since `'-5'.isdigit()` is false. */
  function ReadBack(id: int): set<int> {
    if id >= 0 then {id} else {}
  }

  /** The ids that the lines written for `items` read back as. */
  function ReadBackAll(items: seq<NewsItem>): set<int> {
    if items == [] then {} else ReadBack(items[0].id) + ReadBackAll(items[1..])
  }

  /** The news `get_new_relevant_news` returns: what the scan takes, unless
      the client is not ready or the iteration ends in an error. */
  function Returned(tab: Relevance.KeywordTable, before: set<int>, ready: bool, fetch: Fetch, limit: nat)
    : seq<NewsItem>
  {
    if ready && fetch.end == Completed then Scan(tab, Take(fetch.messages, limit), before) else []
  }

  // ---------------------------------------------------------------- the parser object

  class NewsParser {
    /** processed_message_ids */
    var processed: set<int>
    /** The text of processed_ids.txt ("" while it does not exist). */
    var idsFile: string
    /** False when appending to processed_ids.txt raises; the error is only logged. */
    const diskWritable: bool
    /** The keyword lists `is_relevant_news` consults. */
    const keywords: Relevance.KeywordTable

    /** `NewsParser.__init__`: the processed ids come from the file. */
    constructor(file: Option<string>, diskWritable: bool)
      ensures keywords == Relevance.Table()
      ensures processed == LoadProcessedIds(file)
      ensures idsFile == file.GetOr("")
      ensures this.diskWritable == diskWritable
    {
      processed := LoadProcessedIds(file);
      idsFile := file.GetOr("");
      this.diskWritable := diskWritable;
      keywords := Relevance.Table();
    }

    /** `_save_processed_id` */
    method SaveProcessedId(id: int)
      modifies this
      ensures processed == old(processed)
      ensures idsFile == if diskWritable then old(idsFile) + IdLine(id) else old(idsFile)
    {
      if diskWritable {
        idsFile := idsFile + IdLine(id);
      }
    }

    /** One iteration of the message loop of `get_new_relevant_news`: the
        message is taken, recorded and saved exactly when its id is new and
        its text is worthy. */
    method ConsiderMessage(m: Message) returns (taken: bool)
      modifies this
      ensures taken == (m.id !in old(processed) && Worthy(keywords, m.text))
      ensures processed == if taken then old(processed) + {m.id} else old(processed)
      ensures idsFile == if taken && diskWritable then old(idsFile) + IdLine(m.id) else old(idsFile)
    {
      if m.id in processed {
        return false;
      }
      var text := Strip(m.text);
      if text == [] {
        return false;
      }
      if StartsWith(text, "Download")
        || (StartsWith(text, "http://") && |text| < 100)
        || (StartsWith(text, "https://") && |text| < 100)
      {
        return false;
      }
      taken := Relevance.Classify(keywords, text);
      if taken {
        processed := processed + {m.id};
        SaveProcessedId(m.id);
      }
    }

    /** The message loop of `get_new_relevant_news` over what the client yielded. */
    method ScanMessages(msgs: seq<Message>) returns (found: seq<NewsItem>)
      modifies this
      ensures found == Scan(keywords, msgs, old(processed))
      ensures processed == old(processed) + IdsOf(found)
      ensures diskWritable ==> idsFile == old(idsFile) + RenderIds(found)
      ensures !diskWritable ==> idsFile == old(idsFile)
    {
      found := [];
      for i := 0 to |msgs|
        invariant found == Scan(keywords, msgs[..i], old(processed))
        invariant processed == old(processed) + IdsOf(found)
        invariant diskWritable ==> idsFile == old(idsFile) + RenderIds(found)
        invariant !diskWritable ==> idsFile == old(idsFile)
      {
        var m := msgs[i];
        ghost var before := processed;
        var taken := ConsiderMessage(m);
        ScanAdvance(keywords, msgs, i, old(processed), found, before, taken);
        if taken {
          AppendRendered(old(idsFile), found, ItemOf(m));
          IdsSnoc(found, ItemOf(m));
          found := found + [ItemOf(m)];
        }
      }
      assert msgs[..|msgs|] == msgs;
    }

    /** The processed ids and their file after a `get_new_relevant_news`
        that started from `before` and `file`. */
    predicate Fetched(before: set<int>, file: string, ready: bool, fetch: Fetch, limit: nat)
      reads this
    {
      var taken := Scan(keywords, Take(fetch.messages, limit), before);
      && processed == (if ready then before + IdsOf(taken) else before)
      && idsFile == (if ready && diskWritable then file + RenderIds(taken) else file)
    }

    /**
     * `get_new_relevant_news`. `ready` says whether the client is (or can be)
     * initialised. Every message taken is recorded as processed at once, so
     * a FloodWait or another error later in the iteration keeps those
     * records but returns no news. `waited` is the FloodWait sleep.
     */
    method GetNewRelevantNews(ready: bool, fetch: Fetch, limit: nat)
      returns (news: seq<NewsItem>, waited: nat)
      modifies this
      ensures Fetched(old(processed), old(idsFile), ready, fetch, limit)
      ensures news == Returned(keywords, old(processed), ready, fetch, limit)
      ensures waited == (if ready && fetch.end.FloodWait? then fetch.end.seconds else 0)
    {
      if !ready {
        return [], 0;
      }
      var found := ScanMessages(Take(fetch.messages, limit));
      news, waited := [], 0;
      match fetch.end
      case Completed =>
        news := found;
      case FloodWait(seconds) =>
        waited := seconds;
      case Failed =>
    }
  }

  lemma AppendAssoc(a: string, b: string, c: string)
    ensures (a + b) + c == a + (b + c)
  {
  }

  /** One more message extends the scan by at most that message. */
  lemma ScanStep(tab: Relevance.KeywordTable, msgs: seq<Message>, i: nat, seen: set<int>)
    requires i < |msgs|
    ensures var earlier := Scan(tab, msgs[..i], seen);
      Scan(tab, msgs[..i + 1], seen)
      == if msgs[i].id !in seen + IdsOf(earlier) && Worthy(tab, msgs[i].text)
         then earlier + [ItemOf(msgs[i])] else earlier
  {
    assert msgs[..i + 1][..i] == msgs[..i];
  }

  /** The step of the scan in terms of the decision of `ConsiderMessage`. */
  lemma ScanAdvance(tab: Relevance.KeywordTable, msgs: seq<Message>, i: nat, seen: set<int>,
                    found: seq<NewsItem>, processed: set<int>, taken: bool)
    requires i < |msgs| && found == Scan(tab, msgs[..i], seen) && processed == seen + IdsOf(found)
    requires taken == (msgs[i].id !in processed && Worthy(tab, msgs[i].text))
    ensures Scan(tab, msgs[..i + 1], seen) == if taken then found + [ItemOf(msgs[i])] else found
  {
    ScanStep(tab, msgs, i, seen);
  }

  lemma IdsSnoc(items: seq<NewsItem>, n: NewsItem)
    ensures IdsOf(items + [n]) == IdsOf(items) + {n.id}
  {
    assert (items + [n])[..|items|] == items;
  }

  /** Appending one more line to a file that holds the lines of `items`. */
  lemma AppendRendered(start: string, items: seq<NewsItem>, n: NewsItem)
    ensures start + RenderIds(items) + IdLine(n.id) == start + RenderIds(items + [n])
  {
    RenderSnoc(items, n);
    AppendAssoc(start, RenderIds(items), IdLine(n.id));
  }

  // ---------------------------------------------------------------- properties of a scan

  /** Every item comes from a worthy message with an id not processed before. */
  lemma {:induction false} ScanSound(tab: Relevance.KeywordTable, msgs: seq<Message>, seen: set<int>)
    ensures forall n :: n in Scan(tab, msgs, seen) ==>
      n.id !in seen && exists m :: m in msgs && n == ItemOf(m) && Worthy(tab, m.text)
  {
    if msgs != [] {
      var init := msgs[..|msgs| - 1];
      ScanSound(tab, init, seen);
      forall m | m in init
        ensures m in msgs
      {
      }
    }
  }

  /** No id occurs twice among `items`. */
  predicate DistinctIds(items: seq<NewsItem>) {
    forall i, j :: 0 <= i < j < |items| ==> items[i].id != items[j].id
  }

  lemma DistinctIdsSnoc(items: seq<NewsItem>, n: NewsItem)
    requires DistinctIds(items) && n.id !in IdsOf(items)
    ensures DistinctIds(items + [n])
  {
    var s := items + [n];
    forall i, j | 0 <= i < j < |s|
      ensures s[i].id != s[j].id
    {
      if j == |items| {
        assert s[i] == items[i] && items[i] in items;
      } else {
        assert s[i] == items[i] && s[j] == items[j];
      }
    }
  }

  /** No id is taken twice within one scan. */
  lemma {:induction false} ScanDistinct(tab: Relevance.KeywordTable, msgs: seq<Message>, seen: set<int>)
    ensures DistinctIds(Scan(tab, msgs, seen))
  {
    if msgs != [] {
      var init := msgs[..|msgs| - 1];
      var earlier := Scan(tab, init, seen);
      ScanDistinct(tab, init, seen);
      var m := msgs[|msgs| - 1];
      if m.id !in seen + IdsOf(earlier) && Worthy(tab, m.text) {
        DistinctIdsSnoc(earlier, ItemOf(m));
      }
    }
  }

  /** One more message keeps every id taken so far. */
  lemma {:induction false} ScanGrows(tab: Relevance.KeywordTable, msgs: seq<Message>, seen: set<int>)
    requires msgs != []
    ensures IdsOf(Scan(tab, msgs[..|msgs| - 1], seen)) <= IdsOf(Scan(tab, msgs, seen))
  {
    var earlier := Scan(tab, msgs[..|msgs| - 1], seen);
    var s := Scan(tab, msgs, seen);
    if s != earlier {
      assert s[..|s| - 1] == earlier;
    }
  }

  /** A fresh worthy last message has its id taken, if no earlier one had it. */
  lemma {:induction false} ScanTakesLast(tab: Relevance.KeywordTable, msgs: seq<Message>, seen: set<int>)
    requires msgs != [] && msgs[|msgs| - 1].id !in seen && Worthy(tab, msgs[|msgs| - 1].text)
    ensures msgs[|msgs| - 1].id in IdsOf(Scan(tab, msgs, seen))
  {
    var earlier := Scan(tab, msgs[..|msgs| - 1], seen);
    var m := msgs[|msgs| - 1];
    if m.id !in IdsOf(earlier) {
      assert Scan(tab, msgs, seen) == earlier + [ItemOf(m)];
      assert ItemOf(m) in Scan(tab, msgs, seen);
    } else {
      ScanGrows(tab, msgs, seen);
    }
  }

  /** No fresh worthy message is missed: its id is among the ids taken. */
  lemma {:induction false} ScanComplete(tab: Relevance.KeywordTable, msgs: seq<Message>, seen: set<int>, m: Message)
    requires m in msgs && m.id !in seen && Worthy(tab, m.text)
    ensures m.id in IdsOf(Scan(tab, msgs, seen))
  {
    var init := msgs[..|msgs| - 1];
    if m in init {
      ScanComplete(tab, init, seen, m);
      ScanGrows(tab, msgs, seen);
    } else {
      assert m == msgs[|msgs| - 1] by {
        assert msgs == init + [msgs[|msgs| - 1]];
      }
      ScanTakesLast(tab, msgs, seen);
    }
  }

  lemma {:induction false} IdsOfAppend(a: seq<NewsItem>, b: seq<NewsItem>)
    ensures IdsOf(a + b) == IdsOf(a) + IdsOf(b)
  {
    if b == [] {
      assert a + b == a;
    } else {
      var init := b[..|b| - 1];
      IdsOfAppend(a, init);
      assert (a + b)[..|a + b| - 1] == a + init;
    }
  }

  /** Scanning the same messages again, with the ids the first scan recorded,
      yields nothing: a news item is published at most once. */
  lemma ScanAgainFindsNothing(tab: Relevance.KeywordTable, msgs: seq<Message>, seen: set<int>)
    ensures Scan(tab, msgs, seen + IdsOf(Scan(tab, msgs, seen))) == []
  {
    var seen2 := seen + IdsOf(Scan(tab, msgs, seen));
    var s := Scan(tab, msgs, seen2);
    ScanSound(tab, msgs, seen2);
    if s != [] {
      var n := s[0];
      assert n in s;
      var m :| m in msgs && n == ItemOf(m) && Worthy(tab, m.text);
      ScanComplete(tab, msgs, seen, m);
      assert false;
    }
  }

  // ---------------------------------------------------------------- properties of the file

  lemma LoadedIdsSplit(a: string, b: string)
    ensures LoadedIds(a + "\n" + b) == LoadedIds(a) + LoadedIds(b)
  {
    SplitOnAppend(a, '\n', b);
    LineIdsAppend(SplitOn(a, '\n'), SplitOn(b, '\n'));
  }

  lemma {:induction false} LineIdsAppend(p: seq<string>, q: seq<string>)
    ensures LineIds(p + q) == LineIds(p) + LineIds(q)
  {
    if p != [] {
      assert (p + q)[1..] == p[1..] + q;
      LineIdsAppend(p[1..], q);
    } else {
      assert p + q == q;
    }
  }

  lemma LoadedIdsEmpty()
    ensures LoadedIds("") == {}
  {
    assert SplitOn("", '\n') == [""];
    assert Strip("") == "";
  }

  /** The line of an id reads back as that id, or as nothing for a negative id. */
  lemma LoadedIdOf(id: int)
    ensures LoadedIds(IntToDecimal(id)) == ReadBack(id)
  {
    var s := IntToDecimal(id);
    assert forall i :: 0 <= i < |s| ==> s[i] != '\n';
    SplitOnFree(s, '\n');
    StripNoPadding(s);
    assert [s][1..] == [];
    if id >= 0 {
      assert s == NatToDecimal(id);
      DecimalRoundTrip(id);
      assert LineIds([s]) == {id} + LineIds([]);
    } else {
      assert s == "-" + NatToDecimal(-id);
      assert !IsDigit(s[0]);
      assert !IsDigits(Strip(s));
      assert LineIds([s]) == {} + LineIds([]);
    }
  }

  /** Appending one line to a file that ends a line adds that line's id. */
  lemma AppendIdLine(content: string, id: int)
    requires content == [] || content[|content| - 1] == '\n'
    ensures LoadedIds(content + IdLine(id)) == LoadedIds(content) + LoadedIds(IntToDecimal(id))
  {
    var d := IntToDecimal(id);
    var line := IdLine(id);
    if content != [] {
      var o := content[..|content| - 1];
      assert content == o + "\n" + "";
      assert content + line == o + "\n" + line;
      assert line == d + "\n" + "";
      LoadedIdsSplit(o, "");
      LoadedIdsSplit(o, line);
      LoadedIdsSplit(d, "");
      LoadedIdsEmpty();
    } else {
      assert content + line == d + "\n" + "";
      LoadedIdsSplit(d, "");
      LoadedIdsEmpty();
      assert LoadedIds(content) == {};
    }
  }

  lemma {:induction false} RenderSnoc(items: seq<NewsItem>, n: NewsItem)
    ensures RenderIds(items + [n]) == RenderIds(items) + IdLine(n.id)
  {
    if items == [] {
      assert RenderIds([n]) == IdLine(n.id) + RenderIds([]);
    } else {
      assert (items + [n])[1..] == items[1..] + [n];
      RenderSnoc(items[1..], n);
    }
  }

  /** After a scan has appended its ids, reloading the file gives the ids it
      held before and the (non-negative) ids just taken. */
  lemma {:induction false} ReloadAfterAppend(content: string, items: seq<NewsItem>)
    requires content == [] || content[|content| - 1] == '\n'
    ensures LoadedIds(content + RenderIds(items)) == LoadedIds(content) + ReadBackAll(items)
  {
    var r := RenderIds(items);
    RenderedIds(items);
    if content == [] {
      assert content + r == r;
      LoadedIdsEmpty();
    } else {
      var o := content[..|content| - 1];
      assert content == o + "\n" by {
        assert content == content[..|content| - 1] + [content[|content| - 1]];
      }
      assert LoadedIds(content) == LoadedIds(o) by {
        assert o + "\n" + "" == o + "\n";
        LoadedIdsSplit(o, "");
        LoadedIdsEmpty();
      }
      LoadedIdsSplit(o, r);
    }
  }

  /** The lines written for `items` read back as their non-negative ids. */
  lemma {:induction false} RenderedIds(items: seq<NewsItem>)
    ensures LoadedIds(RenderIds(items)) == ReadBackAll(items)
    decreases |items|
  {
    if items == [] {
      LoadedIdsEmpty();
    } else {
      var d := IntToDecimal(items[0].id);
      assert RenderIds(items) == d + "\n" + RenderIds(items[1..]);
      LoadedIdsSplit(d, RenderIds(items[1..]));
      LoadedIdOf(items[0].id);
      RenderedIds(items[1..]);
    }
  }
}
