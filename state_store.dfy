/**
 * `bot_state.json`, written by `_save_state` and read by `_load_state` in
 * bot.py. The file is modelled by its decoded content: the JSON text
 * itself and the ISO date format are not modelled, a timestamp is one
 * integer (host-local seconds).
 */
module StateStore {
  import opened Wrappers

  /** The `last_post_time` entry: null or absent, an ISO timestamp, or a
      string `fromisoformat` rejects. */
  datatype Stamp = NoStamp | Iso(t: int) | Garbled

  /** The three keys of the file; the lists are in the file's order. */
  datatype Snapshot = Snapshot(lastPostTime: Stamp, hashes: seq<string>, newsIds: seq<int>)

  /** What `open` and `json.load` find: no file, a file that does not load,
      or a snapshot. */
  datatype StateFile = Missing | Unreadable | Present(snapshot: Snapshot)

  /** The part of the bot's state the file keeps. */
  datatype Persisted = Persisted(lastPostTime: Option<int>, hashes: set<string>, newsIds: set<int>)

  function Elements<T>(xs: seq<T>): set<T> {
    set x | x in xs
  }

  function StampValue(s: Stamp): Option<int> {
    match s
    case Iso(t) => Some(t)
    case NoStamp => None
    case Garbled => None
  }

  /** `_load_state`: the file's content, or nothing at all. */
  function LoadState(f: StateFile): (p: Persisted)
    ensures !f.Present? ==> p == Persisted(None, {}, {})
    ensures f.Present? ==> p.hashes == Elements(f.snapshot.hashes) && p.newsIds == Elements(f.snapshot.newsIds)
  {
    match f
    case Present(s) => Persisted(StampValue(s.lastPostTime), Elements(s.hashes), Elements(s.newsIds))
    case Missing => Persisted(None, {}, {})
    case Unreadable => Persisted(None, {}, {})
  }

  /** `list(s)`: the elements of a set, each once, in some order. */
  method SetToSeq<T(==)>(s: set<T>) returns (xs: seq<T>)
    ensures Elements(xs) == s
    ensures |xs| == |s|
  {
    xs := [];
    var rest := s;
    while rest != {}
      invariant Elements(xs) + rest == s
      invariant Elements(xs) !! rest
      invariant |xs| + |rest| == |s|
      decreases |rest|
    {
      var x :| x in rest;
      ghost var before := Elements(xs);
      xs := xs + [x];
      assert Elements(xs) == before + {x};
      rest := rest - {x};
    }
  }

  /** The state dictionary `_save_state` dumps. */
  method TakeSnapshot(p: Persisted) returns (snap: Snapshot)
    ensures LoadState(Present(snap)) == p
    ensures |snap.hashes| == |p.hashes| && |snap.newsIds| == |p.newsIds|
    ensures snap.lastPostTime == (if p.lastPostTime.Some? then Iso(p.lastPostTime.value) else NoStamp)
  {
    var hashes := SetToSeq(p.hashes);
    var ids := SetToSeq(p.newsIds);
    var stamp := if p.lastPostTime.Some? then Iso(p.lastPostTime.value) else NoStamp;
    snap := Snapshot(stamp, hashes, ids);
  }

  /** A file that does not load gives the same fresh start as no file. */
  lemma UnreadableIsFreshStart()
    ensures LoadState(Unreadable) == LoadState(Missing)
  {
  }

  /** Duplicates and the order of the lists do not matter on load. */
  lemma LoadIgnoresListOrder(s: Snapshot, hashes: seq<string>, ids: seq<int>)
    requires Elements(hashes) == Elements(s.hashes) && Elements(ids) == Elements(s.newsIds)
    ensures LoadState(Present(Snapshot(s.lastPostTime, hashes, ids))) == LoadState(Present(s))
  {
  }
}
