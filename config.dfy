/**
 * The configuration values the scheduler reads, and the two environment
 * parsers of config.py that have logic: the comma-separated list of users
 * allowed to run /genetat and the Telethon API id.
 *
 * An environment variable is an `Option<string>`: `None` when it is unset.
 */
module Config {
  import opened Wrappers
  import opened Text

  /** News-driven posts allowed per day; 999 stands for "no limit". */
  const PostsPerDay: int := 999
  /** MIN_HOURS_BETWEEN_POSTS = 0.5, kept as whole minutes. */
  const MinMinutesBetweenPosts: int := 30
  /** MAX_HOURS_BETWEEN_POSTS = 8; read into a local in `should_publish_now` and never used. */
  const MaxHoursBetweenPosts: int := 8
  /** Hours (Moscow time) of the two daily price posts. */
  const PriceMorningHour: int := 11
  const PriceEveningHour: int := 22
  /** Messages that `get_new_relevant_news` is asked to scan per check. */
  const NewsScanLimit: nat := 100

  /** Seconds in the minimum spacing between cycle posts. */
  function MinSecondsBetweenPosts(): (s: int)
    ensures s == 1800
  {
    MinMinutesBetweenPosts * 60
  }

  // ---------------------------------------------------------------- ALLOWED_GENETAT_USERS

  /** The comprehension filter: the stripped piece is non-empty and `isdigit`. */
  predicate KeepsPiece(piece: string) {
    Strip(piece) != [] && IsDigits(Strip(piece))
  }

  /** `[int(uid.strip()) for uid in pieces if uid.strip() and uid.strip().isdigit()]` */
  function KeptIds(pieces: seq<string>): (ids: seq<int>)
    ensures forall k :: 0 <= k < |ids| ==> ids[k] >= 0
    ensures |ids| <= |pieces|
  {
    if pieces == [] then []
    else
      (if KeepsPiece(pieces[0]) then [DigitsValue(Strip(pieces[0])) as int] else [])
      + KeptIds(pieces[1..])
  }

  /** ALLOWED_GENETAT_USERS from the environment value (default ""). */
  function AllowedUsers(env: Option<string>): (ids: seq<int>)
    ensures forall k :: 0 <= k < |ids| ==> ids[k] >= 0
    ensures |ids| <= |SplitOn(env.GetOr(""), ',')|
  {
    KeptIds(SplitOn(env.GetOr(""), ','))
  }

  /** `','.join(strs)` */
  function JoinComma(strs: seq<string>): string {
    if strs == [] then ""
    else if |strs| == 1 then strs[0]
    else strs[0] + "," + JoinComma(strs[1..])
  }

  function Decimals(ids: seq<nat>): (strs: seq<string>)
    ensures |strs| == |ids|
    ensures forall k :: 0 <= k < |ids| ==> strs[k] == NatToDecimal(ids[k])
  {
    if ids == [] then [] else [NatToDecimal(ids[0])] + Decimals(ids[1..])
  }

  /** An unset or empty variable allows nobody. */
  lemma AllowedUsersEmpty(env: Option<string>)
    requires env == None || env == Some("")
    ensures AllowedUsers(env) == []
  {
    assert SplitOn("", ',') == [""];
  }

  lemma {:induction false} KeptIdsAppend(p: seq<string>, q: seq<string>)
    ensures KeptIds(p + q) == KeptIds(p) + KeptIds(q)
  {
    if p != [] {
      assert (p + q)[1..] == p[1..] + q;
      KeptIdsAppend(p[1..], q);
    } else {
      assert p + q == q;
    }
  }

  lemma DecimalPieceKept(n: nat)
    ensures KeepsPiece(NatToDecimal(n))
    ensures DigitsValue(Strip(NatToDecimal(n))) == n
  {
    var s := NatToDecimal(n);
    StripNoPadding(s);
    DecimalRoundTrip(n);
  }

  lemma {:induction false} SplitJoinComma(ids: seq<nat>)
    requires ids != []
    ensures SplitOn(JoinComma(Decimals(ids)), ',') == Decimals(ids)
  {
    var strs := Decimals(ids);
    if |ids| == 1 {
      SplitOnFree(strs[0], ',');
    } else {
      assert strs[1..] == Decimals(ids[1..]);
      SplitOnAppend(strs[0], ',', JoinComma(strs[1..]));
      SplitOnFree(strs[0], ',');
      SplitJoinComma(ids[1..]);
    }
  }

  lemma {:induction false} KeptDecimals(ids: seq<nat>)
    ensures KeptIds(Decimals(ids)) == ids
  {
    if ids != [] {
      DecimalPieceKept(ids[0]);
      assert Decimals(ids)[1..] == Decimals(ids[1..]);
      KeptDecimals(ids[1..]);
    }
  }

  /** Writing ids as a comma list and parsing it back gives them all, in order,
      duplicates included. */
  lemma AllowedUsersRoundTrip(ids: seq<nat>)
    ensures AllowedUsers(Some(JoinComma(Decimals(ids)))) == ids
  {
    if ids == [] {
      AllowedUsersEmpty(Some(""));
    } else {
      SplitJoinComma(ids);
      KeptDecimals(ids);
    }
  }

  /** A piece that does not pass the filter contributes nothing, wherever it sits. */
  lemma DroppedPiece(pre: seq<string>, piece: string, post: seq<string>)
    requires !KeepsPiece(piece)
    ensures KeptIds(pre + [piece] + post) == KeptIds(pre) + KeptIds(post)
  {
    KeptIdsAppend(pre + [piece], post);
    KeptIdsAppend(pre, [piece]);
  }

  /** '-5', '12a' and ' ' all fail the filter. */
  lemma SignedAndMixedPiecesDropped()
    ensures !KeepsPiece("-5") && !KeepsPiece("12a") && !KeepsPiece(" ")
  {
    assert Strip("-5") == "-5" by { StripNoPadding("-5"); }
    assert Strip("12a") == "12a" by { StripNoPadding("12a"); }
    assert !IsDigit("12a"[2]);
    assert LeadingSpaces(" ") == 1;
  }

  // ---------------------------------------------------------------- TELEGRAM_API_ID

  /** Python `int(s)` on a base-10 literal: optional surrounding whitespace and
      sign, then ASCII digits. `None` stands for the ValueError it raises. */
  function ParseInt(s: string): (r: Option<int>)
    ensures Strip(s) == [] ==> r.None?
    ensures r.Some? && r.value < 0 ==> Strip(s)[0] == '-'
  {
    var t := Strip(s);
    if t != [] && (t[0] == '-' || t[0] == '+') then
      if IsDigits(t[1..]) then
        Some(if t[0] == '-' then -(DigitsValue(t[1..]) as int) else DigitsValue(t[1..]) as int)
      else None
    else if IsDigits(t) then Some(DigitsValue(t) as int)
    else None
  }

  /** `int(x) if x else 0`: `None` means the import of config fails. */
  function TelegramApiId(env: Option<string>): (id: Option<int>)
    ensures env == None || env == Some("") ==> id == Some(0)
  {
    if env == None || env == Some("") then Some(0) else ParseInt(env.value)
  }

  /** Every integer written with `str` is read back by TELEGRAM_API_ID. */
  lemma ApiIdRoundTrip(i: int)
    ensures TelegramApiId(Some(IntToDecimal(i))) == Some(i)
  {
    var s := IntToDecimal(i);
    var d := NatToDecimal(if i < 0 then -i else i);
    assert IsDigits(d);
    assert !IsSpace(d[|d| - 1]) by { assert IsDigit(d[|d| - 1]); }
    DecimalRoundTrip(if i < 0 then -i else i);
    if i < 0 {
      assert s == "-" + d;
      assert Strip(s) == s by { StripNoPadding(s); }
      assert s[1..] == d;
      assert ParseInt(s) == Some(i);
    } else {
      assert s == d;
      assert Strip(s) == s by { assert !IsSpace(d[0]) by { assert IsDigit(d[0]); } StripNoPadding(s); }
      assert s[0] != '-' && s[0] != '+' by { assert IsDigit(d[0]); }
      assert ParseInt(s) == Some(i);
    }
  }

  // ---------------------------------------------------------------- scheduling constants

  /** The two price hours are distinct valid hours of the day. */
  lemma PriceHoursDistinct()
    ensures 0 <= PriceMorningHour < 24 && 0 <= PriceEveningHour < 24
    ensures PriceMorningHour != PriceEveningHour
  {
  }
}
