/**
 * Character and string helpers standing in for the Python string methods
 * the bot relies on: `lower`, `strip`, `split()`, `' '.join`, `split(sep)`,
 * `startswith`, `in` (substring), `replace`, `isdigit` and `int`/`str` on
 * decimal numerals.
 *
 * Lower-casing covers only A-Z, А-Я and Ё (not І, Ї, Є, Ў or any other
 * letter outside those ranges), whitespace is only the six ASCII characters
 * space, \t, \n, \r, \v and \f, and digits are only 0-9. Python's Unicode
 * tables are wider on all three counts.
 */
module Text {

  // ---------------------------------------------------------------- characters

  /** `str.isspace` restricted to the six ASCII whitespace characters. */
  predicate IsSpace(c: char) {
    c == ' ' || c == '\t' || c == '\n' || c == '\r' || c == '\U{000B}' || c == '\U{000C}'
  }

  /** `str.lower` on one character, for A-Z, А-Я and Ё only; every other
      character is left as it is. */
  function Lower(c: char): (l: char)
    ensures IsSpace(l) <==> IsSpace(c)
  {
    if 'A' <= c <= 'Z' then (c as int + 32) as char
    else if 'А' <= c <= 'Я' then (c as int + 32) as char
    else if c == 'Ё' then 'ё'
    else c
  }

  lemma LowerIdempotent(c: char)
    ensures Lower(Lower(c)) == Lower(c)
  {
  }

  function LowerStr(s: string): (r: string)
    ensures |r| == |s|
    ensures forall i :: 0 <= i < |s| ==> r[i] == Lower(s[i])
  {
    seq(|s|, i requires 0 <= i < |s| => Lower(s[i]))
  }

  /** Every character of `s` is already lower case. */
  ghost predicate IsLowered(s: string) {
    forall i :: 0 <= i < |s| ==> Lower(s[i]) == s[i]
  }

  lemma LowerStrOfLowered(s: string)
    requires IsLowered(s)
    ensures LowerStr(s) == s
  {
  }

  lemma LowerStrLowered(s: string)
    ensures IsLowered(LowerStr(s))
  {
    forall i | 0 <= i < |s| ensures Lower(LowerStr(s)[i]) == LowerStr(s)[i] {
      LowerIdempotent(s[i]);
    }
  }

  lemma LowerStrIdempotent(s: string)
    ensures LowerStr(LowerStr(s)) == LowerStr(s)
  {
    LowerStrLowered(s);
    LowerStrOfLowered(LowerStr(s));
  }

  // ---------------------------------------------------------------- strip

  function LeadingSpaces(s: string): (n: nat)
    ensures n <= |s|
    ensures forall j :: 0 <= j < n ==> IsSpace(s[j])
    ensures n < |s| ==> !IsSpace(s[n])
  {
    if s != [] && IsSpace(s[0]) then 1 + LeadingSpaces(s[1..]) else 0
  }

  function TrailingSpaces(s: string): (n: nat)
    ensures n <= |s|
    ensures forall j :: |s| - n <= j < |s| ==> IsSpace(s[j])
    ensures n < |s| ==> !IsSpace(s[|s| - 1 - n])
  {
    if s != [] && IsSpace(s[|s| - 1]) then 1 + TrailingSpaces(s[..|s| - 1]) else 0
  }

  /** `str.strip()`: drop leading and trailing whitespace. */
  function Strip(s: string): (r: string)
    ensures r == [] || (!IsSpace(r[0]) && !IsSpace(r[|r| - 1]))
    ensures |r| <= |s|
  {
    var t := s[LeadingSpaces(s)..];
    t[..|t| - TrailingSpaces(t)]
  }

  lemma StripNoPadding(s: string)
    requires s != [] && !IsSpace(s[0]) && !IsSpace(s[|s| - 1])
    ensures Strip(s) == s
  {
    assert LeadingSpaces(s) == 0;
    assert s[0..] == s;
    assert TrailingSpaces(s) == 0;
  }

  lemma {:induction false} LeadingSpacesLower(s: string)
    ensures LeadingSpaces(LowerStr(s)) == LeadingSpaces(s)
  {
    if s != [] && IsSpace(s[0]) {
      assert LowerStr(s)[1..] == LowerStr(s[1..]);
      LeadingSpacesLower(s[1..]);
    }
  }

  lemma {:induction false} TrailingSpacesLower(s: string)
    ensures TrailingSpaces(LowerStr(s)) == TrailingSpaces(s)
  {
    if s != [] && IsSpace(s[|s| - 1]) {
      assert LowerStr(s)[..|s| - 1] == LowerStr(s[..|s| - 1]);
      TrailingSpacesLower(s[..|s| - 1]);
    }
  }

  lemma LowerStrSlice(s: string, i: nat, j: nat)
    requires i <= j <= |s|
    ensures LowerStr(s)[i..j] == LowerStr(s[i..j])
  {
  }

  /** Lower-casing and stripping commute, since lower-casing keeps whitespace. */
  lemma {:induction false} StripLowerCommute(s: string)
    ensures Strip(LowerStr(s)) == LowerStr(Strip(s))
  {
    var a := LeadingSpaces(s);
    var t := s[a..];
    var b := |t| - TrailingSpaces(t);
    assert Strip(s) == t[..b];
    assert LeadingSpaces(LowerStr(s)) == a by {
      LeadingSpacesLower(s);
    }
    assert LowerStr(s)[a..] == LowerStr(t) by {
      LowerStrSlice(s, a, |s|);
      assert LowerStr(s)[a..] == LowerStr(s)[a..|s|] && t == s[a..|s|];
    }
    assert TrailingSpaces(LowerStr(t)) == |t| - b by {
      TrailingSpacesLower(t);
    }
    assert Strip(LowerStr(s)) == LowerStr(t)[..b];
    assert LowerStr(t)[..b] == LowerStr(t[..b]) by {
      LowerStrSlice(t, 0, b);
      assert LowerStr(t)[..b] == LowerStr(t)[0..b] && t[..b] == t[0..b];
    }
  }

  // ---------------------------------------------------------------- split / join

  /** A word of `str.split()`: non-empty and free of whitespace. */
  ghost predicate IsWord(w: string) {
    w != [] && forall i :: 0 <= i < |w| ==> !IsSpace(w[i])
  }

  function WordLen(s: string): (n: nat)
    ensures n <= |s|
    ensures forall j :: 0 <= j < n ==> !IsSpace(s[j])
    ensures n < |s| ==> IsSpace(s[n])
  {
    if s == [] || IsSpace(s[0]) then 0 else 1 + WordLen(s[1..])
  }

  /** `str.split()` with no argument: the maximal runs of non-whitespace. */
  function Split(s: string): (words: seq<string>)
    ensures forall k :: 0 <= k < |words| ==> IsWord(words[k])
    ensures IsLowered(s) ==> forall k :: 0 <= k < |words| ==> IsLowered(words[k])
    decreases |s|
  {
    if s == [] then []
    else if IsSpace(s[0]) then Split(s[1..])
    else
      var n := WordLen(s);
      [s[..n]] + Split(s[n..])
  }

  /** `' '.join(words)`. */
  function Join(words: seq<string>): (r: string)
    ensures (forall k :: 0 <= k < |words| ==> IsLowered(words[k])) ==> IsLowered(r)
  {
    if words == [] then ""
    else if |words| == 1 then words[0]
    else words[0] + " " + Join(words[1..])
  }

  ghost predicate AllSpace(w: string) {
    forall i :: 0 <= i < |w| ==> IsSpace(w[i])
  }

  lemma {:induction false} WordLenAppend(x: string, z: string)
    requires WordLen(x) < |x| || (z != [] && IsSpace(z[0]))
    ensures WordLen(x + z) == WordLen(x)
  {
    if x != [] && !IsSpace(x[0]) {
      assert (x + z)[1..] == x[1..] + z;
      WordLenAppend(x[1..], z);
    }
  }

  /** A whitespace character separates words: nothing joins across it. */
  lemma {:induction false} SplitAtSpace(x: string, c: char, y: string)
    requires IsSpace(c)
    ensures Split(x + [c] + y) == Split(x) + Split(y)
    decreases |x|
  {
    var s := x + [c] + y;
    if x == [] {
      assert s[1..] == y;
    } else if IsSpace(x[0]) {
      assert s[1..] == x[1..] + [c] + y;
      SplitAtSpace(x[1..], c, y);
    } else {
      var m := WordLen(x);
      assert WordLen(s) == m by {
        WordLenAppend(x, [c] + y);
        assert s == x + ([c] + y);
      }
      assert s[..m] == x[..m];
      assert s[m..] == x[m..] + [c] + y;
      SplitAtSpace(x[m..], c, y);
      ConsAppend(Split(s), x[..m], Split(s[m..]), Split(x[m..]), Split(y), Split(x));
    }
  }

  /** A non-empty whitespace run `w` separates words the same way one space does. */
  lemma {:induction false} SplitAtSpaceRun(x: string, w: string, y: string)
    requires w != [] && AllSpace(w)
    ensures Split(x + w + y) == Split(x) + Split(y)
    decreases |w|
  {
    assert x + w + y == x + [w[0]] + (w[1..] + y);
    SplitAtSpace(x, w[0], w[1..] + y);
    if |w| > 1 {
      assert [] + w[1..] + y == w[1..] + y;
      SplitAtSpaceRun([], w[1..], y);
    } else {
      assert w[1..] + y == y;
    }
  }

  lemma {:induction false} SplitPadding(w: string, s: string)
    requires AllSpace(w)
    ensures Split(w + s) == Split(s)
    ensures Split(s + w) == Split(s)
  {
    if w != [] {
      assert w + s == [] + w + s;
      SplitAtSpaceRun([], w, s);
      assert s + w == s + w + [];
      SplitAtSpaceRun(s, w, []);
    } else {
      assert w + s == s;
      assert s + w == s;
    }
  }

  lemma {:induction false} SplitDropLead(s: string, a: nat)
    requires a <= |s| && forall j :: 0 <= j < a ==> IsSpace(s[j])
    ensures Split(s[a..]) == Split(s)
  {
    var lead := s[..a];
    assert AllSpace(lead) by {
      forall i | 0 <= i < |lead| ensures IsSpace(lead[i]) {
        assert lead[i] == s[i];
      }
    }
    assert s == lead + s[a..];
    SplitPadding(lead, s[a..]);
  }

  lemma {:induction false} SplitDropTrail(t: string, b: nat)
    requires b <= |t| && forall j :: b <= j < |t| ==> IsSpace(t[j])
    ensures Split(t[..b]) == Split(t)
  {
    var trail := t[b..];
    assert AllSpace(trail) by {
      forall i | 0 <= i < |trail| ensures IsSpace(trail[i]) {
        assert trail[i] == t[b + i];
      }
    }
    assert t == t[..b] + trail;
    SplitPadding(trail, t[..b]);
  }

  lemma {:induction false} SplitStrip(s: string)
    ensures Split(Strip(s)) == Split(s)
  {
    var t := s[LeadingSpaces(s)..];
    SplitDropLead(s, LeadingSpaces(s));
    SplitDropTrail(t, |t| - TrailingSpaces(t));
  }

  lemma SplitOfWord(w: string)
    requires IsWord(w)
    ensures Split(w) == [w]
  {
    assert WordLen(w) == |w|;
    assert w[..|w|] == w;
    assert w[|w|..] == [];
  }

  lemma {:induction false} SplitJoin(words: seq<string>)
    requires forall k :: 0 <= k < |words| ==> IsWord(words[k])
    ensures Split(Join(words)) == words
  {
    if |words| == 1 {
      SplitOfWord(words[0]);
    } else if |words| > 1 {
      SplitAtSpace(words[0], ' ', Join(words[1..]));
      SplitOfWord(words[0]);
      SplitJoin(words[1..]);
    }
  }

  // ---------------------------------------------------------------- normalisation

  /** `' '.join(content.strip().lower().split())`, the duplicate-guard key. */
  function Normalize(s: string): string {
    Join(Split(LowerStr(Strip(s))))
  }

  /** The strip step is redundant: `split()` already drops outer whitespace. */
  lemma NormalizeWithoutStrip(s: string)
    ensures Normalize(s) == Join(Split(LowerStr(s)))
  {
    StripLowerCommute(s);
    SplitStrip(LowerStr(s));
  }

  lemma NormalizeIdempotent(s: string)
    ensures Normalize(Normalize(s)) == Normalize(s)
  {
    var words := Split(LowerStr(Strip(s)));
    var n := Join(words);
    LowerStrLowered(Strip(s));
    assert IsLowered(n);
    LowerStrOfLowered(n);
    NormalizeWithoutStrip(n);
    SplitJoin(words);
  }

  /** Texts that agree after lower-casing normalise alike. */
  lemma NormalizeIgnoresCase(a: string, b: string)
    requires LowerStr(a) == LowerStr(b)
    ensures Normalize(a) == Normalize(b)
  {
    NormalizeWithoutStrip(a);
    NormalizeWithoutStrip(b);
  }

  lemma LowerStrConcat(a: string, b: string)
    ensures LowerStr(a + b) == LowerStr(a) + LowerStr(b)
  {
  }

  /** Any non-empty whitespace run may replace any other. */
  lemma NormalizeIgnoresSpacing(x: string, w1: string, w2: string, y: string)
    requires w1 != [] && AllSpace(w1) && w2 != [] && AllSpace(w2)
    ensures Normalize(x + w1 + y) == Normalize(x + w2 + y)
  {
    NormalizeWithoutStrip(x + w1 + y);
    NormalizeWithoutStrip(x + w2 + y);
    LowerStrConcat(x + w1, y);
    LowerStrConcat(x, w1);
    LowerStrConcat(x + w2, y);
    LowerStrConcat(x, w2);
    SplitAtSpaceRun(LowerStr(x), LowerStr(w1), LowerStr(y));
    SplitAtSpaceRun(LowerStr(x), LowerStr(w2), LowerStr(y));
  }

  /** Leading and trailing whitespace never matters. */
  lemma LowerStrAllSpace(w: string)
    requires AllSpace(w)
    ensures AllSpace(LowerStr(w))
  {
  }

  lemma NormalizeIgnoresPadding(w1: string, s: string, w2: string)
    requires AllSpace(w1) && AllSpace(w2)
    ensures Normalize(w1 + s + w2) == Normalize(s)
  {
    var l1, ls, l2 := LowerStr(w1), LowerStr(s), LowerStr(w2);
    LowerStrConcat(w1 + s, w2);
    LowerStrConcat(w1, s);
    assert LowerStr(w1 + s + w2) == l1 + (ls + l2);
    LowerStrAllSpace(w1);
    LowerStrAllSpace(w2);
    SplitPadding(l1, ls + l2);
    SplitPadding(l2, ls);
    NormalizeWithoutStrip(w1 + s + w2);
    NormalizeWithoutStrip(s);
  }

  // ---------------------------------------------------------------- substrings

  predicate StartsWith(s: string, p: string) {
    |p| <= |s| && s[..|p|] == p
  }

  /** Python's `p in s`. */
  predicate Contains(s: string, p: string)
    decreases |s|
  {
    StartsWith(s, p) || (s != [] && Contains(s[1..], p))
  }

  lemma {:induction false} ContainsInfix(a: string, p: string, b: string)
    ensures Contains(a + p + b, p)
    decreases |a|
  {
    if a != [] {
      assert (a + p + b)[1..] == a[1..] + p + b;
      ContainsInfix(a[1..], p, b);
    } else {
      assert (a + p + b)[..|p|] == p;
    }
  }

  /** A substring survives lower-casing of both sides. */
  lemma {:induction false} ContainsLower(s: string, p: string)
    requires Contains(s, p)
    ensures Contains(LowerStr(s), LowerStr(p))
    decreases |s|
  {
    if StartsWith(s, p) {
      assert LowerStr(s)[..|p|] == LowerStr(s[..|p|]);
    } else {
      assert LowerStr(s)[1..] == LowerStr(s[1..]);
      ContainsLower(s[1..], p);
    }
  }

  /** `s.replace(c, r)` for a one-character pattern. */
  function Replace(s: string, c: char, r: string): string {
    if s == [] then []
    else (if s[0] == c then r else [s[0]]) + Replace(s[1..], c, r)
  }

  // ---------------------------------------------------------------- split on a separator

  function IndexOf(s: string, c: char): (k: nat)
    ensures k <= |s|
    ensures forall j :: 0 <= j < k ==> s[j] != c
    ensures k < |s| ==> s[k] == c
  {
    if s == [] || s[0] == c then 0 else 1 + IndexOf(s[1..], c)
  }

  /** `s.split(c)`: always at least one piece; empty pieces are kept. */
  function SplitOn(s: string, c: char): (pieces: seq<string>)
    ensures |pieces| >= 1
    decreases |s|
  {
    var k := IndexOf(s, c);
    if k == |s| then [s] else [s[..k]] + SplitOn(s[k + 1..], c)
  }

  lemma IndexOfAppend(a: string, c: char, z: string)
    requires IndexOf(a, c) < |a| || (z != [] && z[0] == c)
    ensures IndexOf(a + z, c) == IndexOf(a, c)
  {
    var k := IndexOf(a + z, c);
    var m := IndexOf(a, c);
    assert (a + z)[m] == c;
    assert k <= m;
  }

  /** Splitting at a separator distributes over the two sides. */
  lemma {:induction false} SplitOnAppend(a: string, c: char, b: string)
    ensures SplitOn(a + [c] + b, c) == SplitOn(a, c) + SplitOn(b, c)
    decreases |a|
  {
    var m := IndexOf(a, c);
    if m == |a| {
      IndexOfAppend(a, c, [c] + b);
      assert a + [c] + b == a + ([c] + b);
      SplitOnAppendFree(a, c, b);
    } else {
      SplitOnAppend(a[m + 1..], c, b);
      SplitOnAppendStep(a, c, b);
    }
  }

  /** The step of `SplitOnAppend` when `a` holds a separator. */
  lemma {:induction false} SplitOnAppendStep(a: string, c: char, b: string)
    requires IndexOf(a, c) < |a|
    requires SplitOn(a[IndexOf(a, c) + 1..] + [c] + b, c) == SplitOn(a[IndexOf(a, c) + 1..], c) + SplitOn(b, c)
    ensures SplitOn(a + [c] + b, c) == SplitOn(a, c) + SplitOn(b, c)
  {
    var m := IndexOf(a, c);
    var rest := a[m + 1..];
    SplitOnAppendFound(a, c, b);
    ConsAppend(SplitOn(a + [c] + b, c), a[..m], SplitOn(rest + [c] + b, c),
               SplitOn(rest, c), SplitOn(b, c), SplitOn(a, c));
  }

  lemma ConsAppend<T>(whole: seq<T>, x: T, tail: seq<T>, left: seq<T>, right: seq<T>, prefix: seq<T>)
    requires whole == [x] + tail && tail == left + right && prefix == [x] + left
    ensures whole == prefix + right
  {
  }

  lemma {:induction false} SplitOnAppendFound(a: string, c: char, b: string)
    requires IndexOf(a, c) < |a|
    ensures SplitOn(a, c) == [a[..IndexOf(a, c)]] + SplitOn(a[IndexOf(a, c) + 1..], c)
    ensures SplitOn(a + [c] + b, c) == [a[..IndexOf(a, c)]] + SplitOn(a[IndexOf(a, c) + 1..] + [c] + b, c)
  {
    var s := a + [c] + b;
    var m := IndexOf(a, c);
    IndexOfAppend(a, c, [c] + b);
    assert s == a + ([c] + b);
    assert IndexOf(s, c) == m;
    assert s[..m] == a[..m];
    assert s[m + 1..] == a[m + 1..] + [c] + b;
  }

  lemma SplitOnAppendFree(a: string, c: char, b: string)
    requires IndexOf(a, c) == |a| && IndexOf(a + [c] + b, c) == |a|
    ensures SplitOn(a + [c] + b, c) == SplitOn(a, c) + SplitOn(b, c)
  {
    var s := a + [c] + b;
    assert SplitOn(a, c) == [a];
    assert s[..|a|] == a;
    assert s[|a| + 1..] == b;
  }

  lemma SplitOnFree(s: string, c: char)
    requires forall i :: 0 <= i < |s| ==> s[i] != c
    ensures SplitOn(s, c) == [s]
  {
  }

  // ---------------------------------------------------------------- decimal numerals

  predicate IsDigit(c: char) {
    '0' <= c <= '9'
  }

  /** `str.isdigit` on ASCII: non-empty and all digits. */
  predicate IsDigits(s: string) {
    s != [] && forall i :: 0 <= i < |s| ==> IsDigit(s[i])
  }

  function DigitValue(c: char): nat
    requires IsDigit(c)
  {
    c as int - '0' as int
  }

  /** `int(s)` of a digit string. */
  function DigitsValue(s: string): nat
    requires forall i :: 0 <= i < |s| ==> IsDigit(s[i])
    decreases |s|
  {
    if s == [] then 0
    else
      assert IsDigit(s[|s| - 1]);
      10 * DigitsValue(s[..|s| - 1]) + DigitValue(s[|s| - 1])
  }

  function DigitChar(d: nat): char
    requires d < 10
  {
    ('0' as int + d) as char
  }

  /** `str(n)` for a natural number. */
  function NatToDecimal(n: nat): (s: string)
    ensures IsDigits(s)
  {
    if n < 10 then [DigitChar(n)] else NatToDecimal(n / 10) + [DigitChar(n % 10)]
  }

  /** `str(i)` for any integer. */
  function IntToDecimal(i: int): string {
    if i < 0 then "-" + NatToDecimal(-i) else NatToDecimal(i)
  }

  lemma {:induction false} DecimalRoundTrip(n: nat)
    ensures DigitsValue(NatToDecimal(n)) == n
  {
    if n >= 10 {
      var s := NatToDecimal(n);
      assert s[..|s| - 1] == NatToDecimal(n / 10);
      DecimalRoundTrip(n / 10);
    }
  }
}
