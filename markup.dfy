/**
 * Two text helpers of bot.py: `escape_markdown`, which puts a backslash in
 * front of every Telegram Markdown control character, and the construction
 * of the download URL for a photo a user sent to /genetat.
 */
module Markup {
  import opened Text

  /** The control characters escaped after the backslash itself, in order. */
  const EscapeChars: seq<char> :=
    ['*', '_', '[', ']', '(', ')', '~', '`', '>', '#', '+', '-', '=', '|', '{', '}']

  /** A character that comes out of `escape_markdown` with a backslash in front. */
  predicate IsSpecial(c: char) {
    c == '\\' || c in EscapeChars
  }

  /** The reference definition: every special character gets one backslash. */
  function Escaped(s: string): (r: string)
    ensures |r| >= |s|
  {
    if s == [] then []
    else (if IsSpecial(s[0]) then ['\\', s[0]] else [s[0]]) + Escaped(s[1..])
  }

  /** Drop one backslash in front of every character. */
  function Unescaped(s: string): string
    decreases |s|
  {
    if s == [] then []
    else if s[0] == '\\' && |s| >= 2 then [s[1]] + Unescaped(s[2..])
    else [s[0]] + Unescaped(s[1..])
  }

  // ---------------------------------------------------------------- the loop of escape_markdown

  /** One character after the backslash pass and the first `k` control-character passes. */
  function EscapeUpTo(c: char, k: nat): string
    requires k <= |EscapeChars|
  {
    if c == '\\' || c in EscapeChars[..k] then ['\\', c] else [c]
  }

  /** The whole text after the backslash pass and the first `k` passes. */
  function EscapedUpTo(s: string, k: nat): string
    requires k <= |EscapeChars|
  {
    if s == [] then [] else EscapeUpTo(s[0], k) + EscapedUpTo(s[1..], k)
  }

  /**
   * `escape_markdown(text)`: replace every backslash by two, then every
   * control character `c` by a backslash and `c`, one pass per character.
   */
  method EscapeMarkdown(text: string) returns (result: string)
    ensures result == Escaped(text)
  {
    if text == [] {
      return text;
    }
    result := Replace(text, '\\', "\\\\");
    BackslashPass(text);
    for k := 0 to |EscapeChars|
      invariant result == EscapedUpTo(text, k)
    {
      var c := EscapeChars[k];
      ControlPass(text, k);
      result := Replace(result, c, ['\\', c]);
    }
    AllPasses(text);
  }

  lemma {:induction false} ReplaceAppend(a: string, b: string, c: char, r: string)
    ensures Replace(a + b, c, r) == Replace(a, c, r) + Replace(b, c, r)
    decreases |a|
  {
    if a != [] {
      assert (a + b)[1..] == a[1..] + b;
      ReplaceAppend(a[1..], b, c, r);
    } else {
      assert a + b == b;
    }
  }

  lemma {:induction false} BackslashPass(s: string)
    ensures Replace(s, '\\', "\\\\") == EscapedUpTo(s, 0)
    decreases |s|
  {
    if s != [] {
      BackslashPass(s[1..]);
    }
  }

  lemma ControlCharsDistinct(k: nat)
    requires k < |EscapeChars|
    ensures EscapeChars[k] != '\\'
    ensures EscapeChars[k] !in EscapeChars[..k]
    ensures EscapeChars[..k + 1] == EscapeChars[..k] + [EscapeChars[k]]
  {
  }

  /** The pass for the `k`-th control character turns stage `k` into stage `k + 1`. */
  lemma {:induction false} ControlPass(s: string, k: nat)
    requires k < |EscapeChars|
    ensures Replace(EscapedUpTo(s, k), EscapeChars[k], ['\\', EscapeChars[k]]) == EscapedUpTo(s, k + 1)
    decreases |s|
  {
    if s != [] {
      var c := EscapeChars[k];
      ControlCharsDistinct(k);
      ReplaceAppend(EscapeUpTo(s[0], k), EscapedUpTo(s[1..], k), c, ['\\', c]);
      ControlPass(s[1..], k);
    }
  }

  lemma {:induction false} AllPasses(s: string)
    ensures EscapedUpTo(s, |EscapeChars|) == Escaped(s)
    decreases |s|
  {
    assert EscapeChars[..|EscapeChars|] == EscapeChars;
    if s != [] {
      AllPasses(s[1..]);
    }
  }

  // ---------------------------------------------------------------- properties

  /** Escaping loses nothing: dropping the added backslashes gives the text back. */
  lemma {:induction false} UnescapeEscaped(s: string)
    ensures Unescaped(Escaped(s)) == s
    decreases |s|
  {
    if s != [] {
      UnescapeEscaped(s[1..]);
      var e := Escaped(s);
      if IsSpecial(s[0]) {
        assert e[2..] == Escaped(s[1..]);
      } else {
        assert e[1..] == Escaped(s[1..]);
      }
    }
  }

  /** Two texts with the same escaped form are the same text. */
  lemma EscapedInjective(s: string, t: string)
    requires Escaped(s) == Escaped(t)
    ensures s == t
  {
    UnescapeEscaped(s);
    UnescapeEscaped(t);
  }

  /** A text without special characters is left as it is. */
  lemma {:induction false} EscapedPlain(s: string)
    requires forall i :: 0 <= i < |s| ==> !IsSpecial(s[i])
    ensures Escaped(s) == s
    decreases |s|
  {
    if s != [] {
      EscapedPlain(s[1..]);
    }
  }

  // ---------------------------------------------------------------- photo download URL

  const FileBase: string := "https://api.telegram.org/file/bot"

  /**
   * The image URL built from `file.file_path` in the /genetat photo handler:
   * a full http(s) URL is kept, anything else is put under the bot's file
   * endpoint. The middle branch of the source, for paths that start with
   * the file endpoint, is left out because it can never be taken (see
   * `TokenPrefixBranchDead`).
   */
  function FileUrl(token: string, filePath: string): (url: string)
    ensures StartsWith(filePath, "http://") || StartsWith(filePath, "https://") ==> url == filePath
    ensures !StartsWith(filePath, "http://") && !StartsWith(filePath, "https://")
            ==> url == FileBase + token + "/" + filePath && StartsWith(url, FileBase)
    ensures StartsWith(url, "http://") || StartsWith(url, "https://")
    ensures |filePath| <= |url| && url[|url| - |filePath|..] == filePath
  {
    if StartsWith(filePath, "http://") || StartsWith(filePath, "https://") then filePath
    else
      var url := FileBase + token + "/" + filePath;
      assert url[..8] == FileBase[..8] == "https://";
      assert url[|url| - |filePath|..] == filePath;
      url
  }

  /** Every path that starts with the file endpoint already starts with
      "https://", so the first branch has taken it. */
  lemma TokenPrefixBranchDead(filePath: string)
    requires StartsWith(filePath, FileBase)
    ensures StartsWith(filePath, "https://")
  {
    assert filePath[..8] == filePath[..|FileBase|][..8];
    assert FileBase[..8] == "https://";
  }
}
