/**
 * The reaction line `_add_opinion_text` appends to every post of bot.py:
 * an emoji chosen by `_determine_post_tone`, a dash, and a short phrase.
 *
 * The phrase comes from DeepSeek and is an input here (`Option<string>`,
 * `None` when the request failed), taken after the character clean-up of
 * the reply (quotes, emoji, trailing punctuation and leading dashes
 * removed); the model covers what follows it: the seven-word cut, the
 * forbidden-word replacement and the fixed fallback phrases.
 */
module Opinion {
  import opened Wrappers
  import opened Text

  const Clown: string := "\U{1F921}"
  const Fire: string := "\U{1F525}"

  const NegativeWords: seq<string> := [
    "скам", "лох", "пиздец", "хуй", "дерьмо", "говно", "упал", "упала", "крах", "обман",
    "развод", "слил", "слила", "проиграл", "проиграла", "плохо", "плохая", "плохой", "плохое",
    "ужас", "кошмар", "провал", "провалился", "негатив", "негативный", "негативная",
    "негативное", "зло", "злой", "злая", "рофл", "мем", "прикол", "шутка", "смешно", "смешной",
    "смешная"
  ]

  const PositiveWords: seq<string> := [
    "вырос", "выросла", "выросли", "растет", "растут", "рост", "закупился", "закупилась",
    "закупились", "покупка", "покупай", "покупать", "хорошо", "хорошая", "хороший", "хорошее",
    "отлично", "круто", "крутая", "крутой", "позитив", "позитивный", "позитивная",
    "позитивное", "успех", "успешный", "победа", "выиграл", "выиграла", "выиграли", "молодец",
    "молодцы"
  ]

  /** Words that make the generated phrase unusable. */
  const ForbiddenWords: seq<string> := [
    "метамфетамин", "мефедрон", "амфетамин", "кокаин", "героин", "лсд", "мдма", "экстази",
    "спайс", "соль", "кристалл", "скорость", "фен", "амф", "меф"
  ]

  /** `sum(1 for word in words if word in t)` */
  function Matches(t: string, words: seq<string>): (n: nat)
    ensures n <= |words|
  {
    if words == [] then 0 else (if Contains(t, words[0]) then 1 else 0) + Matches(t, words[1..])
  }

  /** `_determine_post_tone`: the clown unless strictly more positive than
      negative words occur in the lower-cased content. */
  function Tone(content: string): (emoji: string)
    ensures emoji == Clown || emoji == Fire
  {
    var lower := LowerStr(content);
    if Matches(lower, NegativeWords) >= Matches(lower, PositiveWords) then Clown else Fire
  }

  /** The short phrase used when DeepSeek gives nothing usable. */
  function FallbackReaction(emoji: string): string {
    if emoji == Clown then "крипта скам" else "закупился"
  }

  /** A phrase of more than seven words is cut to its first seven. */
  function Shortened(phrase: string): (r: string)
    ensures |Split(r)| <= 7
    ensures |Split(phrase)| <= 7 ==> r == phrase
  {
    var words := Split(phrase);
    if |words| > 7 then
      SplitJoin(words[..7]);
      Join(words[..7])
    else phrase
  }

  predicate AnyContained(t: string, words: seq<string>) {
    exists i :: 0 <= i < |words| && Contains(t, words[i])
  }

  /** The phrase after the cut and the forbidden-word check (`""` when it is empty). */
  function Reaction(emoji: string, phrase: string): (r: string)
    ensures |Split(r)| <= 7
    ensures r != FallbackReaction(emoji) ==> !AnyContained(LowerStr(r), ForbiddenWords)
  {
    FallbackShort(emoji);
    var short := Shortened(phrase);
    if AnyContained(LowerStr(short), ForbiddenWords) then FallbackReaction(emoji) else short
  }

  /** The phrase after the emoji: the usable generated one, else the fallback. */
  function Phrase(emoji: string, generated: Option<string>): (r: string)
    ensures r == FallbackReaction(emoji) || (generated.Some? && r == Reaction(emoji, generated.value))
  {
    var phrase := if generated.Some? then Reaction(emoji, generated.value) else "";
    if phrase != [] then phrase else FallbackReaction(emoji)
  }

  /** The text `_add_opinion_text` appends to `content`. */
  function OpinionSuffix(content: string, generated: Option<string>): (suffix: string)
    ensures var head := "\n\n" + Tone(content) + " - ";
      |head| < |suffix| && suffix[..|head|] == head && |Split(suffix[|head|..])| <= 7
  {
    var emoji := Tone(content);
    PhraseBounded(emoji, generated);
    var head := "\n\n" + emoji + " - ";
    var suffix := head + Phrase(emoji, generated);
    assert suffix[|head|..] == Phrase(emoji, generated);
    suffix
  }

  /** `_add_opinion_text(content)`: the post as it is sent. */
  function WithOpinion(content: string, generated: Option<string>): (text: string)
    ensures |text| > |content| && text[..|content|] == content
  {
    content + OpinionSuffix(content, generated)
  }

  // ---------------------------------------------------------------- properties

  lemma {:induction false} NoneMatched(t: string, words: seq<string>)
    requires forall i :: 0 <= i < |words| ==> !Contains(t, words[i])
    ensures Matches(t, words) == 0
  {
    if words != [] {
      NoneMatched(t, words[1..]);
    }
  }

  lemma {:induction false} SomeMatched(t: string, words: seq<string>, i: nat)
    requires i < |words| && Contains(t, words[i])
    ensures Matches(t, words) >= 1
  {
    if i > 0 {
      SomeMatched(t, words[1..], i - 1);
    }
  }

  /** The tone is decided on the lower-cased text. */
  lemma ToneIgnoresCase(content: string)
    ensures Tone(LowerStr(content)) == Tone(content)
  {
    LowerStrIdempotent(content);
  }

  /** A post with no tone word at all gets the clown: a tie goes to it. */
  lemma NeutralIsClown(content: string)
    requires forall i :: 0 <= i < |NegativeWords| ==> !Contains(LowerStr(content), NegativeWords[i])
    requires forall i :: 0 <= i < |PositiveWords| ==> !Contains(LowerStr(content), PositiveWords[i])
    ensures Tone(content) == Clown
  {
    NoneMatched(LowerStr(content), NegativeWords);
    NoneMatched(LowerStr(content), PositiveWords);
  }

  /** Without a positive word the post gets the clown, whatever negative
      words it holds. */
  lemma NoPositiveIsClown(content: string)
    requires forall i :: 0 <= i < |PositiveWords| ==> !Contains(LowerStr(content), PositiveWords[i])
    ensures Tone(content) == Clown
  {
    NoneMatched(LowerStr(content), PositiveWords);
  }

  /** One positive word and no negative one give the fire. */
  lemma OnlyPositiveIsFire(content: string, i: nat)
    requires forall j :: 0 <= j < |NegativeWords| ==> !Contains(LowerStr(content), NegativeWords[j])
    requires i < |PositiveWords| && Contains(LowerStr(content), PositiveWords[i])
    ensures Tone(content) == Fire
  {
    NoneMatched(LowerStr(content), NegativeWords);
    SomeMatched(LowerStr(content), PositiveWords, i);
  }

  /** A failed request, an empty phrase or a forbidden word give the fixed
      phrase of the tone. */
  lemma FallbackWhenUnusable(emoji: string, generated: Option<string>)
    requires generated.None?
             || Reaction(emoji, generated.value) == []
             || AnyContained(LowerStr(Shortened(generated.value)), ForbiddenWords)
    ensures Phrase(emoji, generated) == FallbackReaction(emoji)
  {
  }

  lemma FallbackShort(emoji: string)
    ensures FallbackReaction(emoji) != [] && |Split(FallbackReaction(emoji))| <= 7
  {
    if emoji == Clown {
      assert "крипта скам" == Join(["крипта", "скам"]);
      SplitJoin(["крипта", "скам"]);
    } else {
      SplitOfWord("закупился");
    }
  }

  /** The appended phrase is never empty and never longer than seven words. */
  lemma PhraseBounded(emoji: string, generated: Option<string>)
    ensures Phrase(emoji, generated) != []
    ensures |Split(Phrase(emoji, generated))| <= 7
  {
    FallbackShort(emoji);
  }
}
