/**
 * The topical filter `NewsParser.is_relevant_news`: an ordered decision list
 * of case-insensitive substring tests against fixed keyword lists.
 *
 * `Relevant` states the decision list; `IsRelevantNews` follows the code
 * step by step (its loops, the `has_strict_crypto` flag and the political
 * checks that sit after the strict loop) and is proved to compute it.
 */
module Relevance {
  import opened Text

  /** Hard exclusion: any of these rejects, whatever else the text holds. */
  const UkraineTerms: seq<string> := [
    "украин", "ukraine", "зеленск", "zelensky", "зеленский"
  ]

  /** Political markers: they reject only a text without a strict keyword. */
  const PoliticalMarkers: seq<string> := [
    "геополитика", "geopolitics", "геополитик", "россия", "russia", "россий", "сша", "usa",
    "united states", "америк", "вашингтон", "washington", "китай", "china", "китайск",
    "тайвань", "taiwan", "тайвань", "война", "war", "военн", "санкции", "sanctions", "санкци",
    "дипломатия", "diplomacy", "дипломат", "президент", "president", "президент",
    "правительство", "government", "правительств", "министр", "minister", "министр", "премьер",
    "prime minister", "премьер", "парламент", "parliament", "парламент", "выборы", "elections",
    "выбор", "референдум", "referendum", "референдум", "нато", "nato", "ес", "eu",
    "european union", "евросоюз", "венесуэла", "venezuela", "венесуэл", "иран", "iran", "иран",
    "израиль", "israel", "израил", "палестина", "palestine", "палестин", "гренландия",
    "greenland", "гренланд", "ирландия", "ireland", "ирланд", "южная корея", "south korea",
    "южнокорейск", "турция", "turkey", "турецк", "европа", "europe", "европейск", "мадуро",
    "maduro", "си цзиньпин", "xi jinping", "трамп", "trump", "байден", "biden"
  ]

  /** Strict keywords: any of them accepts (after the hard exclusion). */
  const StrictKeywords: seq<string> := [
    "крипт", "криптовалют", "crypto", "cryptocurrency", "крипта", "крипто", "блокчейн",
    "blockchain", "биткоин", "bitcoin", "btc", "биток", "эфир", "ethereum", "eth", "эфириум",
    "тон", "ton", "toncoin", "the open network", "usdt", "tether", "тезер", "usdc", "usd coin",
    "bnb", "binance coin", "бинанс", "sol", "solana", "солана", "ada", "cardano", "кардано",
    "xrp", "ripple", "рипл", "doge", "dogecoin", "дож", "догикоин", "shib", "shiba inu",
    "шоиб", "шиба", "matic", "polygon", "полигон", "avax", "avalanche", "аваланч", "dot",
    "polkadot", "полкадот", "link", "chainlink", "чейнлинк", "uni", "uniswap", "юнисвап",
    "ltc", "litecoin", "лайткоин", "bch", "bitcoin cash", "биткоин кэш", "xlm", "stellar",
    "стеллар", "atom", "cosmos", "космос", "near", "near protocol", "ftm", "fantom", "фантом",
    "algo", "algorand", "алгоранд", "vet", "vechain", "вечейн", "icp", "internet computer",
    "apt", "aptos", "аптос", "arb", "arbitrum", "арбитрум", "op", "optimism", "оптимизм",
    "sui", "суи", "sei", "сей", "tia", "celestia", "целестия", "inj", "injective", "инжектив",
    "rndr", "render", "рендер", "imx", "immutable x", "grt", "the graph", "aave", "ааве",
    "comp", "compound", "компаунд", "mkr", "maker", "мейкер", "snx", "synthetix", "синтетикс",
    "crv", "curve", "кривая", "1inch", "1инч", "sushi", "sushiswap", "суши", "pancake",
    "pancakeswap", "панкейк", "дефай", "defi", "decentralized finance", "нфт", "nft",
    "non-fungible token", "стейкинг", "staking", "стейк", "майнинг", "mining", "майнинг",
    "сатоши", "satoshi", "сат", "wei", "вей", "газ", "gas", "gas fee", "смарт контракт",
    "smart contract", "dapp", "децентрализованное приложение", "dao",
    "децентрализованная автономная организация", "web3", "веб3", "метавселенная", "metaverse",
    "метавселенная", "p2e", "play to earn", "играй и зарабатывай", "gamefi", "геймфи",
    "yield farming", "фарминг", "dex", "децентрализованная биржа", "cex",
    "централизованная биржа", "wallet", "кошелек", "валлет", "exchange", "биржа", "trading",
    "трейдинг", "торговля", "bull", "бык", "бычий", "bear", "медведь", "медвежий", "whale",
    "кит", "fomo", "фомо", "fud", "фуд", "hype", "хайп", "pump", "памп", "накачка", "dump",
    "дамп", "сброс", "hold", "холд", "держать", "hodl", "хадл", "moon", "луна", "к луне",
    "lambo", "ламбо", "rekt", "рект", "diamond hands", "алмазные руки", "paper hands",
    "бумажные руки"
  ]

  /** General keywords: two of them, or one with a context word, accept. */
  const GeneralKeywords: seq<string> := [
    "токен", "token", "коин", "coin", "альткоин", "altcoin", "liquidity", "ликвидность"
  ]

  const FinancialContext: seq<string> := [
    "цена", "price", "курс", "rate", "рост", "рост", "падение", "fall", "инвестиц", "invest",
    "бирж", "exchange", "торговл", "trading"
  ]

  const TechContext: seq<string> := [
    "блокчейн", "blockchain", "технологи", "technology", "протокол", "protocol", "сеть",
    "network"
  ]

  /** The keyword lists of `is_relevant_news`, in the order the code consults them. */
  datatype KeywordTable = KeywordTable(
    exclusions: seq<string>,
    political: seq<string>,
    strict: seq<string>,
    general: seq<string>,
    financial: seq<string>,
    tech: seq<string>)

  function Table(): KeywordTable {
    KeywordTable(UkraineTerms, PoliticalMarkers, StrictKeywords, GeneralKeywords, FinancialContext, TechContext)
  }

  // ---------------------------------------------------------------- the decision list

  /** `keyword.lower().strip()`, the form in which a looped keyword is tested. */
  function KeyForm(k: string): string {
    Strip(LowerStr(k))
  }

  /** The test inside the two explicit keyword loops:
      `keyword_lower and keyword_lower in text_lower`. */
  predicate Hits(t: string, k: string) {
    KeyForm(k) != [] && Contains(t, KeyForm(k))
  }

  /** `any(k in t for k in ks)`, with the keywords used as written. */
  predicate ContainsAny(t: string, ks: seq<string>) {
    exists k :: k in ks && Contains(t, k)
  }

  /** The strict loop finds a keyword. */
  predicate HitsAny(t: string, ks: seq<string>) {
    exists k :: k in ks && Hits(t, k)
  }

  /** `found_general`: the keywords of `ks` that hit `t`, in list order. */
  function Found(t: string, ks: seq<string>): (found: seq<string>)
    ensures |found| <= |ks|
    ensures forall k :: k in found ==> k in ks && Hits(t, k)
    ensures forall k :: k in ks && Hits(t, k) ==> k in found
  {
    if ks == [] then []
    else Found(t, ks[..|ks| - 1]) + (if Hits(t, ks[|ks| - 1]) then [ks[|ks| - 1]] else [])
  }

  /** The decision list over the lower-cased text:
      empty → reject; hard exclusion → reject; strict keyword → accept;
      political marker → reject; two general keywords → accept;
      one general keyword with a financial or technology word → accept;
      otherwise reject. */
  function RelevantBy(tab: KeywordTable, text: string): (r: bool)
    ensures r ==> text != []
  {
    var t := LowerStr(text);
    if text == [] then false
    else if ContainsAny(t, tab.exclusions) then false
    else if HitsAny(t, tab.strict) then true
    else if ContainsAny(t, tab.political) then false
    else if |Found(t, tab.general)| >= 2 then true
    else ContainsAny(t, tab.general) && (ContainsAny(t, tab.financial) || ContainsAny(t, tab.tech))
  }

  /** The classifier with the lists of bot.py. */
  predicate Relevant(text: string) {
    RelevantBy(Table(), text)
  }

  /** `NewsParser.is_relevant_news`. */
  method IsRelevantNews(text: string) returns (relevant: bool)
    ensures relevant == Relevant(text)
  {
    relevant := Classify(Table(), text);
  }

  /** The body of `is_relevant_news`, statement by statement, over a keyword
      table. The political checks after the two general-keyword tests are
      computed as written; the proof shows they are never true there. */
  method Classify(tab: KeywordTable, text: string) returns (relevant: bool)
    ensures relevant == RelevantBy(tab, text)
  {
    if text == [] {
      return false;
    }
    var t := LowerStr(text);
    if ContainsAny(t, tab.exclusions) {
      return false;
    }
    var hasPolitical := ContainsAny(t, tab.political);

    var hasStrict := HitsStrict(t, tab.strict);
    if hasStrict {
      return true;
    }

    if hasPolitical && !hasStrict {
      return false;
    }

    var found := FindGeneral(t, tab.general);

    if |found| >= 2 {
      // `if has_political and not has_strict_crypto: return False`, then `return True`
      relevant := !(hasPolitical && !hasStrict);
      return;
    }

    var hasGeneral := ContainsAny(t, tab.general);
    var hasFinancial := ContainsAny(t, tab.financial);
    var hasTech := ContainsAny(t, tab.tech);
    if hasGeneral && (hasFinancial || hasTech) {
      relevant := !(hasPolitical && !hasStrict);
      return;
    }
    return false;
  }

  /** The strict-keyword loop, which returns from `is_relevant_news` at the
      first hit. */
  method HitsStrict(t: string, ks: seq<string>) returns (hit: bool)
    ensures hit == HitsAny(t, ks)
  {
    var i := 0;
    while i < |ks|
      invariant 0 <= i <= |ks|
      invariant forall j :: 0 <= j < i ==> !Hits(t, ks[j])
    {
      var keyword := KeyForm(ks[i]);
      if keyword != [] && Contains(t, keyword) {
        assert ks[i] in ks && Hits(t, ks[i]);
        return true;
      }
      i := i + 1;
    }
    forall k | k in ks
      ensures !Hits(t, k)
    {
      var j :| 0 <= j < |ks| && ks[j] == k;
    }
    return false;
  }

  /** The loop that collects `found_general`. */
  method FindGeneral(t: string, ks: seq<string>) returns (found: seq<string>)
    ensures found == Found(t, ks)
  {
    found := [];
    var i := 0;
    while i < |ks|
      invariant 0 <= i <= |ks|
      invariant found == Found(t, ks[..i])
    {
      var keyword := KeyForm(ks[i]);
      FoundStep(t, ks, i);
      if keyword != [] && Contains(t, keyword) {
        assert Hits(t, ks[i]);
        found := found + [ks[i]];
      } else {
        assert !Hits(t, ks[i]);
      }
      i := i + 1;
    }
    assert ks[..i] == ks;
  }

  lemma {:induction false} FoundStep(t: string, ks: seq<string>, i: nat)
    requires i < |ks|
    ensures Hits(t, ks[i]) ==> Found(t, ks[..i + 1]) == Found(t, ks[..i]) + [ks[i]]
    ensures !Hits(t, ks[i]) ==> Found(t, ks[..i + 1]) == Found(t, ks[..i])
  {
    assert ks[..i + 1][..i] == ks[..i];
    assert ks[..i + 1][i] == ks[i];
  }

  // ---------------------------------------------------------------- properties

  /** The classifier only looks at the lower-cased text. */
  lemma RelevantIgnoresCase(text: string)
    ensures Relevant(LowerStr(text)) == Relevant(text)
  {
    LowerStrIdempotent(text);
  }

  /** A hard-exclusion term anywhere, in any letter case, rejects the text,
      strict keywords notwithstanding. */
  lemma HardExclusionWins(text: string, p: string)
    requires LowerStr(p) in UkraineTerms
    requires Contains(text, p)
    ensures !Relevant(text)
  {
    ContainsLower(text, p);
    assert LowerStr(p) in Table().exclusions;
  }

  /** A strict keyword accepts even when political markers are present;
      only the hard exclusion can override it. */
  lemma StrictBeatsPolitical(tab: KeywordTable, text: string, k: string)
    requires text != [] && k in tab.strict && Hits(LowerStr(text), k)
    ensures RelevantBy(tab, text) <==> !ContainsAny(LowerStr(text), tab.exclusions)
  {
  }

  /** Without a strict keyword, a political marker rejects, whatever general
      keywords or context words the text has. */
  lemma PoliticalWithoutStrictRejects(tab: KeywordTable, text: string, m: string)
    requires m in tab.political && Contains(LowerStr(text), m)
    requires !HitsAny(LowerStr(text), tab.strict)
    ensures !RelevantBy(tab, text)
  {
  }

  /** No entry occurs twice. */
  predicate Distinct(s: seq<string>) {
    forall i, j :: 0 <= i < j < |s| ==> s[i] != s[j]
  }

  lemma DistinctSnoc(s: seq<string>, x: string)
    requires Distinct(s) && x !in s
    ensures Distinct(s + [x])
  {
    var r := s + [x];
    forall i, j | 0 <= i < j < |r|
      ensures r[i] != r[j]
    {
      if j == |s| {
        assert r[i] == s[i];
      } else {
        assert r[i] == s[i] && r[j] == s[j];
      }
    }
  }

  /** `found_general` lists each keyword once when the list does. */
  lemma {:induction false} FoundDistinct(t: string, ks: seq<string>)
    requires Distinct(ks)
    ensures Distinct(Found(t, ks))
  {
    if ks != [] {
      var init := ks[..|ks| - 1];
      var last := ks[|ks| - 1];
      assert Distinct(init) by {
        forall i, j | 0 <= i < j < |init|
          ensures init[i] != init[j]
        {
          assert init[i] == ks[i] && init[j] == ks[j];
        }
      }
      FoundDistinct(t, init);
      var f0 := Found(t, init);
      assert last !in init by {
        forall i | 0 <= i < |init|
          ensures init[i] != last
        {
          assert init[i] == ks[i];
        }
      }
      if Hits(t, last) {
        DistinctSnoc(f0, last);
      } else {
        assert Found(t, ks) == f0;
      }
    }
  }

  /** So two matches of the general list are two distinct keywords. */
  lemma TwoGeneralMatchesAreDistinct(t: string)
    requires |Found(t, GeneralKeywords)| >= 2
    ensures exists a, b :: a in GeneralKeywords && b in GeneralKeywords && a != b && Hits(t, a) && Hits(t, b)
  {
    FoundDistinct(t, GeneralKeywords);
    var f := Found(t, GeneralKeywords);
    assert f[0] in f && f[1] in f;
  }

  /** A pattern with a character that the text lacks is not a substring of it. */
  lemma {:induction false} AbsentCharNotContained(s: string, p: string, j: nat)
    requires j < |p| && forall i :: 0 <= i < |s| ==> s[i] != p[j]
    ensures !Contains(s, p)
    decreases |s|
  {
    assert |p| <= |s| ==> s[..|p|][j] == s[j];
    if s != [] {
      AbsentCharNotContained(s[1..], p, j);
    }
  }

  /** A headline that names Ukraine is rejected. */
  lemma UkraineHeadlineRejected()
    ensures !Relevant("Ukraine ceasefire talks")
  {
    assert LowerStr("Ukraine") in UkraineTerms by {
      assert LowerStr("Ukraine") == "ukraine";
    }
    assert Contains("Ukraine ceasefire talks", "Ukraine") by {
      assert "Ukraine ceasefire talks" == [] + "Ukraine" + " ceasefire talks";
      ContainsInfix([], "Ukraine", " ceasefire talks");
    }
    HardExclusionWins("Ukraine ceasefire talks", "Ukraine");
  }

  /** Without the letters 'у', 'k', 'з' and 'z' no hard-exclusion term can occur. */
  lemma ExclusionNeedsLetters(t: string)
    requires forall i :: 0 <= i < |t| ==> t[i] !in {'у', 'k', 'з', 'z'}
    ensures !ContainsAny(t, UkraineTerms)
  {
    AbsentCharNotContained(t, "украин", 0);
    AbsentCharNotContained(t, "ukraine", 1);
    AbsentCharNotContained(t, "зеленск", 0);
    AbsentCharNotContained(t, "zelensky", 0);
    AbsentCharNotContained(t, "зеленский", 0);
  }

  /** A strict keyword accepts a text free of hard exclusions. */
  lemma StrictAccepts(tab: KeywordTable, text: string, k: string)
    requires k in tab.strict && Hits(LowerStr(text), k)
    requires !ContainsAny(LowerStr(text), tab.exclusions)
    ensures RelevantBy(tab, text)
  {
  }

  /** A text free of hard exclusions that mentions 'moon' is accepted. */
  lemma MoonAccepted(text: string)
    requires !ContainsAny(LowerStr(text), UkraineTerms) && Contains(LowerStr(text), "moon")
    ensures Relevant(text)
  {
    assert KeyForm("moon") == "moon" by {
      assert LowerStr("moon") == "moon";
      StripNoPadding("moon");
    }
    assert "moon" in StrictKeywords;
    StrictAccepts(Table(), text, "moon");
  }

  /** A headline with the strict keyword 'moon' is accepted. */
  lemma MoonHeadlineAccepted()
    ensures Relevant("ETH to the Moon")
  {
    var s := "ETH to the Moon";
    var t := "eth to the moon";
    assert LowerStr(s) == t by {
      assert Lower(s[0]) == 'e' && Lower(s[1]) == 't' && Lower(s[2]) == 'h' && Lower(s[11]) == 'm';
    }
    assert !ContainsAny(t, UkraineTerms) by {
      ExclusionNeedsLetters(t);
    }
    assert Contains(t, "moon") by {
      assert t == "eth to the " + "moon" + "";
      ContainsInfix("eth to the ", "moon", "");
    }
    MoonAccepted(s);
  }
}
