/** Finding the language code that fits a locale best. Parsing of locales is left to the langtable library. */
module Locales {
  import opened Prelude

  /** The parts of a parsed locale or language code; a part that is missing is empty. */
  datatype Locale = Locale(language: string, territory: string, script: string, variant: string, encoding: string)

  type Parser = string -> Locale

  predicate IsValid(l: Locale) {
    l.language != ""
  }

  /** _evaluate_values: how one part of the locale fits the same part of the language code. */
  function Evaluate(locale: string, langcode: string, weight: int): int {
    if locale != "" && langcode != "" then
      if locale == langcode then weight else -weight
    else if langcode != "" && locale == "" then -weight
    else 0
  }

  /** _evaluate_locales. */
  function Score(locale: Locale, langcode: Locale): int {
    Evaluate(locale.language, langcode.language, 1000) +
    Evaluate(locale.territory, langcode.territory, 100) +
    Evaluate(locale.script, langcode.script, 10) +
    Evaluate(locale.variant, langcode.variant, 10) +
    Evaluate(locale.encoding, langcode.encoding, 1)
  }

  predicate IsPosix(l: Locale) {
    l.variant == "POSIX"
  }

  /** A language code that is considered at all: valid, and not POSIX unless the locale is. */
  predicate Eligible(locale: Locale, langcode: Locale) {
    IsValid(langcode) && (IsPosix(langcode) ==> IsPosix(locale))
  }

  predicate Candidate(locale: Locale, langcode: Locale) {
    Eligible(locale, langcode) && Score(locale, langcode) > 100
  }

  // ---------------------------------------------------------------- what the weights mean

  /** How well a part fits: 1 if it is the same, 0 if the language code leaves it open, -1 otherwise. */
  function Fit(locale: string, langcode: string): int {
    if langcode == "" then 0 else if langcode == locale then 1 else -1
  }

  /** The fit of the territory, of the script and the variant, and of the encoding. */
  datatype Rank = Rank(territory: int, scriptAndVariant: int, encoding: int)

  function RankOf(locale: Locale, langcode: Locale): Rank {
    Rank(Fit(locale.territory, langcode.territory),
         Fit(locale.script, langcode.script) + Fit(locale.variant, langcode.variant),
         Fit(locale.encoding, langcode.encoding))
  }

  predicate Better(x: Rank, y: Rank) {
    || x.territory > y.territory
    || (x.territory == y.territory && x.scriptAndVariant > y.scriptAndVariant)
    || (x.territory == y.territory && x.scriptAndVariant == y.scriptAndVariant && x.encoding > y.encoding)
  }

  predicate SharesLanguage(locale: Locale, langcode: Locale) {
    locale.language == langcode.language
  }

  lemma ScoreIsRank(locale: Locale, langcode: Locale)
    ensures var r := RankOf(locale, langcode);
            Score(locale, langcode) ==
            1000 * Fit(locale.language, langcode.language) + 100 * r.territory + 10 * r.scriptAndVariant + r.encoding &&
            -1 <= r.territory <= 1 && -2 <= r.scriptAndVariant <= 2 && -1 <= r.encoding <= 1
  {
  }

  /** A score over 100 means the same language, and nothing else. */
  lemma OverHundred(locale: Locale, langcode: Locale)
    requires IsValid(locale) && IsValid(langcode)
    ensures Score(locale, langcode) > 100 <==> SharesLanguage(locale, langcode)
  {
    ScoreIsRank(locale, langcode);
  }

  /** Among language codes of the locale's language, the weighted sum orders as territory first, then script and
      variant, then encoding. */
  lemma ScoreRefinesRank(locale: Locale, x: Locale, y: Locale)
    requires IsValid(locale) && SharesLanguage(locale, x) && SharesLanguage(locale, y)
    ensures Score(locale, x) > Score(locale, y) <==> Better(RankOf(locale, x), RankOf(locale, y))
  {
    ScoreIsRank(locale, x);
    ScoreIsRank(locale, y);
  }

  // ---------------------------------------------------------------- the search

  /** The first of the language codes that are eligible, share the locale's language and fit best. */
  ghost predicate FirstBest(locale: Locale, langcodes: seq<string>, parse: Parser, k: nat) {
    && k < |langcodes|
    && Eligible(locale, parse(langcodes[k])) && SharesLanguage(locale, parse(langcodes[k]))
    && forall j {:trigger langcodes[j]} ::
         0 <= j < |langcodes| && Eligible(locale, parse(langcodes[j])) &&
         SharesLanguage(locale, parse(langcodes[j])) ==>
         !Better(RankOf(locale, parse(langcodes[j])), RankOf(locale, parse(langcodes[k]))) &&
         (j < k ==> Better(RankOf(locale, parse(langcodes[k])), RankOf(locale, parse(langcodes[j]))))
  }

  /** The keys of the scores: the candidates in order, each where it came first. */
  function Candidates(locale: Locale, codes: seq<string>, parse: Parser): seq<string> {
    if codes == [] then []
    else
      var before, last := Candidates(locale, codes[..|codes| - 1], parse), codes[|codes| - 1];
      if Candidate(locale, parse(last)) && last !in before then before + [last] else before
  }

  lemma {:induction false} CandidatesIn(locale: Locale, codes: seq<string>, parse: Parser, x: string)
    ensures x in Candidates(locale, codes, parse) <==> x in codes && Candidate(locale, parse(x))
  {
    if codes != [] {
      CandidatesIn(locale, codes[..|codes| - 1], parse, x);
      assert codes == codes[..|codes| - 1] + [codes[|codes| - 1]];
    }
  }

  /** Where a candidate came first: candidates before that place come before it in the order. */
  lemma {:induction false} FirstPlace(locale: Locale, codes: seq<string>, parse: Parser, a: nat) returns (k: nat)
    requires a < |Candidates(locale, codes, parse)|
    ensures k < |codes| && codes[k] == Candidates(locale, codes, parse)[a]
    ensures forall j {:trigger codes[j]} ::
              0 <= j < k && Candidate(locale, parse(codes[j])) ==> codes[j] in Candidates(locale, codes, parse)[..a]
  {
    var init := codes[..|codes| - 1];
    var before := Candidates(locale, init, parse);
    if a < |before| {
      k := FirstPlace(locale, init, parse, a);
      assert Candidates(locale, codes, parse)[..a] == before[..a];
      forall j {:trigger codes[j]} | 0 <= j < k && Candidate(locale, parse(codes[j])) ensures codes[j] in before[..a] {
        assert init[j] == codes[j];
      }
    } else {
      k := |codes| - 1;
      assert Candidates(locale, codes, parse)[..a] == before;
      forall j {:trigger codes[j]} | 0 <= j < k && Candidate(locale, parse(codes[j])) ensures codes[j] in before {
        assert init[j] == codes[j];
        CandidatesIn(locale, init, parse, codes[j]);
      }
    }
  }

  ghost predicate ScoresOf(locale: Locale, order: seq<string>, parse: Parser, scores: map<string, int>) {
    forall x {:trigger x in scores} {:trigger x in order} ::
      (x in scores <==> x in order) && (x in scores ==> scores[x] == Score(locale, parse(x)))
  }

  /** Of the candidates so far, b is the first with the highest score. */
  ghost predicate Highest(locale: Locale, order: seq<string>, parse: Parser, b: nat, m: nat) {
    && b < m <= |order|
    && (forall a {:trigger order[a]} :: 0 <= a < m ==> Score(locale, parse(order[a])) <= Score(locale, parse(order[b])))
    && (forall a {:trigger order[a]} :: 0 <= a < b ==> Score(locale, parse(order[a])) < Score(locale, parse(order[b])))
  }

  ghost predicate AnyMatch(locale: Locale, langcodes: seq<string>, parse: Parser) {
    exists x {:trigger x in langcodes} ::
      x in langcodes && Eligible(locale, parse(x)) && SharesLanguage(locale, parse(x))
  }

  /** The dictionary of scores. */
  method ScoreAll(locale: Locale, langcodes: seq<string>, parse: Parser)
    returns (order: seq<string>, scores: map<string, int>)
    ensures order == Candidates(locale, langcodes, parse) && ScoresOf(locale, order, parse, scores)
  {
    order, scores := [], map[];
    for i := 0 to |langcodes|
      invariant order == Candidates(locale, langcodes[..i], parse) && ScoresOf(locale, order, parse, scores)
    {
      var langcode := langcodes[i];
      assert langcodes[..i + 1][..i] == langcodes[..i];
      var parsed := parse(langcode);
      if !IsValid(parsed) {
        continue;
      }
      if IsPosix(parsed) && !IsPosix(locale) {
        continue;
      }
      var score := Score(locale, parsed);
      if score <= 100 {
        continue;
      }
      if langcode !in scores {
        order := order + [langcode];
      }
      scores := scores[langcode := score];
    }
    assert langcodes[..|langcodes|] == langcodes;
  }

  lemma HighestNext(locale: Locale, order: seq<string>, parse: Parser, b: nat, m: nat)
    requires Highest(locale, order, parse, b, m) && m < |order|
    ensures Highest(locale, order, parse,
                    if Score(locale, parse(order[m])) > Score(locale, parse(order[b])) then m else b, m + 1)
  {
  }

  /** max over the keys, by score: the first of the highest. */
  method MaxScore(locale: Locale, order: seq<string>, parse: Parser, scores: map<string, int>) returns (b: nat)
    requires order != [] && ScoresOf(locale, order, parse, scores)
    ensures Highest(locale, order, parse, b, |order|)
  {
    b := 0;
    for m := 1 to |order|
      invariant Highest(locale, order, parse, b, m)
    {
      assert order[m] in order && order[b] in order;
      HighestNext(locale, order, parse, b, m);
      if scores[order[m]] > scores[order[b]] {
        b := m;
      }
    }
  }

  ghost predicate IsFirstBest(locale: Locale, langcodes: seq<string>, parse: Parser, r: string) {
    exists k: nat {:trigger langcodes[k]} :: FirstBest(locale, langcodes, parse, k) && r == langcodes[k]
  }

  /** The code is of the same language, and of the POSIX variant only if the locale is. */
  predicate Acceptable(locale: Locale, langcode: Locale) {
    langcode.language == locale.language && (langcode.variant == "POSIX" ==> locale.variant == "POSIX")
  }

  /** find_best_locale_match: None exactly when no eligible language code shares the language of a valid locale;
      otherwise the first that fits best. */
  method FindBestLocaleMatch(name: string, langcodes: seq<string>, parse: Parser) returns (r: Option<string>)
    ensures r == None <==> !(IsValid(parse(name)) && AnyMatch(parse(name), langcodes, parse))
    ensures r.Some? ==> IsFirstBest(parse(name), langcodes, parse, r.value)
    ensures r == None <==> parse(name).language == "" ||
                           forall x {:trigger x in langcodes} :: x in langcodes ==> !Acceptable(parse(name), parse(x))
    ensures r.Some? ==> r.value in langcodes && Acceptable(parse(name), parse(r.value))
  {
    var locale := parse(name);
    if !IsValid(locale) {
      return None;
    }
    var order, scores := ScoreAll(locale, langcodes, parse);
    AnyCandidate(locale, langcodes, parse);
    if order == [] {
      return None;
    }
    var b := MaxScore(locale, order, parse, scores);
    ghost var k := BestFound(locale, langcodes, parse, b);
    r := Some(order[b]);
  }

  /** There are candidates exactly if some eligible language code shares the language. */
  lemma AnyCandidate(locale: Locale, langcodes: seq<string>, parse: Parser)
    requires IsValid(locale)
    ensures Candidates(locale, langcodes, parse) != [] <==> AnyMatch(locale, langcodes, parse)
  {
    var order := Candidates(locale, langcodes, parse);
    if order != [] {
      CandidatesIn(locale, langcodes, parse, order[0]);
      OverHundred(locale, parse(order[0]));
      assert order[0] in langcodes;
    }
    if AnyMatch(locale, langcodes, parse) {
      var x :| x in langcodes && Eligible(locale, parse(x)) && SharesLanguage(locale, parse(x));
      OverHundred(locale, parse(x));
      CandidatesIn(locale, langcodes, parse, x);
    }
  }

  lemma BestFound(locale: Locale, langcodes: seq<string>, parse: Parser, b: nat) returns (k: nat)
    requires IsValid(locale) &&
             Highest(locale, Candidates(locale, langcodes, parse), parse, b, |Candidates(locale, langcodes, parse)|)
    ensures FirstBest(locale, langcodes, parse, k) && langcodes[k] == Candidates(locale, langcodes, parse)[b]
    ensures IsFirstBest(locale, langcodes, parse, Candidates(locale, langcodes, parse)[b])
  {
    var order := Candidates(locale, langcodes, parse);
    k := FirstPlace(locale, langcodes, parse, b);
    CandidatesIn(locale, langcodes, parse, order[b]);
    var best := parse(order[b]);
    OverHundred(locale, best);
    forall j {:trigger langcodes[j]} |
      0 <= j < |langcodes| && Eligible(locale, parse(langcodes[j])) && SharesLanguage(locale, parse(langcodes[j]))
      ensures !Better(RankOf(locale, parse(langcodes[j])), RankOf(locale, best)) &&
              (j < k ==> Better(RankOf(locale, best), RankOf(locale, parse(langcodes[j]))))
    {
      var code := parse(langcodes[j]);
      OverHundred(locale, code);
      CandidatesIn(locale, langcodes, parse, langcodes[j]);
      var a :| 0 <= a < |order| && order[a] == langcodes[j];
      ScoreRefinesRank(locale, code, best);
      ScoreRefinesRank(locale, best, code);
      if j < k {
        assert langcodes[j] in order[..b];
        var c :| 0 <= c < b && order[..b][c] == langcodes[j];
        assert order[c] == langcodes[j];
      }
    }
  }

  // ---------------------------------------------------------------- what fits better

  /** The parts of a code decide in this order: territory, then script and variant, then encoding. */
  lemma FitsBetter(locale: Locale, x: Locale, y: Locale)
    ensures Fit(locale.territory, x.territory) > Fit(locale.territory, y.territory) ==>
              Better(RankOf(locale, x), RankOf(locale, y))
    ensures x.territory == y.territory ==>
              Fit(locale.script, x.script) > Fit(locale.script, y.script) && x.variant == y.variant ==>
                Better(RankOf(locale, x), RankOf(locale, y))
    ensures x.territory == y.territory ==>
              Fit(locale.variant, x.variant) > Fit(locale.variant, y.variant) && x.script == y.script ==>
                Better(RankOf(locale, x), RankOf(locale, y))
    ensures x.territory == y.territory && x.script == y.script && x.variant == y.variant ==>
              Fit(locale.encoding, x.encoding) > Fit(locale.encoding, y.encoding) ==>
                Better(RankOf(locale, x), RankOf(locale, y))
    ensures Better(RankOf(locale, x), RankOf(locale, y)) ==> !Better(RankOf(locale, y), RankOf(locale, x))
  {
  }

  /** The same part fits better than none, and none better than another one, whether or not the locale has the part. */
  lemma SameFitsBest(part: string, other: string)
    requires other != "" && other != part
    ensures Fit(part, part) >= Fit(part, "") > Fit(part, other)
    ensures part != "" ==> Fit(part, part) > Fit(part, "")
    ensures part != "" ==> Fit(part, part) - Fit(part, "") == Fit(part, "") - Fit(part, other)
  {
  }
}
