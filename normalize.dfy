/** The make/model normaliser: a customer's free-text make and model are trimmed,
    lower-cased and de-aliased, joined into a query, and matched against the known
    "make model" pairs of the catalogue with a fuzzy scorer. The scorer (rapidfuzz's
    WRatio) is a parameter: any function giving a score between 0 and 100. */
module Normalize {

  import opened Common
  import opened Text
  import opened Sorting

  type Score = x: real | 0.0 <= x <= 100.0

  /** The fuzzy scorer, `fuzz.WRatio(query, choice)`. */
  type Scorer = (string, string) -> Score

  datatype NormalizedMakeModel = NormalizedMakeModel(
    make: Option<string>,
    model: Option<string>,
    confidence: real,
    candidates: seq<string>)

  /** The alias table: common abbreviations and misspellings of makes. */
  const Aliases: map<string, string> :=
    map["vw" := "volkswagen", "volks" := "volkswagen", "chevy" := "chevrolet", "bmv" := "bmw"]

  /** normalize_token: strip, lower-case, then replace an alias by its make. */
  function NormalizeToken(token: string): string
  {
    var t := Lower(Trim(token));
    if t in Aliases then Aliases[t] else t
  }

  /** The alias table's targets are stripped, lower-case and not aliases themselves. */
  lemma AliasTargets()
    ensures Aliases.Keys == {"vw", "volks", "chevy", "bmv"}
    ensures Aliases["vw"] == "volkswagen" && Aliases["volks"] == "volkswagen"
    ensures Aliases["chevy"] == "chevrolet" && Aliases["bmv"] == "bmw"
    ensures forall k :: k in Aliases ==> Stripped(Aliases[k]) && NoUpper(Aliases[k]) && Aliases[k] !in Aliases
  {
  }

  /** normalize_token maps vw and volks to volkswagen, chevy to chevrolet and bmv to
      bmw, after stripping and lower-casing, and returns any other token stripped and
      lower-cased. */
  lemma NormalizeTokenCases(token: string)
    ensures var t := Lower(Trim(token));
      (t == "vw" || t == "volks" ==> NormalizeToken(token) == "volkswagen") &&
      (t == "chevy" ==> NormalizeToken(token) == "chevrolet") &&
      (t == "bmv" ==> NormalizeToken(token) == "bmw") &&
      (t != "vw" && t != "volks" && t != "chevy" && t != "bmv" ==> NormalizeToken(token) == t)
  {
    AliasTargets();
  }

  /** A normalised token has no whitespace at its ends and no capitals. */
  lemma NormalizeTokenShape(token: string)
    ensures Stripped(NormalizeToken(token)) && NoUpper(NormalizeToken(token))
  {
    var s := Trim(token);
    TrimSpec(token);
    LowerSpec(s);
    AliasTargets();
  }

  /** No alias target is an alias key, so normalising twice is normalising once. */
  lemma NormalizeTokenIdempotent(token: string)
    ensures NormalizeToken(NormalizeToken(token)) == NormalizeToken(token)
  {
    var r := NormalizeToken(token);
    assert Lower(Trim(r)) == r by {
      NormalizeTokenShape(token);
      TrimStripped(r);
      LowerSpec(r);
    }
    assert r !in Aliases by {
      AliasTargets();
    }
  }

  /** How a score orders the choices: the larger the score, the earlier. */
  function Rank(query: string, scorer: Scorer): string -> real
  {
    c => -(scorer(query, c) as real)
  }

  /** `process.extract(query, choices, scorer=WRatio, limit=limit)`: the choices in
      descending order of score, cut to `limit`, each with its score. */
  function BestMatch(query: string, choices: seq<string>, scorer: Scorer, limit: nat): seq<(string, real)>
  {
    if choices == [] then []
    else
      var ranked := SortBy(choices, Rank(query, scorer));
      var n := Min(|ranked|, limit);
      seq(n, i requires 0 <= i < n => (ranked[i], scorer(query, ranked[i]) as real))
  }

  /** best_match returns min(|choices|, limit) of the choices, each with its own
      score, and no choice more often than it occurs among the choices. */
  lemma BestMatchShape(query: string, choices: seq<string>, scorer: Scorer, limit: nat)
    ensures var r := BestMatch(query, choices, scorer, limit);
      |r| == Min(|choices|, limit) &&
      (forall i :: 0 <= i < |r| ==> r[i].0 in choices && r[i].1 == scorer(query, r[i].0) as real) &&
      multiset(Names(r)) <= multiset(choices)
  {
    if choices != [] {
      var ranked := SortBy(choices, Rank(query, scorer));
      assert forall i :: 0 <= i < |ranked| ==> ranked[i] in multiset(choices);
      BestMatchNoRepeats(query, choices, scorer, limit);
    }
  }

  /** The names best_match returns are a prefix of the ranked choices, so a
      sub-multiset of them. */
  lemma BestMatchNoRepeats(query: string, choices: seq<string>, scorer: Scorer, limit: nat)
    requires choices != []
    ensures multiset(Names(BestMatch(query, choices, scorer, limit))) <= multiset(choices)
  {
    var ranked := SortBy(choices, Rank(query, scorer));
    var n := Min(|ranked|, limit);
    var r := BestMatch(query, choices, scorer, limit);
    assert Names(r) == ranked[..n];
    assert ranked == ranked[..n] + ranked[n..];
    assert multiset(ranked) == multiset(ranked[..n]) + multiset(ranked[n..]);
  }

  /** best_match lists its matches in non-increasing order of score. */
  lemma BestMatchOrdered(query: string, choices: seq<string>, scorer: Scorer, limit: nat)
    ensures var r := BestMatch(query, choices, scorer, limit);
      forall i, j :: 0 <= i < j < |r| ==> r[i].1 >= r[j].1
  {
    var r := BestMatch(query, choices, scorer, limit);
    if choices != [] {
      var key := Rank(query, scorer);
      var ranked := SortBy(choices, key);
      forall i, j | 0 <= i < j < |r| ensures r[i].1 >= r[j].1 {
        assert key(ranked[i]) <= key(ranked[j]);
      }
    }
  }

  /** A choice best_match leaves out scores no higher than any match it keeps. */
  lemma BestMatchOmitted(query: string, choices: seq<string>, scorer: Scorer, limit: nat)
    ensures var r := BestMatch(query, choices, scorer, limit);
      forall i, c :: 0 <= i < |r| && c in choices && c !in Names(r) ==> scorer(query, c) as real <= r[i].1
  {
    var r := BestMatch(query, choices, scorer, limit);
    if choices != [] {
      var key := Rank(query, scorer);
      var ranked := SortBy(choices, key);
      assert forall k :: 0 <= k < |r| ==> r[k].0 == ranked[k];
      assert forall k :: 0 <= k < |r| ==> ranked[k] == Names(r)[k] && ranked[k] in Names(r);
      forall i, c | 0 <= i < |r| && c in choices && c !in Names(r)
        ensures scorer(query, c) as real <= r[i].1
      {
        assert c in multiset(ranked);
        var j :| 0 <= j < |ranked| && ranked[j] == c;
        assert key(ranked[i]) <= key(ranked[j]);
      }
    }
  }

  /** The names of a list of scored candidates. */
  function Names(ms: seq<(string, real)>): (r: seq<string>)
    ensures |r| == |ms| && forall i :: 0 <= i < |ms| ==> r[i] == ms[i].0
  {
    seq(|ms|, i requires 0 <= i < |ms| => ms[i].0)
  }

  /** The query: normalised make and model joined by one space, then stripped; a
      missing side contributes "". */
  function Query(rawMake: Option<string>, rawModel: Option<string>): string
  {
    var make := if Truthy(rawMake) then NormalizeToken(rawMake.value) else "";
    var model := if Truthy(rawModel) then NormalizeToken(rawModel.value) else "";
    Trim(make + " " + model)
  }

  /** With only one side given, the query is that side normalised; with both, it is
      the two normalised sides around one space. */
  lemma QuerySpec(rawMake: Option<string>, rawModel: Option<string>)
    ensures Truthy(rawMake) && !Truthy(rawModel) ==> Query(rawMake, rawModel) == NormalizeToken(rawMake.value)
    ensures !Truthy(rawMake) && Truthy(rawModel) ==> Query(rawMake, rawModel) == NormalizeToken(rawModel.value)
    ensures Truthy(rawMake) && Truthy(rawModel) ==>
      var a, b := NormalizeToken(rawMake.value), NormalizeToken(rawModel.value);
      (a != [] && b != [] ==> Query(rawMake, rawModel) == a + " " + b)
  {
    var a := if Truthy(rawMake) then NormalizeToken(rawMake.value) else "";
    var b := if Truthy(rawModel) then NormalizeToken(rawModel.value) else "";
    assert Query(rawMake, rawModel) == Trim(a + " " + b);
    if Truthy(rawMake) {
      NormalizeTokenShape(rawMake.value);
    }
    if Truthy(rawModel) {
      NormalizeTokenShape(rawModel.value);
    }
    JoinedTrim(a, b, ' ');
  }

  /** normalize_make_model. */
  function NormalizeMakeModel(rawMake: Option<string>, rawModel: Option<string>, knownPairs: seq<string>, scorer: Scorer): NormalizedMakeModel
  {
    if !Truthy(rawMake) && !Truthy(rawModel) then NormalizedMakeModel(None, None, 0.0, [])
    else
      var candidates := BestMatch(Query(rawMake, rawModel), knownPairs, scorer, 5);
      if candidates == [] then NormalizedMakeModel(rawMake, rawModel, 0.0, [])
      else
        var (top, score) := candidates[0];
        var parts := SplitFirstSpace(top);
        NormalizedMakeModel(Some(parts.0), parts.1, score, Names(candidates))
  }

  /** Nothing to normalise: no make, no model, confidence 0 and no candidates. */
  lemma NormalizeNothingGiven(rawMake: Option<string>, rawModel: Option<string>, knownPairs: seq<string>, scorer: Scorer)
    requires !Truthy(rawMake) && !Truthy(rawModel)
    ensures NormalizeMakeModel(rawMake, rawModel, knownPairs, scorer) == NormalizedMakeModel(None, None, 0.0, [])
  {
  }

  /** No known pairs: the raw inputs come back un-normalised, with confidence 0. */
  lemma NormalizeNoPairs(rawMake: Option<string>, rawModel: Option<string>, scorer: Scorer)
    requires Truthy(rawMake) || Truthy(rawModel)
    ensures NormalizeMakeModel(rawMake, rawModel, [], scorer) == NormalizedMakeModel(rawMake, rawModel, 0.0, [])
  {
  }

  /** Otherwise the result is the best-scoring known pair split at its first space:
      the make is the text before the space, the model the rest (None without a
      space), the confidence the pair's score, which no pair beats, and the candidates
      are at most five known pairs in non-increasing order of score. */
  lemma NormalizeMatched(rawMake: Option<string>, rawModel: Option<string>, knownPairs: seq<string>, scorer: Scorer)
    requires Truthy(rawMake) || Truthy(rawModel)
    requires knownPairs != []
    ensures var r := NormalizeMakeModel(rawMake, rawModel, knownPairs, scorer);
      var q := Query(rawMake, rawModel);
      |r.candidates| == Min(|knownPairs|, 5) && r.candidates != [] &&
      (forall i :: 0 <= i < |r.candidates| ==> r.candidates[i] in knownPairs) &&
      multiset(r.candidates) <= multiset(knownPairs) &&
      (forall i, j :: 0 <= i < j < |r.candidates| ==> scorer(q, r.candidates[i]) >= scorer(q, r.candidates[j])) &&
      r.confidence == scorer(q, r.candidates[0]) as real &&
      (forall c :: c in knownPairs ==> scorer(q, c) as real <= r.confidence) &&
      r.make.Some? && ' ' !in r.make.value &&
      (r.model.None? ==> r.make.value == r.candidates[0]) &&
      (r.model.Some? ==> r.candidates[0] == r.make.value + " " + r.model.value)
  {
    var q := Query(rawMake, rawModel);
    TopMatches(q, knownPairs, scorer);
    var ms := BestMatch(q, knownPairs, scorer, 5);
    var top := SplitFirstSpace(ms[0].0);
    assert NormalizeMakeModel(rawMake, rawModel, knownPairs, scorer) == NormalizedMakeModel(Some(top.0), top.1, ms[0].1, Names(ms));
  }

  /** The five best matches of a query among non-empty choices: each a choice, in
      non-increasing order of score, the first scoring at least as much as every
      choice. */
  lemma TopMatches(q: string, knownPairs: seq<string>, scorer: Scorer)
    requires knownPairs != []
    ensures var ms := BestMatch(q, knownPairs, scorer, 5);
      |ms| == Min(|knownPairs|, 5) && ms != [] &&
      (forall i :: 0 <= i < |ms| ==> ms[i].0 in knownPairs) &&
      multiset(Names(ms)) <= multiset(knownPairs) &&
      (forall i, j :: 0 <= i < j < |ms| ==> scorer(q, ms[i].0) >= scorer(q, ms[j].0)) &&
      ms[0].1 == scorer(q, ms[0].0) as real &&
      (forall c :: c in knownPairs ==> scorer(q, c) as real <= ms[0].1)
  {
    BestMatchShape(q, knownPairs, scorer, 5);
    BestMatchOrdered(q, knownPairs, scorer, 5);
    BestMatchOmitted(q, knownPairs, scorer, 5);
    var ms := BestMatch(q, knownPairs, scorer, 5);
    forall c | c in knownPairs ensures scorer(q, c) as real <= ms[0].1 {
      if c in Names(ms) {
        var j :| 0 <= j < |ms| && Names(ms)[j] == c;
      }
    }
  }

  /** When one known pair scores strictly above every other, it is the one the make
      and model are taken from. */
  lemma NormalizeUniqueBest(rawMake: Option<string>, rawModel: Option<string>, knownPairs: seq<string>, scorer: Scorer, best: string)
    requires Truthy(rawMake) || Truthy(rawModel)
    requires best in knownPairs
    requires forall c :: c in knownPairs && c != best ==> scorer(Query(rawMake, rawModel), c) < scorer(Query(rawMake, rawModel), best)
    ensures var r := NormalizeMakeModel(rawMake, rawModel, knownPairs, scorer);
      r.candidates != [] && r.candidates[0] == best && r.confidence == scorer(Query(rawMake, rawModel), best) as real &&
      r.make == Some(SplitFirstSpace(best).0) && r.model == SplitFirstSpace(best).1
  {
    var q := Query(rawMake, rawModel);
    TopMatches(q, knownPairs, scorer);
    var ms := BestMatch(q, knownPairs, scorer, 5);
    assert ms[0].0 == best by {
      assert ms[0].0 in knownPairs;
      assert scorer(q, best) as real <= ms[0].1;
    }
    var top := SplitFirstSpace(ms[0].0);
    assert NormalizeMakeModel(rawMake, rawModel, knownPairs, scorer) == NormalizedMakeModel(Some(top.0), top.1, ms[0].1, Names(ms));
  }

  /** The exact-match case of the test suite, for any tokens: when the normalised
      make (a single word) and model, joined by a space, are a known pair that the
      scorer ranks strictly first, normalisation gives back exactly that make and
      model, with that pair's score. */
  lemma NormalizeExactPair(rawMake: string, rawModel: string, knownPairs: seq<string>, scorer: Scorer)
    requires rawMake != "" && rawModel != ""
    requires var a, b := NormalizeToken(rawMake), NormalizeToken(rawModel);
      a != [] && b != [] && ' ' !in a
    requires var q := NormalizeToken(rawMake) + " " + NormalizeToken(rawModel);
      q in knownPairs && forall c :: c in knownPairs && c != q ==> scorer(q, c) < scorer(q, q)
    ensures var r := NormalizeMakeModel(Some(rawMake), Some(rawModel), knownPairs, scorer);
      var a, b := NormalizeToken(rawMake), NormalizeToken(rawModel);
      r.make == Some(a) && r.model == Some(b) && r.confidence == scorer(a + " " + b, a + " " + b) as real
  {
    var a, b := NormalizeToken(rawMake), NormalizeToken(rawModel);
    var q := a + " " + b;
    var r := NormalizeMakeModel(Some(rawMake), Some(rawModel), knownPairs, scorer);
    QuerySpec(Some(rawMake), Some(rawModel));
    assert Query(Some(rawMake), Some(rawModel)) == q;
    NormalizeUniqueBest(Some(rawMake), Some(rawModel), knownPairs, scorer, q);
    SplitAtJoin(a, b);
    assert r.make == Some(SplitFirstSpace(q).0) && r.model == SplitFirstSpace(q).1;
  }

  lemma SplitAtJoin(a: string, b: string)
    requires ' ' !in a
    ensures SplitFirstSpace(a + " " + b) == (a, Some(b))
  {
    BeforeJoin(a, b, ' ');
    BeforeWhole(a, ' ');
    assert (a + " " + b)[|a| + 1..] == b;
  }
}
