/** The extraction driver: normalise every probability, then compute the
    feature vector of every pattern of length > 1. The source runs the
    per-pattern loop in parallel; each iteration writes only its own slot, so
    it is modelled sequentially, in id order. */
module Extraction {
  import opened Numbers
  import opened Outcomes
  import opened Documents
  import opened PatternTable
  import opened Statistical
  import opened OutsideContext
  import opened Punctuation
  import opened Stopwords
  import opened Completeness

  /** The names `extract` assigns, in the order it lists them. */
  const FeatureNames: seq<string> := [
    "stat_f1", "stat_f2", "stat_f4", "stat_outside",
    "stopwords_1st", "stopwords_last", "stopwords_ratio", "avg_idf",
    "punc_quote", "punc_dash", "punc_parenthesis", "first_capitalized",
    "complete_sub", "complete_super"]

  /** The normalised table, the feature vector of every pattern id, and the names. */
  datatype Extraction = Extraction(table: Table, features: seq<seq<Value>>, names: seq<string>)

  /** `currentFreq / (N / size)` for one pattern. */
  function NormalizePattern(pat: Pattern, n: nat): (q: Pattern)
    requires n > 0 && |pat.tokens| >= 1
    ensures q == pat.(probability := (pat.freq * |pat.tokens|) as real / n as real)
    ensures q.probability >= 0.0
  {
    var freq, size := pat.freq as real, |pat.tokens| as real;
    assert freq / (n as real / size) == freq * size / n as real;
    pat.(probability := freq / (n as real / size))
  }

  /** The first loop of `extract`: `probability = currentFreq / (N / size)`,
      that is `freq * size / N`, for every pattern; nothing else changes. */
  function Normalize(t: Table, n: nat): (t': Table)
    requires n > 0 && WellFormed(t, n)
    ensures t'.index == t.index && |t'.patterns| == |t.patterns|
    ensures forall i :: 0 <= i < |t.patterns| ==>
      t'.patterns[i] == t.patterns[i].(probability := (t.patterns[i].freq * |t.patterns[i].tokens|) as real / n as real)
    ensures WellFormed(t', n)
    ensures TruncationClosed(t) ==> TruncationClosed(t')
    ensures forall i :: 0 <= i < |t'.patterns| ==> t'.patterns[i].probability >= 0.0
  {
    var normalized := seq(|t.patterns|, i requires 0 <= i < |t.patterns| => NormalizePattern(t.patterns[i], n));
    assert forall i :: 0 <= i < |t.patterns| ==>
      normalized[i].tokens == t.patterns[i].tokens && normalized[i].ends == t.patterns[i].ends;
    Table(normalized, t.index)
  }

  /** The feature vector of pattern `id`: empty for length <= 1, otherwise
      `|FeatureNames|` values. */
  function PatternFeatures(t: Table, c: Corpus, m: MathLib, id: nat): (r: Result<seq<Value>>)
    requires WellFormed(t, |c.tokens|) && id < |t.patterns|
    ensures |t.patterns[id].tokens| <= 1 ==> r == Ok([])
    ensures |t.patterns[id].tokens| > 1 ==> (r.Ok? <==> ExtractStatistical(t, c, m, id).Ok?)
    ensures r.Ok? ==> |r.value| == if |t.patterns[id].tokens| <= 1 then 0 else |FeatureNames|
  {
    var pat := t.patterns[id];
    if |pat.tokens| <= 1 then Ok([])
    else
      var statistical := ExtractStatistical(t, c, m, id);
      if statistical.Abort? then Abort(statistical.reason)
      else
        PunctuationCheckSubsumed(c, pat.tokens, pat.ends);
        var punctuation := ExtractPunctuation(c, pat.tokens, pat.ends).value;
        Ok(Concat4(statistical.value, punctuation, ExtractStopwords(c, pat.tokens), ExtractCompleteness(t, c, id)))
  }

  /** The statistical, punctuation, stopword and completeness groups, in the
      order they are pushed. */
  lemma {:induction false} PatternFeaturesLayout(t: Table, c: Corpus, m: MathLib, id: nat)
    requires WellFormed(t, |c.tokens|) && id < |t.patterns| && |t.patterns[id].tokens| > 1
    ensures var r, pat := PatternFeatures(t, c, m, id), t.patterns[id];
      r.Ok? ==>
        && ExtractStatistical(t, c, m, id) == Ok(r.value[..4])
        && ExtractPunctuation(c, pat.tokens, pat.ends) == Ok(r.value[4..8])
        && r.value[8..12] == ExtractStopwords(c, pat.tokens)
        && r.value[12..] == ExtractCompleteness(t, c, id)
  {
    var pat := t.patterns[id];
    if ExtractStatistical(t, c, m, id).Ok? {
      PunctuationCheckSubsumed(c, pat.tokens, pat.ends);
    }
  }

  /** The four groups laid end to end. */
  function Concat4(a: seq<Value>, b: seq<Value>, s: seq<Value>, d: seq<Value>): (v: seq<Value>)
    requires |a| == 4 && |b| == 4 && |s| == 4 && |d| == 2
    ensures |v| == 14 && v[..4] == a && v[4..8] == b && v[8..12] == s && v[12..] == d
  {
    a + b + s + d
  }

  /** The per-pattern loop over ids `0 .. n - 1`; it aborts when some pattern's
      computation does, reporting the lowest such id's violation. */
  function ExtractUpTo(t: Table, c: Corpus, m: MathLib, n: nat): (r: Result<seq<seq<Value>>>)
    requires WellFormed(t, |c.tokens|) && n <= |t.patterns|
    ensures r.Ok? <==> forall i :: 0 <= i < n ==> PatternFeatures(t, c, m, i).Ok?
    ensures r.Ok? ==> |r.value| == n && forall i :: 0 <= i < n ==> r.value[i] == PatternFeatures(t, c, m, i).value
    ensures r.Abort? ==> exists i :: 0 <= i < n && PatternFeatures(t, c, m, i) == Abort(r.reason)
                                     && forall j :: 0 <= j < i ==> PatternFeatures(t, c, m, j).Ok?
  {
    Collect(AllFeatures(t, c, m, n))
  }

  /** The outcome of every pattern id below `n`, in id order. */
  function AllFeatures(t: Table, c: Corpus, m: MathLib, n: nat): (rs: seq<Result<seq<Value>>>)
    requires WellFormed(t, |c.tokens|) && n <= |t.patterns|
    ensures |rs| == n && forall i :: 0 <= i < n ==> rs[i] == PatternFeatures(t, c, m, i)
  {
    seq(n, i requires 0 <= i < n => PatternFeatures(t, c, m, i))
  }

  /** `extract`: the normalised table, one vector per pattern id (empty for
      length <= 1, `|FeatureNames|` values otherwise) and the fourteen names. */
  function Extract(t: Table, c: Corpus, m: MathLib): (r: Result<Extraction>)
    requires |c.tokens| > 0 && WellFormed(t, |c.tokens|)
    ensures r.Ok? <==>
      forall i :: 0 <= i < |t.patterns| ==> PatternFeatures(Normalize(t, |c.tokens|), c, m, i).Ok?
    ensures r.Ok? ==>
      && r.value.table == Normalize(t, |c.tokens|)
      && r.value.names == FeatureNames
      && |r.value.features| == |t.patterns|
      && (forall i :: 0 <= i < |t.patterns| ==>
           |r.value.features[i]| == if |t.patterns[i].tokens| <= 1 then 0 else |FeatureNames|)
      && forall i :: 0 <= i < |t.patterns| ==> r.value.features[i] == PatternFeatures(r.value.table, c, m, i).value
  {
    var normalized := Normalize(t, |c.tokens|);
    var features :- ExtractUpTo(normalized, c, m, |normalized.patterns|);
    Ok(Extraction(normalized, features, FeatureNames))
  }

  /** The reachable part of `augment`: it returns right after `extract`, so no
      segmentation feature is ever appended and no name is added. */
  function Augment(t: Table, c: Corpus, m: MathLib): (r: Result<Extraction>)
    requires |c.tokens| > 0 && WellFormed(t, |c.tokens|)
    ensures r == Extract(t, c, m)
    ensures r.Ok? ==> r.value.names == FeatureNames
  {
    Extract(t, c, m)
  }

  /** The names and the values disagree in the middle: positions 4..7 hold the
      punctuation ratios while the names there are the stopword names, and
      positions 8..11 hold the stopword values under the punctuation names. */
  lemma {:induction false} NamesMislabelMiddleGroups(t: Table, c: Corpus, m: MathLib, id: nat)
    requires |c.tokens| > 0 && WellFormed(t, |c.tokens|)
    requires Extract(t, c, m).Ok? && id < |t.patterns| && |t.patterns[id].tokens| > 1
    ensures var e, pat := Extract(t, c, m).value, t.patterns[id];
      && ExtractPunctuation(c, pat.tokens, pat.ends) == Ok(e.features[id][4..8])
      && e.names[4..8] == ["stopwords_1st", "stopwords_last", "stopwords_ratio", "avg_idf"]
      && ExtractStopwords(c, pat.tokens) == e.features[id][8..12]
      && e.names[8..12] == ["punc_quote", "punc_dash", "punc_parenthesis", "first_capitalized"]
  {
    var normalized := Normalize(t, |c.tokens|);
    assert normalized.patterns[id].tokens == t.patterns[id].tokens;
    assert normalized.patterns[id].ends == t.patterns[id].ends;
    MiddleGroups(normalized, c, m, id);
    NameGroups();
  }

  lemma NameGroups()
    ensures FeatureNames[4..8] == ["stopwords_1st", "stopwords_last", "stopwords_ratio", "avg_idf"]
    ensures FeatureNames[8..12] == ["punc_quote", "punc_dash", "punc_parenthesis", "first_capitalized"]
  {
  }

  lemma {:induction false} MiddleGroups(t: Table, c: Corpus, m: MathLib, id: nat)
    requires WellFormed(t, |c.tokens|) && id < |t.patterns| && |t.patterns[id].tokens| > 1
    ensures var r, pat := PatternFeatures(t, c, m, id), t.patterns[id];
      r.Ok? ==>
        && ExtractPunctuation(c, pat.tokens, pat.ends) == Ok(r.value[4..8])
        && ExtractStopwords(c, pat.tokens) == r.value[8..12]
  {
    PatternFeaturesLayout(t, c, m, id);
  }

  /** The pattern `id` computes without a failed assertion when the miner's
      invariants hold: stored truncations, occurrences that spell the pattern,
      and a stream that starts and ends on a sentence end. */
  lemma {:induction false} PatternFeaturesSucceed(t: Table, c: Corpus, m: MathLib, id: nat)
    requires WellFormed(t, |c.tokens|) && id < |t.patterns| && TruncationClosed(t)
    requires OccurrencesMatch(c, t.patterns[id].tokens, t.patterns[id].ends)
    requires IsEnd(c, -1) && IsEnd(c, |c.tokens| - 1)
    ensures PatternFeatures(t, c, m, id).Ok?
  {
    StatisticalSucceeds(t, c, m, id);
    FeaturesFollowStatistical(t, c, m, id);
  }

  /** Only the statistical group can fail an assertion. */
  lemma {:induction false} FeaturesFollowStatistical(t: Table, c: Corpus, m: MathLib, id: nat)
    requires WellFormed(t, |c.tokens|) && id < |t.patterns|
    requires ExtractStatistical(t, c, m, id).Ok?
    ensures PatternFeatures(t, c, m, id).Ok?
  {
  }

  lemma {:induction false} StatisticalSucceeds(t: Table, c: Corpus, m: MathLib, id: nat)
    requires WellFormed(t, |c.tokens|) && id < |t.patterns| && TruncationClosed(t)
    requires OccurrencesMatch(c, t.patterns[id].tokens, t.patterns[id].ends)
    requires IsEnd(c, -1) && IsEnd(c, |c.tokens| - 1)
    ensures ExtractStatistical(t, c, m, id).Ok?
  {
    var pat := t.patterns[id];
    ClosedTableStoresHalves(t, pat.tokens);
    OutsideNeverAborts(c, pat.tokens, pat.ends);
  }

  /** Under the miner's invariants the whole extraction succeeds. */
  lemma {:induction false} ExtractSucceeds(t: Table, c: Corpus, m: MathLib)
    requires |c.tokens| > 0 && WellFormed(t, |c.tokens|) && TruncationClosed(t)
    requires forall i :: 0 <= i < |t.patterns| ==> OccurrencesMatch(c, t.patterns[i].tokens, t.patterns[i].ends)
    requires IsEnd(c, -1) && IsEnd(c, |c.tokens| - 1)
    ensures Extract(t, c, m).Ok?
  {
    var normalized := Normalize(t, |c.tokens|);
    forall i | 0 <= i < |t.patterns|
      ensures PatternFeatures(normalized, c, m, i).Ok?
    {
      NormalizedPatternSucceeds(t, c, m, i);
    }
    ExtractFollowsPatterns(t, c, m);
  }

  lemma {:induction false} NormalizedPatternSucceeds(t: Table, c: Corpus, m: MathLib, id: nat)
    requires |c.tokens| > 0 && WellFormed(t, |c.tokens|) && TruncationClosed(t) && id < |t.patterns|
    requires OccurrencesMatch(c, t.patterns[id].tokens, t.patterns[id].ends)
    requires IsEnd(c, -1) && IsEnd(c, |c.tokens| - 1)
    ensures PatternFeatures(Normalize(t, |c.tokens|), c, m, id).Ok?
  {
    var normalized := Normalize(t, |c.tokens|);
    assert normalized.patterns[id].tokens == t.patterns[id].tokens;
    assert normalized.patterns[id].ends == t.patterns[id].ends;
    PatternFeaturesSucceed(normalized, c, m, id);
  }

  /** The extraction fails exactly when some pattern's computation does. */
  lemma {:induction false} ExtractFollowsPatterns(t: Table, c: Corpus, m: MathLib)
    requires |c.tokens| > 0 && WellFormed(t, |c.tokens|)
    requires forall i :: 0 <= i < |t.patterns| ==> PatternFeatures(Normalize(t, |c.tokens|), c, m, i).Ok?
    ensures Extract(t, c, m).Ok?
  {
  }
}
