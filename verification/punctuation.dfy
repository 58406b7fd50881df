/** The surface features `punc_quote`, `punc_dash`, `punc_parenthesis` and
    `first_capitalized`: the share of a pattern's occurrences that show each cue. */
module Punctuation {
  import opened Numbers
  import opened Outcomes
  import opened Documents
  import opened PatternTable
  import opened OutsideContext

  /** The cues, in the order their ratios are appended. */
  datatype Cue = Quote | Dash | Parenthesis | FirstCapital

  const CueOrder: seq<Cue> := [Quote, Dash, Parenthesis, FirstCapital]

  /** Whether the occurrence `[st, ed]` shows `cue`. The dash test looks at the
      marks after positions `st .. ed - 1` only; the capital test at every token. */
  predicate Shows(c: Corpus, cue: Cue, st: int, ed: int)
  {
    match cue
    case Quote => st in c.quoteBefore && ed in c.quoteAfter
    case Dash => exists j :: st <= j < ed && j in c.dashAfter
    case Parenthesis => st in c.parenBefore && ed in c.parenAfter
    case FirstCapital => forall j :: st <= j <= ed ==> j in c.firstCapital
  }

  /** Flag `k` tells whether occurrence `k`, of a pattern of length `len`, shows `cue`. */
  function CueFlags(c: Corpus, cue: Cue, len: nat, ends: seq<int>): (fs: seq<bool>)
    ensures |fs| == |ends|
    ensures forall k :: 0 <= k < |ends| ==> fs[k] == Shows(c, cue, ends[k] - len + 1, ends[k])
  {
    seq(|ends|, k requires 0 <= k < |ends| => Shows(c, cue, ends[k] - len + 1, ends[k]))
  }

  /** The indices of the occurrences, for a pattern of length `len`, that show `cue`. */
  function CuePositions(c: Corpus, cue: Cue, len: nat, ends: seq<int>): set<int>
  {
    set k | 0 <= k < |ends| && Shows(c, cue, ends[k] - len + 1, ends[k])
  }

  /** The number of occurrences, for a pattern of length `len`, that show `cue`. */
  function CueCount(c: Corpus, cue: Cue, len: nat, ends: seq<int>): (n: nat)
    ensures n == |CuePositions(c, cue, len, ends)|
    ensures n <= |ends|
    ensures n == |ends| <==> forall k :: 0 <= k < |ends| ==> Shows(c, cue, ends[k] - len + 1, ends[k])
    ensures n == 0 <==> forall k :: 0 <= k < |ends| ==> !Shows(c, cue, ends[k] - len + 1, ends[k])
  {
    assert TrueIndices(CueFlags(c, cue, len, ends)) == CuePositions(c, cue, len, ends);
    CountTrue(CueFlags(c, cue, len, ends))
  }

  /** Some recorded occurrence does not start with the pattern's first token. */
  predicate SomeMismatch(c: Corpus, p: seq<int>, ends: seq<int>)
    requires 1 <= |p| && InStream(ends, |p|, |c.tokens|)
  {
    exists k :: 0 <= k < |ends| && c.tokens[ends[k] - |p| + 1] != p[0]
  }

  /** Occurrences that spell the pattern out never fail the first-token assertion. */
  lemma PunctuationSucceeds(c: Corpus, p: seq<int>, ends: seq<int>)
    requires 1 <= |p| && InStream(ends, |p|, |c.tokens|)
    requires OccurrencesMatch(c, p, ends)
    ensures ExtractPunctuation(c, p, ends).Ok?
  {
    MatchedOccurrencesStartRight(c, p, ends);
  }

  /** The first-token assertion here repeats the one the outside-context
      computation makes for the same occurrences, so it cannot fail once
      that computation has succeeded. */
  lemma {:induction false} PunctuationCheckSubsumed(c: Corpus, p: seq<int>, ends: seq<int>)
    requires 1 <= |p| && InStream(ends, |p|, |c.tokens|)
    requires OutsideFeature(c, p, ends).Ok?
    ensures ExtractPunctuation(c, p, ends).Ok?
  {
    forall k | 0 <= k < |ends|
      ensures c.tokens[ends[k] - |p| + 1] == p[0]
    {
      assert OccurrenceDiffs(c, p, ends[k]).Ok?;
    }
  }

  lemma MatchedOccurrencesStartRight(c: Corpus, p: seq<int>, ends: seq<int>)
    requires 1 <= |p| && InStream(ends, |p|, |c.tokens|)
    requires OccurrencesMatch(c, p, ends)
    ensures !SomeMismatch(c, p, ends)
  {
    forall k | 0 <= k < |ends|
      ensures c.tokens[ends[k] - |p| + 1] == p[0]
    {
      assert c.tokens[ends[k] - |p| + 1..ends[k] + 1][0] == p[0];
    }
  }

  /** `extractPunctuation`: four zeros without occurrences; otherwise the share
      of occurrences showing each cue (the number showing it over the number
      of occurrences), in the order of `CueOrder`, each in
      [0, 1], 1 exactly when every occurrence shows the cue and 0 exactly when
      none does. It fails the first-token assertion on a mismatched occurrence. */
  function ExtractPunctuation(c: Corpus, p: seq<int>, ends: seq<int>): (r: Result<seq<Value>>)
    requires 1 <= |p| && InStream(ends, |p|, |c.tokens|)
    ensures |ends| == 0 ==> r == Ok([Finite(0.0), Finite(0.0), Finite(0.0), Finite(0.0)])
    ensures r.Abort? <==> |ends| > 0 && SomeMismatch(c, p, ends)
    ensures r.Abort? ==> r.reason == OccurrenceMismatch
    ensures r.Ok? ==> |r.value| == 4 && forall q :: 0 <= q < 4 ==>
      r.value[q].Finite? && 0.0 <= r.value[q].x <= 1.0
    ensures r.Ok? && |ends| > 0 ==> forall q :: 0 <= q < 4 ==>
      && (r.value[q].x == 1.0 <==> forall k :: 0 <= k < |ends| ==> Shows(c, CueOrder[q], ends[k] - |p| + 1, ends[k]))
      && (r.value[q].x == 0.0 <==> forall k :: 0 <= k < |ends| ==> !Shows(c, CueOrder[q], ends[k] - |p| + 1, ends[k]))
    ensures r.Ok? && |ends| > 0 ==> |r.value| == 4 && forall q :: 0 <= q < 4 ==>
      r.value[q] == Finite(Ratio(CueCount(c, CueOrder[q], |p|, ends), |ends|))
  {
    if |ends| == 0 then Ok([Finite(0.0), Finite(0.0), Finite(0.0), Finite(0.0)])
    else if SomeMismatch(c, p, ends) then Abort(OccurrenceMismatch)
    else Ok(seq(4, q requires 0 <= q < 4 => Finite(Ratio(CueCount(c, CueOrder[q], |p|, ends), |ends|))))
  }
}
