/** The outside-context feature `stat_outside`: every occurrence is widened to
    whole sentences on both sides, and each pattern token's count in that
    window, minus its count inside the pattern, is accumulated per position. */
module OutsideContext {
  import opened Numbers
  import opened Outcomes
  import opened Documents
  import opened PatternTable

  /** The leftward loop: it moves left while the position is non-negative and
      fewer than two sentence ends were crossed, counting a sentence end when
      the position before the current one ends a sentence. The result is the
      last position tested: at most two sentence ends were crossed, exactly two
      unless the stream start was passed, and not two at any earlier stop. */
  function ExpandLeft(c: Corpus, st: int, sentences: nat): (r: int)
    requires -1 <= st && sentences <= 2
    ensures -1 <= r <= st
    ensures st >= 0 && sentences < 2 ==> r < st
    ensures sentences + EndsBetween(c, r, st) <= 2
    ensures r == -1 || sentences + EndsBetween(c, r, st) == 2
    ensures 0 <= r < st ==> IsEnd(c, r)
    ensures forall q :: r < q <= st ==> sentences + EndsBetween(c, q, st) < 2
    decreases st + 1
  {
    if st >= 0 && sentences < 2 then
      var r := ExpandLeft(c, st - 1, if IsEnd(c, st - 1) then sentences + 1 else sentences);
      EndsBetweenDropLast(c, st);
      r
    else
      st
  }

  lemma EndsBetweenDropLast(c: Corpus, hi: int)
    ensures forall lo :: lo < hi ==>
      EndsBetween(c, lo, hi) == EndsBetween(c, lo, hi - 1) + (if IsEnd(c, hi - 1) then 1 else 0)
  {
    forall lo | lo < hi
      ensures EndsBetween(c, lo, hi) == EndsBetween(c, lo, hi - 1) + (if IsEnd(c, hi - 1) then 1 else 0)
    {
      EndsBetweenSplit(c, lo, hi - 1, hi);
    }
  }

  /** The rightward loop: it moves right while the position is inside the
      stream and fewer than two sentence ends were crossed, counting a sentence
      end when the current position ends a sentence. The result is one past
      the last position tested: at most two sentence ends crossed, exactly two
      unless the stream end was reached, and not two at any earlier stop. */
  function ExpandRight(c: Corpus, ed: int, sentences: nat): (r: int)
    requires ed <= |c.tokens| && sentences <= 2
    ensures ed <= r <= |c.tokens|
    ensures ed < |c.tokens| && sentences < 2 ==> ed < r
    ensures sentences + EndsBetween(c, ed, r) <= 2
    ensures r == |c.tokens| || sentences + EndsBetween(c, ed, r) == 2
    ensures ed < r < |c.tokens| ==> IsEnd(c, r - 1)
    ensures forall q :: ed <= q < r ==> sentences + EndsBetween(c, ed, q) < 2
    decreases |c.tokens| - ed
  {
    if ed < |c.tokens| && sentences < 2 then
      ExpandRight(c, ed + 1, if IsEnd(c, ed) then sentences + 1 else sentences)
    else
      ed
  }

  /** Left end of the context window of an occurrence starting at `start`:
      the second sentence end before it, or -1 when there is none. */
  function WindowStart(c: Corpus, start: int): (st: int)
    requires 0 <= start
    ensures -1 <= st < start
    ensures st == -1 || (IsEnd(c, st) && EndsBetween(c, st, start) == 2)
    ensures forall q :: st < q <= start ==> EndsBetween(c, q, start) < 2
  {
    ExpandLeft(c, start, 0)
  }

  /** One past the right end of the context window of an occurrence ending at
      `ed`: one past the second sentence end from `ed` on, or the stream length. */
  function WindowEnd(c: Corpus, ed: int): (en: int)
    requires 0 <= ed < |c.tokens|
    ensures ed < en <= |c.tokens|
    ensures en == |c.tokens| || (IsEnd(c, en - 1) && EndsBetween(c, ed, en) == 2)
    ensures forall q :: ed <= q < en ==> EndsBetween(c, ed, q) < 2
  {
    ExpandRight(c, ed, 0)
  }

  /** Count of `p[j]` in the open window `(st, en)` minus its count in `p`. */
  function Diff(c: Corpus, p: seq<int>, st: int, en: int, j: int): int
    requires -1 <= st < en <= |c.tokens| && 0 <= j < |p|
  {
    Count(c.tokens[st + 1..en], p[j]) - Count(p, p[j])
  }

  predicate DiffsNonNegative(c: Corpus, p: seq<int>, st: int, en: int)
    requires -1 <= st < en <= |c.tokens|
  {
    forall j :: 0 <= j < |p| ==> Diff(c, p, st, en, j) >= 0
  }

  /** The per-position diffs of the occurrence ending at `ed`, or the assertion
      (first token, window alignment, non-negative diff) that it violates. */
  function OccurrenceDiffs(c: Corpus, p: seq<int>, ed: int): (r: Result<seq<int>>)
    requires 1 <= |p| && |p| - 1 <= ed < |c.tokens|
    ensures r.Ok? ==> |r.value| == |p| && forall j :: 0 <= j < |p| ==> r.value[j] >= 0
    ensures r.Ok? ==> var st, en := WindowStart(c, ed - |p| + 1), WindowEnd(c, ed);
      forall j :: 0 <= j < |p| ==> r.value[j] == Diff(c, p, st, en, j)
    ensures r.Ok? <==>
      && c.tokens[ed - |p| + 1] == p[0]
      && IsEnd(c, WindowStart(c, ed - |p| + 1)) && IsEnd(c, WindowEnd(c, ed) - 1)
      && DiffsNonNegative(c, p, WindowStart(c, ed - |p| + 1), WindowEnd(c, ed))
  {
    var start := ed - |p| + 1;
    if c.tokens[start] != p[0] then Abort(OccurrenceMismatch)
    else
      var st := WindowStart(c, start);
      var en := WindowEnd(c, ed);
      if !(IsEnd(c, st) && IsEnd(c, en - 1)) then Abort(WindowNotAligned)
      else if !DiffsNonNegative(c, p, st, en) then Abort(NegativeDiff)
      else Ok(seq(|p|, j requires 0 <= j < |p| => Diff(c, p, st, en, j)))
  }

  /** A failing occurrence reports the first of the three checks it fails, in
      the source's order: first token, then window alignment, then diffs. */
  lemma OccurrenceDiffsReports(c: Corpus, p: seq<int>, ed: int)
    requires 1 <= |p| && |p| - 1 <= ed < |c.tokens|
    requires OccurrenceDiffs(c, p, ed).Abort?
    ensures OccurrenceDiffs(c, p, ed).reason ==
      if c.tokens[ed - |p| + 1] != p[0] then OccurrenceMismatch
      else if !(IsEnd(c, WindowStart(c, ed - |p| + 1)) && IsEnd(c, WindowEnd(c, ed) - 1)) then WindowNotAligned
      else NegativeDiff
  {
  }

  /** For an occurrence that spells the pattern out, in a stream that starts
      and ends on a sentence end, no assertion fails, and each diff is the
      count of the token in the window to the left and right of the occurrence. */
  lemma OccurrenceDiffsCountOutside(c: Corpus, p: seq<int>, ed: int)
    requires 1 <= |p| && |p| - 1 <= ed < |c.tokens|
    requires c.tokens[ed - |p| + 1..ed + 1] == p
    requires IsEnd(c, -1) && IsEnd(c, |c.tokens| - 1)
    ensures OccurrenceDiffs(c, p, ed).Ok?
    ensures var st, en := WindowStart(c, ed - |p| + 1), WindowEnd(c, ed);
      forall j :: 0 <= j < |p| ==>
        OccurrenceDiffs(c, p, ed).value[j]
          == Count(c.tokens[st + 1..ed - |p| + 1], p[j]) + Count(c.tokens[ed + 1..en], p[j])
  {
    var start := ed - |p| + 1;
    var st := WindowStart(c, start);
    var en := WindowEnd(c, ed);
    DiffCountsOutside(c, p, start, ed, st, en);
  }

  lemma DiffCountsOutside(c: Corpus, p: seq<int>, start: int, ed: int, st: int, en: int)
    requires 0 <= start <= ed < |c.tokens| && -1 <= st < start && ed < en <= |c.tokens|
    requires c.tokens[start..ed + 1] == p
    ensures forall j :: 0 <= j < |p| ==>
      Diff(c, p, st, en, j) == Count(c.tokens[st + 1..start], p[j]) + Count(c.tokens[ed + 1..en], p[j])
  {
    forall j | 0 <= j < |p|
      ensures Diff(c, p, st, en, j) == Count(c.tokens[st + 1..start], p[j]) + Count(c.tokens[ed + 1..en], p[j])
    {
      CountSplit3(c.tokens, st + 1, start, ed + 1, en, p[j]);
    }
  }

  /** Every occurrence passes the three assertions of the outside-context loop. */
  predicate OccurrencesPass(c: Corpus, p: seq<int>, ends: seq<int>)
    requires 1 <= |p| && InStream(ends, |p|, |c.tokens|)
  {
    forall k :: 0 <= k < |ends| ==> OccurrenceDiffs(c, p, ends[k]).Ok?
  }

  /** `outside[j]`: the diffs of position `j` summed over the occurrences `ends`. */
  function OutsideTotals(c: Corpus, p: seq<int>, ends: seq<int>): (r: Result<seq<int>>)
    requires 1 <= |p| && InStream(ends, |p|, |c.tokens|)
    ensures r.Ok? ==> |r.value| == |p| && forall j :: 0 <= j < |p| ==> r.value[j] >= 0
    ensures r.Ok? <==> OccurrencesPass(c, p, ends)
    decreases |ends|
  {
    if |ends| == 0 then Ok(seq(|p|, j => 0))
    else
      var d :- OccurrenceDiffs(c, p, ends[0]);
      var rest :- OutsideTotals(c, p, ends[1..]);
      assert forall k :: 1 <= k < |ends| ==> ends[k] == ends[1..][k - 1];
      Ok(seq(|p|, j requires 0 <= j < |p| => d[j] + rest[j]))
  }

  /** The occurrences are visited in order, so a failure of the totals
      reports the violation of the first occurrence that fails. */
  lemma {:induction false} OutsideTotalsReportsFirst(c: Corpus, p: seq<int>, ends: seq<int>)
    requires 1 <= |p| && InStream(ends, |p|, |c.tokens|)
    requires OutsideTotals(c, p, ends).Abort?
    ensures exists k ::
      && 0 <= k < |ends|
      && OccurrenceDiffs(c, p, ends[k]) == Abort(OutsideTotals(c, p, ends).reason)
      && (forall i :: 0 <= i < k ==> OccurrenceDiffs(c, p, ends[i]).Ok?)
    decreases |ends|
  {
    if OccurrenceDiffs(c, p, ends[0]).Abort? {
      assert OccurrenceDiffs(c, p, ends[0]) == Abort(OutsideTotals(c, p, ends).reason);
    } else {
      assert forall k :: 1 <= k < |ends| ==> ends[k] == ends[1..][k - 1];
      OutsideTotalsReportsFirst(c, p, ends[1..]);
      var k :| 0 <= k < |ends| - 1
        && OccurrenceDiffs(c, p, ends[1..][k]) == Abort(OutsideTotals(c, p, ends[1..]).reason)
        && (forall i :: 0 <= i < k ==> OccurrenceDiffs(c, p, ends[1..][i]).Ok?);
      assert forall i :: 0 <= i < k + 1 ==> OccurrenceDiffs(c, p, ends[i]).Ok? by {
        forall i | 0 <= i < k + 1
          ensures OccurrenceDiffs(c, p, ends[i]).Ok?
        {
          if i > 0 { assert ends[i] == ends[1..][i - 1]; }
        }
      }
      assert OccurrenceDiffs(c, p, ends[k + 1]) == Abort(OutsideTotals(c, p, ends).reason);
    }
  }

  /** The diff of position `j` for the occurrence ending at `ed`, measured
      in that occurrence's context window. */
  function WindowDiff(c: Corpus, p: seq<int>, ed: int, j: int): int
    requires 1 <= |p| && |p| - 1 <= ed < |c.tokens| && 0 <= j < |p|
  {
    Diff(c, p, WindowStart(c, ed - |p| + 1), WindowEnd(c, ed), j)
  }

  /** The diffs of position `j` summed over the occurrences `ends`. */
  function DiffTotal(c: Corpus, p: seq<int>, ends: seq<int>, j: int): int
    requires 1 <= |p| && InStream(ends, |p|, |c.tokens|) && 0 <= j < |p|
    decreases |ends|
  {
    if |ends| == 0 then 0
    else WindowDiff(c, p, ends[0], j) + DiffTotal(c, p, ends[1..], j)
  }

  /** When no assertion fails, `outside[j]` is the sum over the occurrences of
      the diffs of position `j`. */
  lemma {:induction false} OutsideTotalsSum(c: Corpus, p: seq<int>, ends: seq<int>)
    requires 1 <= |p| && InStream(ends, |p|, |c.tokens|)
    requires OutsideTotals(c, p, ends).Ok?
    ensures forall j :: 0 <= j < |p| ==> OutsideTotals(c, p, ends).value[j] == DiffTotal(c, p, ends, j)
    decreases |ends|
  {
    if |ends| > 0 {
      assert forall k :: 1 <= k < |ends| ==> ends[k] == ends[1..][k - 1];
      assert OccurrenceDiffs(c, p, ends[0]).Ok?;
      OutsideTotalsSum(c, p, ends[1..]);
    }
  }

  /** `sum(outside[j] * idf(tokens[j]))`. */
  function WeightedSum(c: Corpus, p: seq<int>, w: seq<int>): real
    requires |w| == |p|
  {
    if |p| == 0 then 0.0
    else WeightedSum(c, p[..|p| - 1], w[..|w| - 1]) + w[|w| - 1] as real * c.idf(p[|p| - 1])
  }

  lemma {:induction false} WeightedSumNonNegative(c: Corpus, p: seq<int>, w: seq<int>)
    requires |w| == |p|
    requires forall j :: 0 <= j < |p| ==> w[j] >= 0 && c.idf(p[j]) >= 0.0
    ensures WeightedSum(c, p, w) >= 0.0
  {
    if |p| > 0 {
      WeightedSumNonNegative(c, p[..|p| - 1], w[..|w| - 1]);
      assert w[|w| - 1] >= 0 && c.idf(p[|p| - 1]) >= 0.0;
    }
  }

  /** `stat_outside`: the idf-weighted average of the per-position totals,
      divided by the number of occurrences when there is one. It is non-finite
      exactly when the idf weights of the pattern sum to zero. */
  function OutsideFeature(c: Corpus, p: seq<int>, ends: seq<int>): (r: Result<Value>)
    requires 1 <= |p| && InStream(ends, |p|, |c.tokens|)
    ensures r.Ok? <==> OutsideTotals(c, p, ends).Ok?
    ensures r.Ok? ==> (r.value.Finite? <==> IdfSum(c, p) != 0.0)
    ensures r.Ok? ==> r.value == Average(WeightedSum(c, p, OutsideTotals(c, p, ends).value), |ends|, IdfSum(c, p))
  {
    var outside :- OutsideTotals(c, p, ends);
    Ok(Average(WeightedSum(c, p, outside), |ends|, IdfSum(c, p)))
  }

  /** A failing `stat_outside` reports the violation of the first occurrence
      that fails one of the three assertions; every earlier occurrence passes. */
  lemma OutsideFeatureReportsFirst(c: Corpus, p: seq<int>, ends: seq<int>)
    requires 1 <= |p| && InStream(ends, |p|, |c.tokens|)
    requires OutsideFeature(c, p, ends).Abort?
    ensures exists k ::
      && 0 <= k < |ends|
      && OccurrenceDiffs(c, p, ends[k]) == Abort(OutsideFeature(c, p, ends).reason)
      && (forall i :: 0 <= i < k ==> OccurrenceDiffs(c, p, ends[i]).Ok?)
  {
    assert OutsideFeature(c, p, ends) == Abort(OutsideTotals(c, p, ends).reason);
    OutsideTotalsReportsFirst(c, p, ends);
  }

  /** With non-negative idf weights the feature is a non-negative number. */
  lemma OutsideFeatureNonNegative(c: Corpus, p: seq<int>, ends: seq<int>)
    requires 1 <= |p| && InStream(ends, |p|, |c.tokens|)
    requires forall j :: 0 <= j < |p| ==> c.idf(p[j]) >= 0.0
    ensures OutsideFeature(c, p, ends).Ok? && OutsideFeature(c, p, ends).value.Finite?
      ==> OutsideFeature(c, p, ends).value.x >= 0.0
  {
    var r := OutsideTotals(c, p, ends);
    if r.Ok? && IdfSum(c, p) != 0.0 {
      WeightedSumNonNegative(c, p, r.value);
      IdfSumNonNegative(c, p);
      AverageNonNegative(WeightedSum(c, p, r.value), |ends|, IdfSum(c, p));
    }
  }

  /** The window-containment guarantee of the source: when the stream starts
      and ends on a sentence end and every occurrence spells the pattern out,
      the outside-context computation never fails an assertion. */
  lemma {:induction false} OutsideNeverAborts(c: Corpus, p: seq<int>, ends: seq<int>)
    requires 1 <= |p| && InStream(ends, |p|, |c.tokens|)
    requires OccurrencesMatch(c, p, ends)
    requires IsEnd(c, -1) && IsEnd(c, |c.tokens| - 1)
    ensures OutsideFeature(c, p, ends).Ok?
  {
    forall k | 0 <= k < |ends|
      ensures OccurrenceDiffs(c, p, ends[k]).Ok?
    {
      OccurrenceDiffsCountOutside(c, p, ends[k]);
    }
    assert OutsideTotals(c, p, ends).Ok?;
  }
}
