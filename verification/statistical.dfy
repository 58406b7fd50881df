/** The statistical features `stat_f1`, `stat_f2`, `stat_f4` and `stat_outside`:
    the pattern is split into the two stored halves whose probabilities have
    the largest product, and compared with that split. */
module Statistical {
  import opened Numbers
  import opened Outcomes
  import opened Documents
  import opened PatternTable
  import opened OutsideContext

  /** The first `i + 1` tokens: the first half of split `i`. */
  function Left(p: seq<int>, i: nat): seq<int>
    requires i < |p|
  {
    p[..i + 1]
  }

  /** The tokens after the first `i + 1`: the second half of split `i`. */
  function Right(p: seq<int>, i: nat): seq<int>
    requires i < |p|
  {
    p[i + 1..]
  }

  /** Both halves of every split below `n` are stored. */
  predicate HalvesStored(t: Table, p: seq<int>, n: nat)
    requires n <= |p|
  {
    forall i :: 0 <= i < n ==> Left(p, i) in t.index && Right(p, i) in t.index
  }

  function Prob(t: Table, s: seq<int>): real
    requires WellIndexed(t) && s in t.index
  {
    t.patterns[t.index[s]].probability
  }

  /** The score of split `i`: the product of its halves' probabilities. */
  function Score(t: Table, p: seq<int>, i: nat): real
    requires WellIndexed(t) && i < |p| && Left(p, i) in t.index && Right(p, i) in t.index
  {
    Prob(t, Left(p, i)) * Prob(t, Right(p, i))
  }

  /** The scores of the `|p| - 1` splits, in split order. */
  function Scores(t: Table, p: seq<int>): (s: seq<real>)
    requires WellIndexed(t) && 1 <= |p| && HalvesStored(t, p, |p| - 1)
    ensures |s| == |p| - 1 && forall j :: 0 <= j < |s| ==> s[j] == Score(t, p, j)
  {
    seq(|p| - 1, j requires 0 <= j < |p| - 1 => Score(t, p, j))
  }

  /** `k` is the position the loop picks in `s`: the first one of maximal
      score, provided that score beats the initial -1; `k == -1` when no
      position does. */
  predicate IsFirstMax(s: seq<real>, k: int)
  {
    if k == -1 then
      forall j :: 0 <= j < |s| ==> s[j] <= -1.0
    else
      && 0 <= k < |s|
      && s[k] > -1.0
      && (forall j :: 0 <= j < |s| ==> s[j] <= s[k])
      && (forall j :: 0 <= j < k ==> s[j] < s[k])
  }

  /** `k` is the split the source picks among the `|p| - 1` splits. */
  predicate IsBestSplit(t: Table, p: seq<int>, k: int)
    requires WellIndexed(t) && 1 <= |p| && HalvesStored(t, p, |p| - 1)
  {
    IsFirstMax(Scores(t, p), k)
  }

  /** The loop over `i` with `best` and the position chosen so far; a
      position replaces the choice only when it beats `best` strictly. */
  function SearchSplits(s: seq<real>, i: nat, best: real, choice: int): (k: int)
    requires i <= |s|
    requires choice == -1 ==> best == -1.0 && forall j :: 0 <= j < i ==> s[j] <= -1.0
    requires choice != -1 ==>
      && 0 <= choice < i && best == s[choice] && best > -1.0
      && (forall j :: 0 <= j < i ==> s[j] <= best)
      && (forall j :: 0 <= j < choice ==> s[j] < best)
    ensures IsFirstMax(s, k)
    decreases |s| - i
  {
    if i < |s| then
      if s[i] > best then SearchSplits(s, i + 1, s[i], i)
      else SearchSplits(s, i + 1, best, choice)
    else
      choice
  }

  /** The split search of `extractStatistical`: it fails the assertion
      exactly when some split half is not stored, and otherwise returns the
      earliest split of maximal score. */
  function BestSplit(t: Table, p: seq<int>): (r: Result<int>)
    requires WellIndexed(t) && 1 <= |p|
    ensures r.Abort? <==> !HalvesStored(t, p, |p| - 1)
    ensures r.Abort? ==> r.reason == MissingSubPattern
    ensures r.Ok? ==> IsBestSplit(t, p, r.value)
    ensures r.Ok? ==> -1 <= r.value < |p| - 1
    ensures r.Ok? && r.value >= 0 ==> Left(p, r.value) in t.index && Right(p, r.value) in t.index
  {
    if !HalvesStored(t, p, |p| - 1) then Abort(MissingSubPattern)
    else Ok(SearchSplits(Scores(t, p), 0, -1.0, -1))
  }

  /** The tie-break makes the choice unique: at most one split is the best. */
  lemma BestSplitUnique(t: Table, p: seq<int>, k1: int, k2: int)
    requires WellIndexed(t) && 1 <= |p| && HalvesStored(t, p, |p| - 1)
    requires IsBestSplit(t, p, k1) && IsBestSplit(t, p, k2)
    ensures k1 == k2
  {
  }

  /** With non-negative probabilities some split of a pattern of length > 1 is chosen. */
  lemma SomeSplitChosen(t: Table, p: seq<int>)
    requires WellIndexed(t) && 2 <= |p|
    requires forall i :: 0 <= i < |t.patterns| ==> t.patterns[i].probability >= 0.0
    ensures BestSplit(t, p).Ok? ==> 0 <= BestSplit(t, p).value < |p| - 1
  {
  }

  /** A table closed under truncation stores both halves of every split of its patterns. */
  lemma {:induction false} ClosedTableStoresHalves(t: Table, p: seq<int>)
    requires TruncationClosed(t) && 1 <= |p| && p in t.index
    ensures HalvesStored(t, p, |p| - 1)
  {
    forall i | 0 <= i < |p| - 1
      ensures Left(p, i) in t.index && Right(p, i) in t.index
    {
      PiecesStored(t, p, 0, i + 1);
      PiecesStored(t, p, i + 1, |p|);
      assert p[0..i + 1] == Left(p, i) && p[i + 1..|p|] == Right(p, i);
    }
  }

  /** The ids of the chosen halves; 0 and 0 (the source's initial `AB` and
      `CD`) when no split was chosen. */
  function SplitIds(t: Table, p: seq<int>, k: int): (ids: (nat, nat))
    requires WellIndexed(t) && 1 <= |p| && |t.patterns| > 0 && -1 <= k < |p| - 1
    requires k >= 0 ==> Left(p, k) in t.index && Right(p, k) in t.index
    ensures ids.0 < |t.patterns| && ids.1 < |t.patterns|
  {
    if k < 0 then (0, 0) else (t.index[Left(p, k)], t.index[Right(p, k)])
  }

  /** `f1`: `probability / P(AB) / P(CD)` for the halves `AB`, `CD` of split `k`. */
  function F1(t: Table, p: seq<int>, k: int, probability: real): (f1: Value)
    requires WellIndexed(t) && 1 <= |p| && |t.patterns| > 0 && -1 <= k < |p| - 1
    requires k >= 0 ==> Left(p, k) in t.index && Right(p, k) in t.index
    ensures k >= 0 ==> f1 == if Score(t, p, k) == 0.0 then NonFinite else Finite(probability / Score(t, p, k))
  {
    var (ab, cd) := SplitIds(t, p, k);
    DivTwice(probability, t.patterns[ab].probability, t.patterns[cd].probability);
    Div(Div(Finite(probability), t.patterns[ab].probability), t.patterns[cd].probability)
  }

  /** `extractStatistical` for pattern `id`: `[f1, f2, f4, stat_outside]`.
      `f1` is the pattern's probability over the product of the best split's
      probabilities (non-finite when that product is zero). A failure reports
      the split search's violation if it has one, and otherwise the
      outside-context violation. */
  function ExtractStatistical(t: Table, c: Corpus, m: MathLib, id: nat): (r: Result<seq<Value>>)
    requires WellFormed(t, |c.tokens|) && id < |t.patterns|
    ensures r.Ok? <==>
      BestSplit(t, t.patterns[id].tokens).Ok?
      && OutsideFeature(c, t.patterns[id].tokens, t.patterns[id].ends).Ok?
    ensures r.Abort? && !BestSplit(t, t.patterns[id].tokens).Ok? ==> r.reason == MissingSubPattern
    ensures r.Abort? && BestSplit(t, t.patterns[id].tokens).Ok? ==>
      OutsideFeature(c, t.patterns[id].tokens, t.patterns[id].ends) == Abort(r.reason)
    ensures r.Ok? ==>
      && |r.value| == 4
      && r.value[3] == OutsideFeature(c, t.patterns[id].tokens, t.patterns[id].ends).value
    ensures r.Ok? ==>
      r.value[0] == F1(t, t.patterns[id].tokens, BestSplit(t, t.patterns[id].tokens).value, t.patterns[id].probability)
  {
    var pattern := t.patterns[id];
    var p := pattern.tokens;
    var split := BestSplit(t, p);
    if split.Abort? then Abort(split.reason)
    else
      var k := split.value;
      var (ab, cd) := SplitIds(t, p, k);
      var AB, CD := t.patterns[ab], t.patterns[cd];
      var f1 := F1(t, p, k, pattern.probability);
      var f2 := Div(Div(Finite(pattern.freq as real), m.sqrt(AB.freq as real)), m.sqrt(CD.freq as real));
      var f4 := if f1.Finite? then Scale(pattern.freq as real, m.log(f1.x)) else NonFinite;
      var outside := OutsideFeature(c, p, pattern.ends);
      if outside.Abort? then Abort(outside.reason)
      else Ok([f1, f2, f4, outside.value])
  }
}
