/** The completeness features `complete_sub` and `complete_super`: the
    pattern's frequency against its truncations and against the longer
    patterns its occurrences extend to. */
module Completeness {
  import opened Numbers
  import opened Documents
  import opened PatternTable

  /** `subFreq`: the largest of the pattern's own frequency and the frequencies
      of its two truncations (drop the last token, drop the first token). */
  function SubFrequency(t: Table, p: seq<int>, freq: nat): (r: nat)
    requires WellIndexed(t) && 1 <= |p|
    ensures r >= freq && r >= GetFrequency(t, p[..|p| - 1]) && r >= GetFrequency(t, p[1..])
    ensures r == freq || r == GetFrequency(t, p[..|p| - 1]) || r == GetFrequency(t, p[1..])
  {
    Max(Max(freq, GetFrequency(t, p[..|p| - 1])), GetFrequency(t, p[1..]))
  }

  /** The left candidate of the occurrence ending at `ed` is looked up when
      `st = ed - len` is positive and position `st - 1` is not a sentence end. */
  predicate HasLeftCandidate(c: Corpus, len: nat, ed: int)
  {
    ed - len > 0 && !IsEnd(c, ed - len - 1)
  }

  /** The right candidate is looked up when `ed` is not a sentence end and a token follows it. */
  predicate HasRightCandidate(c: Corpus, ed: int)
  {
    !IsEnd(c, ed) && ed + 1 < |c.tokens|
  }

  /** The stream slice `[st - 1, ed]` with `st = ed - len`: it holds `len + 2`
      tokens, the occurrence preceded by the TWO tokens before it. */
  function LeftExtension(c: Corpus, len: nat, ed: int): (s: seq<int>)
    requires 0 < ed - len && ed < |c.tokens|
    ensures |s| == len + 2
    ensures s[..2] == c.tokens[ed - len - 1..ed - len + 1]
    ensures s[2..] == c.tokens[ed - len + 1..ed + 1]
  {
    c.tokens[ed - len - 1..ed + 1]
  }

  /** The pattern followed by the token after the occurrence. */
  function RightExtension(c: Corpus, p: seq<int>, ed: int): (s: seq<int>)
    requires 0 <= ed + 1 < |c.tokens|
    ensures |s| == |p| + 1 && s[..|p|] == p && s[|p|] == c.tokens[ed + 1]
  {
    p + [c.tokens[ed + 1]]
  }

  /** `f` is the frequency of a candidate the occurrence ending at `ed` has. */
  predicate IsCandidate(t: Table, c: Corpus, p: seq<int>, ed: int, f: nat)
    requires WellIndexed(t) && 1 <= |p| && |p| - 1 <= ed < |c.tokens|
  {
    || (HasLeftCandidate(c, |p|, ed) && f == GetFrequency(t, LeftExtension(c, |p|, ed)))
    || (HasRightCandidate(c, ed) && f == GetFrequency(t, RightExtension(c, p, ed)))
  }

  /** The largest candidate frequency of one occurrence (0 without candidates). */
  function OccurrenceSuper(t: Table, c: Corpus, p: seq<int>, ed: int): nat
    requires WellIndexed(t) && 1 <= |p| && |p| - 1 <= ed < |c.tokens|
  {
    Max(
      if HasLeftCandidate(c, |p|, ed) then GetFrequency(t, LeftExtension(c, |p|, ed)) else 0,
      if HasRightCandidate(c, ed) then GetFrequency(t, RightExtension(c, p, ed)) else 0)
  }

  /** `superFreq`: the largest candidate frequency over all occurrences, or 0
      when no occurrence has a candidate. */
  function SuperFrequency(t: Table, c: Corpus, p: seq<int>, ends: seq<int>): (r: nat)
    requires WellIndexed(t) && 1 <= |p| && InStream(ends, |p|, |c.tokens|)
    ensures forall k :: 0 <= k < |ends| && HasLeftCandidate(c, |p|, ends[k]) ==>
      GetFrequency(t, LeftExtension(c, |p|, ends[k])) <= r
    ensures forall k :: 0 <= k < |ends| && HasRightCandidate(c, ends[k]) ==>
      GetFrequency(t, RightExtension(c, p, ends[k])) <= r
    ensures r == 0 || exists k :: 0 <= k < |ends| && IsCandidate(t, c, p, ends[k], r)
    decreases |ends|
  {
    if |ends| == 0 then 0
    else
      var here := OccurrenceSuper(t, c, p, ends[0]);
      var rest := SuperFrequency(t, c, p, ends[1..]);
      assert forall k :: 1 <= k < |ends| ==> ends[k] == ends[1..][k - 1];
      Max(here, rest)
  }

  /** An occurrence starting at stream position 0 or 1 has no left candidate,
      even when a token precedes it. */
  lemma NoLeftCandidateAtStreamStart(c: Corpus, len: nat, ed: int)
    requires ed - len + 1 <= 1
    ensures !HasLeftCandidate(c, len, ed)
  {
  }

  /** `extractCompleteness` for pattern `id`: `[complete_sub, complete_super]`,
      `freq / subFreq` and `superFreq / freq`. */
  function ExtractCompleteness(t: Table, c: Corpus, id: nat): (r: seq<Value>)
    requires WellFormed(t, |c.tokens|) && id < |t.patterns|
    ensures |r| == 2
    ensures var pat := t.patterns[id]; var p, freq := pat.tokens, pat.freq;
      && (freq > 0 ==> r[0].Finite? && 0.0 < r[0].x <= 1.0)
      && (freq > 0 ==> (r[0].x == 1.0 <==>
            GetFrequency(t, p[..|p| - 1]) <= freq && GetFrequency(t, p[1..]) <= freq))
      && (freq == 0 ==> (r[0] == Finite(0.0) || r[0] == NonFinite))
      && (freq == 0 ==> r[1] == NonFinite)
    ensures t.patterns[id].freq == 0 ==>
      (r[0] == NonFinite <==> SubFrequency(t, t.patterns[id].tokens, 0) == 0)
    ensures t.patterns[id].freq > 0 ==>
      r[0] == Finite(t.patterns[id].freq as real / SubFrequency(t, t.patterns[id].tokens, t.patterns[id].freq) as real)
    ensures t.patterns[id].freq > 0 ==>
      r[1] == Finite(SuperFrequency(t, c, t.patterns[id].tokens, t.patterns[id].ends) as real / t.patterns[id].freq as real)
  {
    var pat := t.patterns[id];
    Ratios(pat.freq, SubFrequency(t, pat.tokens, pat.freq), SuperFrequency(t, c, pat.tokens, pat.ends))
  }

  /** `[freq / subFreq, superFreq / freq]` for a sub-frequency at least `freq`. */
  function Ratios(freq: nat, subFreq: nat, superFreq: nat): (r: seq<Value>)
    requires freq <= subFreq
    ensures |r| == 2
    ensures freq > 0 ==> r[0].Finite? && 0.0 < r[0].x <= 1.0 && (r[0].x == 1.0 <==> subFreq == freq)
    ensures freq == 0 ==> (r[0] == Finite(0.0) || r[0] == NonFinite)
    ensures freq == 0 ==> r[1] == NonFinite
    ensures freq == 0 ==> (r[0] == NonFinite <==> subFreq == 0)
    ensures freq > 0 ==> r[0] == Finite(freq as real / subFreq as real)
    ensures freq > 0 ==> r[1] == Finite(superFreq as real / freq as real)
  {
    var sub := Div(Finite(freq as real), subFreq as real);
    if freq > 0 then
      DivIsRatio(freq, subFreq);
      [sub, Div(Finite(superFreq as real), freq as real)]
    else
      [sub, Div(Finite(superFreq as real), freq as real)]
  }
}
