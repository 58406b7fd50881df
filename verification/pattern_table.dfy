/** The pattern table the miner fills in before feature extraction: one record
    per pattern id, and the lookup from token sequence to id. The source keys
    that lookup by a hash of the token sequence; here it is keyed by the token
    sequence itself, so hash collisions are not modelled. */
module PatternTable {
  import opened Documents

  /** `freq` is the current frequency, `ends` the end offsets of the recorded
      occurrences in the token stream. */
  datatype Pattern = Pattern(
    tokens: seq<int>,
    freq: nat,
    probability: real,
    ends: seq<int>,
    classLabel: int)

  datatype Table = Table(patterns: seq<Pattern>, index: map<seq<int>, nat>)

  /** The lookup and the records agree: it is a bijection between the keys
      and the ids, and each id's record holds its key as tokens. */
  predicate WellIndexed(t: Table)
  {
    && (forall s :: s in t.index ==> t.index[s] < |t.patterns| && t.patterns[t.index[s]].tokens == s)
    && (forall i :: 0 <= i < |t.patterns| ==> t.patterns[i].tokens in t.index && t.index[t.patterns[i].tokens] == i)
  }

  /** Every occurrence `[ed - L + 1, ed]` of a pattern of length `L` lies inside a stream of `n` tokens. */
  predicate InStream(ends: seq<int>, len: nat, n: nat)
  {
    forall k :: 0 <= k < |ends| ==> len - 1 <= ends[k] < n
  }

  /** The table invariants the feature engine relies on without checking them. */
  predicate WellFormed(t: Table, n: nat)
  {
    && WellIndexed(t)
    && forall i :: 0 <= i < |t.patterns| ==>
         |t.patterns[i].tokens| >= 1 && InStream(t.patterns[i].ends, |t.patterns[i].tokens|, n)
  }

  /** Each recorded occurrence spells the pattern out in the corpus. */
  predicate OccurrencesMatch(c: Corpus, p: seq<int>, ends: seq<int>)
    requires InStream(ends, |p|, |c.tokens|)
  {
    forall k :: 0 <= k < |ends| ==> c.tokens[ends[k] - |p| + 1..ends[k] + 1] == p
  }

  /** The miner's closure guarantee: both length L-1 truncations of a stored
      pattern of length L > 1 are stored too. */
  predicate TruncationClosed(t: Table)
  {
    forall s :: s in t.index && |s| > 1 ==> s[..|s| - 1] in t.index && s[1..] in t.index
  }

  /** `getFrequency`: the stored frequency of the pattern with tokens `s`, 0 if none is stored. */
  function GetFrequency(t: Table, s: seq<int>): nat
    requires WellIndexed(t)
  {
    if s in t.index then t.patterns[t.index[s]].freq else 0
  }

  /** `getFrequency` answers from the record that holds `s`, and 0 when no record does. */
  lemma GetFrequencyFindsRecord(t: Table, s: seq<int>)
    requires WellIndexed(t)
    ensures forall i :: 0 <= i < |t.patterns| && t.patterns[i].tokens == s ==> GetFrequency(t, s) == t.patterns[i].freq
    ensures (forall i :: 0 <= i < |t.patterns| ==> t.patterns[i].tokens != s) ==> GetFrequency(t, s) == 0
  {
  }

  /** Closure under truncation reaches every non-empty contiguous piece of a stored pattern. */
  lemma {:induction false} PiecesStored(t: Table, s: seq<int>, a: int, b: int)
    requires TruncationClosed(t) && s in t.index
    requires 0 <= a < b <= |s|
    ensures s[a..b] in t.index
    decreases |s| - (b - a)
  {
    if b < |s| {
      var shorter := s[..|s| - 1];
      assert shorter[a..b] == s[a..b];
      PiecesStored(t, shorter, a, b);
    } else if a > 0 {
      var shorter := s[1..];
      assert shorter[a - 1..b - 1] == s[a..b];
      PiecesStored(t, shorter, a - 1, b - 1);
    } else {
      assert s[a..b] == s;
    }
  }
}
