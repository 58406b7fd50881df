/** The corpus the feature engine reads: the token stream and the per-position
    and per-token predicates of the document model, all given as data. */
module Documents {

  /** `tokens` is the word-token stream; the sets hold the stream positions
      (sentence ends, capitalisation, punctuation marks) or the token ids
      (stopwords, digit-like tokens) for which a predicate holds. */
  datatype Corpus = Corpus(
    tokens: seq<int>,
    sentenceEnds: set<int>,
    stopwords: set<int>,
    digital: set<int>,
    idf: int -> real,
    firstCapital: set<int>,
    dashAfter: set<int>,
    quoteBefore: set<int>,
    quoteAfter: set<int>,
    parenBefore: set<int>,
    parenAfter: set<int>)

  predicate IsEnd(c: Corpus, pos: int)
  {
    pos in c.sentenceEnds
  }

  predicate StopOrDigit(c: Corpus, token: int)
  {
    token in c.stopwords || token in c.digital
  }

  /** Number of occurrences of `t` in `s`. */
  function Count(s: seq<int>, t: int): (n: nat)
    ensures n <= |s|
  {
    if |s| == 0 then 0
    else
      assert s == s[..|s| - 1] + [s[|s| - 1]];
      Count(s[..|s| - 1], t) + (if s[|s| - 1] == t then 1 else 0)
  }

  lemma {:induction false} CountConcat(a: seq<int>, b: seq<int>, t: int)
    ensures Count(a + b, t) == Count(a, t) + Count(b, t)
    decreases |b|
  {
    if |b| > 0 {
      assert (a + b)[..|a + b| - 1] == a + b[..|b| - 1];
      CountConcat(a, b[..|b| - 1], t);
    } else {
      assert a + b == a;
    }
  }

  /** Cutting a stretch of the stream in three splits its counts in three. */
  lemma CountSplit3(s: seq<int>, lo: int, a: int, b: int, hi: int, t: int)
    requires 0 <= lo <= a <= b <= hi <= |s|
    ensures Count(s[lo..hi], t) == Count(s[lo..a], t) + Count(s[a..b], t) + Count(s[b..hi], t)
  {
    assert s[lo..hi] == s[lo..a] + s[a..b] + s[b..hi];
    CountConcat(s[lo..a] + s[a..b], s[b..hi], t);
    CountConcat(s[lo..a], s[a..b], t);
  }

  /** Number of sentence-end positions in `[lo, hi)`. */
  function EndsBetween(c: Corpus, lo: int, hi: int): (n: nat)
    ensures n <= if lo < hi then hi - lo else 0
    decreases hi - lo
  {
    if lo >= hi then 0
    else (if IsEnd(c, lo) then 1 else 0) + EndsBetween(c, lo + 1, hi)
  }

  lemma {:induction false} EndsBetweenSplit(c: Corpus, lo: int, mid: int, hi: int)
    requires lo <= mid <= hi
    ensures EndsBetween(c, lo, hi) == EndsBetween(c, lo, mid) + EndsBetween(c, mid, hi)
    decreases mid - lo
  {
    if lo < mid {
      EndsBetweenSplit(c, lo + 1, mid, hi);
    }
  }

  /** Sum of the idf weights of the tokens of `p`. */
  function IdfSum(c: Corpus, p: seq<int>): real
  {
    if |p| == 0 then 0.0 else IdfSum(c, p[..|p| - 1]) + c.idf(p[|p| - 1])
  }

  /** Bounds on the idf weights of the tokens bound their sum. */
  lemma {:induction false} IdfSumBounds(c: Corpus, p: seq<int>, lo: real, hi: real)
    requires forall j :: 0 <= j < |p| ==> lo <= c.idf(p[j]) <= hi
    ensures lo * |p| as real <= IdfSum(c, p) <= hi * |p| as real
  {
    if |p| > 0 {
      IdfSumBounds(c, p[..|p| - 1], lo, hi);
      assert lo <= c.idf(p[|p| - 1]) <= hi;
    }
  }

  lemma {:induction false} IdfSumNonNegative(c: Corpus, p: seq<int>)
    requires forall j :: 0 <= j < |p| ==> c.idf(p[j]) >= 0.0
    ensures IdfSum(c, p) >= 0.0
  {
    if |p| > 0 {
      IdfSumNonNegative(c, p[..|p| - 1]);
      assert c.idf(p[|p| - 1]) >= 0.0;
    }
  }
}
