/** The lexical features `stopwords_1st`, `stopwords_last`, `stopwords_ratio`
    and `avg_idf`: functions of the pattern's tokens alone. */
module Stopwords {
  import opened Numbers
  import opened Documents

  /** Flag `j` tells whether token `j` of `p` is a stopword or digit-like. */
  function StopFlags(c: Corpus, p: seq<int>): (fs: seq<bool>)
    ensures |fs| == |p| && forall j :: 0 <= j < |p| ==> fs[j] == StopOrDigit(c, p[j])
  {
    seq(|p|, j requires 0 <= j < |p| => StopOrDigit(c, p[j]))
  }

  /** The positions of `p` that hold a stopword or a digit-like token. */
  function StopPositions(c: Corpus, p: seq<int>): set<int>
  {
    set j | 0 <= j < |p| && StopOrDigit(c, p[j])
  }

  /** Number of tokens of `p` that are stopwords or digit-like. */
  function StopCount(c: Corpus, p: seq<int>): (n: nat)
    ensures n == |StopPositions(c, p)|
    ensures n <= |p|
    ensures n == |p| <==> forall j :: 0 <= j < |p| ==> StopOrDigit(c, p[j])
    ensures n == 0 <==> forall j :: 0 <= j < |p| ==> !StopOrDigit(c, p[j])
  {
    assert TrueIndices(StopFlags(c, p)) == StopPositions(c, p);
    CountTrue(StopFlags(c, p))
  }

  /** `extractStopwords`: whether the first token is a stopword or digit-like;
      whether the last token is a stopword (digit-likeness is not consulted
      for it); the share of stopword-or-digit tokens; the average idf. */
  function ExtractStopwords(c: Corpus, p: seq<int>): (r: seq<Value>)
    requires 1 <= |p|
    ensures |r| == 4 && forall q :: 0 <= q < 4 ==> r[q].Finite?
    ensures r[0].x in {0.0, 1.0} && (r[0].x == 1.0 <==> p[0] in c.stopwords || p[0] in c.digital)
    ensures r[1].x in {0.0, 1.0} && (r[1].x == 1.0 <==> p[|p| - 1] in c.stopwords)
    ensures 0.0 <= r[2].x <= 1.0
    ensures r[2].x == 1.0 <==> forall j :: 0 <= j < |p| ==> StopOrDigit(c, p[j])
    ensures r[2].x == 0.0 <==> forall j :: 0 <= j < |p| ==> !StopOrDigit(c, p[j])
    ensures r[2] == Finite(Ratio(StopCount(c, p), |p|))
    ensures r[3].x * |p| as real == IdfSum(c, p)
  {
    [ FromBool(StopOrDigit(c, p[0])),
      FromBool(p[|p| - 1] in c.stopwords),
      Finite(Ratio(StopCount(c, p), |p|)),
      Finite(IdfSum(c, p) / |p| as real) ]
  }

  /** The average idf lies between the least and the greatest idf of the tokens. */
  lemma AverageIdfBounded(c: Corpus, p: seq<int>, lo: real, hi: real)
    requires 1 <= |p|
    requires forall j :: 0 <= j < |p| ==> lo <= c.idf(p[j]) <= hi
    ensures lo <= ExtractStopwords(c, p)[3].x <= hi
  {
    IdfSumBounds(c, p, lo, hi);
    DivideBounds(IdfSum(c, p), |p| as real, lo, hi);
  }
}
