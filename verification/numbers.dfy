/** Double-precision values as the feature routines produce them. Finite values
    are modelled exactly (rounding is not modelled); the infinities and NaNs that
    a division by zero produces are collapsed into one `NonFinite` value. */
module Numbers {

  datatype Value = Finite(x: real) | NonFinite

  /** `a / b` in double arithmetic. */
  function Div(a: Value, b: real): (r: Value)
    ensures r.Finite? <==> a.Finite? && b != 0.0
    ensures r.Finite? ==> r.x * b == a.x
  {
    if a.Finite? && b != 0.0 then Finite(a.x / b) else NonFinite
  }

  /** Dividing twice is dividing once by the product. */
  lemma DivTwice(x: real, a: real, b: real)
    ensures Div(Div(Finite(x), a), b) == if a * b == 0.0 then NonFinite else Finite(x / (a * b))
  {
    if a != 0.0 && b != 0.0 {
      assert x / a / b == x / (a * b);
    }
  }

  /** The indices of `bs` that hold `true`. */
  function TrueIndices(bs: seq<bool>): set<int>
  {
    set k | 0 <= k < |bs| && bs[k]
  }

  /** The number of `true` entries of `bs`, counted as the source's loops count
      them: one at a time, in order. */
  function CountTrue(bs: seq<bool>): (n: nat)
    ensures n == |TrueIndices(bs)|
    ensures n <= |bs|
    ensures n == |bs| <==> forall k :: 0 <= k < |bs| ==> bs[k]
    ensures n == 0 <==> forall k :: 0 <= k < |bs| ==> !bs[k]
  {
    if |bs| == 0 then 0
    else
      var last := |bs| - 1;
      TrueIndicesStep(bs);
      assert forall k :: 0 <= k < last ==> bs[..last][k] == bs[k];
      CountTrue(bs[..last]) + (if bs[last] then 1 else 0)
  }

  /** The last index joins the `true` indices of the shorter prefix exactly
      when it holds `true`. */
  lemma TrueIndicesStep(bs: seq<bool>)
    requires 1 <= |bs|
    ensures |TrueIndices(bs)| == |TrueIndices(bs[..|bs| - 1])| + if bs[|bs| - 1] then 1 else 0
  {
    var last := |bs| - 1;
    var before, after := TrueIndices(bs[..last]), TrueIndices(bs);
    var added := if bs[last] then {last} else {};
    assert last !in before;
    forall k | k in after
      ensures k in before + added
    {
      if k < last {
        assert bs[..last][k] == bs[k];
      }
    }
    forall k | k in before
      ensures k in after
    {
      assert bs[..last][k] == bs[k];
    }
    assert after == before + added;
  }

  /** The double quotient `count / total` for a count out of a non-zero total: the share
      that times `total` gives back `count`; it lies in [0, 1] and is 1 exactly
      for the full count and 0 exactly for none. */
  function Ratio(count: nat, total: nat): (r: real)
    requires count <= total && total > 0
    ensures r * total as real == count as real
    ensures 0.0 <= r <= 1.0
    ensures r == 1.0 <==> count == total
    ensures r == 0.0 <==> count == 0
  {
    var r := count as real / total as real;
    DivideBounds(count as real, total as real, 0.0, 1.0);
    assert r * total as real == count as real;
    r
  }

  lemma DivIsRatio(count: nat, total: nat)
    requires count <= total && total > 0
    ensures Div(Finite(count as real), total as real) == Finite(Ratio(count, total))
  {
  }

  /** Dividing by a positive number keeps bounds scaled by it. */
  lemma DivideBounds(s: real, n: real, lo: real, hi: real)
    requires n > 0.0 && lo * n <= s <= hi * n
    ensures lo <= s / n <= hi
  {
    assert lo * n / n == lo && hi * n / n == hi;
  }

  /** `sum / count / norm` in double arithmetic, where the division by the
      count is skipped when the count is 0. Undoing both divisions gives the
      sum back. */
  function Average(sum: real, count: nat, norm: real): (v: Value)
    ensures v.Finite? <==> norm != 0.0
    ensures v.Finite? ==> v.x * norm * (if count > 0 then count as real else 1.0) == sum
  {
    var scaled := if count > 0 then sum / count as real else sum;
    Div(Finite(scaled), norm)
  }

  /** A non-negative sum over a positive norm has a non-negative average. */
  lemma AverageNonNegative(sum: real, count: nat, norm: real)
    requires sum >= 0.0 && norm > 0.0
    ensures Average(sum, count, norm).Finite? && Average(sum, count, norm).x >= 0.0
  {
    var scaled := if count > 0 then sum / count as real else sum;
    assert scaled >= 0.0;
  }

  /** `k * a` in double arithmetic; a non-finite factor keeps the product non-finite. */
  function Scale(k: real, a: Value): Value
  {
    if a.Finite? then Finite(k * a.x) else NonFinite
  }

  /** A C++ `bool` or count pushed into a `vector<double>`. */
  function FromBool(b: bool): Value
  {
    if b then Finite(1.0) else Finite(0.0)
  }

  function Max(a: nat, b: nat): nat
  {
    if a >= b then a else b
  }

  /** The sqrt and log of the C library, as the caller's environment provides them. */
  datatype MathLib = MathLib(sqrt: real -> real, log: real -> Value)
}
