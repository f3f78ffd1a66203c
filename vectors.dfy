/**
 The numpy vector operations the filter relies on (np.sum, np.prod, elementwise
 multiplication, matrix-vector product, np.argmax), stated over exact reals.
 */
module Vectors {

  /** np.sum of a vector. */
  function Sum(v: seq<real>): real
  {
    if |v| == 0 then 0.0 else v[0] + Sum(v[1..])
  }

  /** np.prod of a vector (1 for the empty vector). */
  function Prod(v: seq<real>): real
  {
    if |v| == 0 then 1.0 else v[0] * Prod(v[1..])
  }

  /** Elementwise product `a * b` of two vectors of equal length. */
  function Mul(a: seq<real>, b: seq<real>): (r: seq<real>)
    requires |a| == |b|
  {
    seq(|a|, i requires 0 <= i < |a| => a[i] * b[i])
  }

  /** Dot product of a matrix row with a vector. */
  function Dot(row: seq<real>, v: seq<real>): real
    requires |row| == |v|
  {
    Sum(Mul(row, v))
  }

  /** np.matmul of a matrix (rows of length |v|) with a vector. */
  function MatVec(m: seq<seq<real>>, v: seq<real>): (r: seq<real>)
    requires forall i :: 0 <= i < |m| ==> |m[i]| == |v|
  {
    seq(|m|, i requires 0 <= i < |m| => Dot(m[i], v))
  }

  predicate AllEqual(v: seq<real>, c: real)
  {
    forall i :: 0 <= i < |v| ==> v[i] == c
  }

  predicate NonNegative(v: seq<real>)
  {
    forall i :: 0 <= i < |v| ==> 0.0 <= v[i]
  }

  predicate Positive(v: seq<real>)
  {
    forall i :: 0 <= i < |v| ==> 0.0 < v[i]
  }

  /**
   np.argmax: the first index holding the largest entry. The scan keeps the
   earlier index on ties, so every entry before the result is strictly smaller.
   */
  function ArgMax(v: seq<real>): (k: nat)
    requires |v| > 0
    ensures k < |v|
    ensures forall j :: 0 <= j < |v| ==> v[j] <= v[k]
    ensures forall j :: 0 <= j < k ==> v[j] < v[k]
  {
    if |v| == 1 then 0
    else
      var k' := ArgMax(v[..|v| - 1]);
      if v[k'] < v[|v| - 1] then |v| - 1 else k'
  }

  /** A vector whose entries all equal c sums to |v| * c. */
  lemma {:induction false} SumOfConstant(v: seq<real>, c: real)
    requires AllEqual(v, c)
    ensures Sum(v) == |v| as real * c
  {
    if |v| > 0 {
      assert AllEqual(v[1..], c);
      SumOfConstant(v[1..], c);
    }
  }

  /**
   A vector that is c everywhere except at index d, where it is e, sums to
   (|v| - 1) * c + e.
   */
  lemma {:induction false} SumOfConstantWithOneException(v: seq<real>, d: nat, c: real, e: real)
    requires d < |v|
    requires v[d] == e
    requires forall i :: 0 <= i < |v| && i != d ==> v[i] == c
    ensures Sum(v) == (|v| - 1) as real * c + e
  {
    if d == 0 {
      assert AllEqual(v[1..], c);
      SumOfConstant(v[1..], c);
    } else {
      SumOfConstantWithOneException(v[1..], d - 1, c, e);
    }
  }

  /** Non-negative entries have a non-negative sum. */
  lemma {:induction false} SumNonNegative(v: seq<real>)
    requires NonNegative(v)
    ensures 0.0 <= Sum(v)
  {
    if |v| > 0 {
      SumNonNegative(v[1..]);
    }
  }

  /** Dividing every entry by s divides the sum by s. */
  lemma {:induction false} SumOfQuotients(v: seq<real>, w: seq<real>, s: real)
    requires s != 0.0
    requires |w| == |v|
    requires forall i :: 0 <= i < |v| ==> w[i] == v[i] / s
    ensures Sum(w) == Sum(v) / s
  {
    if |v| > 0 {
      SumOfQuotients(v[1..], w[1..], s);
    }
  }

  /** Sum distributes over the pointwise product with a constant vector. */
  lemma {:induction false} DotWithConstant(row: seq<real>, v: seq<real>, c: real)
    requires |row| == |v|
    requires AllEqual(v, c)
    ensures Dot(row, v) == c * Sum(row)
  {
    if |row| > 0 {
      assert |Mul(row, v)[1..]| == |Mul(row[1..], v[1..])|;
      assert forall i :: 0 <= i < |row| - 1 ==> Mul(row, v)[1..][i] == Mul(row[1..], v[1..])[i];
      assert Mul(row, v)[1..] == Mul(row[1..], v[1..]);
      assert AllEqual(v[1..], c);
      DotWithConstant(row[1..], v[1..], c);
    }
  }

  /** A product of positive factors is positive. */
  lemma {:induction false} ProdPositive(v: seq<real>)
    requires Positive(v)
    ensures 0.0 < Prod(v)
  {
    if |v| > 0 {
      ProdPositive(v[1..]);
    }
  }
}
