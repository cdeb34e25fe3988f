/** Exact real arithmetic over series: sums, means, centring and squaring.
    NumPy computes these in floating point; the model computes them over `real`. */
module Reals {

  /** Sum of a series. */
  function Sum(xs: seq<real>): real
  {
    if xs == [] then 0.0 else Sum(xs[..|xs| - 1]) + xs[|xs| - 1]
  }

  /** The arithmetic mean of a non-empty series (`np.mean`). */
  function Average(xs: seq<real>): real
    requires |xs| > 0
  {
    Sum(xs) / |xs| as real
  }

  /** `np.mean` over a possibly empty array: NumPy answers NaN for an empty one,
      which the model represents by the value `nan` supplied by the caller. */
  function Mean(xs: seq<real>, nan: real): (r: real)
    ensures |xs| == 0 ==> r == nan
    ensures |xs| > 0 ==> r * |xs| as real == Sum(xs)
    ensures |xs| > 0 && Constant(xs) ==> r == xs[0]
  {
    if |xs| == 0 then nan
    else
      var m := Average(xs);
      assert Constant(xs) ==> m == xs[0] by {
        if Constant(xs) {
          SumConstant(xs, xs[0]);
        }
      }
      m
  }

  /** Every entry equals the first. */
  predicate Constant(xs: seq<real>)
  {
    forall i :: 0 <= i < |xs| ==> xs[i] == xs[0]
  }

  /** `xs - m`, element by element. */
  function Centre(xs: seq<real>, m: real): (r: seq<real>)
    ensures |r| == |xs|
  {
    seq(|xs|, i requires 0 <= i < |xs| => xs[i] - m)
  }

  /** `x ** 2`. */
  function Square(x: real): (r: real)
    ensures 0.0 <= r
  {
    x * x
  }

  /** `xs ** 2`, element by element. */
  function Squares(xs: seq<real>): (r: seq<real>)
    ensures |r| == |xs|
    ensures forall i :: 0 <= i < |xs| ==> 0.0 <= r[i]
  {
    seq(|xs|, i requires 0 <= i < |xs| => Square(xs[i]))
  }

  /** The product of two reals, kept behind a function so that the solver reasons about
      `Product(x, x)` as one term rather than about the square `x * x`. */
  function Product(a: real, b: real): real
  {
    a * b
  }

  lemma ProductPositive(a: real, b: real)
    requires (0.0 < a && 0.0 < b) || (a < 0.0 && b < 0.0)
    ensures 0.0 < Product(a, b)
  {
  }

  /** The square of a non-zero real is positive. */
  lemma SquarePositive(x: real)
    requires x != 0.0
    ensures 0.0 < Square(x)
  {
    ProductPositive(x, x);
    assert Square(x) == Product(x, x);
  }

  /** A sum of non-negative terms is non-negative, and it is zero exactly when every term is. */
  lemma {:induction false} SumNonNegative(xs: seq<real>)
    requires forall i :: 0 <= i < |xs| ==> 0.0 <= xs[i]
    ensures 0.0 <= Sum(xs)
    ensures Sum(xs) == 0.0 <==> forall i :: 0 <= i < |xs| ==> xs[i] == 0.0
  {
    if xs != [] {
      var init := xs[..|xs| - 1];
      SumNonNegative(init);
      assert forall i :: 0 <= i < |init| ==> init[i] == xs[i];
    }
  }

  /** Every term of a series equal to `c`: the sum is `|xs| * c`. */
  lemma {:induction false} SumConstant(xs: seq<real>, c: real)
    requires forall i :: 0 <= i < |xs| ==> xs[i] == c
    ensures Sum(xs) == |xs| as real * c
  {
    if xs != [] {
      SumConstant(xs[..|xs| - 1], c);
    }
  }

  /** Subtracting `m` from every term subtracts `|xs| * m` from the sum. */
  lemma {:induction false} SumCentre(xs: seq<real>, m: real)
    ensures Sum(Centre(xs, m)) == Sum(xs) - |xs| as real * m
  {
    if xs != [] {
      var n := |xs|;
      assert Centre(xs, m)[..n - 1] == Centre(xs[..n - 1], m);
      SumCentre(xs[..n - 1], m);
    }
  }

  /** The terms of a series centred on its own mean sum to zero. */
  lemma CentredSumIsZero(xs: seq<real>)
    requires |xs| > 0
    ensures Sum(Centre(xs, Average(xs))) == 0.0
  {
    SumCentre(xs, Average(xs));
  }
}
