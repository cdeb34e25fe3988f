/** The input checks run before the analysis (`check_time_series`, `check_poly_ord`,
    `check_scale`, `check_q`). Python lets the caller pass floating-point values,
    so the inputs are reals and integrality is a value condition; the `isinstance`
    type tests have no counterpart, the Dafny signature fixes the type. */
module Validation {
  import opened Reals

  /** Python's `x % 1` on a float: the fractional part, floored. */
  function Mod1(x: real): (r: real)
    ensures 0.0 <= r < 1.0
    ensures r == 0.0 <==> IsIntegral(x)
  {
    x - x.Floor as real
  }

  predicate IsIntegral(x: real)
  {
    x.Floor as real == x
  }

  /** `np.any(xs % 1 != 0)`. */
  function AnyNonIntegral(xs: seq<real>): (b: bool)
    ensures b <==> exists i :: 0 <= i < |xs| && !IsIntegral(xs[i])
  {
    if xs == [] then false
    else Mod1(xs[0]) != 0.0 || AnyNonIntegral(xs[1..])
  }

  /** `np.var`: the mean squared deviation from the mean (no degrees-of-freedom correction). */
  function Variance(xs: seq<real>): (r: real)
    requires |xs| > 0
    ensures 0.0 <= r
  {
    var sq := Squares(Centre(xs, Average(xs)));
    SumNonNegative(sq);
    Average(sq)
  }

  /** Over exact reals the variance of a series is zero exactly when the series is constant. */
  lemma VarianceZeroIffConstant(xs: seq<real>)
    requires |xs| > 0
    ensures Variance(xs) == 0.0 <==> Constant(xs)
  {
    var m := Average(xs);
    var sq := Squares(Centre(xs, m));
    SumNonNegative(sq);
    assert Variance(xs) == 0.0 <==> Sum(sq) == 0.0;
    if Constant(xs) {
      SumConstant(xs, xs[0]);
      assert m == xs[0];
      assert forall i :: 0 <= i < |sq| ==> sq[i] == 0.0;
    }
    if Sum(sq) == 0.0 {
      assert forall i :: 0 <= i < |xs| ==> xs[i] == m by {
        forall i | 0 <= i < |xs| ensures xs[i] == m {
          assert sq[i] == 0.0;
          if xs[i] != m {
            SquarePositive(xs[i] - m);
          }
        }
      }
    }
  }

  /** `check_time_series`: refuses a series whose variance is zero. The variance of an
      empty array is NaN, which is not equal to zero, so an empty series is let through. */
  function CheckTimeSeries(data: seq<real>): (ok: bool)
    ensures ok <==> |data| == 0 || exists i :: 0 <= i < |data| && data[i] != data[0]
  {
    if |data| > 0 then
      VarianceZeroIffConstant(data);
      Variance(data) != 0.0
    else
      true
  }

  /** `check_poly_ord`: refuses a polynomial order with a fractional part. */
  function CheckPolyOrd(polyOrd: real): (ok: bool)
    ensures ok <==> polyOrd == polyOrd.Floor as real
  {
    Mod1(polyOrd) == 0.0
  }

  /** `check_scale`: refuses a scale vector of at most one element or with a non-integer entry. */
  function CheckScale(scale: seq<real>): (ok: bool)
    ensures ok <==> |scale| >= 2 && forall i :: 0 <= i < |scale| ==> IsIntegral(scale[i])
  {
    !(|scale| <= 1 || AnyNonIntegral(scale))
  }

  /** `check_q`: refuses a q vector with a non-integer entry; an empty vector passes. */
  function CheckQ(q: seq<real>): (ok: bool)
    ensures ok <==> forall i :: 0 <= i < |q| ==> IsIntegral(q[i])
  {
    !AnyNonIntegral(q)
  }

  /** The integer values of a checked vector. */
  function Integers(xs: seq<real>): (r: seq<int>)
    ensures |r| == |xs|
    ensures forall i :: 0 <= i < |xs| && IsIntegral(xs[i]) ==> r[i] as real == xs[i]
  {
    seq(|xs|, i requires 0 <= i < |xs| => xs[i].Floor)
  }

  /** `np.min` of a non-empty integer vector. */
  function Min(xs: seq<int>): (m: int)
    requires |xs| > 0
    ensures m in xs
    ensures forall i :: 0 <= i < |xs| ==> m <= xs[i]
  {
    if |xs| == 1 then xs[0]
    else
      var rest := Min(xs[1..]);
      if xs[0] <= rest then xs[0] else rest
  }
}
