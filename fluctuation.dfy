/** The segment loops of `multifractality` (multifractal_analysis.py, lines 130-160): the
    detrended RMS of every segment, the fluctuation table `Fq` indexed by (q, scale), and
    the generalized Hurst exponent of every q. */
module Fluctuation {
  import opened Reals
  import opened Kernels
  import opened Outcomes
  import opened Segmentation

  /** Lines 141-144: the root mean square of the residual left in segment v at scale s
      once the degree-d trend is removed. */
  function SegmentRms(k: Numerics, x: seq<real>, s: int, v: nat, d: int): (r: real)
    requires s > 0 && v < SegmentCount(|x|, s)
    ensures SqrtNonNegative(k) ==> 0.0 <= r
  {
    SegmentInBounds(|x|, s, v);
    var idx := Segment(v, s);
    var ys := seq(s, i requires 0 <= i < s => x[idx[i]]);
    var residuals := seq(s, i requires 0 <= i < s => ys[i] - k.fit(idx, ys, d, idx[i]));
    SumNonNegative(Squares(residuals));
    k.sqrt(Average(Squares(residuals)))
  }

  /** Lines 136-144: the RMS values of the segments at scale s, one per whole segment. A
      negative scale over an empty series has none. */
  function ScaleRms(k: Numerics, x: seq<real>, s: int, d: int): (r: seq<real>)
    requires Admissible(|x|, s)
    ensures |r| == Segments(|x|, s)
    ensures SqrtNonNegative(k) ==> forall v :: 0 <= v < |r| ==> 0.0 <= r[v]
  {
    if s < 0 then []
    else seq(SegmentCount(|x|, s), v requires 0 <= v < SegmentCount(|x|, s) => SegmentRms(k, x, s, v, d))
  }

  /** Lines 148-149: `np.mean(rms ** q) ** (1 / q)`. With no RMS values the mean is NumPy's
      NaN; when every RMS value is the same the mean is that value's power. */
  function PowerMean(k: Numerics, rms: seq<real>, q: int): (r: real)
    ensures |rms| == 0 ==> r == k.root(k.nan, q)
    ensures |rms| > 0 && Constant(rms) ==> r == k.root(k.power(rms[0], q), q)
  {
    var powers := seq(|rms|, v requires 0 <= v < |rms| => k.power(rms[v], q));
    assert Constant(rms) ==> Constant(powers);
    k.root(Mean(powers, k.nan), q)
  }

  /** Line 150: `np.exp(0.5 * np.mean(np.log(rms ** 2)))`, the geometric mean of the RMS
      values. With none it is taken of NumPy's NaN; when every RMS value is the same it is
      `exp(log(r ** 2) / 2)` of that value. */
  function GeometricMean(k: Numerics, rms: seq<real>): (r: real)
    ensures |rms| == 0 ==> r == k.exp(0.5 * k.nan)
    ensures |rms| > 0 && Constant(rms) ==> r == k.exp(0.5 * k.log(Square(rms[0])))
  {
    var logs := seq(|rms|, v requires 0 <= v < |rms| => k.log(Square(rms[v])));
    assert Constant(rms) ==> Constant(logs);
    k.exp(0.5 * Mean(logs, k.nan))
  }

  /** The value the table holds for order q once the scale's column is complete: the power
      mean, or the geometric mean for q = 0. */
  function Fluct(k: Numerics, rms: seq<real>, q: int): (r: real)
    ensures |rms| == 0 ==> r == if q == 0 then k.exp(0.5 * k.nan) else k.root(k.nan, q)
    ensures |rms| > 0 && Constant(rms) ==>
      r == if q == 0 then k.exp(0.5 * k.log(Square(rms[0]))) else k.root(k.power(rms[0], q), q)
  {
    if q == 0 then GeometricMean(k, rms) else PowerMean(k, rms, q)
  }

  /** The `ValueError` the scale loop raises first, if any: `np.zeros` refuses the negative
      segment count of a negative scale over a non-empty series (and the count of a zero
      scale), and `np.polyfit` refuses a negative degree as soon as a segment is fitted. */
  function LoopError(n: nat, scale: seq<int>, d: int): (e: Option<Error>)
    ensures e.None? ==> forall i :: 0 <= i < |scale| ==> Admissible(n, scale[i])
    ensures e == Some(NegativeDegree) ==> d < 0
    ensures e.Some? ==> e.value == NegativeDimensions || e.value == NegativeDegree
  {
    if scale == [] then None
    else if scale[0] == 0 || Segments(n, scale[0]) < 0 then Some(NegativeDimensions)
    else if Segments(n, scale[0]) > 0 && d < 0 then Some(NegativeDegree)
    else LoopError(n, scale[1..], d)
  }

  /** With a non-negative order and every scale at least order + 1 the loop raises nothing. */
  lemma {:induction false} NoLoopError(n: nat, scale: seq<int>, d: int)
    requires 0 <= d
    requires forall i :: 0 <= i < |scale| ==> d + 1 <= scale[i]
    ensures LoopError(n, scale, d) == None
  {
    if scale != [] {
      NoLoopError(n, scale[1..], d);
    }
  }

  /** Lines 136-144: the segment RMS values at scale s, filled segment by segment into a
      fresh array. `np.polyfit` refuses a negative degree at the first segment. */
  method ScaleRmsValues(k: Numerics, x: seq<real>, s: int, d: int) returns (r: Result<array<real>>)
    requires Admissible(|x|, s)
    ensures r.Failure? <==> Segments(|x|, s) > 0 && d < 0
    ensures r.Failure? ==> r.error == NegativeDegree
    ensures r.Success? ==> r.value[..] == ScaleRms(k, x, s, d)
  {
    var m: nat := Segments(|x|, s);
    var rms := new real[m](_ => 0.0);
    for v := 0 to m
      invariant forall w :: 0 <= w < v ==> rms[w] == SegmentRms(k, x, s, w, d)
      invariant 0 < v ==> 0 <= d
    {
      if d < 0 {
        return Failure(NegativeDegree);
      }
      rms[v] := SegmentRms(k, x, s, v, d);
    }
    return Success(rms);
  }

  /** Lines 146-150: column s of `Fq`. Every row gets the power mean of the RMS values, then
      the rows whose q is 0 (all of them, when 0 occurs more than once) are overwritten
      with the geometric mean. The other columns are left as they were. */
  method FillColumn(k: Numerics, fq: array2<real>, s: int, rms: seq<real>, q: seq<int>)
    requires fq.Length0 == |q| && 0 <= s < fq.Length1
    modifies fq
    ensures forall j, t :: 0 <= j < |q| && 0 <= t < fq.Length1 ==>
      fq[j, t] == if t == s then Fluct(k, rms, q[j]) else old(fq[j, t])
  {
    for j := 0 to |q|
      invariant forall i, t :: 0 <= i < |q| && 0 <= t < fq.Length1 ==>
        fq[i, t] == if t == s && i < j then PowerMean(k, rms, q[i]) else old(fq[i, t])
    {
      fq[j, s] := PowerMean(k, rms, q[j]);
    }
    forall j | 0 <= j < |q| && q[j] == 0 {
      fq[j, s] := GeometricMean(k, rms);
    }
  }

  /** Lines 130-150. `Fq` has one row per q and one column per scale, and after the loop
      every cell holds the value `Fluct` gives for its q and the RMS values of its scale.
      `fitted` tells whether line 142 ever ran, that is whether the coefficients `C` that
      line 161 reads are bound. */
  method Fluctuations(k: Numerics, x: seq<real>, scale: seq<int>, q: seq<int>, d: int)
    returns (r: Result<array2<real>>, fitted: bool)
    ensures r.Failure? <==> LoopError(|x|, scale, d).Some?
    ensures r.Failure? ==> LoopError(|x|, scale, d) == Some(r.error)
    ensures r.Success? ==>
      && (forall s :: 0 <= s < |scale| ==> Admissible(|x|, scale[s]))
      && (fitted <==> AnySegment(|x|, scale))
      && r.value.Length0 == |q| && r.value.Length1 == |scale|
      && forall j, s :: 0 <= j < |q| && 0 <= s < |scale| ==>
           r.value[j, s] == Fluct(k, ScaleRms(k, x, scale[s], d), q[j])
  {
    var fq := new real[|q|, |scale|]((j, s) => 0.0);
    fitted := false;
    for s := 0 to |scale|
      invariant LoopError(|x|, scale, d) == LoopError(|x|, scale[s..], d)
      invariant forall t :: 0 <= t < s ==> Admissible(|x|, scale[t])
      invariant fitted <==> exists t :: 0 <= t < s && 0 < scale[t] <= |x|
      invariant forall j, t :: 0 <= j < |q| && 0 <= t < s ==>
        fq[j, t] == Fluct(k, ScaleRms(k, x, scale[t], d), q[j])
    {
      assert scale[s..][0] == scale[s] && scale[s..][1..] == scale[s + 1..];
      if scale[s] == 0 || Segments(|x|, scale[s]) < 0 {
        return Failure(NegativeDimensions), fitted;
      }
      var rms := ScaleRmsValues(k, x, scale[s], d);
      if rms.Failure? {
        return Failure(rms.error), fitted;
      }
      fitted := fitted || rms.value.Length > 0;
      FillColumn(k, fq, s, rms.value[..], q);
    }
    return Success(fq), fitted;
  }

  /** Row i of a table: `Fq[i, :]`. */
  function Row(a: array2<real>, i: int): (r: seq<real>)
    requires 0 <= i < a.Length0
    reads a
    ensures |r| == a.Length1
    ensures forall s :: 0 <= s < a.Length1 ==> r[s] == a[i, s]
  {
    seq(a.Length1, s requires 0 <= s < a.Length1 reads a => a[i, s])
  }

  /** A table as its sequence of rows. */
  function Grid(a: array2<real>): (g: seq<seq<real>>)
    reads a
    ensures |g| == a.Length0
    ensures forall i :: 0 <= i < a.Length0 ==> g[i] == Row(a, i)
  {
    seq(a.Length0, i requires 0 <= i < a.Length0 reads a => Row(a, i))
  }

  function AsReals(xs: seq<int>): (r: seq<real>)
    ensures |r| == |xs|
    ensures forall i :: 0 <= i < |xs| ==> r[i] == xs[i] as real
  {
    seq(|xs|, i requires 0 <= i < |xs| => xs[i] as real)
  }

  function Log2s(k: Numerics, xs: seq<real>): (r: seq<real>)
    ensures |r| == |xs|
    ensures forall i :: 0 <= i < |xs| ==> r[i] == k.log2(xs[i])
  {
    seq(|xs|, i requires 0 <= i < |xs| => k.log2(xs[i]))
  }

  /** The points of the log-log regression: `xs` holds `log2(scale)` and `ys` holds `log2`
      of one row of `Fq`. */
  predicate LogLogPoints(k: Numerics, scale: seq<int>, row: seq<real>, xs: seq<real>, ys: seq<real>)
  {
    && |xs| == |scale| && |ys| == |row|
    && (forall i :: 0 <= i < |scale| ==> xs[i] == k.log2(scale[i] as real))
    && (forall i :: 0 <= i < |row| ==> ys[i] == k.log2(row[i]))
  }

  /** Line 159: the slope of the least-squares line through the points
      `(log2(scale[s]), log2(Fq[i, s]))`; nothing but the scales and the one row enters it. */
  function Hurst(k: Numerics, scale: seq<int>, row: seq<real>): (h: real)
    ensures forall xs, ys :: LogLogPoints(k, scale, row, xs, ys) ==> h == k.slope(xs, ys)
  {
    var xs, ys := Log2s(k, AsReals(scale)), Log2s(k, row);
    assert forall xs', ys' :: LogLogPoints(k, scale, row, xs', ys') ==> xs' == xs && ys' == ys;
    k.slope(xs, ys)
  }

  /** Lines 153-161: `Hq[i]` is the Hurst exponent of row i of `Fq`. Line 161 evaluates the
      coefficients `C` of the last segment fit, so when no segment was fitted the first
      pass of the loop fails (an unbound local; the fit at line 159 of an all-NaN row may
      fail first). */
  method HurstExponents(k: Numerics, scale: seq<int>, fq: array2<real>, fitted: bool)
    returns (r: Result<array<real>>)
    ensures r.Failure? <==> fq.Length0 > 0 && !fitted
    ensures r.Failure? ==> r.error == NoSegmentFitted
    ensures r.Success? ==>
      && r.value.Length == fq.Length0
      && forall i :: 0 <= i < fq.Length0 ==> r.value[i] == Hurst(k, scale, Row(fq, i))
  {
    var hq := new real[fq.Length0](_ => 0.0);
    for i := 0 to fq.Length0
      modifies hq
      invariant 0 < i ==> fitted
      invariant forall j :: 0 <= j < i ==> hq[j] == Hurst(k, scale, Row(fq, j))
    {
      if !fitted {
        return Failure(NoSegmentFitted);
      }
      hq[i] := Hurst(k, scale, Row(fq, i));
    }
    return Success(hq);
  }
}
