/** `multifractality` (multifractal_analysis.py, lines 85-194): validate the inputs, build
    the profile, check the smallest scale against the polynomial order, fill the
    fluctuation table and regress each of its rows. The plot is not modelled. */
module Mfdfa {
  import opened Kernels
  import opened Outcomes
  import opened Validation
  import opened Profile
  import opened Segmentation
  import opened Fluctuation

  /** What `multifractality` returns: `Hq` and `Fq`, the latter as its rows. */
  datatype Tables = Tables(hq: seq<real>, fq: seq<seq<real>>)

  /** The fluctuation table for a profile: row j for `q[j]`, column s for `scale[s]`. */
  function FluctuationTable(k: Numerics, x: seq<real>, scale: seq<int>, q: seq<int>, d: int): (t: seq<seq<real>>)
    requires forall s :: 0 <= s < |scale| ==> Admissible(|x|, scale[s])
  {
    seq(|q|, j requires 0 <= j < |q| =>
      seq(|scale|, s requires 0 <= s < |scale| => Fluct(k, ScaleRms(k, x, scale[s], d), q[j])))
  }

  /** One Hurst exponent per row of a table. */
  function HurstVector(k: Numerics, scale: seq<int>, t: seq<seq<real>>): seq<real>
  {
    seq(|t|, i requires 0 <= i < |t| => Hurst(k, scale, t[i]))
  }

  /** The outcome of `multifractality` on its inputs: the first error it raises, or the two
      tables it returns. */
  function Analysis(data: seq<real>, scale: seq<real>, q: seq<real>, polyOrd: real, k: Numerics): (r: Result<Tables>)
    ensures r.Success? ==>
      && |r.value.hq| == |q| && |r.value.fq| == |q|
      && forall j :: 0 <= j < |q| ==> |r.value.fq[j]| == |scale|
  {
    if !CheckTimeSeries(data) then Failure(InvalidSeries)
    else if !CheckPolyOrd(polyOrd) then Failure(InvalidPolyOrder)
    else if !CheckScale(scale) then Failure(InvalidScale)
    else if !CheckQ(q) then Failure(InvalidQ)
    else
      var x := ProfileOf(data);
      var sc := Integers(scale);
      var d := polyOrd.Floor;
      if Min(sc) < d + 1 then Failure(ScaleBelowOrder)
      else match LoopError(|x|, sc, d)
        case Some(e) => Failure(e)
        case None =>
          if |q| > 0 && !AnySegment(|x|, sc) then Failure(NoSegmentFitted)
          else
            var fq := FluctuationTable(k, x, sc, Integers(q), d);
            Success(Tables(HurstVector(k, sc, fq), fq))
  }

  /** Lines 116-160: the routine itself, raising what `Analysis` raises and otherwise
      returning `Hq` and `Fq` with the contents `Analysis` gives. */
  method Multifractality(data: seq<real>, scale: seq<real>, q: seq<real>, polyOrd: real, k: Numerics)
    returns (r: Result<(array<real>, array2<real>)>)
    ensures r.Failure? <==> Analysis(data, scale, q, polyOrd, k).Failure?
    ensures r.Failure? ==> r.error == Analysis(data, scale, q, polyOrd, k).error
    ensures r.Success? ==>
      && r.value.0[..] == Analysis(data, scale, q, polyOrd, k).value.hq
      && r.value.1.Length1 == |scale|
      && Grid(r.value.1) == Analysis(data, scale, q, polyOrd, k).value.fq
  {
    if !CheckTimeSeries(data) {
      return Failure(InvalidSeries);
    }
    if !CheckPolyOrd(polyOrd) {
      return Failure(InvalidPolyOrder);
    }
    if !CheckScale(scale) {
      return Failure(InvalidScale);
    }
    if !CheckQ(q) {
      return Failure(InvalidQ);
    }
    var x := ProfileOf(data);
    var sc := Integers(scale);
    var qs := Integers(q);
    var d := polyOrd.Floor;
    if Min(sc) < d + 1 {
      return Failure(ScaleBelowOrder);
    }
    var fq, fitted := Fluctuations(k, x, sc, qs, d);
    if fq.Failure? {
      return Failure(fq.error);
    }
    var hr := HurstExponents(k, sc, fq.value, fitted);
    if hr.Failure? {
      return Failure(hr.error);
    }
    var hq := hr.value;
    ghost var t := FluctuationTable(k, x, sc, qs, d);
    assert Grid(fq.value) == t by {
      forall j | 0 <= j < |qs| ensures Row(fq.value, j) == t[j] { }
    }
    assert hq[..] == HurstVector(k, sc, t);
    return Success((hq, fq.value));
  }

  predicate InputsPass(data: seq<real>, scale: seq<real>, q: seq<real>, polyOrd: real)
  {
    CheckTimeSeries(data) && CheckPolyOrd(polyOrd) && CheckScale(scale) && CheckQ(q)
  }

  /** Lines 125-127, checked before any segment is formed: a scale below order + 1 makes the
      routine fail with `ScaleBelowOrder`, whatever the segment loops would have raised. */
  lemma SmallScaleRejected(data: seq<real>, scale: seq<real>, q: seq<real>, polyOrd: real, k: Numerics, i: int)
    requires InputsPass(data, scale, q, polyOrd)
    requires 0 <= i < |scale| && scale[i] < polyOrd + 1.0
    ensures Analysis(data, scale, q, polyOrd, k) == Failure(ScaleBelowOrder)
  {
  }

  /** With valid inputs and a non-negative order the routine succeeds exactly when the
      smallest scale is at least order + 1 (a smallest scale equal to order + 1 is
      accepted) and, when q is not empty, some scale is at most the length of the series,
      so that a segment is fitted. */
  lemma AcceptedIffSmallestScaleFits(data: seq<real>, scale: seq<real>, q: seq<real>, polyOrd: real, k: Numerics)
    requires InputsPass(data, scale, q, polyOrd)
    requires 0.0 <= polyOrd
    ensures Analysis(data, scale, q, polyOrd, k).Success? <==>
      && (forall i :: 0 <= i < |scale| ==> polyOrd + 1.0 <= scale[i])
      && (|q| == 0 || exists i :: 0 <= i < |scale| && scale[i] <= |data| as real)
  {
    var sc := Integers(scale);
    var d := polyOrd.Floor;
    assert d as real == polyOrd;
    if forall i :: 0 <= i < |scale| ==> polyOrd + 1.0 <= scale[i] {
      assert forall i :: 0 <= i < |sc| ==> d + 1 <= sc[i] by {
        forall i | 0 <= i < |sc| ensures d + 1 <= sc[i] {
          assert sc[i] as real == scale[i];
        }
      }
      NoLoopError(|ProfileOf(data)|, sc, d);
      assert AnySegment(|data|, sc) <==> exists i :: 0 <= i < |scale| && scale[i] <= |data| as real by {
        assert forall i :: 0 <= i < |sc| ==> (0 < sc[i] <= |data| <==> scale[i] <= |data| as real) by {
          forall i | 0 <= i < |sc| ensures 0 < sc[i] <= |data| <==> scale[i] <= |data| as real {
            assert sc[i] as real == scale[i];
          }
        }
      }
    } else {
      var i :| 0 <= i < |scale| && scale[i] < polyOrd + 1.0;
      SmallScaleRejected(data, scale, q, polyOrd, k, i);
    }
  }

  /** A successful run with a non-empty q formed segments: the series is not empty, every
      scale is positive and at least one is no longer than the series. An empty series
      with positive scales and a non-empty q fails at line 161. */
  lemma SuccessFormsSegments(data: seq<real>, scale: seq<real>, q: seq<real>, polyOrd: real, k: Numerics)
    requires Analysis(data, scale, q, polyOrd, k).Success? && |q| > 0
    ensures |data| > 0
    ensures forall s :: 0 <= s < |scale| ==> Integers(scale)[s] > 0
    ensures AnySegment(|data|, Integers(scale))
  {
  }

  /** Every scale longer than the series and a non-empty q: no segment is fitted, so the
      routine fails at line 161 although every check before it passes. */
  lemma ScalesBeyondSeriesFail(k: Numerics)
    ensures Analysis([1.0, 2.0, 3.0], [4.0, 5.0], [2.0], 1.0, k) == Failure(NoSegmentFitted)
  {
    var data, scale, q := [1.0, 2.0, 3.0], [4.0, 5.0], [2.0];
    assert data[1] != data[0];
    assert InputsPass(data, scale, q, 1.0) by {
      assert IsIntegral(scale[0]) && IsIntegral(scale[1]) && IsIntegral(q[0]);
    }
    var sc := Integers(scale);
    assert sc == [4, 5];
    assert Min(sc) == 4;
    assert |ProfileOf(data)| == 3;
    assert LoopError(3, sc, 1) == None by {
      assert Segments(3, 4) == 0 && Segments(3, 5) == 0;
      assert sc[1..] == [5] && [5][1..] == [];
      assert LoopError(3, [5], 1) == LoopError(3, [], 1);
    }
    assert !AnySegment(3, sc);
  }

  /** Over an empty series a negative scale forms no segment and raises nothing: with an
      empty q the routine returns an empty `Hq` and an `Fq` of shape (0, 2). */
  lemma NegativeScalesOverEmptySeries(k: Numerics)
    ensures Analysis([], [-3.0, -2.0], [], -5.0, k) == Success(Tables([], []))
  {
    assert Integers([-3.0, -2.0]) == [-3, -2];
    assert LoopError(0, [-3, -2], -5) == None by {
      assert [-3, -2][1..] == [-2];
    }
  }

  /** Lines 146-150 and 156-160 as seen in the result: every cell of a row whose q is 0
      holds the geometric mean of its scale's segment RMS values, every other cell the
      power mean of order q, there are floor(N / scale) such values, and `Hq[j]` is the
      slope computed from row j alone. */
  lemma CellsOfResult(data: seq<real>, scale: seq<real>, q: seq<real>, polyOrd: real, k: Numerics, j: int, s: int)
    requires Analysis(data, scale, q, polyOrd, k).Success?
    requires 0 <= j < |q| && 0 <= s < |scale|
    ensures Integers(scale)[s] > 0
    ensures var t := Analysis(data, scale, q, polyOrd, k).value;
      var rms := ScaleRms(k, ProfileOf(data), Integers(scale)[s], polyOrd.Floor);
      && |rms| == |data| / Integers(scale)[s]
      && (q[j] == 0.0 ==> t.fq[j][s] == GeometricMean(k, rms))
      && (q[j] != 0.0 ==> t.fq[j][s] == PowerMean(k, rms, q[j].Floor))
      && t.hq[j] == Hurst(k, Integers(scale), t.fq[j])
  {
    SuccessFormsSegments(data, scale, q, polyOrd, k);
  }
}
