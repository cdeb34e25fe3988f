/** The split of the profile into segments at one scale (multifractal_analysis.py, lines
    130 and 138-141): `floor(N / s)` blocks of `s` consecutive indices from index 0,
    the last `N mod s` indices left over. */
module Segmentation {

  /** `np.floor(N / s)` for a positive scale: the number of whole segments. */
  function SegmentCount(n: nat, s: int): (m: nat)
    requires s > 0
    ensures m * s <= n < (m + 1) * s
  {
    n / s
  }

  /** The scales for which `np.zeros(segments[s])` at line 136 succeeds: a positive scale,
      or a negative one over an empty series, whose count `floor(0 / s)` is `-0.0` and
      casts to 0. */
  predicate Admissible(n: nat, s: int)
  {
    s > 0 || (s < 0 && n == 0)
  }

  /** Line 130, `np.floor(N / s).astype(int)` for a non-zero scale: the floor of the quotient.
      A negative scale over a non-empty series gives a negative count. */
  function Segments(n: nat, s: int): (m: int)
    requires s != 0
    ensures s > 0 ==> m == SegmentCount(n, s)
    ensures s < 0 ==> m * s >= n > (m + 1) * s
    ensures 0 <= m <==> Admissible(n, s)
    ensures 0 < m <==> 0 < s <= n
  {
    if s > 0 then SegmentCount(n, s)
    else
      CeilingQuotient(n, -s);
      -((n - s - 1) / -s)
  }

  /** `c = ceil(n / t)` for a positive t: `(c - 1) * t < n <= c * t`, and c is positive
      exactly when n is. Negated, it is the floor of `n / -t`. */
  lemma CeilingQuotient(n: nat, t: int)
    requires t > 0
    ensures var c := (n + t - 1) / t;
      && n <= c * t && (-c) * (-t) == c * t
      && (-c + 1) * (-t) == c * t - t < n
      && (c > 0 <==> n > 0)
  {
    var c, r := (n + t - 1) / t, (n + t - 1) % t;
    assert n + t - 1 == c * t + r && 0 <= r < t;
    assert (-c) * (-t) == c * t;
    assert (-c + 1) * (-t) == c * t - t;
    if n > 0 {
      assert c * t >= n > 0;
    } else {
      assert c * t <= t - 1;
    }
  }

  /** Some scale forms at least one segment, so the segment loop fits a polynomial at
      least once. */
  predicate AnySegment(n: nat, scale: seq<int>)
  {
    exists i :: 0 <= i < |scale| && 0 < scale[i] <= n
  }

  /** `np.arange(v * s, (v + 1) * s)`: the indices of segment v at scale s. */
  function Segment(v: nat, s: nat): (idx: seq<int>)
    ensures |idx| == s
    ensures forall i :: 0 <= i < s ==> idx[i] == v * s + i
  {
    var lo, hi := v * s, (v + 1) * s;
    assert hi - lo == s;
    seq(hi - lo, i requires 0 <= i < hi - lo => lo + i)
  }

  /** Every segment that is formed lies inside the covered prefix `[0, M * s)` of the series. */
  lemma SegmentInBounds(n: nat, s: int, v: nat)
    requires s > 0 && v < SegmentCount(n, s)
    ensures (v + 1) * s <= SegmentCount(n, s) * s <= n
    ensures forall i :: 0 <= i < s ==> 0 <= Segment(v, s)[i] < SegmentCount(n, s) * s
  {
  }

  /** Two different segments at one scale share no index. */
  lemma SegmentsDisjoint(s: nat, v: nat, w: nat)
    requires v != w
    ensures forall i, j :: 0 <= i < s && 0 <= j < s ==> Segment(v, s)[i] != Segment(w, s)[j]
  {
  }

  /** Consecutive segments are adjacent: segment v + 1 starts right after segment v ends. */
  lemma SegmentsContiguous(s: nat, v: nat)
    requires s > 0
    ensures Segment(v + 1, s)[0] == Segment(v, s)[s - 1] + 1
  {
  }

  /** Every index of the covered prefix belongs to a formed segment, at the position its
      remainder gives. */
  lemma SegmentsCoverPrefix(n: nat, s: int, x: int)
    requires s > 0 && 0 <= x < SegmentCount(n, s) * s
    ensures x / s < SegmentCount(n, s)
    ensures Segment(x / s, s)[x % s] == x
  {
    var m := SegmentCount(n, s);
    if m <= x / s {
      MulMonotone(m, x / s, s);
    }
  }

  lemma MulMonotone(a: nat, b: nat, s: nat)
    requires a <= b
    ensures a * s <= b * s
  {
  }

  /** The tail `[M * s, N)` is shorter than one segment and no formed segment touches it. */
  lemma TailDiscarded(n: nat, s: int, x: int)
    requires s > 0 && SegmentCount(n, s) * s <= x < n
    ensures n - SegmentCount(n, s) * s < s
    ensures forall v, i :: 0 <= v < SegmentCount(n, s) && 0 <= i < s ==> Segment(v, s)[i] != x
  {
  }
}
