/** The floating-point routines the analysis calls. Their results are not modelled: the
    caller supplies them, and the model only says where each is applied and to what. */
module Kernels {

  datatype Numerics = Numerics(
    /** `np.polyval(np.polyfit(xs, ys, d), x)`: the degree-d least-squares trend through the
        points (xs, ys), evaluated at x. */
    fit: (seq<int>, seq<real>, int, int) -> real,
    /** `np.sqrt` */
    sqrt: real -> real,
    /** `r ** q` for an integer q */
    power: (real, int) -> real,
    /** `m ** (1 / q)` */
    root: (real, int) -> real,
    /** `np.log` */
    log: real -> real,
    /** `np.exp` */
    exp: real -> real,
    /** `np.log2` */
    log2: real -> real,
    /** `np.polyfit(xs, ys, 1)[0]`: the slope of the least-squares line through (xs, ys). */
    slope: (seq<real>, seq<real>) -> real,
    /** NumPy's mean of an empty array (NaN). */
    nan: real
  )

  /** The one property of a kernel the model relies on: a square root of a non-negative
      number is non-negative. */
  ghost predicate SqrtNonNegative(k: Numerics)
  {
    forall x: real :: 0.0 <= x ==> 0.0 <= k.sqrt(x)
  }
}

/** The `ValueError`s the analysis raises, and a result that is either a value or one of them. */
module Outcomes {

  datatype Error =
    | InvalidSeries       // check_time_series
    | InvalidPolyOrder    // check_poly_ord
    | InvalidScale        // check_scale
    | InvalidQ            // check_q
    | ScaleBelowOrder     // min(scale) < poly_ord + 1
    | NegativeDimensions  // np.zeros with a negative segment count
    | NegativeDegree      // np.polyfit with a negative degree
    | NoSegmentFitted     // the Hq loop with no segment fitted at any scale

  datatype Result<T> = Success(value: T) | Failure(error: Error)

  datatype Option<T> = None | Some(value: T)
}
