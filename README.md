# Multifractal Detrended Fluctuation Analysis — a verified model

This project models the discrete core of `multifractality` in
`multifractal_analysis.py`. That routine runs Multifractal Detrended Fluctuation
Analysis (MFDFA) on one time series. It does the following, in order:

1. It runs four input checks (`check_time_series`, `check_poly_ord`, `check_scale`, `check_q`).
2. It builds the profile: the cumulative sum of the mean-centred series.
3. It rejects a smallest scale below `poly_ord + 1`.
4. For every scale `s`, it cuts the profile into `floor(N / s)` segments of `s` points and
   drops the tail. It detrends each segment with a polynomial and takes the RMS of the
   residual.
5. It fills the fluctuation table `Fq`, which has shape `(len(q), len(scale))`. Each cell holds
   a power mean of the segment RMS values. Every row whose `q` is 0 is then overwritten with
   the geometric mean.
6. It regresses each row of `Fq` against the scales on a log-log scale. Each slope is a
   generalized Hurst exponent `Hq[i]`.

The model computes everything over exact reals. The floating-point routines are passed in
as a record of functions, `Kernels.Numerics`:

- the polynomial-fit value (`polyfit` and `polyval`)
- `sqrt`
- the integer power `r ** q`
- the root `m ** (1 / q)`
- `log`, `exp` and `log2`
- the regression slope
- the NaN that NumPy gives for the mean of an empty array

The model does not say what these functions compute. It says which arguments each one gets,
which cell ends up with which formula, and the index arithmetic of the segmentation. The one
property of a kernel it assumes is that `sqrt` of a non-negative number is non-negative, and
it assumes it only where that is stated.

Modules, in the order the data flows:

- `Reals` (reals.dfy): sums, means, centring and squares over `seq<real>`.
- `Validation` (validation.dfy): the four checks, `% 1` on floats, `np.var` and `np.min`.
- `Profile` (profile.dfy): `np.cumsum(data - np.mean(data))`.
- `Segmentation` (segmentation.dfy): the segment count and the index ranges.
- `Kernels` and `Outcomes` (kernels.dfy): the numeric kernels, the errors the routine
  raises and the `Result` type.
- `Fluctuation` (fluctuation.dfy): the segment RMS values, the loops that fill `Fq` in an
  `array2<real>` (with the masked q = 0 overwrite written as a `forall` statement), and
  the loop that fills `Hq` in an `array<real>`.
- `Mfdfa` (mfdfa.dfy): `Multifractality`, the whole routine as a method, proved against
  the pure function `Analysis`, and lemmas about `Analysis`.

In three places the documentation and the code disagree. The model follows the code:

- The docstring gives `Fq` the shape `(size(scale), size(q))`. The code allocates
  `(len(q), len(scale))`, and so does the model.
- The docstring and the comment ask for a minimum scale greater than `poly_ord + 1`. The
  code only rejects `min(scale) < poly_ord + 1`, so a scale equal to `poly_ord + 1` is
  accepted (`Mfdfa.AcceptedIffSmallestScaleFits`).
- The default `q=2` is a bare integer, and `len(q)` fails on it. The model takes `q` as a
  sequence.

Some behaviour comes from the code and NumPy rather than from the documentation. The model
keeps it:

- An empty series passes `check_time_series`, because `np.var([])` is NaN and NaN is not
  equal to 0.
- The segment loop fails in two ways when the polynomial order is negative:
  - A negative scale over a non-empty series gives a negative segment count, which
    `np.zeros` rejects (`NegativeDimensions`). Over an empty series `floor(0 / s)` is
    `-0.0`, which casts to 0, so a negative scale then forms no segment and raises nothing.
  - `np.polyfit` rejects a negative degree at the first segment (`NegativeDegree`).
  `Fluctuation.LoopError` gives the first such error in loop order.
- Line 161 evaluates `C`, the coefficients of the last segment fit. If q is not empty and
  no scale formed a segment, `C` was never assigned and the first pass of the `Hq` loop
  fails. This happens when every scale exceeds N, or when the series is empty. The fit of
  an all-NaN row at line 159 may fail first. The model reports either as `NoSegmentFitted`.

## Model

| member | source | states |
|---|---|---|
| Validation.Mod1 | multifractal_analysis.py:42 | `x % 1` on a float lies in [0, 1) and is 0 exactly when x is an integer |
| Validation.AnyNonIntegral | multifractal_analysis.py:47 | `np.any(xs % 1 != 0)` holds exactly when some entry is not an integer |
| Validation.VarianceZeroIffConstant | multifractal_analysis.py:22 | over exact reals, the population variance of a non-empty series is 0 exactly when all its values are equal |
| Validation.Variance | multifractal_analysis.py:22 | over exact reals, `np.var` of a non-empty series is non-negative |
| Validation.CheckTimeSeries | multifractal_analysis.py:22-23 | over exact reals, the series is accepted exactly when it is empty or has two different values; a constant series is rejected |
| Validation.CheckPolyOrd | multifractal_analysis.py:42-43 | the polynomial order is accepted exactly when it is an integer |
| Validation.CheckScale | multifractal_analysis.py:47-48 | the scale vector is accepted exactly when it has at least two entries and all of them are integers |
| Validation.CheckQ | multifractal_analysis.py:78-79 | the q vector is accepted exactly when all its entries are integers (an empty vector passes) |
| Validation.Integers | multifractal_analysis.py:130 | the integer view of a checked vector has the same length and the same values |
| Validation.Min | multifractal_analysis.py:126 | `np.min` returns an entry of the vector that is no larger than any entry |
| Reals.Mean | multifractal_analysis.py:149-150 | `np.mean` of an empty array is NumPy's NaN; of a non-empty one it is the value whose product with the length is the sum, and the common value of a constant array |
| Profile.CumSum | multifractal_analysis.py:123 | `np.cumsum` has one entry per term, and entry i is the sum of the first i + 1 terms |
| Profile.ProfileOf | multifractal_analysis.py:123 | the profile has the same length as the series |
| Profile.ProfileSteps | multifractal_analysis.py:123 | `X[0] = data[0] - mean`, and `X[i] - X[i-1] = data[i] - mean` for every i >= 1 |
| Profile.ProfileEndsAtZero | multifractal_analysis.py:123 | over exact reals, the last entry of the profile is 0 |
| Segmentation.SegmentCount | multifractal_analysis.py:130 | the segment count M at a positive scale s is the floor of N / s: `M*s <= N < (M+1)*s` |
| Segmentation.Segments | multifractal_analysis.py:130 | `floor(N / s)` cast to an integer for a non-zero scale: the floor of the quotient for either sign; it is negative exactly for a negative scale over a non-empty series, and positive exactly when `0 < s <= N` |
| Segmentation.Segment | multifractal_analysis.py:141 | segment v at scale s has exactly s indices, `v*s, ..., (v+1)*s - 1` |
| Segmentation.SegmentInBounds | multifractal_analysis.py:138-141 | every index of a formed segment lies in `[0, M*s)`, so it is below N |
| Segmentation.SegmentsDisjoint | multifractal_analysis.py:138-141 | two different segments at one scale share no index |
| Segmentation.SegmentsContiguous | multifractal_analysis.py:141 | segment v + 1 starts at the index right after the last index of segment v |
| Segmentation.SegmentsCoverPrefix | multifractal_analysis.py:130-141 | every index in `[0, M*s)` is at position `x % s` of a formed segment, namely segment `x / s` |
| Segmentation.TailDiscarded | multifractal_analysis.py:129-141 | the tail `[M*s, N)` is shorter than s and no formed segment contains any of its indices |
| Fluctuation.SegmentRms | multifractal_analysis.py:141-144 | the RMS of a segment's detrended residual is non-negative whenever the square-root kernel is non-negative on non-negative inputs |
| Fluctuation.ScaleRms | multifractal_analysis.py:136-144 | a scale has `floor(N / s)` RMS values (none for a negative scale over an empty series), and all of them are non-negative under the same condition |
| Fluctuation.PowerMean | multifractal_analysis.py:148-149 | `np.mean(rms ** q) ** (1 / q)`: with no RMS values it is the root of NumPy's NaN; with equal RMS values r it is the root of `r ** q` |
| Fluctuation.GeometricMean | multifractal_analysis.py:150 | `exp(0.5 * mean(log(rms ** 2)))`: with no RMS values it is `exp` of half of NumPy's NaN; with equal RMS values r it is `exp(0.5 * log(r ** 2))` |
| Fluctuation.Fluct | multifractal_analysis.py:146-150 | the value of a cell: the geometric mean's value when q is 0 and the power mean's otherwise, in the empty and the constant case alike |
| Fluctuation.Hurst | multifractal_analysis.py:159 | `Hq[i]` is the slope kernel applied to the points `(log2(scale[s]), log2(Fq[i, s]))`, whichever sequences hold them |
| Fluctuation.LoopError | multifractal_analysis.py:130-144 | when the scale loop raises nothing, every scale is positive, or negative over an empty series; a degree error happens only with a negative order |
| Fluctuation.NoLoopError | multifractal_analysis.py:135-144 | with a non-negative order and every scale at least order + 1, the scale loop raises nothing |
| Fluctuation.ScaleRmsValues | multifractal_analysis.py:136-144 | for a scale whose count `np.zeros` accepts, the loop over segments fails exactly when a segment exists and the order is negative; otherwise it fills the array with the scale's RMS values |
| Fluctuation.FillColumn | multifractal_analysis.py:146-150 | after the q loop and the masked overwrite, every cell of column s holds the geometric mean when its q is 0 (duplicate zeros included) and the power mean otherwise; the other columns are unchanged |
| Fluctuation.Fluctuations | multifractal_analysis.py:130-150 | the scale loop fails exactly when `LoopError` reports an error, and with that error; otherwise `Fq` has shape (len(q), len(scale)), every scale is admissible, every cell holds its q and scale's value, and the coefficients `C` are bound exactly when some scale is between 1 and N |
| Fluctuation.HurstExponents | multifractal_analysis.py:155-161 | the loop fails with `NoSegmentFitted` exactly when q is not empty and `C` is unbound; otherwise `Hq` has one entry per row of `Fq`, and `Hq[i]` is the regression slope of row i against the scales, a function of that row and the scales alone |
| Mfdfa.Multifractality | multifractal_analysis.py:116-160 | the routine fails exactly when `Analysis` fails, and with the same error; otherwise `Hq` and the rows of `Fq` equal those of `Analysis`, and `Fq` has one column per scale |
| Mfdfa.Analysis | multifractal_analysis.py:116-161 | the outcome of the routine as a function: the first check that fails, in source order, gives its error; a successful result has `len(Hq) = len(q)` and `Fq` of shape (len(q), len(scale)) |
| Mfdfa.SmallScaleRejected | multifractal_analysis.py:125-127 | once the inputs are valid, any scale below order + 1 makes the routine fail with the scale error, before any segment error is possible |
| Mfdfa.AcceptedIffSmallestScaleFits | multifractal_analysis.py:125-161 | with valid inputs and a non-negative order, the routine succeeds exactly when every scale is at least order + 1 (a scale equal to order + 1 is accepted) and, when q is not empty, some scale is at most N |
| Mfdfa.SuccessFormsSegments | multifractal_analysis.py:130-161 | a success with a non-empty q has a non-empty series, only positive scales, and at least one formed segment |
| Mfdfa.ScalesBeyondSeriesFail | multifractal_analysis.py:130-161 | with data `[1, 2, 3]`, scales `[4, 5]`, q `[2]` and order 1 every check passes, no segment is formed and the routine fails with `NoSegmentFitted` |
| Mfdfa.NegativeScalesOverEmptySeries | multifractal_analysis.py:130-136 | with an empty series, scales `[-3, -2]`, an empty q and order -5 the routine succeeds with an empty `Hq` and an empty `Fq` |
| Mfdfa.CellsOfResult | multifractal_analysis.py:144-160 | in a successful result, a cell whose q is 0 holds the geometric mean of `floor(N / s)` segment RMS values, any other cell holds their power mean of order q, and `Hq[j]` is the slope of row j |

## Left out

- Plotting (multifractal_analysis.py:172-192) is not modelled: the model is the call with `Fig` other than 1. The plot is not a pure side effect. With `Fig=1` and an empty q, line 176 `q[qindex[0]]` raises `IndexError`, which the model does not report.
- The value of `line_q` (line 161) is not modelled. It exists only for the plot and reuses the coefficients `C` of the last segment fit. Only its failure when `C` is unbound is modelled (`NoSegmentFitted`).
- The example script (lines 197-213) is not modelled. It does file I/O and printing, and the bare `Example` at line 198 would fail when the module is imported.
- The numeric routines are not modelled. These are `np.polyfit`/`np.polyval` (lines 142-143, 159), `sqrt`, `log`, `log2`, `exp`, the power `r ** q` and the root `m ** (1 / q)`. They are parameters of the model, so their accuracy and rounding are not modelled.
- Errors raised inside NumPy's numeric routines are not modelled, for example a failed least-squares fit on NaN input.
- NaN and infinity are not modelled, so two results differ from the source:
  - When a scale exceeds N but another scale forms segments, NumPy's NaN for the empty mean is the kernel value `nan`. The model then does real arithmetic on that value (`0.5 * nan`) where NumPy gives NaN, and the fit of the row at line 159 gets that value. Given a NaN, `np.polyfit` may raise `LinAlgError` or return NaN, depending on the linear-algebra library; the model lets the slope kernel decide.
  - The value of `m ** (1 / q)` at q = 0 is whatever the root kernel gives. The source overwrites that cell at line 150 anyway.
- Type checks are not modelled:
  - The `isinstance` tests at lines 22, 47 and 78 have no counterpart, because the Dafny signature fixes the types.
  - A Python list for `scale` or `q` fails with a `TypeError` at `% 1`. The model only takes arrays, written as sequences.
  - Integral float values of scale, q and the order pass the checks. The model then uses them as integers. In the source, float scales would later break the indexing at line 142.
- A scale of 0 passes `check_scale` (line 47) for any order. The minimum-scale test at line 126 lets it through only when the order is at most -1. The model then raises `NegativeDimensions`. In NumPy, `N / 0` is an infinity for N > 0 and NaN for N = 0. Casting either to an integer depends on the platform; on common platforms it gives the most negative integer, which `np.zeros` rejects.
- The segment count is computed exactly as `N / s`. The source computes it as a float division followed by a floor, and that rounding is not modelled.
- The closed form of the q = 0 value as `(r_1 * ... * r_M) ** (1 / M)`, and the statistical properties of the exponents, are not modelled. Both need facts about `exp`, `log` and `polyfit` that the kernels do not carry.
