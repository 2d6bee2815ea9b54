# Basis Mixer performance codec, modelled in Dafny

This project models the loader in `basismixer/performance_codec.py`. The
loader reads the Basis Mixer's per-note predictions and turns them into a
score dictionary. It works in three steps:

1. It moves the onsets so that the piece starts at 0.
2. It post-processes the five expressive parameters, or, in deadpan mode,
   replaces them with a neutral performance:
   - the velocity trend is min-max normalised, optionally raised to an
     exaggeration exponent, and divided by its mean;
   - velocity deviation, log beat-period ratio, timing and log articulation
     are standardized, then optionally rescaled and recentred.
3. It groups the notes by onset (`_build_score_dict`). One 9-tuple is stored
   per distinct score position. Each tuple holds:
   - the notes' pitches, durations, velocity deviations, timings,
     articulations and melody flags, in note order;
   - the inter-onset interval (IOI) to the previous position;
   - the group means of the velocity trend and of the log beat-period ratio.

The project has four files:

- `wrappers.dfy`: `Option` and `Result`.
- `stats.dfy` (module `Stats`): the numpy reductions and element-wise
  transforms the codec uses, with their algebraic laws.
- `score_dict.dfy` (module `ScoreDict`): the positional aggregator. The loop
  method `BuildScoreDict` is proved equal to the specification function
  `ScoreDictOf`. Lemmas about `ScoreDictOf` give the dictionary's keys, its
  contents, the partition of the notes, the IOIs, the group means and the
  invariance under shifting the onsets.
- `performance_codec.dfy` (module `PerformanceCodec`): the configuration, the
  post-processing, the deadpan branch and the whole load. The in-place steps
  are methods on arrays: the onset shift and the division by the mean. Each
  method is proved equal to a specification function. Lemmas about those
  functions state what a load returns.
  `ComputeStandardized`, `ComputeExpressive` and `LoadBmPreds` have no loop of
  their own. They are deliberate statement-form copies of the
  source's step-by-step reassignment of each parameter (lines 53-108), each
  proved equal to the function that specifies it (`Standardized`,
  `Transform`, `Load`).

Values are `real`, so onset equality and all the means are exact.

The numpy square root (inside `std`) and the real power `**` are passed in as
parameters `sqrt` and `pow`. Laws that need them to behave like the real
operations take that as a hypothesis (`IsSqrt`, `ExponentBehaves`).

The model starts from the parsed columns, so it does not model where the
source itself raises (see "Left out"). A table with no notes is the error
`EmptyTable`. For a degenerate column numpy silently produces NaN or inf; the
model returns an error value instead.

## Model

| member | source | states |
|---|---|---|
| Stats.Min | basismixer/performance_codec.py:21 | the result is an element of the array and no element is smaller |
| Stats.Max | basismixer/performance_codec.py:21 | the result is an element of the array and no element is larger |
| Stats.Constant | basismixer/performance_codec.py:99-104 | `np.ones` / `np.zeros`: n entries, every one equal to the given value |
| Stats.Standardize | basismixer/performance_codec.py:16-17 | the standardized array has the input's length and mean 0; when the divisor is the standard deviation it has variance 1 |
| Stats.MinMaxNormalize | basismixer/performance_codec.py:20-21 | on a non-constant array every value lies in [0, 1]; exactly the minima map to 0 and the maxima to 1; the order of elements is kept both ways |
| Stats.MinMaxNormalizeExtremes | basismixer/performance_codec.py:20-21 | the normalised array's own minimum is 0 and its maximum is 1 |
| Stats.Rescale | basismixer/performance_codec.py:69-71 | `x * std + mean` moves the mean to `mean(x) * std + mean` and multiplies the variance by `std²` |
| Stats.RescaleDefaultsIdentity | basismixer/performance_codec.py:69-71 | with the defaults std 1.0 and mean 0.0 the rescale changes nothing |
| Stats.DivideByMean | basismixer/performance_codec.py:63 | dividing by a nonzero mean gives mean exactly 1 |
| Stats.VarianceZero | basismixer/performance_codec.py:17 | the variance behind `std` is never negative, and it is zero exactly when the array is constant |
| Stats.MeanVarianceAffine | basismixer/performance_codec.py:17 | an element-wise affine map `x*c + d` maps the mean by the same map and scales the variance by `c²` |
| Stats.MeanOfConstant | basismixer/performance_codec.py:169 | the mean of an array whose entries all equal v is v |
| Stats.ShiftByMin | basismixer/performance_codec.py:51 | after subtracting the minimum, the minimum is 0 and no element is negative |
| Stats.ShiftKeepsDifferences | basismixer/performance_codec.py:51 | subtracting a constant keeps every pairwise difference |
| ScoreDict.SortedUnique | basismixer/performance_codec.py:152-153 | the unique onsets are strictly ascending and are exactly the values that occur among the onsets |
| ScoreDict.IndicesOf | basismixer/performance_codec.py:155 | `np.where(onsets == u)` lists, in increasing note order, only indices of notes whose onset is u |
| ScoreDict.IndicesComplete | basismixer/performance_codec.py:155 | every note whose onset is u is in the index group of u |
| ScoreDict.Iois | basismixer/performance_codec.py:158 | the first IOI is 0; each later IOI is the difference of consecutive unique onsets, and positive when they ascend |
| ScoreDict.IoisTelescope | basismixer/performance_codec.py:158 | summing the first k+1 IOIs onto the first onset recovers the k-th unique onset |
| ScoreDict.BuildScoreDict | basismixer/performance_codec.py:111-175 | the loop over unique onsets, IOIs and index groups builds exactly `ScoreDictOf(t)` |
| ScoreDict.StoreStep | basismixer/performance_codec.py:166-174 | one loop iteration stores the k-th position's tuple, built from a non-empty group, under the k-th unique onset |
| ScoreDict.ZipKeys | basismixer/performance_codec.py:162-166 | after n iterations the keys are the first n unique onsets |
| ScoreDict.ZipAt | basismixer/performance_codec.py:162-166 | with distinct keys, the value under the k-th key is the k-th tuple: no later store overwrites it |
| ScoreDict.ScoreDictKeys | basismixer/performance_codec.py:152-166 | the dictionary's keys are exactly the onsets that occur in the table |
| ScoreDict.KeyIsOnset | basismixer/performance_codec.py:152-166 | a single value is a key exactly when it is an onset |
| ScoreDict.ScoreDictAt | basismixer/performance_codec.py:162-174 | the entry under the k-th unique onset is that onset's tuple with the k-th IOI |
| ScoreDict.RankOf | basismixer/performance_codec.py:152-153 | every occurring onset has a rank among the sorted unique onsets |
| ScoreDict.PositionContents | basismixer/performance_codec.py:166-174 | each position holds, in note order, exactly the notes at that onset: six per-note fields of equal length at least 1 and the two scalars as group means |
| ScoreDict.GroupNonEmpty | basismixer/performance_codec.py:155 | an occurring onset's index group is non-empty |
| ScoreDict.NoteInOneGroup | basismixer/performance_codec.py:155 | every note lies in some index group, and only in the group of its own onset |
| ScoreDict.GroupSizesCover | basismixer/performance_codec.py:155 | the index groups of the unique onsets add up to the number of notes |
| ScoreDict.NoNoteLost | basismixer/performance_codec.py:162-174 | summed over all positions, the stored per-note fields hold every note exactly once |
| ScoreDict.IoiOfFirst | basismixer/performance_codec.py:158 | the smallest key's IOI is 0 |
| ScoreDict.IoiOfSuccessor | basismixer/performance_codec.py:158 | every other key's IOI is its positive distance to the next smaller key |
| ScoreDict.GroupMeanOfUniform | basismixer/performance_codec.py:169-171 | the group mean of a column that is uniform on the group is that common value |
| ScoreDict.UniformGroupMeans | basismixer/performance_codec.py:169-171 | when all notes at a position share a velocity trend or log beat-period ratio, the stored scalar is that value |
| ScoreDict.ShiftSortedUnique | basismixer/performance_codec.py:152-153 | shifting every onset shifts the sorted unique onsets by the same amount |
| ScoreDict.ShiftIndices | basismixer/performance_codec.py:155 | shifting every onset leaves the index group of the shifted position unchanged |
| ScoreDict.ShiftInvariance | basismixer/performance_codec.py:51 | shifting all onsets by c moves key u to u - c and leaves its tuple, IOI included, unchanged |
| ScoreDict.ShiftedKeys | basismixer/performance_codec.py:51 | after a shift by c, v is a key exactly when v + c was one |
| ScoreDict.ScoreDictOf | basismixer/performance_codec.py:161-175 | the dictionary the loop returns; `BuildScoreDict` is proved equal to it, and `ScoreDictKeys`, `PositionContents`, `NoNoteLost` and `IoiOfSuccessor` state its laws |
| ScoreDict.Tuple | basismixer/performance_codec.py:166-174 | the 9-tuple of one index group; `PositionContents` states its fields, lengths and group means |
| ScoreDict.Pick | basismixer/performance_codec.py:166-174 | fancy indexing `xs[ix]`: entry j is `xs[ix[j]]`; `PositionContents` and `NoNoteLost` state what the picked groups hold |
| ScoreDict.Zip | basismixer/performance_codec.py:161-166 | the map after storing the first n tuples under their onsets; `ZipKeys` and `ZipAt` state its keys and values |
| Stats.Mean | basismixer/performance_codec.py:17 | `.mean()` (also at lines 63 and 169); `MeanVarianceAffine`, `MeanOfConstant` and `MeanPositive` state its laws |
| Stats.Variance | basismixer/performance_codec.py:17 | the population variance under `std`; `VarianceZero` and `MeanVarianceAffine` state its laws |
| Stats.Shift | basismixer/performance_codec.py:51 | `onsets -= c`; `ShiftByMin`, `ShiftKeepsDifferences` and `ShiftInvariance` state its laws |
| PerformanceCodec.Exaggerate | basismixer/performance_codec.py:61 | `vel_trend ** exag_exp` element-wise, one entry per note; `DefaultExponentIsIdentity` and `TrendDefined` state its laws |
| PerformanceCodec.ShiftToZero | basismixer/performance_codec.py:51 | the shifted onsets have minimum 0, none is negative, and all pairwise differences are kept |
| PerformanceCodec.ShiftOnsets | basismixer/performance_codec.py:51 | the in-place subtraction leaves the array equal to `ShiftToZero` of its old contents |
| PerformanceCodec.VelocityTrend | basismixer/performance_codec.py:57-63 | a constant column is the only cause of the constant-column error; a zero-mean exaggerated trend is the only other error; a result has mean 1; without exaggeration it fails only on a constant column |
| PerformanceCodec.NormalizedMeanPositive | basismixer/performance_codec.py:57-63 | the min-max normalised trend of a non-constant column has a positive mean, so the division at line 63 is defined |
| PerformanceCodec.DivideByMeanInPlace | basismixer/performance_codec.py:63 | the in-place division leaves the array equal to `DivideByMean` of its old contents |
| PerformanceCodec.ComputeVelocityTrend | basismixer/performance_codec.py:57-63 | the statement-by-statement trend computation returns `VelocityTrend` |
| PerformanceCodec.MinBelowMaxIffVaries | basismixer/performance_codec.py:21 | the min-max width is positive exactly when the column is not constant |
| PerformanceCodec.TrendDefined | basismixer/performance_codec.py:57-63 | with no exponent, or an exponent that behaves like a real power, the trend is defined exactly when the raw column varies |
| PerformanceCodec.DefaultExponentIsIdentity | basismixer/performance_codec.py:59-61 | a `vel_trend` entry without `exag_exp` (exponent 1.0) gives the same trend as no entry, when `x ** 1.0 == x` |
| PerformanceCodec.PlainTrendKeepsOrder | basismixer/performance_codec.py:57-63 | without exaggeration the trend is non-negative and orders the notes exactly as the raw column does |
| PerformanceCodec.Standardized | basismixer/performance_codec.py:66-71 | the only error is a constant-column error for that parameter; a result has the input's length and the configured mean (default 0); with a true square root it has the configured spread (default 1) |
| PerformanceCodec.StandardizeUnitVariance | basismixer/performance_codec.py:17 | with a true square root the standard deviation squares to the variance |
| PerformanceCodec.ComputeStandardized | basismixer/performance_codec.py:66-71 | the statement-by-statement standardize-then-rescale returns `Standardized` |
| PerformanceCodec.StandardizedDefined | basismixer/performance_codec.py:66-95 | with a true square root a standardized parameter is defined exactly when its raw column varies |
| PerformanceCodec.DefaultAffineIsIdentity | basismixer/performance_codec.py:67-71 | an entry without `std` and `mean` gives the same parameter as no entry |
| PerformanceCodec.Transform | basismixer/performance_codec.py:53-95 | a successful post-processing gives five columns, one entry per note; the trend has mean 1 and each other parameter has its configured mean; an error is never the empty-table error |
| PerformanceCodec.TransformDefined | basismixer/performance_codec.py:53-95 | with a true square root and a well-behaved exponent, post-processing succeeds exactly when none of the five raw columns is constant |
| PerformanceCodec.ComputeExpressive | basismixer/performance_codec.py:53-95 | the statement-by-statement post-processing returns `Transform` |
| PerformanceCodec.Deadpan | basismixer/performance_codec.py:97-104 | n notes with trend 1 and every other parameter 0 |
| PerformanceCodec.Parameters | basismixer/performance_codec.py:53-104 | either branch gives one value per note for each parameter, and never the empty-table error |
| PerformanceCodec.Assemble | basismixer/performance_codec.py:106-108 | the columns handed to the aggregator are row-aligned |
| PerformanceCodec.Load | basismixer/performance_codec.py:24-108 | the empty-table error happens exactly for a table with no notes; a deadpan load of a non-empty parsed table always succeeds; a loaded dictionary has key 0 and no negative key |
| PerformanceCodec.ZeroShiftedKeys | basismixer/performance_codec.py:51 | with zero-shifted onsets, 0 is a key and no key is negative |
| PerformanceCodec.LoadBmPreds | basismixer/performance_codec.py:24-108 | the statement-by-statement load, with the in-place onset shift and the aggregation loop, returns `Load` |
| PerformanceCodec.LoadedKeys | basismixer/performance_codec.py:51 | the keys of a load are the file's onsets minus the smallest onset, and nothing else |
| PerformanceCodec.LoadedPosition | basismixer/performance_codec.py:51 | the tuple stored under v is the one the unshifted onsets give under v + min: the zero-shift changes only the keys |
| PerformanceCodec.DeadpanPositions | basismixer/performance_codec.py:97-108 | in a deadpan load every position has trend 1 and log beat-period ratio 0, and zero velocity deviation, timing and articulation for each note |

## Left out

- Reading the prediction file (`np.loadtxt`, line 43) is not modelled. The
  model starts from the parsed columns. So it accepts tables the source never
  parses:
  - `loadtxt` squeezes a one-line file into a 1-D array, so the column slicing
    at line 45 raises; the model accepts one-note tables;
  - an empty file also fails at line 45, before line 51; the model reports
    `EmptyTable` for it;
  - on NumPy 1.24 or later, `np.int` at line 45 raises for every file.

  The success laws of `Load` and `DeadpanPositions` are about parsed tables.
- The `astype(np.int)` cast of the pitch column (line 45) is not modelled.
  Pitches arrive as integers.
- `onsets` is a view into the loaded table, so line 51 also changes that
  table's onset column. The model copies the onsets into a fresh array and
  shifts that array; the aliasing is not captured.
- `compute_dummy_preds_from_midi` (lines 178-229) is not part of this model.
  It reads MIDI, draws random numbers and writes a file.
- Floating-point rounding is not modelled: values are exact reals. So "mean 1"
  and "variance 1" are exact here; in numpy they hold up to rounding.
- The square root inside numpy's `std` is the parameter `sqrt`, and `**` is
  the parameter `pow`. Their numerics are not modelled.
- NaN and inf are not modelled. numpy produces them silently and carries on:
  - a constant velocity-trend column gives 0/0;
  - a zero standard deviation gives x/0;
  - an exaggerated trend with mean 0 gives x/0;
  - a negative `exag_exp` gives `0.0 ** e = inf` at the minima (every min-max
    trend contains 0), so the mean at line 63 is inf and the trend becomes NaN
    at the minima and 0 elsewhere. Here the model returns no error: `pow` is a
    parameter, and whatever real it gives at 0 is divided by the mean.

  In the first three cases the model returns an error naming the first such
  column, in source order, instead of NaN in that column.
- The mutable default argument `post_process_config={}` (line 24) is not
  modelled. The configuration is an immutable value in which a missing entry
  is `None`.
- A Python 3.7+ `dict` iterates in insertion order, which here is ascending
  onset order (lines 161-166). A Dafny `map` has no order, so that iteration
  order is represented only by the natural order of the real keys (the loop
  stores in `SortedUnique` order).
- Options other than `exag_exp`, `std` and `mean` are ignored by the source
  and are not represented.
- PerformanceCodec.Standardized: the unit-spread law holds only under
  `IsSqrt(sqrt)`. The mean law holds for any nonzero deviation.
- PerformanceCodec.TrendDefined: with an exponent, the law needs
  `ExponentBehaves(pow, e)`, which the real power meets only for `e >= 0`.
  Without that hypothesis a parameter `pow` could give a zero mean, which is
  the error `ZeroMeanTrend`.
- PerformanceCodec.TransformDefined: the law needs both hypotheses above.
