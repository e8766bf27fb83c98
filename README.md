# Risk aversion from market data: a Dafny model

This project models the quantitative core of a small Modern Portfolio Theory
pipeline. The pipeline takes a long-format panel of daily stock prices and
computes three things from it:

- each stock's return over the sample window;
- the covariance matrix of the stocks' prices;
- each stock's observed allocation weight, taken as its average share of the
  day's total trading volume.

From these it recovers the scalar risk-aversion coefficient `q` under the
closed-form optimal allocation `w = 0.5 * q * inv(Sigma) * R`. It does this by
minimising `F(q) = ||w - 0.5 * q * inv(Sigma) * R||` over the bound [0, 100].

The model has six modules, one per file:

- `Wrappers` (`wrappers.dfy`): the `Result` type of operations that can fail.
- `Panel` (`panel.dfy`): `clean`. It projects the raw records onto name, date,
  price (the opening price) and volume, then sorts by (name, date).
- `Stats` (`stats.dfy`): sums, means and the unbiased sample covariance that
  `DataFrame.cov` computes.
- `Measures` (`measures.dfy`): `measure_returns`, `measure_covariance`
  (pivot, then covariance) and `measure_weights`.
- `RiskAversion` (`risk_aversion.dfy`): the vector `v = inv(Sigma) * R`, the
  objective `F`, and the bounded minimisation.
- `Scenarios` (`scenarios.dfy`): two small panels worked through the measures.

All arithmetic is over exact `real` numbers. Dates are integers in
chronological order. Ticker names are strings ordered by code point, as the
sort compares them. The measures are functions from the sorted panel to maps
keyed by ticker name (and by pairs of names for the covariance).

## Model

| member | source | states |
|---|---|---|
| Panel.SortByKey | src/data.py:96-98 | the sort returns the same multiset of rows |
| Panel.SortByKeySorted | src/data.py:96-98 | the sort's output is ascending by (name, date) |
| Panel.Clean | src/data.py:81-100 | `clean` keeps the number of rows, is a permutation of the projected records, and is sorted by (name, date) |
| Panel.CleanKeepsValues | src/data.py:86-98 | every cleaned row is some raw row's name, date, open and volume, unaltered, and every raw row's projection (`Panel.Project`, the column selection and renaming) appears in the cleaned panel |
| Panel.SortedPermutationUnique | src/data.py:96-98 | when no (name, date) repeats, any two sorted arrangements of the same rows are equal, so the cleaned order is determined by the rows alone |
| Measures.FirstIndex | src/data.py:116-119 | the row `groupby('name').first()` reads: a row of the asset with no earlier row of that asset |
| Measures.LastIndex | src/data.py:121-124 | the row `groupby('name').last()` reads: a row of the asset with no later row of that asset |
| Measures.Return | src/data.py:126-128 | for a non-zero first price, the return r satisfies last = first * (1 + r) |
| Measures.ReturnSign | src/data.py:126-128 | for a positive first price, the return is positive iff the price rose, and zero iff it did not move |
| Measures.Returns | src/data.py:107-133 | exactly one return per distinct asset name, and each one grows the asset's first price into its last price |
| Measures.FirstLastAreEarliestLatest | src/data.py:116-124 | on a panel sorted by (name, date), the first and last rows of an asset are its earliest and latest observations |
| Measures.ReturnFromEarliestToLatest | src/data.py:111-128 | on a sorted panel with unique (name, date), the return is (latest price - earliest price) / earliest price, with a non-zero earliest price |
| Measures.SingleObservationReturnsZero | src/data.py:116-128 | an asset with a single row has return 0 |
| Measures.Pivot | src/data.py:142-144 | the pivot succeeds iff no (date, name) pair repeats; then its cells are exactly the panel's (date, name) pairs, each holding that row's price; otherwise the error names a pair held by two distinct rows |
| Measures.DateAxis | src/data.py:144 | the wide table's index lists the panel's dates in strictly increasing order, each exactly once |
| Measures.AxisLength | src/data.py:144 | the index has one entry per distinct date |
| Measures.PivotCoversAxis | src/data.py:144 | on a dense panel the wide table has a price for every asset on every date of the index |
| Measures.ColumnIsPriceSeries | src/data.py:144-147 | the column of an asset in the wide table (`Measures.Column`) is that asset's price series in ascending date order |
| Measures.CovMatrix | src/data.py:147 | `cov()` of the wide table has an entry for every ordered pair of assets |
| Measures.Covariance | src/data.py:136-149 | on a dense panel with at least two dates, `measure_covariance` succeeds iff (date, name) pairs are unique; it is then indexed by the asset set on both axes |
| Measures.CovarianceEntries | src/data.py:144-147 | each entry is the n-1 sample covariance (`Stats.SampleCov`) of the two assets' date-ordered price series, and the matrix is symmetric |
| Measures.CovarianceDiagonalNonnegative | src/data.py:147 | the diagonal, the sample variances, is never negative |
| Stats.SampleCovSymmetric | src/data.py:147 | the sample covariance `Stats.SampleCov` does not depend on the order of its two series |
| Stats.SampleVarianceNonnegative | src/data.py:147 | a sample variance is non-negative |
| Stats.SampleCovShortcut | src/data.py:147 | the deviation-from-means definition equals the shortcut (sum xy - sum x * sum y / n) / (n - 1) |
| Measures.Shares | src/data.py:159-166 | each row's `weight` times its day's aggregate volume (`Measures.VolumeOn`) is the row's volume |
| Measures.DailySharesSumToOne | src/data.py:159-166 | with a non-zero aggregate, the shares of one trading day add up to exactly 1 |
| Measures.VolumeWithinDailyTotal | src/data.py:159-163 | with non-negative volumes, a row's volume lies between 0 and its day's aggregate `Measures.VolumeOn` |
| Measures.SharesInUnitInterval | src/data.py:159-166 | with non-negative volumes every daily share lies in [0, 1] |
| Measures.CountPositive | src/data.py:169 | every asset of the panel has at least one row to average over |
| Measures.Weights | src/data.py:151-174 | exactly one weight per distinct asset name |
| Measures.WeightsInUnitInterval | src/data.py:165-169 | with non-negative volumes every weight lies in [0, 1] |
| Measures.ConstantShareWeight | src/data.py:165-169 | an asset whose daily share is the same on every day it trades has that share as its weight |
| Scenarios.BalancedReturns | src/data.py:107-133 | three assets priced [10, 12], [20, 19], [5, 5.5] on two days have returns 0.2, -0.05 and 0.1 |
| Scenarios.BalancedShares | src/data.py:159-166 | with constant volumes 100, 50 and 200, every day trades 350 and the shares are 100/350, 50/350 and 200/350 |
| Scenarios.BalancedWeights | src/data.py:151-174 | with constant volumes 100, 50 and 200, the weights are 100/350, 50/350 and 200/350 |
| Scenarios.WeightsNeedNotSumToOne | src/data.py:168-172 | in an unbalanced panel the weights sum to 5/4: they are not renormalised |
| RiskAversion.NonzeroReturnsIdentifyQ | src/risk_aversion.py:41-45 | if Sigma * v = R (`RiskAversion.Solves`: v is inv(Sigma) * R) and some return is non-zero, then v is not the zero vector, so the coefficient is identified |
| RiskAversion.DotSelfNonnegative | src/risk_aversion.py:55 | a squared Euclidean norm is non-negative, and zero iff every component is zero |
| RiskAversion.ObjectiveNonnegative | src/risk_aversion.py:48-55 | F (`RiskAversion.Objective`, squared) is never negative |
| RiskAversion.ObjectiveZeroIff | src/risk_aversion.py:52-55 | `RiskAversion.Objective` F(q) = 0 iff w = 0.5 * q * v componentwise |
| RiskAversion.ObjectiveIsQuadratic | src/risk_aversion.py:52-55 | `RiskAversion.Objective`, F(q)^2, = w.w - q (w.v) + q^2/4 (v.v) |
| RiskAversion.Clamp | src/risk_aversion.py:58 | the result lies in the bound and equals its argument when that is already inside |
| RiskAversion.RecoverQ | src/risk_aversion.py:41-58 | a coefficient is recovered iff v has a non-zero component, and it lies in [0, 100] |
| RiskAversion.ClampMinimisesQuadratic | src/risk_aversion.py:58 | the unconstrained minimiser of the quadratic, moved into [0, 100], is its strict minimiser over the bound |
| RiskAversion.RecoveredQMinimises | src/risk_aversion.py:52-58 | the recovered q satisfies F(q) <= F(p) (F being `RiskAversion.Objective`) for every p in [0, 100], with strict inequality for p != q |
| RiskAversion.OutOfBoundGivesNearerEnd | src/risk_aversion.py:58 | the recovered q is, of all points of [0, 100], the nearest to the unconstrained minimiser 2 (w.v) / (v.v): 0 below the bound, 100 above it, and the minimiser itself inside |
| RiskAversion.DegenerateObjectiveIsFlat | src/risk_aversion.py:52-58 | when v = 0, F takes the same value at every q |
| RiskAversion.RoundTrip | src/risk_aversion.py:52-58 | for non-zero returns and q0 in [0, 100], the weights 0.5 * q0 * v give back exactly q0 |

## Left out

- Reading and combining the per-stock CSV files, the progress meter, and writing artifacts to disk (src/data.py:32-79, src/risk_aversion.py:30-39 and 60-63). This is file I/O. The raw panel is a parameter of `Panel.Clean`.
- src/main.py is not part of this model. It only fits library regressions and prints their scores.
- Floating point: all arithmetic is on exact reals. Rounding, inf and NaN are not modelled.
- Measures.Returns: a zero first price makes pandas produce inf or NaN; the model requires every first price to be non-zero instead.
- Measures.Shares: a zero aggregate daily volume makes pandas divide by zero. With non-negative volumes every volume of that day is then 0, each share of that day is 0 / 0 = NaN, and `groupby('name')['weight'].mean()` skips those NaN shares: pandas returns each asset's mean over its other days (NaN for an asset that trades only on such days). The model requires every daily aggregate to be non-zero instead, and Measures.Weights inherits this precondition, so the model does not describe the weights pandas returns for panels with a zero-volume day.
- Measures.Covariance: pandas fills missing (date, name) cells with NaN and computes pairwise covariances over the dates both assets share. The model requires a dense panel (every asset on every date) and at least two dates (with one date the n - 1 denominator is zero).
- Measures.Pivot: pandas raises an exception on a repeated (date, name) pair. The model returns `Err(DuplicateEntry)` instead, carrying one repeated pair; the exception's message is not modelled.
- Panel.SortByKey: the model's insertion sort is stable, like pandas' lexicographic sort on the two columns (name, date), so rows with equal keys keep their input order in both. The model does not prove stability itself; `Panel.SortedPermutationUnique` shows that when keys are unique the sorted order is determined by the rows alone, whatever the sort.
- Measures.FirstIndex and Measures.LastIndex: `groupby().first()` and `last()` skip NaN values; with no NaN, as here, they read the first and last rows.
- Date parsing: dates are integers in chronological order.
- Malformed records: the source has no check for them. An empty cell is read as NaN and `clean` passes it on (see floating point above); a column missing from the files makes `clean`'s own column selection (src/data.py:91) fail with a `KeyError`. A typed `Panel.RawRow` always has every column with a real value, so the model has neither case.
- RiskAversion.RecoverQ: the matrix inverse `np.linalg.inv` (src/risk_aversion.py:42) is not modelled. The caller supplies `v` with `Sigma * v = R`. A singular Sigma makes numpy raise an error; the model has no such case.
- RiskAversion.RecoverQ: the bounded Brent search of `minimize_scalar` and its tolerance are not modelled. The model returns the exact minimiser of F over [0, 100].
- RiskAversion.Objective: the model minimises the squared norm. The square root is increasing, so F and F^2 have the same minimisers.
- RiskAversion.RecoverQ: when v = 0, F is constant and the source returns whichever point of the bound the search stops at. The model returns `Err(Degenerate)`. `RiskAversion.DegenerateObjectiveIsFlat` shows that every q is then a minimiser.
- Alignment of the three artifacts: the source lines up returns, covariance rows and weights by position. Each is ordered by ticker name. The solver model takes vectors that are already aligned, and it does not check that the asset sets agree.
- Division by zero, a singular covariance matrix, mismatched asset sets and a degenerate system raise no error of the source's own: it either passes inf or NaN on or leaves the failure to numpy. The model makes division by zero a precondition and leaves asset alignment to the caller. It takes any v with Sigma * v = R, so a singular Sigma is not rejected (see the `RiskAversion.RecoverQ` line above). It returns `Err(Degenerate)` for v = 0.
