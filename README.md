# Portfolio optimiser and simulator: a Dafny model

This project models the computational core of a mean-variance portfolio
application. It has three parts.

- **The optimiser page (`src/App.js`).**
  - It reconciles the set of enabled assets when the analysis period changes.
  - It computes a portfolio's expected return and risk from a weight map (`calculateStats`).
  - It builds the GPIF-style 25/25/25/25 benchmark.
  - It solves for minimum-variance weights at a target return (`solve`), through the WebAssembly solver.
  - It bounds and clamps the target return.
  - It traces the efficient frontier: 61 targets from the smallest to the largest active return. It keeps the points at or above the minimum-risk point and picks the maximum-Sharpe return.
- **The WebAssembly solver (`optimizer-wasm/src/lib.rs`, `solve_qp`).**
  - It assembles the quadratic program `minimise ½ wᵀPw + qᵀw subject to Aw + s = b, s ∈ K` for the Clarabel interior-point solver.
  - P is the upper triangle of the covariance matrix in compressed sparse column (CSC) form. Off-diagonal entries of magnitude at most 1e-12 are dropped.
  - q = 0.
  - A holds three entries per asset.
  - b = (1, target, 0, …).
  - K is a zero cone of dimension 2 followed by a non-negative cone of dimension n.
- **The manual simulator (`src/portfolio-simulator.jsx`).**
  - The statistics of user-entered weights in ticker order.
  - The equal initial allocation.
  - Editing one weight.
  - Normalising the weights to a total of 100.
  - A cloud of 200 random long-only portfolios.

Modules:

- `Wrappers` defines `Option`.
- `LinAlg` holds sums, dot products, the quadratic form wᵀCw, max and min, and sums of map values.
- `Market` defines assets, periods, statistics, frontier points and weight maps.
- `QpAssembly` models `solve_qp`.
- `AppStats`, `AppSolve` and `AppFrontier` model `App.js`.
- `Simulator` models the simulator page.

The loops that build a result step by step (`for` loops, and `forEach` bodies that push or accumulate) are methods with loop invariants. Each is proved equal to a specification function, and the source's promises are proved as lemmas about that function. The `filter`, `map` and `find` calls, most `reduce` calls, and the `forEach` on App.js:368 that copies every available name into the new set are modelled as functions on values.

The solver, `Math.sqrt` and `Math.random` are parameters:

- The Clarabel solver is `ClarabelFn`, a function from the assembled problem to an optional solution vector.
- `Math.sqrt` is `SqrtFn`.
- `Math.random` is a sequence of draws in [0, 1).

Real arithmetic is exact: reals stand for the source's doubles.

Where the solver's answer matters, the model assumes `SolutionSized`: Clarabel's solution vector is either empty or has one entry per variable.

## Model

| member | source | states |
|---|---|---|
| `LinAlg.VecMatDotIsQuad` | src/portfolio-simulator.jsx:70-71 | The mathjs route, (w·Σ)·w, equals the double sum Σᵢ Σⱼ wᵢ wⱼ Σ[i][j] that `calculateStats` accumulates. |
| `LinAlg.ConvexCombinationBounds` | src/portfolio-simulator.jsx:108-116 | Weights that are non-negative and sum to 1 give a weighted return between any lower and any upper bound of the returns. |
| `LinAlg.MaxOf` | src/App.js:436 | `Math.max(...xs)` of a non-empty list is at least every entry and equals one of them. |
| `LinAlg.MinOf` | src/App.js:462 | `Math.min(...xs)` of a non-empty list is at most every entry and equals one of them. |
| `LinAlg.MapSumInsert` | src/App.js:407 | Adding a key not yet in the object adds its value to the sum of the object's values. |
| `LinAlg.MapSumScaled` | src/portfolio-simulator.jsx:93-95 | Multiplying every value by c multiplies the sum of the values by c. |
| `QpAssembly.FlatIndex` | optimizer-wasm/src/lib.rs:23 | For row, col < n, the read position row·n + col lies inside the n·n flat matrix. |
| `QpAssembly.BuildP` | optimizer-wasm/src/lib.rs:15-30 | The nested loops produce exactly the CSC arrays of P: for each column, the kept rows 0..col in increasing order, and one pointer per column end. |
| `QpAssembly.PushColumn` | optimizer-wasm/src/lib.rs:21-28 | The inner loop over rows 0..=col appends exactly the kept rows of that column, in increasing order, with their covariances. |
| `QpAssembly.PColumnsSorted` | optimizer-wasm/src/lib.rs:21-28 | In every column of P the row indices strictly increase and never exceed the column, so P is upper triangular. |
| `QpAssembly.PMatrixShape` | optimizer-wasm/src/lib.rs:15-38 | P is a well-formed n×n CSC matrix: n+1 pointers, the last equal to the number of values, every row index below n. It is upper triangular, and every column's last stored row is its diagonal. |
| `QpAssembly.PStoredRows` | optimizer-wasm/src/lib.rs:21-28 | Column c of P stores row r exactly when r = c, or when r < c and the magnitude of cov[r·n + c] exceeds 1e-12. |
| `QpAssembly.PMatrixEntries` | optimizer-wasm/src/lib.rs:21-28 | Entry (r, c) of P is cov[r·n + c] when r ≤ c and the entry is on the diagonal or larger than 1e-12 in magnitude. Otherwise it is 0. |
| `QpAssembly.PMatrixApproximatesCov` | optimizer-wasm/src/lib.rs:24 | Every upper-triangle entry of P is within 1e-12 of the covariance, and the diagonal is exact. |
| `QpAssembly.BuildA` | optimizer-wasm/src/lib.rs:46-66 | The loop produces exactly the CSC arrays of A. |
| `QpAssembly.AMatrixShape` | optimizer-wasm/src/lib.rs:52-74 | A is a well-formed (n+2)×n CSC matrix. Column c starts at 3c, with rows [0, 1, 2+c] and values [1, mean[c], −1]. |
| `QpAssembly.AMatrixEntries` | optimizer-wasm/src/lib.rs:52-63 | A[0][c] = 1, A[1][c] = mean[c], A[2+c][c] = −1, and every other entry is 0. |
| `QpAssembly.BuildB` | optimizer-wasm/src/lib.rs:76-78 | b has n+2 entries: 1, the target, then zeros. |
| `QpAssembly.Cones` | optimizer-wasm/src/lib.rs:81-84 | The cone dimensions add up to n+2, the number of rows of A. |
| `QpAssembly.ARowSum` | optimizer-wasm/src/lib.rs:53-55 | Row 0 of A·x is the sum of the weights. |
| `QpAssembly.ARowReturn` | optimizer-wasm/src/lib.rs:57-59 | Row 1 of A·x is the weighted mean return. |
| `QpAssembly.ARowSign` | optimizer-wasm/src/lib.rs:61-63 | Row 2+j of A·x is −x[j]. |
| `QpAssembly.InConesMeaning` | optimizer-wasm/src/lib.rs:81-84 | A slack vector lies in K iff its first two entries are 0 and the remaining n are non-negative. |
| `QpAssembly.SlackMeaning` | optimizer-wasm/src/lib.rs:44-78 | The slack b − A·x is (1 − Σx, target − mean·x, x₀, …, xₙ₋₁). |
| `QpAssembly.ConstraintsMeaning` | optimizer-wasm/src/lib.rs:44-84 | A weight vector is feasible for the assembled problem iff it sums to 1, its mean return equals the target, and every weight is non-negative. |
| `QpAssembly.SolveQp` | optimizer-wasm/src/lib.rs:6-105 | The result is None when the flat covariance is shorter than n·n (the index panics) or solver set-up fails. Otherwise it is the solver's x, or n zeros when x is empty. The solver receives `Problem`: P, q = `Zeros(n)`, A, b and the cones. |
| `QpAssembly.SolveQpLength` | optimizer-wasm/src/lib.rs:101-104 | When Clarabel returns an empty vector or one entry per variable, the answer always has exactly one weight per asset. |
| `QpAssembly.FlattenRowMajor` | src/useRustWasm.js:31 | `covMatrix.flat()` of an n×n matrix has n·n entries, with m[r][c] at r·n + c, the position `solve_qp` reads. |
| `AppStats.CalculateStats` | src/App.js:377-395 | The loops compute `PortfolioStats`. Without a period the result is (0, 0). Otherwise it is (w·μ·100, √(wᵀCw)·100), where w is each asset's map weight (0 when missing) divided by 100. |
| `AppStats.RiskNonNegative` | src/App.js:387-394 | For a positive semidefinite covariance, and a square root that is non-negative on non-negative numbers, the risk is ≥ 0. |
| `AppStats.AccumulateReturn` | src/App.js:382-385 | The first `forEach` adds up to the dot product w·μ. |
| `AppStats.AccumulateVariance` | src/App.js:387-393 | The nested `forEach` adds up to the quadratic form wᵀCw. |
| `AppStats.StatsIgnoreForeignKeys` | src/App.js:382-393 | Weight-map keys that name no asset of the period do not change the statistics. |
| `AppStats.SingleAssetStats` | src/App.js:377-395 | With unique names, 100% in asset i gives (retᵢ·100, √Cᵢᵢ·100). |
| `AppStats.BenchmarkWeights` | src/App.js:399-407 | The result is Some iff there is a period and all four slots are available. Its keys are exactly the four slots and are names of the period. Every weight is 25. The domestic-bond slot is Bnd_JP when listed and Bnd_US_Short otherwise. |
| `AppStats.BenchmarkTotals100` | src/App.js:407 | The benchmark weights total 100. |
| `AppStats.BenchmarkStatsMeaning` | src/App.js:398-409 | When the four slots are available, `BenchmarkStats` is present. Every asset named by a slot weighs 0.25 and every other asset 0. The benchmark return is 25 times the sum of the slot assets' returns. |
| `AppSolve.ActiveIndices` | src/App.js:414-419 | The active positions strictly increase, and they are exactly the positions whose name is enabled. |
| `AppSolve.SubCov` | src/App.js:419-420 | The sub-matrix is square of the active count, with entry (i, j) = cov[orig i][orig j]. |
| `AppSolve.WeightMapTo` | src/App.js:426 | After k assignments the keys are exactly the first k active names, and every weight is ≥ 0. |
| `AppSolve.ToWeightMap` | src/App.js:425-427 | The `forEach` builds the weight map `{name_t: max(0, res[t]·100)}`. |
| `AppSolve.WeightMapToValues` | src/App.js:426 | With distinct names, names[t] gets max(0, res[t]·100). |
| `AppSolve.WeightMapToSum` | src/App.js:426 | With distinct names and non-negative res, the weights total 100 times the sum of res. |
| `AppSolve.Solve` | src/App.js:412-429 | The method computes `SolveResult`: flatten, call `solve_qp` (`WasmSolve`, the wrapper in useRustWasm.js), build the map. |
| `AppSolve.SolveOutcome` | src/App.js:412-429 | `SolveResult` is None exactly without a period, before the solver is ready, with no active asset, or when the solver gives nothing. One active asset gets {name: 100}. Otherwise the keys are exactly the active names and every weight is ≥ 0. |
| `AppSolve.FeasibleWeightMap` | src/App.js:426 | An answer that sums to 1 with no negative entry passes the max(0, ·) unchanged: names[t] gets res[t]·100, and the total is 100. |
| `AppSolve.ActiveNamesDistinct` | src/App.js:414 | With unique period names, the active names are distinct. |
| `AppSolve.FeasibleSolveTotals100` | src/App.js:422-427 | When the solver's answer meets the constraints `solve_qp` states, each active asset gets its solver weight × 100 and the weights total 100. |
| `AppSolve.MaxAchievableReturnMeaning` | src/App.js:432-437 | `MaxAchievableReturn` is 100 without a period or with nothing enabled. It is 0 when no enabled name is in the period. Otherwise it is the largest enabled return in percent, at least every enabled return and equal to one of them. |
| `AppSolve.ReturnInput` | src/App.js:440-446 | A NaN input leaves the target unchanged. Otherwise a negative input becomes 0, an input above the max becomes the max (also when max < 0), and an input already in [0, max] is kept; with max ≥ 0 the result lies in [0, max]. |
| `AppSolve.ReturnInputIdempotent` | src/App.js:440-446 | Entering an already clamped value changes nothing. |
| `AppSolve.FloorTenth` | src/App.js:451 | `Math.floor(x·10)/10` lies in (x − 0.1, x]. |
| `AppSolve.CeilTenth` | src/App.js:490 | `Math.ceil(x·10)/10` lies in [x, x + 0.1). |
| `AppSolve.ClampToMax` | src/App.js:449-454 | A target above the maximum becomes a value in (max − 0.1, max]. Any other target stays. |
| `AppSolve.ClampToMinEfficient` | src/App.js:488-493 | When the minimum efficient return is positive and above the target, the target becomes a value in [min, min + 0.1). Otherwise it stays. |
| `AppSolve.SyncEnabled` | src/App.js:363-369 | The result is the enabled names still available, or every available name when none is left. |
| `AppSolve.SyncEnabledFor` | src/App.js:357-370 | Without a period the set is unchanged. With one, the result names only assets of the period and is empty only when the period has no assets. |
| `AppSolve.SyncEnabledIdempotent` | src/App.js:357-370 | Reconciling twice is the same as reconciling once. |
| `AppSolve.KeepAvailable` | src/App.js:366-367 | The `forEach` over the enabled set keeps exactly the enabled ∩ available names. |
| `AppSolve.Reconcile` | src/App.js:357-370 | The effect with its loop equals `SyncEnabledFor`. |
| `AppFrontier.RawPointsAreSamples` | src/App.js:466-472 | allPoints lists, in round order, exactly the points of the rounds whose `solve` gave weights, each being `calculateStats` of those weights. It has at most one point per round. |
| `AppFrontier.SharpeChoice` | src/App.js:467-476 | Of the scan `SharpeScan`: with no eligible point the maximum-Sharpe return stays 0. Otherwise it is the return of the first point with the largest ratio among those with risk > 0.01. |
| `AppFrontier.MinRiskIsLastMinimiser` | src/App.js:479 | The reduce (`MinRisk`) returns a point of least risk; among ties, the last. |
| `AppFrontier.AtLeast` | src/App.js:481 | The kept positions strictly increase and are exactly those with return ≥ t. |
| `AppFrontier.EfficientIsSubsequence` | src/App.js:481 | The filter (`Efficient`) lists the raw points at exactly those positions, in order. |
| `AppFrontier.EfficientKeepsMinRisk` | src/App.js:479-481 | Every kept point has return ≥ the minimum-risk point's, and the minimum-risk point itself is kept. |
| `AppFrontier.Sample` | src/App.js:469-472 | One round computes `solve`, then `calculateStats` of the weights, as the point (risk, return). |
| `AppFrontier.Sweep` | src/App.js:466-478 | The loop, bounded to rounds 0..60, yields the 61-round raw points and the maximum-Sharpe return of the scan. |
| `AppFrontier.EfficientFrontier` | src/App.js:457-485 | The memo computes `FrontierResult`: empty with returns 0 and 0 unless there is a period, the solver is ready and there are at least two active assets. |
| `AppFrontier.FrontierNeedsTwoAssets` | src/App.js:459-460 | With at most one active asset the frontier is empty and both returns are 0. |
| `AppFrontier.FrontierMeaning` | src/App.js:457-485 | The kept points are, in order, exactly the raw points with return ≥ the minimum-risk point's, and that point is among them. The maximum-Sharpe return is 0 with no eligible point, and otherwise the return of the first best-ratio point. |
| `AppFrontier.TargetClosedForm` | src/App.js:468 | After k rounds of `r += step`, r = minR + k·step. |
| `AppFrontier.JsLoopNeverEndsWhenFlat` | src/App.js:464-468 | When minR = maxR, the condition r ≤ maxR holds in every round. |
| `AppFrontier.EqualReturnsGiveFlatRange` | src/App.js:459-463 | In a period of two assets, both enabled and with the same expected return, both are active and minR = maxR. |
| `AppFrontier.BoundedLoopMatchesJsLoop` | src/App.js:464-468 | When minR < maxR, r ≤ maxR holds exactly for rounds 0..60, so the bounded loop visits the same targets. |
| `Simulator.FindFrom` | src/portfolio-simulator.jsx:60 | The search returns the first position with that name, or None only when no asset has it. |
| `Simulator.Find` | src/portfolio-simulator.jsx:60 | `assets.find` by name: the first match, or None only when there is none. |
| `Simulator.FindOwnName` | src/portfolio-simulator.jsx:60 | With unique names, looking up asset i's name finds i. |
| `Simulator.CurrentPortfolioMeaning` | src/portfolio-simulator.jsx:52-80 | `CurrentPortfolio`, once loaded and with a matching matrix, the result is (w·μ·100, √(wᵀΣw)·100). A mismatched matrix gives the caught (0, 0). |
| `Simulator.CurrentPortfolioRiskNonNegative` | src/portfolio-simulator.jsx:69-79 | For a positive semidefinite ticker covariance, and a square root that is non-negative on non-negative numbers, the simulator's risk is ≥ 0. |
| `Simulator.PagesAgree` | src/portfolio-simulator.jsx:52-80 | When the ticker order is the asset order and names are unique, the simulator's statistics equal the optimiser page's `calculateStats`. |
| `Simulator.InitialWeights` | src/portfolio-simulator.jsx:36-40 | Every asset name gets 100/count. With unique names the weights total 100. |
| `Simulator.EqualSharesTotal` | src/portfolio-simulator.jsx:36-40 | With unique names, equal shares total count × share. |
| `Simulator.UpdateWeight` | src/portfolio-simulator.jsx:83-86 | The named key gets the value, it is added if absent, and every other weight is unchanged. |
| `Simulator.UpdateWeightTotal` | src/portfolio-simulator.jsx:83-86 | The total moves by exactly the change in the edited weight. |
| `Simulator.Total` | src/portfolio-simulator.jsx:89 | The reduce over the values is their sum. |
| `Simulator.NormalizeWeights` | src/portfolio-simulator.jsx:88-97 | When the total is 0 the weights are unchanged. Otherwise the keys are the same, each value is w/total·100, and the new values total 100. |
| `Simulator.NormalizedTotal` | src/portfolio-simulator.jsx:92-96 | Rescaling by 100/total makes the weights total 100. |
| `Simulator.Normalize` | src/portfolio-simulator.jsx:109-110 | The result is None (NaN weights) exactly when the draw total is 0. Otherwise it has one weight per draw, and weight i times the total is draw i. |
| `Simulator.NormalizeIsDistribution` | src/portfolio-simulator.jsx:108-110 | Non-negative draws with a non-zero total normalise to non-negative weights summing to 1. |
| `Simulator.CloudReturns` | src/portfolio-simulator.jsx:113-115 | The result is None exactly when some ticker has no asset (`find(...).return` throws). Otherwise it holds each ticker's first-match return. |
| `Simulator.Cloud` | src/portfolio-simulator.jsx:100-125 | No points while loading. Otherwise None exactly when the memo throws. Otherwise exactly 200 points, point i being `CloudPoint` of draw i (one iteration of the loop). |
| `Simulator.CloudReturnBounds` | src/portfolio-simulator.jsx:108-116 | Every cloud point's return lies between the smallest and the largest ticker return, in percent. |

## Findings

| source | as written | input that shows it | evidently intended | confidence | as-written member | corrected member |
|---|---|---|---|---|---|---|
| src/App.js:464-468 | `for (let r = minR; r <= maxR; r += step)` with step = (maxR − minR)/60: when minR = maxR the step is 0, r never passes maxR, and the memo never returns | any period of two enabled assets with the same expected return (`EqualReturnsGiveFlatRange`) | 61 samples from minR to maxR, so the loop ends after round 60 | not executed | `AppFrontier.JsLoopNeverEndsWhenFlat` | `AppFrontier.BoundedLoopMatchesJsLoop` |

The corrected loop (`AppFrontier.Sweep`, used by `AppFrontier.EfficientFrontier`) is bounded by the round count 0..60. It still accumulates r += step. `BoundedLoopMatchesJsLoop` shows that, when minR < maxR, it visits exactly the targets of the loop as written, in exact arithmetic. In floating point the accumulated r can land just above maxR in round 60, so the source may take 60 samples; the model always takes 61.

## Left out

- The Clarabel interior-point solve itself is a parameter (`ClarabelFn`), so optimality of the returned weights is not modelled. Only the problem handed to it is: its constraints are proved to mean "sum 1, mean return = target, non-negative".
- The `DefaultSettings` passed to Clarabel are left out.
- The `.expect` panic on solver set-up is modelled as None. So is the index panic on a short flat covariance. The JavaScript `try`/`catch` in `useRustWasm.js` turns both into null.
- The wasm bridge (`Float64Array` conversion, initialisation, `isReady`) is reduced to the `ready` flag and `covMatrix.flat()`.
- `Math.sqrt` is a parameter (`SqrtFn`). Risk is stated as that function applied to the variance. Its sign is proved only for a root that is non-negative on non-negative numbers (`NonNegativeRoot`) and a positive semidefinite covariance (`PositiveSemidefinite`). The monotonicity of `Math.sqrt` is not modelled.
- `Math.random` is a sequence of draws, required to hold 200 vectors of numbers in [0, 1).
- Floating point is left out: every quantity is an exact real, so rounding, overflow and NaN propagation are not modelled.
- NaN appears as None in two places. `handleReturnChange` tests `isNaN` and keeps the target. In the cloud, a draw with total 0 is divided by that total and the source pushes a NaN point, which the model represents as None.
- `AppSolve.SolveResult` and the members built on it assume `QpAssembly.SolutionSized`: Clarabel returns an empty vector or one entry per variable. A shorter answer would make `res[i]` undefined in the weight loop.
- Simulator.UpdateWeight: takes the already parsed number. A `parseFloat` that yields NaN, which the source stores as the weight, is not modelled.
- `Simulator.Normalize` returns None when the draw total is 0. With zero tickers the source instead produces an empty weight vector, and what mathjs `dot`/`multiply` do with empty vectors is not modelled.
- Simulator.CurrentPortfolio: treats the mathjs products as failing exactly when the covariance is not n×n for the n tickers. With zero tickers, mathjs's behaviour on empty vectors is not modelled.
- Periods are assumed well formed (the covariance is n×n for the n assets, `ValidPeriod`) where the optimiser page indexes `cov[i][j]`.
- Asset names are assumed unique where a result depends on it. They are the keys of the back end's `ASSETS_CONFIG` dictionary, written out as the `name` fields of each period's asset array (src/backend/main.py:84-85).
- React state, effects and rendering are left out: `useState`/`useMemo` caching, charts, tables, and the data fetch from `/data.json`. The Python back end that produces the data (`main.py`) is not part of this model.
- The target-return effects are modelled as the value they set (`ClampToMax`, `ClampToMinEfficient`). Their scheduling by React is not modelled.
