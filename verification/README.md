# BDMM-Prime flow core in Dafny

This project models the exact-arithmetic core of the `bdmmprime.flow` package of
BDMM-Prime, a multi-type birth–death–migration tree prior. The package turns
per-interval rates into ODE systems, runs them through a numerical integrator,
and stores the results as piecewise curves. The modelled parts are:

- **Utils** (`utils.dfy`, `linalg.dfy`): the column-major conversion between a flat
  array and an n×n matrix (`toMatrix`, `fillArray`), `fillVector`, in-place
  max-rescaling (`rescale`, both forms) and `unscale`.
- **Segment stores** (`segments.dfy`, `flow.dfy`, `extinction_probabilities.dfy`).
  - The constructors of `Flow` and `ExtinctionProbabilities` check lengths and
    sortedness.
  - `Flow` precomputes prefix products of the segment matrices.
  - Queries locate the owning segment, clamping past the last one.
  - `Flow` composes the segment matrix with its prefix. The telescoping lemma shows
    that the composed query returns the underlying flow.
- **Parameterization** (`params.dfy`): the external parameterization as a value. It
  holds the type count, process length, sorted interval end times, rate tables
  indexed [interval][type] and [interval][type][type], and the interval lookup
  `getIntervalIndex` as a function value.
- **ODE right-hand sides** (`derivatives.dfy`): the extinction equations and the
  p0/ge equations as exact polynomials over one interval's rates.
  - The lemmas relate the two systems and evaluate them at the all-ones state.
  - Others show that `m_ii` does not matter.
  - Others show that the ge part is linear in the ge vector.
- **`IntervalODESystem`** (`interval_ode.dfy`): the step bounds, the integration
  set-up and its forward/backward delegation, the event function `g`, and the
  event reaction.
- **`ExtinctionODESystem`** (`extinction_ode.dfy`): `getDimension`,
  `computeDerivatives`, and the five-argument backward schedule.
  - The schedule visits the intervals from the one owning `timeEnd` down to the one
    owning `timeStart`.
  - It applies the rho-sampling correction in place when a piece starts at an
    interval end time.
  - It integrates each piece. The pieces tile the range.
- **`FlowODESystem`** (`flow_ode.dfy`): `setInterval`, `getDimension` and the
  combined p0/ge `computeDerivatives`.
- **`BirthDeathMigrationDistribution`** (`distribution.dfy`):
  - the `initAndValidate` checks, in their order: label, frequency dimension,
    frequency sum;
  - the forward interval schedule of `calculateFlow`, with its step bounds.

Doubles are modelled as `real`, so there is no rounding. The numerical integrator
is an `Integrator` function value. It maps the interval in force, a start time, a
stop time and a state to the state at the stop time. The interpolants are
`Segment` function values. `ln`/`exp` are function values with only the laws the
code relies on (`Lawful`). `equalWithPrecision` is a function parameter.

## Model

| member | source | states |
|---|---|---|
| Utils.ToMatrix | src/bdmmprime/flow/Utils.java:11-19 | the new n×n matrix holds `array[i + n*j]` at row i, column j |
| Utils.UnflattenColumnMajor | src/bdmmprime/flow/Utils.java:11-19 | entry (i, j) comes from flat position i + n·j < n², so only the first n² entries are read |
| Utils.FillArray | src/bdmmprime/flow/Utils.java:21-27 | the array becomes the column-major flattening of the rows×cols matrix followed by its old entries past rows·cols |
| Utils.UnflattenFlatten | src/bdmmprime/flow/Utils.java:11-27 | converting a square matrix to a flat array and back gives the matrix |
| Utils.FlattenUnflatten | src/bdmmprime/flow/Utils.java:11-27 | converting a flat array to a matrix and back restores its first n² entries |
| Utils.FillVector | src/bdmmprime/flow/Utils.java:29-33 | the vector overwrites the front of the array; later entries keep their values |
| Utils.MaxOrOne | src/bdmmprime/flow/Utils.java:44 | the result is 1.0 for an empty array, otherwise an entry no smaller than any entry |
| Utils.Rescale | src/bdmmprime/flow/Utils.java:43-51 | every entry is divided by the maximum (1.0 if empty); the result is ln(max) + previousLogFactor |
| Utils.RescaleFresh | src/bdmmprime/flow/Utils.java:39-41 | the one-argument form is the two-argument form with factor 0 |
| Utils.RescaleNormalises | src/bdmmprime/flow/Utils.java:44-50 | with a positive maximum: the length is kept, every entry is ≤ 1, and maximal entries become exactly 1; an empty array is unchanged and the factor passes through |
| Utils.Unscale | src/bdmmprime/flow/Utils.java:53-57 | every entry is divided by exp(logFactor) |
| Utils.UnscaleByZeroIsIdentity | src/bdmmprime/flow/Utils.java:53-57 | with logFactor 0 the array is unchanged |
| Utils.UnscaleDoesNotUndoRescale | src/bdmmprime/flow/Utils.java:53-57 | as written, rescaling [2.0] and unscaling by the returned factor gives [0.5], not [2.0] |
| Utils.UnscaleCorrected | src/bdmmprime/flow/Utils.java:53-57 | the corrected unscaling multiplies every entry by exp(logFactor) |
| Utils.RescaleThenUnscaleCorrectedRestores | src/bdmmprime/flow/Utils.java:39-57 | rescaling and then the corrected unscaling by the returned factor restores the vector |
| Segments.CheckSorted | src/bdmmprime/flow/Flow.java:23-27 | the loop reports sorted exactly when no adjacent pair is strictly decreasing (equal neighbours pass) |
| Segments.FirstAtOrAfter | src/bdmmprime/flow/Flow.java:51-55 | the index found is the first with t ≤ endTimes[i], or the length when every end time is before t |
| Segments.SegmentOfTime | src/bdmmprime/flow/ExtinctionProbabilities.java:36-40 | for sorted end times, a time in (e[k-1], e[k]] is found in segment k; a boundary time goes to the earlier segment |
| Segments.ClampedPastLast | src/bdmmprime/flow/ExtinctionProbabilities.java:35-42 | the search runs off the end exactly when t is after the last end time, which is when the lookup clamps |
| FlowStore.FlowCheck | src/bdmmprime/flow/Flow.java:17-36 | the constructor accepts exactly equal lengths, sorted end times, a positive dimension and at least one segment; dimension 0 fails when the identity for `initialFlows[0]` is built, before an empty store fails on storing it |
| FlowStore.Flow.Create | src/bdmmprime/flow/Flow.java:14-42 | it rejects, in order, a length mismatch, unsorted end times, dimension 0 and an empty store; on success it returns a new store holding both arrays as given and a new, valid prefix array |
| FlowStore.Flow.Init | src/bdmmprime/flow/Flow.java:30-41 | the fields hold the given arrays and the prefix array is `Prefixes` of the segments |
| FlowStore.Flow.FillPrefixes | src/bdmmprime/flow/Flow.java:34-41 | `initialFlows[0]` is the identity and `initialFlows[i]` is segment i−1's matrix at its end time times `initialFlows[i-1]` |
| FlowStore.PrefixStep | src/bdmmprime/flow/Flow.java:38-41 | one step of the prefix loop puts the newest factor on the left |
| FlowStore.Flow.GetFlow | src/bdmmprime/flow/Flow.java:50-60 | the linear search returns the query as written: segment × prefix in range, prefix × segment past the last end time |
| FlowStore.PrefixIsFlowAtStart | src/bdmmprime/flow/Flow.java:34-41 | if the segments come from a flow Φ, prefix i is Φ at segment i−1's end time |
| FlowStore.GetFlowTelescopes | src/bdmmprime/flow/Flow.java:38-55 | for t up to the last end time, `getFlow(t)` = Φ(t), whichever segment owns t |
| FlowStore.FlowAtAgreesInRange | src/bdmmprime/flow/Flow.java:50-55 | in range the written and corrected queries agree |
| FlowStore.ClampedQueryReversesOrder | src/bdmmprime/flow/Flow.java:57-59 | for two segments of a genuine flow Φ (A up to 1, then B·A), the written query at t = 3 gives A·B ≠ Φ(3) = B·A, while the corrected query gives Φ(3) |
| FlowStore.FlowAtTelescopes | src/bdmmprime/flow/Flow.java:50-59 | with segment × prefix in the clamped branch as well, the query returns Φ(t) for every t |
| ExtinctionStore.ExtinctionProbabilities.Create | src/bdmmprime/flow/ExtinctionProbabilities.java:11-28 | it rejects a length mismatch, then unsorted end times; otherwise it stores both arrays as given |
| ExtinctionStore.ExtinctionProbabilities.Init | src/bdmmprime/flow/ExtinctionProbabilities.java:26-27 | the fields are the given arrays, uncopied |
| ExtinctionStore.ExtinctionProbabilities.GetExtinctionProbability | src/bdmmprime/flow/ExtinctionProbabilities.java:35-43 | the result is the owning segment's value at t, clamped to the last segment, with no composition |
| ExtinctionStore.ProbabilityOfOwningSegment | src/bdmmprime/flow/ExtinctionProbabilities.java:35-42 | for sorted end times: segment k's own value for t in (e[k-1], e[k]], and the last segment's value past the end |
| Params.IndexMonotone | src/bdmmprime/flow/ExtinctionODESystem.java:57-58 | under the usual lookup, timeStart ≤ timeEnd gives startInterval ≤ endInterval |
| Params.IndexOfOwnedTime | src/bdmmprime/flow/ExtinctionODESystem.java:57-58 | under the usual lookup, a time in (e[k-1], e[k]] has interval k |
| Derivatives.ExtinctionAtOnes | src/bdmmprime/flow/ExtinctionODESystem.java:24-36 | at the all-ones state `yDot[i]` is the sampling rate s_i |
| Derivatives.SelfMigrationIrrelevant | src/bdmmprime/flow/ExtinctionODESystem.java:32-35 | the j = i term is included, but changing `m_ii` never changes `yDot[i]` |
| Derivatives.ExtinctionMinusP0 | src/bdmmprime/flow/FlowODESystem.java:45-52 | the extinction and p0 derivatives differ exactly by the skipped self term c_ii·(y_i − y_i²) |
| Derivatives.P0AgreesWithoutSelfCrossBirth | src/bdmmprime/flow/FlowODESystem.java:39-52 | with c_ii = 0 the p0 derivative equals the extinction system's |
| Derivatives.P0AtOnes | src/bdmmprime/flow/FlowODESystem.java:39-52 | at p0 = all ones the p0 derivative is s_i |
| Derivatives.GeOfZero | src/bdmmprime/flow/FlowODESystem.java:56-71 | for fixed p0, ge = 0 gives a zero ge derivative |
| Derivatives.GeAdditive | src/bdmmprime/flow/FlowODESystem.java:56-71 | for fixed p0 the ge derivative is additive in the ge vector |
| Derivatives.GeHomogeneous | src/bdmmprime/flow/FlowODESystem.java:56-71 | for fixed p0 the ge derivative is homogeneous in the ge vector |
| IntervalODE.EndTimeProductZero | src/bdmmprime/flow/IntervalODESystem.java:74-80 | the product of (v − b) over the end times is zero exactly when v is an end time |
| IntervalODE.IntervalODESystem.constructor | src/bdmmprime/flow/IntervalODESystem.java:23-27 | min step T·1e-100 and max step T/20; for T > 0, 0 < min < max < T |
| IntervalODE.IntervalODESystem.IntegrateOverIntegrals | src/bdmmprime/flow/IntervalODESystem.java:42-66 | the integrator gets the step bounds and tolerances; the event settings are (timeEnd − timeStart)/10, 1e-5 and 1000; `interval` becomes `getIntervalIndex(timeStart)` |
| IntervalODE.IntervalODESystem.IntegrateForward | src/bdmmprime/flow/IntervalODESystem.java:29-33 | the whole run is the five-argument routine's from 0 to T: the system's step bounds, the given tolerances, check interval T/10, convergence 1e-5, 1000 iterations |
| IntervalODE.IntervalODESystem.IntegrateBackward | src/bdmmprime/flow/IntervalODESystem.java:35-39 | the whole run is the forward one with the bounds swapped: from T to 0, check interval −T/10, everything else equal |
| IntervalODE.IntervalODESystem.G | src/bdmmprime/flow/IntervalODESystem.java:74-80 | `g(v)` is the product of (v − b) over the end times; it is zero exactly at end times and 1 with no end times |
| IntervalODE.IntervalODESystem.EventOccurred | src/bdmmprime/flow/IntervalODESystem.java:82-85 | every event asks for RESET_STATE |
| IntervalODE.IntervalODESystem.ResetStateAt | src/bdmmprime/flow/IntervalODESystem.java:87-90 | `interval` becomes `getIntervalIndex(t)`; `y` is not touched |
| IntervalODE.IntervalODESystem.SetInterval | src/bdmmprime/flow/ExtinctionODESystem.java:63 | the schedule's `setInterval(k)` sets `interval` to k and changes nothing else |
| ExtinctionODE.ExtinctionODESystem.constructor | src/bdmmprime/flow/ExtinctionODESystem.java:13-15 | the base system is built from the parameterization |
| ExtinctionODE.ExtinctionODESystem.GetDimension | src/bdmmprime/flow/ExtinctionODESystem.java:17-20 | the dimension is the number of types |
| ExtinctionODE.ExtinctionODESystem.ComputeDerivatives | src/bdmmprime/flow/ExtinctionODESystem.java:22-37 | every `yDot[i]` for i < n is the extinction derivative under the current interval's rates; later entries are unchanged |
| ExtinctionODE.ExtinctionRow | src/bdmmprime/flow/ExtinctionODESystem.java:25-35 | the accumulation order of the Java code gives the extinction derivative of type i; no other entry changes |
| ExtinctionODE.LocalTermExpanded | src/bdmmprime/flow/ExtinctionODESystem.java:25-30 | the five updates add up to (b + d + s)·y − b·y² − d |
| ExtinctionODE.ScaleByRho | src/bdmmprime/flow/ExtinctionODESystem.java:70-72 | `state[i] *= 1 − rho[i]` for every type |
| ExtinctionODE.ExtinctionODESystem.IntegrateBackwardsOverIntegrals | src/bdmmprime/flow/ExtinctionODESystem.java:39-85 | timeStart > timeEnd fails before any change; otherwise the pieces are the backward `Sweep`, the state is the last piece's final state, and the interval is that of timeStart |
| ExtinctionODE.ExtinctionODESystem.SweepDown | src/bdmmprime/flow/ExtinctionODESystem.java:62-82 | the loop from endInterval down to startInterval produces exactly the `Sweep` pieces and leaves the last final state |
| ExtinctionODE.ExtinctionODESystem.IntegrateInterval | src/bdmmprime/flow/ExtinctionODESystem.java:63-78 | one pass sets the interval, rescales by rho when the upper bound tests equal to the end time, and integrates down; the result is `MakePiece` |
| ExtinctionODE.SweepPieces | src/bdmmprime/flow/ExtinctionODESystem.java:62-82 | the sweep has one piece per interval; piece m is interval (k − m)'s, entered with the previous piece's final state |
| ExtinctionODE.SweepTiles | src/bdmmprime/flow/ExtinctionODESystem.java:62-68 | the pieces tile the range from the top: the first starts at timeEnd, each starts where the previous one stopped, the last stops at timeStart; intervals descend by one; rho is applied exactly when the upper bound tests equal to the interval's end time |
| ExtinctionODE.SweepBounds | src/bdmmprime/flow/ExtinctionODESystem.java:62-68 | piece m runs from `Upper` to `Lower` of interval endInterval − m |
| ExtinctionODE.SweepThreadsState | src/bdmmprime/flow/ExtinctionODESystem.java:68-78 | each piece starts from the previous final state, rescaled by rho only when flagged, and ends where the integrator takes it |
| ExtinctionODE.SweepStaysInIntervals | src/bdmmprime/flow/ExtinctionODESystem.java:57-66 | under the usual lookup every piece runs backward and stays inside its own interval |
| FlowODE.FlowODESystem.constructor | src/bdmmprime/flow/FlowODESystem.java:13-15 | the parameterization is kept; `interval` starts at 0 |
| FlowODE.FlowODESystem.SetInterval | src/bdmmprime/flow/FlowODESystem.java:17-19 | only `interval` changes, to the given value |
| FlowODE.FlowODESystem.GetDimension | src/bdmmprime/flow/FlowODESystem.java:25-27 | the dimension is twice the number of types |
| FlowODE.FlowODESystem.ComputeDerivatives | src/bdmmprime/flow/FlowODESystem.java:29-74 | `yDot[i]` is the p0 derivative of the p0 half and `yDot[n+i]` the ge derivative of both halves, under the current interval's rates; later entries are unchanged |
| FlowODE.FlowRow | src/bdmmprime/flow/FlowODESystem.java:35-72 | one outer pass writes type i's p0 and ge derivatives and nothing else |
| FlowODE.P0Row | src/bdmmprime/flow/FlowODESystem.java:39-52 | type i's p0 equation, with the j = i coupling skipped, reads only the p0 half |
| FlowODE.GeRow | src/bdmmprime/flow/FlowODESystem.java:56-71 | type i's ge equation, with the j = i coupling skipped |
| Distribution.ValidationAccepts | src/bdmmprime/flow/BirthDeathMigrationDistribution.java:63-79 | the inputs pass exactly when (one type or a label) and the dimension matches and \|1 − Σf\| ≤ 1e-10 |
| Distribution.ValidationOrder | src/bdmmprime/flow/BirthDeathMigrationDistribution.java:63-72 | a missing label is reported whatever the frequencies; a dimension mismatch whatever their sum |
| Distribution.DefaultsFitOneType | src/bdmmprime/flow/BirthDeathMigrationDistribution.java:32-34 | the default frequencies "1.0" pass for a single-type model without a label |
| Distribution.FrequencySum | src/bdmmprime/flow/BirthDeathMigrationDistribution.java:74-75 | the loop computes the sum of the frequencies |
| Distribution.BirthDeathMigrationDistribution.constructor | src/bdmmprime/flow/BirthDeathMigrationDistribution.java:47-51 | the class declares no constructor, so the numeric fields start at 0 until `initAndValidate` |
| Distribution.BirthDeathMigrationDistribution.InitAndValidate | src/bdmmprime/flow/BirthDeathMigrationDistribution.java:28-80 | the inputs are stored, each missing optional input taking its default (offset 0, tolerances 1e-100 and 1e-7, frequencies "1.0"); then the checks run in order: label, dimension, sum |
| Distribution.BirthDeathMigrationDistribution.CalculateFlow | src/bdmmprime/flow/BirthDeathMigrationDistribution.java:94-125 | step bounds T·1e-100 and T/10, with 0 < min < max < T for T > 0; the stored tolerances; and the pieces of the forward schedule with the flow system set to each interval |
| Distribution.ForwardPiecesAt | src/bdmmprime/flow/BirthDeathMigrationDistribution.java:115-122 | piece k is interval k's, from 0 or e[k−1] to e[k], entered with the state after k intervals |
| Distribution.ForwardPiecesTile | src/bdmmprime/flow/BirthDeathMigrationDistribution.java:115-122 | the pieces tile [0, e[last]]: they start at 0, visit the intervals in increasing order, abut, and hand the state on |
| Distribution.ForwardPiecesRunForward | src/bdmmprime/flow/BirthDeathMigrationDistribution.java:115-122 | for sorted end times from 0 on, every piece runs forward |

## Left out

- Numerical integration and interpolation (`DormandPrince54Integrator`, `ContinuousOutputModel`) are library floating-point code. They appear as the `Integrator` and `Segment` function values, and a `ContinuousOutputModel` result appears as the sequence of pieces it would record.
- `Math.log` and `Math.exp` are function values (`Elementary`). Only ln 1 = 0, exp 0 = 1, exp > 0 and exp(ln x) = x for x > 0 are assumed.
- `bdmmprime.util.Utils.equalWithPrecision` is not part of this model. It is a function parameter of the backward schedule.
- `getIntervalIndex` of the external parameterization is not part of this model. It is a function value assumed to return an existing interval. Lemmas that rely on its usual meaning (first end time at or after t, clamped) require `IndexesByEndTimes`.
- The tree traversal and likelihood (`calculateTreeLogLikelihood`, `calculateSubTreeLikelihood`) and the QR solve are left out. They are unfinished code and a foreign library.
- `Utils.toVector` is left out as a trivial wrapper. The empty `init` event handler is left out too.
- IntervalODE.IntervalODESystem.IntegrateOverIntegrals: the integration run itself is not modelled. That covers the state written back and the `interval` changes the events cause during it. The method returns the configuration it hands to the integrator; `ResetStateAt` models the event reaction separately.
- ExtinctionODE.ExtinctionODESystem.IntegrateBackwardsOverIntegrals: the integrator's step bounds and tolerances are not recorded for this schedule.
- The five-argument backward schedule is not reachable from the three-argument `integrateBackwardsOverIntegrals` of `IntervalODESystem`. That call routes to `integrateOverIntegrals`. The two are modelled as separate operations.
- The Java `ExtinctionODESystem` calls `setInterval`, which `IntervalODESystem` does not declare. It also reads the base class's private step fields. The model gives the base class `SetInterval` and public constants.
- Distribution.BirthDeathMigrationDistribution.CalculateFlow: the Java initial state is an empty placeholder array. The model takes the initial state as a parameter.
- Utils.ToMatrix: requires n² ≤ array length, where the Java code would throw an index exception. For dimension 0 the model returns an empty 0×0 matrix, where Java's `new BlockRealMatrix(0, 0)` throws; every caller passes the number of types, which is at least 1, and `FlowStore.Flow.Create` reports dimension 0 as an error value.
- FlowStore.Flow.Create returns an error value for an empty store, where the Java `Flow` constructor throws on storing `initialFlows[0]`. It returns another for dimension 0, where `createRealIdentityMatrix(0)` throws.
- ExtinctionStore.ExtinctionProbabilities.Create accepts an empty store, as the Java constructor does. Only `GetExtinctionProbability` on an empty store returns an error value, where the Java lookup indexes −1.
- FlowStore.Flow.Create: requires every interpolant state to hold at least n² entries, where `toMatrix` would throw.
- Utils.Rescale: requires a non-zero maximum. Division by a zero maximum yields NaN or infinities in Java. A negative maximum is let through, and the model then returns `ln(max) + previousLogFactor` with `ln` unconstrained, where Java's `Math.log` gives NaN; the vectors rescaled are probabilities, so they are never negative.
- Exceptions thrown by the constructors, `initAndValidate`, the store lookups and the backward schedule are modelled as `Result`/`Option` error values. They are returned before any state change where the Java code throws before one. The index exceptions of `fillArray`, `fillVector`, `toMatrix` and `computeDerivatives` are excluded by preconditions instead (lines below). So is the index or dimension exception of the backward schedule on a state whose length is not the number of types: `IntegrateBackwardsOverIntegrals` requires `state.Length == nTypes`.
- Utils.FillArray: requires rows·cols ≤ array length. The Java loop on a short array writes the in-range entries it reaches and then throws an index exception; that partial write is not modelled.
- Utils.FillVector: requires the vector to fit in the array. The Java loop on a short array writes the front of the array and then throws an index exception; that partial write is not modelled.
- Both `ComputeDerivatives` methods require `y` and `yDot` to be different arrays. Aliasing is not modelled.
- FlowODE.FlowODESystem.ComputeDerivatives: requires the current interval to be an existing one, where Java would throw an index exception.

## Findings

| source | as written | input that shows it | evidently intended | confidence | as-written member | corrected member |
|---|---|---|---|---|---|---|
| src/bdmmprime/flow/Flow.java:57-59 | past the last end time the query returns `initialFlows[last] × segment_last(t)` | the flow Φ = A = [[1,1],[0,1]] up to 1 and Φ = B·A after it, with B = [[1,0],[1,1]]; its segments are Φ itself up to end time 1, then I and B from 1 up to end time 2. Queried at t = 3 the result is A·B = [[2,1],[1,1]], but Φ(3) = B·A = [[1,1],[1,2]] | `segment_last(t) × initialFlows[last]`, the order of the in-range branch | high, not executed | FlowStore.ClampedQueryReversesOrder | FlowStore.FlowAtTelescopes |
| src/bdmmprime/flow/Utils.java:53-57 | `unscale` divides every entry by exp(logFactor) | [2.0] rescales to [1.0] with factor ln 2 and unscales to [0.5] | multiply by exp(logFactor), so that unscaling undoes rescaling | medium, not executed | Utils.UnscaleDoesNotUndoRescale | Utils.RescaleThenUnscaleCorrectedRestores |

The model's `Unscale` and `GetFlow` follow the code as written. The corrected
definitions are `UnscaleCorrected` and `FlowAt`.
