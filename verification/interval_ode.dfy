/**
 * `IntervalODESystem`: the part of an ODE system shared by the extinction
 * system: it knows the parameterization, tracks the rate interval the
 * integrator is currently in, and tells the integrator where the interval
 * boundaries are through the event function `g`.
 *
 * The integrator itself (Dormand-Prince with an event handler) is not part of
 * this model: `IntegrateOverIntegrals` returns the configuration it would hand
 * to the integrator and performs the state change the system makes itself.
 */
module IntervalODE {
  import opened Params

  /**
   * The numerical integrator as a function value: given the interval in
   * force, the time to start from, the time to stop at and the state at the
   * start, it yields the state at the stopping time.
   */
  type Integrator = (int, real, real, seq<real>) -> seq<real>

  /** The integrator keeps the dimension of the state. */
  ghost predicate KeepsLength(integrate: Integrator) {
    forall k, a, b, y :: |integrate(k, a, b, y)| == |y|
  }

  /** The integrator's reaction to an event. */
  datatype Action = Stop | ResetState | ResetDerivatives | Continue

  /** Event-detection settings: at least ten checks per run, convergence 1e-5, at most 1000 iterations. */
  const MinRateChangeNumChecks: real := 10.0
  const RateChangeCheckConvergence: real := 1.0e-5
  const RateChangeMaxIterations: nat := 1000

  /** What `integrateOverIntegrals` configures: step bounds, tolerances, event detection and the time range. */
  datatype IntegratorRun = IntegratorRun(
    minStep: real, maxStep: real,
    absoluteTolerance: real, relativeTolerance: real,
    maxCheckInterval: real, convergence: real, maxIterationCount: nat,
    timeStart: real, timeEnd: real)

  /** The product of (v − b) over the end times b, taken left to right; 1 for no end times. */
  function EndTimeProduct(e: seq<real>, v: real): real {
    if |e| == 0 then 1.0 else EndTimeProduct(e[..|e| - 1], v) * (v - e[|e| - 1])
  }

  /** `g` vanishes exactly on the interval end times, so events fire exactly at the boundaries. */
  lemma {:induction false} EndTimeProductZero(e: seq<real>, v: real)
    ensures EndTimeProduct(e, v) == 0.0 <==> v in e
  {
    if |e| > 0 {
      var front := e[..|e| - 1];
      EndTimeProductZero(front, v);
      assert e == front + [e[|e| - 1]];
      var a, b := EndTimeProduct(front, v), v - e[|e| - 1];
      assert a * b == 0.0 <==> a == 0.0 || b == 0.0;
    }
  }

  class IntervalODESystem {
    const param: Parameterization
    var interval: int
    const integrationMinStep: real
    const integrationMaxStep: real

    /** The current interval is one the parameterization has. */
    ghost predicate Valid()
      reads this
    {
      Params.Valid(param) && 0 <= interval < param.IntervalCount()
    }

    /** Step bounds T·1e-100 and T/20 for the total process length T; `interval` starts at 0. */
    constructor (parameterization: Parameterization)
      requires Params.Valid(parameterization)
      ensures Valid() && param == parameterization && interval == 0
      ensures integrationMinStep == parameterization.totalProcessLength * 1.0e-100
      ensures integrationMaxStep == parameterization.totalProcessLength / 20.0
      ensures parameterization.totalProcessLength > 0.0 ==>
                0.0 < integrationMinStep < integrationMaxStep < parameterization.totalProcessLength
    {
      param := parameterization;
      interval := 0;
      integrationMinStep := parameterization.totalProcessLength * 1.0e-100;
      integrationMaxStep := parameterization.totalProcessLength / 20.0;
    }

    /**
     * The five-argument `integrateOverIntegrals`: the event check interval is a
     * tenth of the signed range (negative when integrating backward), and the
     * current interval becomes the one owning `timeStart`.
     */
    method IntegrateOverIntegrals(timeStart: real, timeEnd: real, absoluteTolerance: real, relativeTolerance: real)
      returns (run: IntegratorRun)
      requires Valid()
      modifies this
      ensures Valid() && interval == param.intervalIndex(timeStart)
      ensures run.minStep == integrationMinStep && run.maxStep == integrationMaxStep
      ensures run.absoluteTolerance == absoluteTolerance && run.relativeTolerance == relativeTolerance
      ensures run.maxCheckInterval * MinRateChangeNumChecks == timeEnd - timeStart
      ensures run.convergence == RateChangeCheckConvergence && run.maxIterationCount == RateChangeMaxIterations
      ensures run.timeStart == timeStart && run.timeEnd == timeEnd
    {
      run := IntegratorRun(integrationMinStep, integrationMaxStep, absoluteTolerance, relativeTolerance,
                           (timeEnd - timeStart) / MinRateChangeNumChecks,
                           RateChangeCheckConvergence, RateChangeMaxIterations, timeStart, timeEnd);
      interval := param.intervalIndex(timeStart);
    }

    /**
     * The three-argument forward call: the five-argument routine from 0 to the
     * total process length T, so the event check interval is T/10.
     */
    method IntegrateForward(absoluteTolerance: real, relativeTolerance: real) returns (run: IntegratorRun)
      requires Valid()
      modifies this
      ensures Valid() && interval == param.intervalIndex(0.0)
      ensures run == IntegratorRun(integrationMinStep, integrationMaxStep, absoluteTolerance, relativeTolerance,
                                   param.totalProcessLength / MinRateChangeNumChecks,
                                   RateChangeCheckConvergence, RateChangeMaxIterations, 0.0, param.totalProcessLength)
      ensures param.totalProcessLength > 0.0 ==> run.maxCheckInterval > 0.0
    {
      run := IntegrateOverIntegrals(0.0, param.totalProcessLength, absoluteTolerance, relativeTolerance);
    }

    /**
     * The three-argument backward call: the same routine with the bounds
     * swapped, from T down to 0, so its event check interval is −T/10; the
     * run differs from the forward one only in its bounds.
     */
    method IntegrateBackward(absoluteTolerance: real, relativeTolerance: real) returns (run: IntegratorRun)
      requires Valid()
      modifies this
      ensures Valid() && interval == param.intervalIndex(param.totalProcessLength)
      ensures run == IntegratorRun(integrationMinStep, integrationMaxStep, absoluteTolerance, relativeTolerance,
                                   -param.totalProcessLength / MinRateChangeNumChecks,
                                   RateChangeCheckConvergence, RateChangeMaxIterations, param.totalProcessLength, 0.0)
      ensures param.totalProcessLength > 0.0 ==> run.maxCheckInterval < 0.0
    {
      run := IntegrateOverIntegrals(param.totalProcessLength, 0.0, absoluteTolerance, relativeTolerance);
    }

    /** `g(v, y)`: the product of (v − b) over the end times, accumulated in a loop; `y` is not read. */
    method G(v: real, y: array<real>) returns (result: real)
      ensures result == EndTimeProduct(param.intervalEndTimes, v)
      ensures result == 0.0 <==> v in param.intervalEndTimes
      ensures |param.intervalEndTimes| == 0 ==> result == 1.0
    {
      var e := param.intervalEndTimes;
      result := 1.0;
      for k := 0 to |e|
        invariant result == EndTimeProduct(e[..k], v)
      {
        assert e[..k + 1][..k] == e[..k];
        result := result * (v - e[k]);
      }
      assert e[..|e|] == e;
      EndTimeProductZero(e, v);
    }

    /** `eventOccurred`: every boundary crossing asks the integrator to reset the state. */
    method EventOccurred(t: real, y: array<real>, increasing: bool) returns (action: Action)
      ensures action == ResetState
    {
      return ResetState;
    }

    /** `resetState`: the current interval becomes the one owning `t`; the state array is left alone. */
    method ResetStateAt(t: real, y: array<real>)
      requires Valid()
      modifies this
      ensures Valid() && interval == param.intervalIndex(t)
    {
      interval := param.intervalIndex(t);
    }

    /** `setInterval`, as the extinction system's schedule calls it: only `interval` changes. */
    method SetInterval(k: int)
      requires Params.Valid(param) && 0 <= k < param.IntervalCount()
      modifies this
      ensures Valid() && interval == k
    {
      interval := k;
    }
  }
}
