/**
 * `BirthDeathMigrationDistribution`: the checks `initAndValidate` makes on
 * its inputs, and the forward schedule `calculateFlow` drives the flow
 * system through: one integration per rate interval, in increasing order,
 * each from the previous interval's end time (0 for the first) to its own.
 *
 * The tree, the tree traversal and the likelihood are not part of this model.
 */
module Distribution {
  import opened Wrappers
  import opened Params
  import opened Segments
  import opened IntervalODE
  import opened FlowODE

  /** Why `initAndValidate` refuses its inputs, in the order it checks. */
  datatype ConfigError =
    | MissingTypeLabel
    | FrequencyDimensionMismatch
    | FrequenciesDoNotSumToOne(sum: real)

  /** How far the frequencies may sum from 1. */
  const FrequencySumTolerance: real := 1.0e-10

  /** Input defaults: offset 0, frequencies "1.0", relative tolerance 1e-7, absolute tolerance 1e-100. */
  const DefaultFinalSampleOffset: real := 0.0
  const DefaultFrequencies: seq<real> := [1.0]
  const DefaultRelativeTolerance: real := 1.0e-7
  const DefaultAbsoluteTolerance: real := 1.0e-100

  /** f[0] + f[1] + …, added left to right from 0. */
  function Sum(f: seq<real>): real {
    if |f| == 0 then 0.0 else Sum(f[..|f| - 1]) + f[|f| - 1]
  }

  /** An optional input's value: what was given, or the input's default. */
  function InputValue<T>(input: Option<T>, default: T): (v: T)
    ensures input.None? ==> v == default
    ensures input.Some? ==> v == input.value
  {
    if input.Some? then input.value else default
  }

  function Abs(x: real): real {
    if x < 0.0 then -x else x
  }

  /**
   * The outcome of the three checks: a missing type label for a model with
   * more than one type, then a frequency count other than the number of
   * types, then a frequency sum further than the tolerance from 1.
   */
  function ValidationError(nTypes: nat, hasTypeLabel: bool, frequencies: seq<real>): Option<ConfigError> {
    if nTypes != 1 && !hasTypeLabel then Some(MissingTypeLabel)
    else if |frequencies| != nTypes then Some(FrequencyDimensionMismatch)
    else if Abs(1.0 - Sum(frequencies)) > FrequencySumTolerance then Some(FrequenciesDoNotSumToOne(Sum(frequencies)))
    else None
  }

  /** The inputs pass exactly when all three conditions hold. */
  lemma ValidationAccepts(nTypes: nat, hasTypeLabel: bool, frequencies: seq<real>)
    ensures ValidationError(nTypes, hasTypeLabel, frequencies) == None <==>
      (nTypes == 1 || hasTypeLabel) && |frequencies| == nTypes &&
      -FrequencySumTolerance <= 1.0 - Sum(frequencies) <= FrequencySumTolerance
  {
  }

  /**
   * The checks run in order: a missing label is reported whatever the
   * frequencies, and a dimension mismatch whatever their sum.
   */
  lemma ValidationOrder(nTypes: nat, hasTypeLabel: bool, frequencies: seq<real>)
    ensures nTypes != 1 && !hasTypeLabel ==> ValidationError(nTypes, hasTypeLabel, frequencies) == Some(MissingTypeLabel)
    ensures (nTypes == 1 || hasTypeLabel) && |frequencies| != nTypes ==>
      ValidationError(nTypes, hasTypeLabel, frequencies) == Some(FrequencyDimensionMismatch)
  {
  }

  /** The default frequency vector passes for a single-type model, with or without a label. */
  lemma DefaultsFitOneType(hasTypeLabel: bool)
    ensures ValidationError(1, hasTypeLabel, DefaultFrequencies) == None
  {
    assert Sum(DefaultFrequencies) == Sum([]) + 1.0;
  }

  /** Adding one more frequency to a prefix adds it to the sum: the loop's step. */
  lemma SumStep(f: seq<real>, k: nat)
    requires k < |f|
    ensures Sum(f[..k + 1]) == Sum(f[..k]) + f[k]
  {
    assert f[..k + 1][..k] == f[..k];
  }

  /** Where interval k's forward integration starts: 0 for the first interval, else the previous end time. */
  function ForwardStart(e: seq<real>, k: nat): real
    requires k < |e|
  {
    if k == 0 then 0.0 else e[k - 1]
  }

  /** The state after the first `count` intervals, each integrated forward from y. */
  function StateAfter(e: seq<real>, count: nat, y: seq<real>, integrate: Integrator): seq<real>
    requires count <= |e|
  {
    if count == 0 then y
    else integrate(count - 1, ForwardStart(e, count - 1), e[count - 1], StateAfter(e, count - 1, y, integrate))
  }

  /** One interval's integration in the forward schedule. */
  datatype FlowPiece = FlowPiece(interval: int, from: real, to: real, initial: seq<real>, final: seq<real>)

  /** The pieces of the first `count` intervals, in increasing order, each handing its state to the next. */
  function ForwardPieces(e: seq<real>, count: nat, y: seq<real>, integrate: Integrator): seq<FlowPiece>
    requires count <= |e|
  {
    if count == 0 then []
    else
      var k := count - 1;
      ForwardPieces(e, k, y, integrate)
        + [FlowPiece(k, ForwardStart(e, k), e[k], StateAfter(e, k, y, integrate), StateAfter(e, count, y, integrate))]
  }

  /**
   * Piece k is interval k's, running from its start to its end time, entered
   * with the state the earlier pieces leave and leaving the state after k + 1
   * intervals.
   */
  lemma {:induction false} ForwardPiecesAt(e: seq<real>, count: nat, y: seq<real>, integrate: Integrator)
    requires count <= |e|
    ensures var pieces := ForwardPieces(e, count, y, integrate);
      |pieces| == count &&
      forall k :: 0 <= k < count ==>
        pieces[k] == FlowPiece(k, ForwardStart(e, k), e[k], StateAfter(e, k, y, integrate), StateAfter(e, k + 1, y, integrate))
  {
    if count > 0 {
      ForwardPiecesAt(e, count - 1, y, integrate);
    }
  }

  /**
   * The forward schedule tiles [0, e[last]]: the first piece starts at 0,
   * each starts where the previous one stopped and is the next interval, the
   * last stops at the final end time, and each hands its final state on as
   * the next one's initial state.
   */
  lemma ForwardPiecesTile(e: seq<real>, y: seq<real>, integrate: Integrator)
    requires |e| > 0
    ensures var pieces := ForwardPieces(e, |e|, y, integrate);
      |pieces| == |e| &&
      pieces[0].from == 0.0 && pieces[0].interval == 0 && pieces[0].initial == y &&
      pieces[|e| - 1].to == e[|e| - 1] && pieces[|e| - 1].interval == |e| - 1 &&
      forall k :: 0 <= k < |e| - 1 ==>
        pieces[k].to == pieces[k + 1].from && pieces[k + 1].interval == pieces[k].interval + 1 &&
        pieces[k].final == pieces[k + 1].initial
  {
    ForwardPiecesAt(e, |e|, y, integrate);
    var pieces := ForwardPieces(e, |e|, y, integrate);
    assert pieces[0] == FlowPiece(0, 0.0, e[0], StateAfter(e, 0, y, integrate), StateAfter(e, 1, y, integrate));
    forall k | 0 <= k < |e| - 1
      ensures pieces[k].to == pieces[k + 1].from && pieces[k + 1].interval == pieces[k].interval + 1
      ensures pieces[k].final == pieces[k + 1].initial
    {
      assert pieces[k].final == StateAfter(e, k + 1, y, integrate);
      assert pieces[k + 1] == FlowPiece(k + 1, e[k], e[k + 1], StateAfter(e, k + 1, y, integrate), StateAfter(e, k + 2, y, integrate));
    }
  }

  /** Under sorted end times, starting at or after 0, every piece runs forward: from <= to. */
  lemma ForwardPiecesRunForward(e: seq<real>, y: seq<real>, integrate: Integrator)
    requires Sorted(e) && |e| > 0 && 0.0 <= e[0]
    ensures var pieces := ForwardPieces(e, |e|, y, integrate);
      forall k :: 0 <= k < |pieces| ==> pieces[k].from <= pieces[k].to
  {
    ForwardPiecesAt(e, |e|, y, integrate);
    var pieces := ForwardPieces(e, |e|, y, integrate);
    forall k | 0 <= k < |pieces|
      ensures pieces[k].from <= pieces[k].to
    {
      assert pieces[k] == FlowPiece(k, ForwardStart(e, k), e[k], StateAfter(e, k, y, integrate), StateAfter(e, k + 1, y, integrate));
      ForwardStartBelowEnd(e, k);
    }
  }

  /** Interval k starts no later than it ends, for sorted end times from 0 on. */
  lemma ForwardStartBelowEnd(e: seq<real>, k: nat)
    requires Sorted(e) && 0 < |e| && 0.0 <= e[0] && k < |e|
    ensures ForwardStart(e, k) <= e[k]
  {
    if k > 0 {
      assert e[k - 1] <= e[k];
    }
  }

  /** What `calculateFlow` sets up and runs: the integrator's step bounds and tolerances, and the pieces. */
  datatype FlowRun = FlowRun(minStep: real, maxStep: real, absoluteTolerance: real, relativeTolerance: real,
                             pieces: seq<FlowPiece>)

  class BirthDeathMigrationDistribution {
    var parameterization: Parameterization
    var finalSampleOffset: real
    var absoluteTolerance: real
    var relativeTolerance: real

    /**
     * The Java class declares no constructor: its numeric fields start at 0
     * and take the inputs (or their defaults) only in `initAndValidate`. The
     * required parameterization input is given here, as a datatype has no null.
     */
    constructor (parameterization: Parameterization)
      ensures this.parameterization == parameterization && finalSampleOffset == 0.0
      ensures absoluteTolerance == 0.0 && relativeTolerance == 0.0
    {
      this.parameterization := parameterization;
      finalSampleOffset := 0.0;
      absoluteTolerance := 0.0;
      relativeTolerance := 0.0;
    }

    /**
     * `initAndValidate`: the inputs are stored first, an input that was not
     * given taking its default, then checked; the frequency sum is
     * accumulated in a loop. A refusal leaves the stored inputs in place, as
     * the Java method throws after assigning them.
     */
    method InitAndValidate(parameterization: Parameterization, finalSampleOffset: Option<real>,
                           absoluteTolerance: Option<real>, relativeTolerance: Option<real>,
                           typeLabel: Option<string>, frequencies: Option<seq<real>>)
      returns (error: Option<ConfigError>)
      modifies this
      ensures this.parameterization == parameterization
      ensures this.finalSampleOffset == InputValue(finalSampleOffset, DefaultFinalSampleOffset)
      ensures this.absoluteTolerance == InputValue(absoluteTolerance, DefaultAbsoluteTolerance)
      ensures this.relativeTolerance == InputValue(relativeTolerance, DefaultRelativeTolerance)
      ensures error == ValidationError(parameterization.nTypes, typeLabel.Some?,
                                       InputValue(frequencies, DefaultFrequencies))
    {
      this.parameterization := parameterization;
      this.finalSampleOffset := InputValue(finalSampleOffset, DefaultFinalSampleOffset);
      this.absoluteTolerance := InputValue(absoluteTolerance, DefaultAbsoluteTolerance);
      this.relativeTolerance := InputValue(relativeTolerance, DefaultRelativeTolerance);
      var freqs := InputValue(frequencies, DefaultFrequencies);

      if parameterization.nTypes != 1 && typeLabel.None? {
        return Some(MissingTypeLabel);
      }
      if |freqs| != parameterization.nTypes {
        return Some(FrequencyDimensionMismatch);
      }
      var freqSum := FrequencySum(freqs);
      if Abs(1.0 - freqSum) > FrequencySumTolerance {
        return Some(FrequenciesDoNotSumToOne(freqSum));
      }
      return None;
    }

    /**
     * `calculateFlow`: step bounds T·1e-100 and T/10, the stored tolerances,
     * and one integration per interval in increasing order with the flow
     * system set to that interval, threading the state from `initialState`.
     */
    method CalculateFlow(initialState: seq<real>, integrate: Integrator) returns (run: FlowRun)
      ensures run.minStep == parameterization.totalProcessLength * 1.0e-100
      ensures run.maxStep == parameterization.totalProcessLength / 10.0
      ensures parameterization.totalProcessLength > 0.0 ==>
                0.0 < run.minStep < run.maxStep < parameterization.totalProcessLength
      ensures run.absoluteTolerance == absoluteTolerance && run.relativeTolerance == relativeTolerance
      ensures run.pieces == ForwardPieces(parameterization.intervalEndTimes, parameterization.IntervalCount(),
                                          initialState, integrate)
    {
      var flowODE := new FlowODESystem(parameterization);
      var integrationMinStep := parameterization.totalProcessLength * 1.0e-100;
      var integrationMaxStep := parameterization.totalProcessLength / 10.0;
      var e := parameterization.intervalEndTimes;
      var state := initialState;
      var pieces: seq<FlowPiece> := [];
      for interval := 0 to parameterization.IntervalCount()
        invariant pieces == ForwardPieces(e, interval, initialState, integrate)
        invariant state == StateAfter(e, interval, initialState, integrate)
      {
        flowODE.SetInterval(interval);
        var startTime := if interval == 0 then 0.0 else e[interval - 1];
        var endTime := e[interval];
        var initial := state;
        state := integrate(flowODE.interval, startTime, endTime, state);
        pieces := pieces + [FlowPiece(interval, startTime, endTime, initial, state)];
      }
      run := FlowRun(integrationMinStep, integrationMaxStep, absoluteTolerance, relativeTolerance, pieces);
    }
  }

  /** The loop of `initAndValidate` that adds up the frequencies. */
  method FrequencySum(frequencies: seq<real>) returns (freqSum: real)
    ensures freqSum == Sum(frequencies)
  {
    freqSum := 0.0;
    for k := 0 to |frequencies|
      invariant freqSum == Sum(frequencies[..k])
    {
      SumStep(frequencies, k);
      freqSum := freqSum + frequencies[k];
    }
    assert frequencies[..|frequencies|] == frequencies;
  }
}
