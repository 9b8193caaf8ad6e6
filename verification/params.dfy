/**
 * The parts of the external `Parameterization` the flow core reads: the
 * number of types, the total process length, the sorted interval end times,
 * per-interval rate tables indexed [interval][type] or [interval][type][type],
 * and the interval lookup `getIntervalIndex`, whose implementation is not
 * part of this model and is therefore a function-valued field.
 */
module Params {
  import opened Segments

  datatype Parameterization = Parameterization(
    nTypes: nat,
    totalProcessLength: real,
    intervalEndTimes: seq<real>,
    birthRates: seq<seq<real>>,
    deathRates: seq<seq<real>>,
    samplingRates: seq<seq<real>>,
    rhoValues: seq<seq<real>>,
    migRates: seq<seq<seq<real>>>,
    crossBirthRates: seq<seq<seq<real>>>,
    intervalIndex: real -> int)
  {
    /** `getTotalIntervalCount()`: one interval per end time. */
    function IntervalCount(): nat {
      |intervalEndTimes|
    }
  }

  /** A [interval][type] table for `count` intervals and `n` types. */
  predicate IsTable(t: seq<seq<real>>, count: nat, n: nat) {
    |t| == count && forall k :: 0 <= k < count ==> |t[k]| == n
  }

  /** A [interval][type][type] table for `count` intervals and `n` types. */
  predicate IsCube(t: seq<seq<seq<real>>>, count: nat, n: nat) {
    |t| == count &&
    forall k :: 0 <= k < count ==> |t[k]| == n && forall i :: 0 <= i < n ==> |t[k][i]| == n
  }

  /** The shape assumptions: at least one interval, sorted end times, matching tables. */
  predicate Shaped(p: Parameterization) {
    var count := p.IntervalCount();
    count > 0 && Sorted(p.intervalEndTimes) &&
    IsTable(p.birthRates, count, p.nTypes) && IsTable(p.deathRates, count, p.nTypes) &&
    IsTable(p.samplingRates, count, p.nTypes) && IsTable(p.rhoValues, count, p.nTypes) &&
    IsCube(p.migRates, count, p.nTypes) && IsCube(p.crossBirthRates, count, p.nTypes)
  }

  /** `getIntervalIndex` always names an existing interval. */
  ghost predicate Valid(p: Parameterization) {
    Shaped(p) && forall t :: 0 <= p.intervalIndex(t) < p.IntervalCount()
  }

  /**
   * The usual meaning of `getIntervalIndex`: the first interval whose end time
   * is at or after t, the last one past the final end time. Only the lemmas
   * that say so rely on it.
   */
  ghost predicate IndexesByEndTimes(p: Parameterization) {
    p.IntervalCount() > 0 &&
    forall t :: p.intervalIndex(t) == ClampedIndex(p.intervalEndTimes, t)
  }

  /** The owning interval of t, clamped to the last one. */
  function ClampedIndex(e: seq<real>, t: real): (k: nat)
    requires |e| > 0
    ensures k < |e|
    ensures k == |e| - 1 || t <= e[k]
    ensures forall j :: 0 <= j < k ==> e[j] < t
  {
    var i := FirstAtOrAfter(e, t);
    if i < |e| then i else |e| - 1
  }

  /** The rates of one interval, as the derivative code reads them. */
  datatype IntervalRates = IntervalRates(
    birth: seq<real>, death: seq<real>, sampling: seq<real>, rho: seq<real>,
    mig: seq<seq<real>>, crossBirth: seq<seq<real>>)

  /** Every rate row and matrix has `n` types. */
  predicate RatesFor(r: IntervalRates, n: nat) {
    |r.birth| == n && |r.death| == n && |r.sampling| == n && |r.rho| == n &&
    |r.mig| == n && |r.crossBirth| == n &&
    forall i :: 0 <= i < n ==> |r.mig[i]| == n && |r.crossBirth[i]| == n
  }

  /** Row k of every table: what `getBirthRates()[k]` and friends hand out. */
  function RatesAt(p: Parameterization, k: nat): (r: IntervalRates)
    requires Shaped(p) && k < p.IntervalCount()
    ensures RatesFor(r, p.nTypes)
    ensures r.birth == p.birthRates[k] && r.rho == p.rhoValues[k] && r.mig == p.migRates[k]
  {
    IntervalRates(p.birthRates[k], p.deathRates[k], p.samplingRates[k], p.rhoValues[k],
                  p.migRates[k], p.crossBirthRates[k])
  }

  /**
   * Under the usual index semantics a later time never gets an earlier
   * interval, so the interval of the start of a range is at most that of its end.
   */
  lemma IndexMonotone(p: Parameterization, s: real, t: real)
    requires Shaped(p) && IndexesByEndTimes(p) && s <= t
    ensures p.intervalIndex(s) <= p.intervalIndex(t)
  {
  }

  /**
   * Under the usual index semantics, interval k (k > 0) owns the times just
   * after its start: e[k-1] < t <= e[k] gives index k.
   */
  lemma IndexOfOwnedTime(p: Parameterization, t: real, k: nat)
    requires Shaped(p) && IndexesByEndTimes(p) && k < p.IntervalCount()
    requires t <= p.intervalEndTimes[k] && (k > 0 ==> p.intervalEndTimes[k - 1] < t)
    ensures p.intervalIndex(t) == k
  {
    SegmentOfTime(p.intervalEndTimes, t, k);
  }
}
