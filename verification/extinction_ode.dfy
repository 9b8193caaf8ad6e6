/**
 * `ExtinctionODESystem`: the backward equations for the extinction
 * probabilities p0, one per type, and the schedule that integrates them
 * backward across the rate intervals of a time range, applying the
 * rho-sampling correction at interval ends.
 *
 * The Java class extends `IntervalODESystem`; here it holds one (`base`) and
 * reads the parameterization and the current interval through it. The
 * integrator is an `Integrator` function value; the equality test with
 * tolerance used to recognise an interval end is a function value as well.
 */
module ExtinctionODE {
  import opened Wrappers
  import opened Params
  import opened Derivatives
  import opened IntervalODE
  import opened Segments

  /** The argument check of the five-argument backward integration. */
  datatype ArgumentError = StartAfterEnd

  /** One interval's integration, in visiting order: from `from` down to `to`. */
  datatype Piece = Piece(interval: int, from: real, to: real, rhoApplied: bool, initial: seq<real>, final: seq<real>)

  /** state[i] · (1 − rho[i]) for every type i: the rho-sampling boundary condition. */
  function ApplyRho(y: seq<real>, rho: seq<real>): (z: seq<real>)
    requires |rho| == |y|
    ensures |z| == |y| && forall i :: 0 <= i < |y| ==> z[i] == y[i] * (1.0 - rho[i])
  {
    seq(|y|, i requires 0 <= i < |y| => y[i] * (1.0 - rho[i]))
  }

  /** Where interval k's piece starts: `timeEnd` for the first interval visited, else the interval's end time. */
  function Upper(e: seq<real>, timeEnd: real, endInterval: int, k: nat): real
    requires k < |e|
  {
    if k == endInterval then timeEnd else e[k]
  }

  /** Where interval k's piece stops: `timeStart` for the last interval visited, else the previous end time. */
  function Lower(e: seq<real>, timeStart: real, startInterval: int, k: nat): real
    requires k < |e| && (k != startInterval ==> k > 0)
  {
    if k == startInterval then timeStart else e[k - 1]
  }

  /**
   * Interval k's piece of the backward schedule, entered with state y: it
   * rescales by rho when its upper bound is (up to the tolerance test) the
   * interval's end time, then integrates from the upper to the lower bound.
   */
  function MakePiece(p: Parameterization, timeStart: real, timeEnd: real, startInterval: nat, endInterval: int,
                     k: nat, y: seq<real>, integrate: Integrator, equal: (real, real) -> bool): (piece: Piece)
    requires Shaped(p) && startInterval <= k <= endInterval < p.IntervalCount() && |y| == p.nTypes
    requires KeepsLength(integrate)
    ensures |piece.initial| == |piece.final| == p.nTypes
  {
    var e := p.intervalEndTimes;
    var upper, lower := Upper(e, timeEnd, endInterval, k), Lower(e, timeStart, startInterval, k);
    var rho := equal(upper, e[k]);
    var initial := if rho then ApplyRho(y, p.rhoValues[k]) else y;
    Piece(k, upper, lower, rho, initial, integrate(k, upper, lower, initial))
  }

  /**
   * The pieces of the backward schedule for intervals k, k-1, …, startInterval,
   * starting from state y, each handing its final state to the next.
   */
  function Sweep(p: Parameterization, timeStart: real, timeEnd: real, startInterval: nat, endInterval: int,
                 k: int, y: seq<real>, integrate: Integrator, equal: (real, real) -> bool): (pieces: seq<Piece>)
    requires Shaped(p) && endInterval < p.IntervalCount() && k <= endInterval && |y| == p.nTypes
    requires KeepsLength(integrate)
    decreases k - startInterval + 1
  {
    if k < startInterval then []
    else
      var piece := MakePiece(p, timeStart, timeEnd, startInterval, endInterval, k, y, integrate, equal);
      [piece] + Sweep(p, timeStart, timeEnd, startInterval, endInterval, k - 1, piece.final, integrate, equal)
  }

  /** The state piece m of a schedule entered with y starts from. */
  function Before(pieces: seq<Piece>, y: seq<real>, m: nat): seq<real>
    requires m <= |pieces|
  {
    if m == 0 then y else pieces[m - 1].final
  }

  /** The state the schedule leaves behind: the last piece's final state, or y when nothing ran. */
  function FinalState(pieces: seq<Piece>, y: seq<real>): seq<real> {
    Before(pieces, y, |pieces|)
  }

  /**
   * A sweep from k has one piece per interval k, k-1, …, startInterval, and
   * piece m is interval (k − m)'s piece entered with the previous piece's
   * final state.
   */
  lemma {:induction false} SweepPieces(p: Parameterization, timeStart: real, timeEnd: real, startInterval: nat, endInterval: int,
                                       k: int, y: seq<real>, integrate: Integrator, equal: (real, real) -> bool)
    requires Shaped(p) && endInterval < p.IntervalCount() && k <= endInterval && |y| == p.nTypes
    requires KeepsLength(integrate)
    ensures var pieces := Sweep(p, timeStart, timeEnd, startInterval, endInterval, k, y, integrate, equal);
      |pieces| == (if k < startInterval then 0 else k - startInterval + 1) &&
      forall m {:trigger Before(pieces, y, m)} :: 0 <= m < |pieces| ==>
        |Before(pieces, y, m)| == p.nTypes &&
        pieces[m] == MakePiece(p, timeStart, timeEnd, startInterval, endInterval, k - m, Before(pieces, y, m), integrate, equal)
    decreases k - startInterval + 1
  {
    var pieces := Sweep(p, timeStart, timeEnd, startInterval, endInterval, k, y, integrate, equal);
    if k >= startInterval {
      var head := MakePiece(p, timeStart, timeEnd, startInterval, endInterval, k, y, integrate, equal);
      SweepPieces(p, timeStart, timeEnd, startInterval, endInterval, k - 1, head.final, integrate, equal);
      var rest := Sweep(p, timeStart, timeEnd, startInterval, endInterval, k - 1, head.final, integrate, equal);
      assert pieces == [head] + rest;
      forall m | 1 <= m < |pieces|
        ensures Before(pieces, y, m) == Before(rest, head.final, m - 1)
      {
      }
    }
  }

  /**
   * The pieces tile [timeStart, timeEnd] from the top: the first starts at
   * timeEnd, each starts where the previous one stopped, and the last stops
   * at timeStart; the intervals are visited from endInterval down to
   * startInterval; and rho is applied to a piece exactly when its upper bound
   * passes the tolerance test against its interval's end time.
   */
  lemma SweepTiles(p: Parameterization, timeStart: real, timeEnd: real, startInterval: nat, endInterval: int,
                   y: seq<real>, integrate: Integrator, equal: (real, real) -> bool)
    requires Shaped(p) && startInterval <= endInterval < p.IntervalCount() && |y| == p.nTypes
    requires KeepsLength(integrate)
    ensures var pieces := Sweep(p, timeStart, timeEnd, startInterval, endInterval, endInterval, y, integrate, equal);
      |pieces| == endInterval - startInterval + 1 &&
      pieces[0].from == timeEnd && pieces[0].interval == endInterval &&
      pieces[|pieces| - 1].to == timeStart && pieces[|pieces| - 1].interval == startInterval &&
      (forall m :: 0 <= m < |pieces| - 1 ==>
        pieces[m].to == pieces[m + 1].from && pieces[m + 1].interval == pieces[m].interval - 1) &&
      (forall m :: 0 <= m < |pieces| ==>
        pieces[m].interval == endInterval - m &&
        pieces[m].rhoApplied == equal(pieces[m].from, p.intervalEndTimes[endInterval - m]))
  {
    SweepBounds(p, timeStart, timeEnd, startInterval, endInterval, y, integrate, equal);
  }

  /** Piece m of a full sweep is interval (endInterval − m)'s, between that interval's bounds. */
  lemma SweepBounds(p: Parameterization, timeStart: real, timeEnd: real, startInterval: nat, endInterval: int,
                    y: seq<real>, integrate: Integrator, equal: (real, real) -> bool)
    requires Shaped(p) && endInterval < p.IntervalCount() && |y| == p.nTypes
    requires KeepsLength(integrate)
    ensures var pieces := Sweep(p, timeStart, timeEnd, startInterval, endInterval, endInterval, y, integrate, equal);
      var e := p.intervalEndTimes;
      |pieces| == (if endInterval < startInterval then 0 else endInterval - startInterval + 1) &&
      forall m :: 0 <= m < |pieces| ==>
        pieces[m].interval == endInterval - m &&
        pieces[m].from == Upper(e, timeEnd, endInterval, endInterval - m) &&
        pieces[m].to == Lower(e, timeStart, startInterval, endInterval - m) &&
        pieces[m].rhoApplied == equal(pieces[m].from, e[endInterval - m])
  {
    SweepPieces(p, timeStart, timeEnd, startInterval, endInterval, endInterval, y, integrate, equal);
    var pieces := Sweep(p, timeStart, timeEnd, startInterval, endInterval, endInterval, y, integrate, equal);
    forall m | 0 <= m < |pieces|
      ensures pieces[m].interval == endInterval - m
      ensures pieces[m].from == Upper(p.intervalEndTimes, timeEnd, endInterval, endInterval - m)
      ensures pieces[m].to == Lower(p.intervalEndTimes, timeStart, startInterval, endInterval - m)
      ensures pieces[m].rhoApplied == equal(pieces[m].from, p.intervalEndTimes[endInterval - m])
    {
      PieceFields(p, timeStart, timeEnd, startInterval, endInterval, endInterval - m, Before(pieces, y, m), integrate, equal);
    }
  }

  /**
   * The rho correction is the only change between pieces: each piece starts
   * from the previous piece's final state (the initial state for the first),
   * rescaled by rho exactly when the correction applies, and ends where the
   * integrator takes it.
   */
  lemma SweepThreadsState(p: Parameterization, timeStart: real, timeEnd: real, startInterval: nat, endInterval: int,
                          y: seq<real>, integrate: Integrator, equal: (real, real) -> bool)
    requires Shaped(p) && endInterval < p.IntervalCount() && |y| == p.nTypes
    requires KeepsLength(integrate)
    ensures var pieces := Sweep(p, timeStart, timeEnd, startInterval, endInterval, endInterval, y, integrate, equal);
      forall m :: 0 <= m < |pieces| ==>
        var before := Before(pieces, y, m);
        |before| == p.nTypes && 0 <= pieces[m].interval < p.IntervalCount() &&
        pieces[m].initial == (if pieces[m].rhoApplied then ApplyRho(before, p.rhoValues[pieces[m].interval]) else before) &&
        pieces[m].final == integrate(pieces[m].interval, pieces[m].from, pieces[m].to, pieces[m].initial)
  {
    SweepPieces(p, timeStart, timeEnd, startInterval, endInterval, endInterval, y, integrate, equal);
    var pieces := Sweep(p, timeStart, timeEnd, startInterval, endInterval, endInterval, y, integrate, equal);
    forall m | 0 <= m < |pieces|
      ensures |Before(pieces, y, m)| == p.nTypes && 0 <= pieces[m].interval < p.IntervalCount()
      ensures pieces[m].initial == (if pieces[m].rhoApplied then ApplyRho(Before(pieces, y, m), p.rhoValues[pieces[m].interval])
                                    else Before(pieces, y, m))
      ensures pieces[m].final == integrate(pieces[m].interval, pieces[m].from, pieces[m].to, pieces[m].initial)
    {
      PieceFields(p, timeStart, timeEnd, startInterval, endInterval, endInterval - m, Before(pieces, y, m), integrate, equal);
    }
  }

  /** The fields of one piece, read off its definition. */
  lemma PieceFields(p: Parameterization, timeStart: real, timeEnd: real, startInterval: nat, endInterval: int,
                    k: nat, y: seq<real>, integrate: Integrator, equal: (real, real) -> bool)
    requires Shaped(p) && startInterval <= k <= endInterval < p.IntervalCount() && |y| == p.nTypes
    requires KeepsLength(integrate)
    ensures var piece := MakePiece(p, timeStart, timeEnd, startInterval, endInterval, k, y, integrate, equal);
      piece.interval == k &&
      piece.from == Upper(p.intervalEndTimes, timeEnd, endInterval, k) &&
      piece.to == Lower(p.intervalEndTimes, timeStart, startInterval, k) &&
      piece.rhoApplied == equal(piece.from, p.intervalEndTimes[k]) &&
      piece.initial == (if piece.rhoApplied then ApplyRho(y, p.rhoValues[k]) else y) &&
      piece.final == integrate(k, piece.from, piece.to, piece.initial)
  {
  }

  /**
   * Under the usual meaning of `getIntervalIndex`, a range with
   * timeStart <= timeEnd is swept by pieces that each run backward
   * (to <= from) and stay inside their own interval (the last interval
   * extends past its end time).
   */
  lemma SweepStaysInIntervals(p: Parameterization, timeStart: real, timeEnd: real,
                              y: seq<real>, integrate: Integrator, equal: (real, real) -> bool)
    requires Params.Valid(p) && IndexesByEndTimes(p) && timeStart <= timeEnd && |y| == p.nTypes
    requires KeepsLength(integrate)
    ensures p.intervalIndex(timeStart) <= p.intervalIndex(timeEnd)
    ensures var e, s, t := p.intervalEndTimes, p.intervalIndex(timeStart), p.intervalIndex(timeEnd);
      var pieces := Sweep(p, timeStart, timeEnd, s, t, t, y, integrate, equal);
      forall m :: 0 <= m < |pieces| ==>
        var k := t - m;
        pieces[m].interval == k && pieces[m].to <= pieces[m].from &&
        (0 < k < |e| ==> e[k - 1] <= pieces[m].to) &&
        (0 <= k < |e| - 1 ==> pieces[m].from <= e[k])
  {
    var e := p.intervalEndTimes;
    var s, t := p.intervalIndex(timeStart), p.intervalIndex(timeEnd);
    IndexMonotone(p, timeStart, timeEnd);
    assert s == ClampedIndex(e, timeStart) && t == ClampedIndex(e, timeEnd);
    PiecesInsideIntervals(p, timeStart, timeEnd, s, t, y, integrate, equal);
  }

  /** SweepStaysInIntervals with the owning intervals s and t of timeStart and timeEnd given. */
  lemma PiecesInsideIntervals(p: Parameterization, timeStart: real, timeEnd: real, s: nat, t: nat,
                              y: seq<real>, integrate: Integrator, equal: (real, real) -> bool)
    requires Shaped(p) && timeStart <= timeEnd && |y| == p.nTypes && KeepsLength(integrate)
    requires s == ClampedIndex(p.intervalEndTimes, timeStart) && t == ClampedIndex(p.intervalEndTimes, timeEnd)
    requires s <= t
    ensures var e := p.intervalEndTimes;
      var pieces := Sweep(p, timeStart, timeEnd, s, t, t, y, integrate, equal);
      forall m :: 0 <= m < |pieces| ==>
        var k := t - m;
        pieces[m].interval == k && pieces[m].to <= pieces[m].from &&
        (0 < k < |e| ==> e[k - 1] <= pieces[m].to) &&
        (0 <= k < |e| - 1 ==> pieces[m].from <= e[k])
  {
    var e := p.intervalEndTimes;
    SweepBounds(p, timeStart, timeEnd, s, t, y, integrate, equal);
    var pieces := Sweep(p, timeStart, timeEnd, s, t, t, y, integrate, equal);
    forall m | 0 <= m < |pieces|
      ensures pieces[m].to <= pieces[m].from
      ensures 0 < t - m < |e| ==> e[t - m - 1] <= pieces[m].to
      ensures 0 <= t - m < |e| - 1 ==> pieces[m].from <= e[t - m]
    {
      PieceInsideInterval(e, timeStart, timeEnd, s, t, t - m);
    }
  }

  /**
   * Interval k's bounds, for k between the intervals owning timeStart and
   * timeEnd, lie inside the interval and in backward order.
   */
  lemma PieceInsideInterval(e: seq<real>, timeStart: real, timeEnd: real, s: nat, t: nat, k: nat)
    requires Sorted(e) && |e| > 0 && timeStart <= timeEnd && s <= k <= t
    requires s == ClampedIndex(e, timeStart) && t == ClampedIndex(e, timeEnd)
    ensures Lower(e, timeStart, s, k) <= Upper(e, timeEnd, t, k)
    ensures 0 < k ==> e[k - 1] <= Lower(e, timeStart, s, k)
    ensures k < |e| - 1 ==> Upper(e, timeEnd, t, k) <= e[k]
  {
    if s < k {
      assert e[k - 1] <= e[k];
    }
  }

  class ExtinctionODESystem {
    const base: IntervalODESystem

    ghost predicate Valid()
      reads base
    {
      base.Valid()
    }

    constructor (parameterization: Parameterization)
      requires Params.Valid(parameterization)
      ensures Valid() && fresh(base) && base.param == parameterization && base.interval == 0
    {
      base := new IntervalODESystem(parameterization);
    }

    /** `getDimension`: one extinction probability per type, as many as each rate row has entries. */
    function GetDimension(): (d: nat)
      requires Shaped(base.param)
      ensures d == |RatesAt(base.param, 0).birth|
    {
      base.param.nTypes
    }

    /**
     * `computeDerivatives`: yDot[i] becomes the extinction derivative of type i
     * under the current interval's rates, for every type; later entries of
     * yDot and all of y are left alone.
     */
    method ComputeDerivatives(t: real, y: array<real>, yDot: array<real>)
      requires Valid() && y != yDot && y.Length >= base.param.nTypes && yDot.Length >= base.param.nTypes
      modifies yDot
      ensures var rates := RatesAt(base.param, base.interval);
        forall i :: 0 <= i < base.param.nTypes ==>
          yDot[i] == ExtinctionDerivative(rates, y[..base.param.nTypes], i)
      ensures yDot[base.param.nTypes..] == old(yDot[base.param.nTypes..])
    {
      var n := base.param.nTypes;
      var rates := RatesAt(base.param, base.interval);
      for i := 0 to n
        invariant forall k :: 0 <= k < i ==> yDot[k] == ExtinctionDerivative(rates, y[..n], k)
        invariant forall k :: n <= k < yDot.Length ==> yDot[k] == old(yDot[k])
      {
        ExtinctionRow(rates, n, i, y, yDot);
      }
      assert yDot[n..] == old(yDot[n..]);
    }

    /**
     * The five-argument `integrateBackwardsOverIntegrals`: rejects
     * timeStart > timeEnd before touching anything; otherwise visits the
     * intervals from the one owning timeEnd down to the one owning timeStart,
     * setting the current interval, applying the rho correction in place when
     * the piece starts at the interval's end time, and integrating the state
     * down to the piece's lower bound. The pieces come back in visiting order.
     */
    method IntegrateBackwardsOverIntegrals(timeStart: real, timeEnd: real, state: array<real>,
                                           integrate: Integrator, equal: (real, real) -> bool)
      returns (r: Result<seq<Piece>, ArgumentError>)
      requires Valid() && state.Length == base.param.nTypes && KeepsLength(integrate)
      modifies base, state
      ensures Valid()
      ensures timeStart > timeEnd ==>
        r == Failure(StartAfterEnd) && state[..] == old(state[..]) && base.interval == old(base.interval)
      ensures timeStart <= timeEnd ==>
        var p := base.param;
        var pieces := Sweep(p, timeStart, timeEnd, p.intervalIndex(timeStart), p.intervalIndex(timeEnd),
                            p.intervalIndex(timeEnd), old(state[..]), integrate, equal);
        r == Success(pieces) && state[..] == FinalState(pieces, old(state[..])) &&
        base.interval == (if |pieces| == 0 then old(base.interval) else p.intervalIndex(timeStart))
    {
      if timeStart > timeEnd {
        return Failure(StartAfterEnd);
      }
      var pieces := SweepDown(timeStart, timeEnd, base.param.intervalIndex(timeStart),
                              base.param.intervalIndex(timeEnd), state, integrate, equal);
      r := Success(pieces);
    }

    /** The loop of the backward schedule, from endInterval down to startInterval. */
    method SweepDown(timeStart: real, timeEnd: real, startInterval: nat, endInterval: nat, state: array<real>,
                     integrate: Integrator, equal: (real, real) -> bool)
      returns (pieces: seq<Piece>)
      requires Valid() && endInterval < base.param.IntervalCount()
      requires state.Length == base.param.nTypes && KeepsLength(integrate)
      modifies base, state
      ensures Valid()
      ensures pieces == Sweep(base.param, timeStart, timeEnd, startInterval, endInterval, endInterval,
                              old(state[..]), integrate, equal)
      ensures state[..] == FinalState(pieces, old(state[..]))
      ensures base.interval == if |pieces| == 0 then old(base.interval) else startInterval
    {
      var p := base.param;
      ghost var y0 := state[..];
      ghost var interval0 := base.interval;
      pieces := [];
      var k: int := endInterval;
      while k >= startInterval
        invariant k <= endInterval && (k == endInterval || startInterval - 1 <= k)
        invariant Valid()
        invariant SweptSoFar(p, timeStart, timeEnd, startInterval, endInterval, k, pieces, state[..], y0, integrate, equal)
        invariant base.interval == if k == endInterval then interval0 else k + 1
        decreases k - startInterval + 1
      {
        ghost var y := state[..];
        var piece := IntegrateInterval(timeStart, timeEnd, startInterval, endInterval, k, state, integrate, equal);
        SweptOneMore(p, timeStart, timeEnd, startInterval, endInterval, k, pieces, y, y0, integrate, equal);
        pieces := pieces + [piece];
        k := k - 1;
      }
      SweptAll(p, timeStart, timeEnd, startInterval, endInterval, k, pieces, state[..], y0, integrate, equal);
    }

    /**
     * One pass of the backward schedule: interval k becomes current, the rho
     * correction is applied when the piece starts at the interval's end time,
     * and the state is integrated down to the piece's lower bound.
     */
    method IntegrateInterval(timeStart: real, timeEnd: real, startInterval: nat, endInterval: int, k: nat,
                             state: array<real>, integrate: Integrator, equal: (real, real) -> bool)
      returns (piece: Piece)
      requires Params.Valid(base.param) && state.Length == base.param.nTypes && KeepsLength(integrate)
      requires startInterval <= k <= endInterval < base.param.IntervalCount()
      modifies base, state
      ensures Valid() && base.interval == k
      ensures piece == MakePiece(base.param, timeStart, timeEnd, startInterval, endInterval, k, old(state[..]),
                                 integrate, equal)
      ensures state[..] == piece.final
    {
      var p := base.param;
      var e := p.intervalEndTimes;
      base.SetInterval(k);
      var upper := if k == endInterval then timeEnd else e[k];
      var lower := if k == startInterval then timeStart else e[k - 1];
      var rho := equal(upper, e[k]);
      if rho {
        ScaleByRho(state, p.rhoValues[k]);
      }
      var initial := state[..];
      var final := integrate(k, upper, lower, initial);
      forall i | 0 <= i < state.Length {
        state[i] := final[i];
      }
      assert state[..] == final;
      piece := Piece(k, upper, lower, rho, initial, final);
    }
  }

  /** The rho correction in place: state[i] *= (1 − rho[i]) for every type i. */
  method ScaleByRho(state: array<real>, rho: seq<real>)
    requires |rho| == state.Length
    modifies state
    ensures state[..] == ApplyRho(old(state[..]), rho)
  {
    ghost var before := state[..];
    for i := 0 to state.Length
      invariant forall j :: 0 <= j < i ==> state[j] == before[j] * (1.0 - rho[j])
      invariant forall j :: i <= j < state.Length ==> state[j] == before[j]
    {
      state[i] := state[i] * (1.0 - rho[i]);
    }
    var after := ApplyRho(before, rho);
    assert forall j :: 0 <= j < state.Length ==> state[..][j] == after[j];
  }

  /**
   * The loop invariant of the backward schedule: the pieces so far followed
   * by the sweep from k, entered with the current state y, make up the whole
   * sweep from y0; y is what the pieces so far leave behind.
   */
  ghost predicate SweptSoFar(p: Parameterization, timeStart: real, timeEnd: real, startInterval: nat, endInterval: int,
                             k: int, pieces: seq<Piece>, y: seq<real>, y0: seq<real>,
                             integrate: Integrator, equal: (real, real) -> bool)
  {
    Shaped(p) && endInterval < p.IntervalCount() && k <= endInterval && |y| == |y0| == p.nTypes &&
    KeepsLength(integrate) &&
    pieces + Sweep(p, timeStart, timeEnd, startInterval, endInterval, k, y, integrate, equal)
      == Sweep(p, timeStart, timeEnd, startInterval, endInterval, endInterval, y0, integrate, equal) &&
    FinalState(pieces, y0) == y
  }

  /** Interval k's piece, entered with the current state, extends the invariant to k − 1. */
  lemma SweptOneMore(p: Parameterization, timeStart: real, timeEnd: real, startInterval: nat, endInterval: int,
                     k: nat, pieces: seq<Piece>, y: seq<real>, y0: seq<real>,
                     integrate: Integrator, equal: (real, real) -> bool)
    requires startInterval <= k
    requires SweptSoFar(p, timeStart, timeEnd, startInterval, endInterval, k, pieces, y, y0, integrate, equal)
    ensures var piece := MakePiece(p, timeStart, timeEnd, startInterval, endInterval, k, y, integrate, equal);
      SweptSoFar(p, timeStart, timeEnd, startInterval, endInterval, k - 1, pieces + [piece], piece.final, y0,
                 integrate, equal)
  {
    var piece := MakePiece(p, timeStart, timeEnd, startInterval, endInterval, k, y, integrate, equal);
    var rest := Sweep(p, timeStart, timeEnd, startInterval, endInterval, k - 1, piece.final, integrate, equal);
    SweepUnfolds(p, timeStart, timeEnd, startInterval, endInterval, k, y, integrate, equal);
    assert (pieces + [piece]) + rest == pieces + ([piece] + rest);
  }

  /** Once k is below startInterval, the pieces are the whole sweep. */
  lemma SweptAll(p: Parameterization, timeStart: real, timeEnd: real, startInterval: nat, endInterval: int,
                 k: int, pieces: seq<Piece>, y: seq<real>, y0: seq<real>,
                 integrate: Integrator, equal: (real, real) -> bool)
    requires k < startInterval
    requires SweptSoFar(p, timeStart, timeEnd, startInterval, endInterval, k, pieces, y, y0, integrate, equal)
    ensures pieces == Sweep(p, timeStart, timeEnd, startInterval, endInterval, endInterval, y0, integrate, equal)
  {
    assert Sweep(p, timeStart, timeEnd, startInterval, endInterval, k, y, integrate, equal) == [];
    assert pieces + [] == pieces;
  }

  /** A sweep from k >= startInterval is interval k's piece followed by the sweep from k − 1. */
  lemma SweepUnfolds(p: Parameterization, timeStart: real, timeEnd: real, startInterval: nat, endInterval: int,
                     k: nat, y: seq<real>, integrate: Integrator, equal: (real, real) -> bool)
    requires Shaped(p) && startInterval <= k <= endInterval < p.IntervalCount() && |y| == p.nTypes
    requires KeepsLength(integrate)
    ensures var piece := MakePiece(p, timeStart, timeEnd, startInterval, endInterval, k, y, integrate, equal);
      Sweep(p, timeStart, timeEnd, startInterval, endInterval, k, y, integrate, equal)
        == [piece] + Sweep(p, timeStart, timeEnd, startInterval, endInterval, k - 1, piece.final, integrate, equal)
  {
  }

  /**
   * One pass of the outer loop of `computeDerivatives`: yDot[i] is built up
   * term by term, the rate terms first and then the coupling to every type j.
   */
  method ExtinctionRow(rates: IntervalRates, n: nat, i: nat, y: array<real>, yDot: array<real>)
    requires RatesFor(rates, n) && i < n <= y.Length && n <= yDot.Length && y != yDot
    modifies yDot
    ensures yDot[i] == ExtinctionDerivative(rates, y[..n], i)
    ensures forall k :: 0 <= k < yDot.Length && k != i ==> yDot[k] == old(yDot[k])
  {
    ghost var ys := y[..n];
    var b, d, s, yi := rates.birth[i], rates.death[i], rates.sampling[i], y[i];
    yDot[i] := b * yi;
    yDot[i] := yDot[i] + d * yi;
    yDot[i] := yDot[i] + s * yi;
    yDot[i] := yDot[i] - b * yi * yi;
    yDot[i] := yDot[i] - d;
    assert ys[i] == yi;
    LocalTermExpanded(b, d, s, yi);
    assert yDot[i] == LocalTerm(rates, ys, i);
    for j := 0 to n
      invariant yDot[i] == LocalTerm(rates, ys, i) + SumTo(CouplingTerms(rates, ys, i), j)
      invariant forall k :: 0 <= k < yDot.Length && k != i ==> yDot[k] == old(yDot[k])
    {
      var c, m, yj := rates.crossBirth[i][j], rates.mig[i][j], y[j];
      assert ys[j] == yj;
      assert CouplingTerms(rates, ys, i)[j] == c * (yi - yi * yj) + m * (yi - yj);
      yDot[i] := yDot[i] + c * (yi - yi * yj);
      yDot[i] := yDot[i] + m * (yi - yj);
    }
  }

  /** b·y + d·y + s·y − b·y·y − d, the order the Java code accumulates it, is the local term. */
  lemma LocalTermExpanded(b: real, d: real, s: real, y: real)
    ensures b * y + d * y + s * y - b * y * y - d == (b + d + s) * y - b * y * y - d
  {
  }
}
