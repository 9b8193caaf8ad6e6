/**
 * `FlowODESystem`: the combined p0/ge system whose flow the distribution
 * integrates forward. The state has 2n entries for n types: the extinction
 * probabilities p0 in [0, n) and the ge values in [n, 2n). The interval in
 * force is set from outside; `computeDerivatives` reads only that interval's
 * rates.
 */
module FlowODE {
  import opened Params
  import opened Derivatives

  class FlowODESystem {
    const param: Parameterization
    var interval: int

    /** The parameterization is kept; `interval` starts at Java's default, 0. */
    constructor (parameterization: Parameterization)
      ensures param == parameterization && interval == 0
    {
      param := parameterization;
      interval := 0;
    }

    /** `setInterval`: stores k unchecked; only `interval` changes. */
    method SetInterval(k: int)
      modifies this
      ensures interval == k
    {
      interval := k;
    }

    /** `getDimension`: a p0 and a ge entry per type, as many types as each rate row has entries. */
    function GetDimension(): (d: nat)
      requires Shaped(param)
      ensures d == 2 * |RatesAt(param, 0).birth|
      ensures d % 2 == 0
    {
      param.nTypes * 2
    }

    /**
     * `computeDerivatives`: for every type i, yDot[i] becomes dp0_i/dt of the
     * p0 half of y and yDot[n + i] becomes dge_i/dt of both halves, under the
     * current interval's rates; entries past 2n and all of y are left alone.
     */
    method ComputeDerivatives(t: real, y: array<real>, yDot: array<real>)
      requires Shaped(param) && 0 <= interval < param.IntervalCount()
      requires y != yDot && y.Length >= 2 * param.nTypes && yDot.Length >= 2 * param.nTypes
      modifies yDot
      ensures var n, rates := param.nTypes, RatesAt(param, interval);
        forall i :: 0 <= i < n ==>
          yDot[i] == P0Derivative(rates, y[..n], i) &&
          yDot[n + i] == GeDerivative(rates, y[..n], y[n..2 * n], i)
      ensures yDot[2 * param.nTypes..] == old(yDot[2 * param.nTypes..])
    {
      var n := param.nTypes;
      var rates := RatesAt(param, interval);
      ghost var ps, gs := y[..n], y[n..2 * n];
      for i := 0 to n
        invariant forall k :: 0 <= k < i ==> yDot[k] == P0Derivative(rates, ps, k)
        invariant forall k :: 0 <= k < i ==> yDot[n + k] == GeDerivative(rates, ps, gs, k)
        invariant forall k :: 0 <= k < yDot.Length && (i <= k < n || n + i <= k) ==> yDot[k] == old(yDot[k])
      {
        FlowRow(rates, n, i, y, yDot);
      }
      assert yDot[2 * n..] == old(yDot[2 * n..]);
    }
  }

  /** One pass of the outer loop: the p0 equation of type i, then its ge equation. */
  method FlowRow(rates: IntervalRates, n: nat, i: nat, y: array<real>, yDot: array<real>)
    requires RatesFor(rates, n) && i < n && 2 * n <= y.Length && 2 * n <= yDot.Length && y != yDot
    modifies yDot
    ensures yDot[i] == P0Derivative(rates, y[..n], i)
    ensures yDot[n + i] == GeDerivative(rates, y[..n], y[n..2 * n], i)
    ensures forall k :: 0 <= k < yDot.Length && k != i && k != n + i ==> yDot[k] == old(yDot[k])
  {
    P0Row(rates, n, i, y, yDot);
    GeRow(rates, n, i, y, yDot);
  }

  /** The p0 equation of type i: the rate terms, then the coupling to every other type j. */
  method P0Row(rates: IntervalRates, n: nat, i: nat, y: array<real>, yDot: array<real>)
    requires RatesFor(rates, n) && i < n <= y.Length && n <= yDot.Length && y != yDot
    modifies yDot
    ensures yDot[i] == P0Derivative(rates, y[..n], i)
    ensures forall k :: 0 <= k < yDot.Length && k != i ==> yDot[k] == old(yDot[k])
  {
    ghost var ps := y[..n];
    var b, d, s, pi := rates.birth[i], rates.death[i], rates.sampling[i], y[i];
    assert ps[i] == pi;
    yDot[i] := (b + d + s) * pi - b * pi * pi - d;
    for j := 0 to n
      invariant yDot[i] == LocalTerm(rates, ps, i) + SumSkipping(CouplingTerms(rates, ps, i), i, j)
      invariant forall k :: 0 <= k < yDot.Length && k != i ==> yDot[k] == old(yDot[k])
    {
      if i != j {
        var c, m, pj := rates.crossBirth[i][j], rates.mig[i][j], y[j];
        assert ps[j] == pj;
        assert CouplingTerms(rates, ps, i)[j] == c * (pi - pi * pj) + m * (pi - pj);
        yDot[i] := yDot[i] + c * (pi - pi * pj);
        yDot[i] := yDot[i] + m * (pi - pj);
      }
    }
  }

  /** The ge equation of type i, written to yDot[n + i]: the rate terms, then the coupling to every other type j. */
  method GeRow(rates: IntervalRates, n: nat, i: nat, y: array<real>, yDot: array<real>)
    requires RatesFor(rates, n) && i < n && 2 * n <= y.Length && 2 * n <= yDot.Length && y != yDot
    modifies yDot
    ensures yDot[n + i] == GeDerivative(rates, y[..n], y[n..2 * n], i)
    ensures forall k :: 0 <= k < yDot.Length && k != n + i ==> yDot[k] == old(yDot[k])
  {
    ghost var ps, gs := y[..n], y[n..2 * n];
    var b, d, s, pi, gi := rates.birth[i], rates.death[i], rates.sampling[i], y[i], y[n + i];
    assert ps[i] == pi && gs[i] == gi;
    yDot[n + i] := (b + d + s) * gi - 2.0 * b * gi * pi;
    for j := 0 to n
      invariant yDot[n + i] == GeLocalTerm(rates, ps, gs, i) + SumSkipping(GeCouplingTerms(rates, ps, gs, i), i, j)
      invariant forall k :: 0 <= k < yDot.Length && k != n + i ==> yDot[k] == old(yDot[k])
    {
      if i != j {
        var c, m, pj, gj := rates.crossBirth[i][j], rates.mig[i][j], y[j], y[n + j];
        assert ps[j] == pj && gs[j] == gj;
        assert GeCouplingTerms(rates, ps, gs, i)[j] == c * (gi - (gi * pj + gj * pi)) + m * (gi - gj);
        yDot[n + i] := yDot[n + i] + c * (gi - (gi * pj + gj * pi));
        yDot[n + i] := yDot[n + i] + m * (gi - gj);
      }
    }
  }
}
