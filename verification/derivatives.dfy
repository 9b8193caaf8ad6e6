/**
 * The right-hand sides of the two ODE systems as exact polynomial arithmetic
 * over one interval's rates: the extinction equations of `ExtinctionODESystem`
 * (the coupling sum over every j, including j = i) and the p0/ge equations of
 * `FlowODESystem` (the coupling sums skip j = i).
 *
 * Naming: b, d, s are the birth, death and sampling rates of type i, c the
 * cross-birth rates and m the migration rates of the interval.
 */
module Derivatives {
  import opened Params

  /** (b_i + d_i + s_i)·y_i − b_i·y_i² − d_i: the part of dp0_i/dt without coupling. */
  function LocalTerm(r: IntervalRates, y: seq<real>, i: nat): real
    requires RatesFor(r, |y|) && i < |y|
  {
    (r.birth[i] + r.death[i] + r.sampling[i]) * y[i] - r.birth[i] * y[i] * y[i] - r.death[i]
  }

  /** c_ij·(y_i − y_i·y_j) + m_ij·(y_i − y_j): what type j adds to dp0_i/dt. */
  function CouplingTerm(r: IntervalRates, y: seq<real>, i: nat, j: nat): real
    requires RatesFor(r, |y|) && i < |y| && j < |y|
  {
    r.crossBirth[i][j] * (y[i] - y[i] * y[j]) + r.mig[i][j] * (y[i] - y[j])
  }

  /** The coupling terms of type i, one per j. */
  function CouplingTerms(r: IntervalRates, y: seq<real>, i: nat): (t: seq<real>)
    requires RatesFor(r, |y|) && i < |y|
    ensures |t| == |y| && forall j :: 0 <= j < |y| ==> t[j] == CouplingTerm(r, y, i, j)
  {
    seq(|y|, j requires 0 <= j < |y| => CouplingTerm(r, y, i, j))
  }

  /** t[0] + … + t[count-1]. */
  function SumTo(t: seq<real>, count: nat): real
    requires count <= |t|
  {
    if count == 0 then 0.0 else SumTo(t, count - 1) + t[count - 1]
  }

  /** t[0] + … + t[count-1] without t[i]: the `if (i==j) continue;` sums. */
  function SumSkipping(t: seq<real>, i: nat, count: nat): real
    requires count <= |t|
  {
    if count == 0 then 0.0
    else if count - 1 == i then SumSkipping(t, i, count - 1)
    else SumSkipping(t, i, count - 1) + t[count - 1]
  }

  /** dy_i/dt of `ExtinctionODESystem`: the coupling sum runs over every j. */
  function ExtinctionDerivative(r: IntervalRates, y: seq<real>, i: nat): real
    requires RatesFor(r, |y|) && i < |y|
  {
    LocalTerm(r, y, i) + SumTo(CouplingTerms(r, y, i), |y|)
  }

  /** dp0_i/dt of `FlowODESystem`, for the p0 half `p` of its state: the sum skips j = i. */
  function P0Derivative(r: IntervalRates, p: seq<real>, i: nat): real
    requires RatesFor(r, |p|) && i < |p|
  {
    LocalTerm(r, p, i) + SumSkipping(CouplingTerms(r, p, i), i, |p|)
  }

  /** (b_i + d_i + s_i)·g_i − 2·b_i·g_i·p_i: the part of dge_i/dt without coupling. */
  function GeLocalTerm(r: IntervalRates, p: seq<real>, g: seq<real>, i: nat): real
    requires RatesFor(r, |p|) && |g| == |p| && i < |p|
  {
    (r.birth[i] + r.death[i] + r.sampling[i]) * g[i] - 2.0 * r.birth[i] * g[i] * p[i]
  }

  /** c_ij·(g_i − (g_i·p_j + g_j·p_i)) + m_ij·(g_i − g_j): what type j adds to dge_i/dt. */
  function GeCouplingTerm(r: IntervalRates, p: seq<real>, g: seq<real>, i: nat, j: nat): real
    requires RatesFor(r, |p|) && |g| == |p| && i < |p| && j < |p|
  {
    r.crossBirth[i][j] * (g[i] - (g[i] * p[j] + g[j] * p[i])) + r.mig[i][j] * (g[i] - g[j])
  }

  /** The ge coupling terms of type i, one per j. */
  function GeCouplingTerms(r: IntervalRates, p: seq<real>, g: seq<real>, i: nat): (t: seq<real>)
    requires RatesFor(r, |p|) && |g| == |p| && i < |p|
    ensures |t| == |p| && forall j :: 0 <= j < |p| ==> t[j] == GeCouplingTerm(r, p, g, i, j)
  {
    seq(|p|, j requires 0 <= j < |p| => GeCouplingTerm(r, p, g, i, j))
  }

  /** dge_i/dt of `FlowODESystem`, for the p0 half `p` and the ge half `g` of its state. */
  function GeDerivative(r: IntervalRates, p: seq<real>, g: seq<real>, i: nat): real
    requires RatesFor(r, |p|) && |g| == |p| && i < |p|
  {
    GeLocalTerm(r, p, g, i) + SumSkipping(GeCouplingTerms(r, p, g, i), i, |p|)
  }

  // ---------------------------------------------------------------- sums

  /** Sums of zeros are zero. */
  lemma {:induction false} SumsOfZeros(t: seq<real>, i: nat, count: nat)
    requires count <= |t| && forall k :: 0 <= k < count ==> t[k] == 0.0
    ensures SumTo(t, count) == 0.0 && SumSkipping(t, i, count) == 0.0
  {
    if count > 0 {
      SumsOfZeros(t, i, count - 1);
    }
  }

  /** The full sum exceeds the skipping one by t[i], once i is within range. */
  lemma {:induction false} SumMinusSkipping(t: seq<real>, i: nat, count: nat)
    requires count <= |t|
    ensures SumTo(t, count) - SumSkipping(t, i, count) == if i < count then t[i] else 0.0
  {
    if count > 0 {
      SumMinusSkipping(t, i, count - 1);
    }
  }

  function Zeros(n: nat): (z: seq<real>)
    ensures |z| == n && forall k :: 0 <= k < n ==> z[k] == 0.0
  {
    seq(n, k => 0.0)
  }

  function Plus(a: seq<real>, b: seq<real>): (c: seq<real>)
    requires |a| == |b|
    ensures |c| == |a| && forall k :: 0 <= k < |a| ==> c[k] == a[k] + b[k]
  {
    seq(|a|, k requires 0 <= k < |a| => a[k] + b[k])
  }

  function Times(x: real, a: seq<real>): (c: seq<real>)
    ensures |c| == |a| && forall k :: 0 <= k < |a| ==> c[k] == x * a[k]
  {
    seq(|a|, k requires 0 <= k < |a| => x * a[k])
  }

  lemma Distributes(x: real, a: real, b: real)
    ensures x * (a + b) == x * a + x * b
  {
  }

  /** The skipping sum is additive in the summands. */
  lemma {:induction false} SumSkippingAdditive(t: seq<real>, u: seq<real>, i: nat, count: nat)
    requires |t| == |u| && count <= |t|
    ensures SumSkipping(Plus(t, u), i, count) == SumSkipping(t, i, count) + SumSkipping(u, i, count)
  {
    if count > 0 {
      SumSkippingAdditive(t, u, i, count - 1);
    }
  }

  /** The skipping sum is homogeneous in the summands. */
  lemma {:induction false} SumSkippingHomogeneous(t: seq<real>, x: real, i: nat, count: nat)
    requires count <= |t|
    ensures SumSkipping(Times(x, t), i, count) == x * SumSkipping(t, i, count)
  {
    if count > 0 {
      SumSkippingHomogeneous(t, x, i, count - 1);
      if count - 1 != i {
        Distributes(x, SumSkipping(t, i, count - 1), t[count - 1]);
      }
    }
  }

  // ---------------------------------------------------------------- the all-ones state

  predicate AllOnes(y: seq<real>) {
    forall k :: 0 <= k < |y| ==> y[k] == 1.0
  }

  /** At the all-ones state the extinction derivative of type i is its sampling rate. */
  lemma ExtinctionAtOnes(r: IntervalRates, y: seq<real>, i: nat)
    requires RatesFor(r, |y|) && i < |y| && AllOnes(y)
    ensures ExtinctionDerivative(r, y, i) == r.sampling[i]
  {
    SumsOfZeros(CouplingTerms(r, y, i), i, |y|);
  }

  /** At p0 = all ones the p0 derivative of type i is its sampling rate. */
  lemma P0AtOnes(r: IntervalRates, p: seq<real>, i: nat)
    requires RatesFor(r, |p|) && i < |p| && AllOnes(p)
    ensures P0Derivative(r, p, i) == r.sampling[i]
  {
    SumsOfZeros(CouplingTerms(r, p, i), i, |p|);
  }

  // ---------------------------------------------------------------- the two p0 formulas

  /**
   * The extinction formula exceeds the flow system's p0 formula by exactly
   * c_ii·(y_i − y_i²): the self-migration term is zero, the self-cross-birth term is not.
   */
  lemma ExtinctionMinusP0(r: IntervalRates, y: seq<real>, i: nat)
    requires RatesFor(r, |y|) && i < |y|
    ensures ExtinctionDerivative(r, y, i) - P0Derivative(r, y, i)
         == r.crossBirth[i][i] * (y[i] - y[i] * y[i])
  {
    SumMinusSkipping(CouplingTerms(r, y, i), i, |y|);
  }

  /** With no self cross-birth the two systems give the same p0 derivative. */
  lemma P0AgreesWithoutSelfCrossBirth(r: IntervalRates, y: seq<real>, i: nat)
    requires RatesFor(r, |y|) && i < |y| && r.crossBirth[i][i] == 0.0
    ensures ExtinctionDerivative(r, y, i) == P0Derivative(r, y, i)
  {
    ExtinctionMinusP0(r, y, i);
  }

  /** The rates with m_ii replaced by x. */
  function WithSelfMigration(r: IntervalRates, n: nat, i: nat, x: real): (r': IntervalRates)
    requires RatesFor(r, n) && i < n
    ensures RatesFor(r', n) && r'.crossBirth == r.crossBirth && r'.mig[i][i] == x
    ensures r'.birth == r.birth && r'.death == r.death && r'.sampling == r.sampling
    ensures forall j :: 0 <= j < n && j != i ==> r'.mig[i][j] == r.mig[i][j]
  {
    var row := r.mig[i][i := x];
    var r' := r.(mig := r.mig[i := row]);
    assert forall k :: 0 <= k < n ==> |r'.mig[k]| == n;
    r'
  }

  /** m_ii never affects the extinction derivative of type i: its term is m_ii·(y_i − y_i). */
  lemma SelfMigrationIrrelevant(r: IntervalRates, y: seq<real>, i: nat, x: real)
    requires RatesFor(r, |y|) && i < |y|
    ensures ExtinctionDerivative(WithSelfMigration(r, |y|, i, x), y, i) == ExtinctionDerivative(r, y, i)
  {
    var r' := WithSelfMigration(r, |y|, i, x);
    forall j | 0 <= j < |y|
      ensures CouplingTerms(r', y, i)[j] == CouplingTerms(r, y, i)[j]
    {
      if j == i {
        assert y[i] - y[j] == 0.0;
        assert r'.mig[i][j] * (y[i] - y[j]) == 0.0 == r.mig[i][j] * (y[i] - y[j]);
      }
    }
    assert CouplingTerms(r', y, i) == CouplingTerms(r, y, i);
  }

  // ---------------------------------------------------------------- linearity of the ge part

  /** One ge coupling term over scalars: additive in (g_i, g_j). */
  lemma GeTermAdditive(c: real, m: real, pi: real, pj: real, gi: real, gj: real, hi: real, hj: real)
    ensures c * ((gi + hi) - ((gi + hi) * pj + (gj + hj) * pi)) + m * ((gi + hi) - (gj + hj))
         == (c * (gi - (gi * pj + gj * pi)) + m * (gi - gj)) + (c * (hi - (hi * pj + hj * pi)) + m * (hi - hj))
  {
  }

  /** One ge coupling term over scalars: homogeneous in (g_i, g_j). */
  lemma GeTermHomogeneous(c: real, m: real, pi: real, pj: real, gi: real, gj: real, x: real)
    ensures c * (x * gi - (x * gi * pj + x * gj * pi)) + m * (x * gi - x * gj)
         == x * (c * (gi - (gi * pj + gj * pi)) + m * (gi - gj))
  {
  }

  /** The ge coupling terms, as a vector, are additive in the ge half. */
  lemma GeTermsAdditive(r: IntervalRates, p: seq<real>, g: seq<real>, h: seq<real>, i: nat)
    requires RatesFor(r, |p|) && |g| == |p| == |h| && i < |p|
    ensures GeCouplingTerms(r, p, Plus(g, h), i) == Plus(GeCouplingTerms(r, p, g, i), GeCouplingTerms(r, p, h, i))
  {
    var s := Plus(g, h);
    forall j | 0 <= j < |p|
      ensures GeCouplingTerms(r, p, s, i)[j] == Plus(GeCouplingTerms(r, p, g, i), GeCouplingTerms(r, p, h, i))[j]
    {
      assert s[i] == g[i] + h[i] && s[j] == g[j] + h[j];
      GeTermAdditive(r.crossBirth[i][j], r.mig[i][j], p[i], p[j], g[i], g[j], h[i], h[j]);
    }
  }

  /** The ge coupling terms, as a vector, are homogeneous in the ge half. */
  lemma GeTermsHomogeneous(r: IntervalRates, p: seq<real>, g: seq<real>, x: real, i: nat)
    requires RatesFor(r, |p|) && |g| == |p| && i < |p|
    ensures GeCouplingTerms(r, p, Times(x, g), i) == Times(x, GeCouplingTerms(r, p, g, i))
  {
    var s := Times(x, g);
    forall j | 0 <= j < |p|
      ensures GeCouplingTerms(r, p, s, i)[j] == Times(x, GeCouplingTerms(r, p, g, i))[j]
    {
      assert s[i] == x * g[i] && s[j] == x * g[j];
      GeTermHomogeneous(r.crossBirth[i][j], r.mig[i][j], p[i], p[j], g[i], g[j], x);
    }
  }

  /** The local ge term over scalars is linear in g_i. */
  lemma GeLocalLinear(a: real, b: real, pi: real, gi: real, hi: real, x: real)
    ensures a * (gi + hi) - 2.0 * b * (gi + hi) * pi == (a * gi - 2.0 * b * gi * pi) + (a * hi - 2.0 * b * hi * pi)
    ensures a * (x * gi) - 2.0 * b * (x * gi) * pi == x * (a * gi - 2.0 * b * gi * pi)
  {
  }

  /** The ge derivative of the zero ge half is zero. */
  lemma GeOfZero(r: IntervalRates, p: seq<real>, i: nat)
    requires RatesFor(r, |p|) && i < |p|
    ensures GeDerivative(r, p, Zeros(|p|), i) == 0.0
  {
    SumsOfZeros(GeCouplingTerms(r, p, Zeros(|p|), i), i, |p|);
  }

  lemma GeLocalAdditive(r: IntervalRates, p: seq<real>, g: seq<real>, h: seq<real>, i: nat)
    requires RatesFor(r, |p|) && |g| == |p| == |h| && i < |p|
    ensures GeLocalTerm(r, p, Plus(g, h), i) == GeLocalTerm(r, p, g, i) + GeLocalTerm(r, p, h, i)
  {
    assert Plus(g, h)[i] == g[i] + h[i];
    GeLocalLinear(r.birth[i] + r.death[i] + r.sampling[i], r.birth[i], p[i], g[i], h[i], 0.0);
  }

  lemma GeCouplingAdditive(r: IntervalRates, p: seq<real>, g: seq<real>, h: seq<real>, i: nat)
    requires RatesFor(r, |p|) && |g| == |p| == |h| && i < |p|
    ensures SumSkipping(GeCouplingTerms(r, p, Plus(g, h), i), i, |p|)
         == SumSkipping(GeCouplingTerms(r, p, g, i), i, |p|) + SumSkipping(GeCouplingTerms(r, p, h, i), i, |p|)
  {
    GeTermsAdditive(r, p, g, h, i);
    SumSkippingAdditive(GeCouplingTerms(r, p, g, i), GeCouplingTerms(r, p, h, i), i, |p|);
  }

  /** For a fixed p0 half, the ge derivative of a sum of ge halves is the sum of their derivatives. */
  lemma GeAdditive(r: IntervalRates, p: seq<real>, g: seq<real>, h: seq<real>, i: nat)
    requires RatesFor(r, |p|) && |g| == |p| == |h| && i < |p|
    ensures GeDerivative(r, p, Plus(g, h), i) == GeDerivative(r, p, g, i) + GeDerivative(r, p, h, i)
  {
    GeLocalAdditive(r, p, g, h, i);
    GeCouplingAdditive(r, p, g, h, i);
  }

  lemma GeLocalHomogeneous(r: IntervalRates, p: seq<real>, g: seq<real>, x: real, i: nat)
    requires RatesFor(r, |p|) && |g| == |p| && i < |p|
    ensures GeLocalTerm(r, p, Times(x, g), i) == x * GeLocalTerm(r, p, g, i)
  {
    assert Times(x, g)[i] == x * g[i];
    GeLocalLinear(r.birth[i] + r.death[i] + r.sampling[i], r.birth[i], p[i], g[i], 0.0, x);
  }

  lemma GeCouplingHomogeneous(r: IntervalRates, p: seq<real>, g: seq<real>, x: real, i: nat)
    requires RatesFor(r, |p|) && |g| == |p| && i < |p|
    ensures SumSkipping(GeCouplingTerms(r, p, Times(x, g), i), i, |p|) == x * SumSkipping(GeCouplingTerms(r, p, g, i), i, |p|)
  {
    GeTermsHomogeneous(r, p, g, x, i);
    SumSkippingHomogeneous(GeCouplingTerms(r, p, g, i), x, i, |p|);
  }

  /** For a fixed p0 half, scaling the ge half by x scales its derivative by x. */
  lemma GeHomogeneous(r: IntervalRates, p: seq<real>, g: seq<real>, x: real, i: nat)
    requires RatesFor(r, |p|) && |g| == |p| && i < |p|
    ensures GeDerivative(r, p, Times(x, g), i) == x * GeDerivative(r, p, g, i)
  {
    GeLocalHomogeneous(r, p, g, x, i);
    GeCouplingHomogeneous(r, p, g, x, i);
    var local, coupling := GeLocalTerm(r, p, g, i), SumSkipping(GeCouplingTerms(r, p, g, i), i, |p|);
    Distributes(x, local, coupling);
    assert GeDerivative(r, p, g, i) == local + coupling;
  }
}
