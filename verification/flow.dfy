/**
 * `Flow`: the piecewise flow Φ(t) assembled from one interpolant per time
 * segment. The constructor validates the segments and precomputes, for each
 * segment, the product of the earlier segments' end-of-segment matrices;
 * a query picks the owning segment and left-multiplies by that prefix.
 */
module FlowStore {
  import opened Wrappers
  import opened Linalg
  import opened Utils
  import opened Segments

  /**
   * One segment's output model: the interpolated flat state at a time. The
   * numerical integration and interpolation behind it are not modelled.
   */
  type Segment = real -> seq<real>

  /** Every segment's state holds at least an n×n matrix. */
  ghost predicate WellShaped(segs: seq<Segment>, n: nat) {
    forall k, t :: 0 <= k < |segs| ==> n * n <= |segs[k](t)|
  }

  /** The n×n matrix of segment `seg` at time t, read column-major. */
  function SegmentMatrix(seg: Segment, t: real, n: nat): (m: Matrix)
    requires n * n <= |seg(t)|
    ensures IsSquare(m, n)
  {
    Unflatten(seg(t), n)
  }

  /**
   * initialFlows[i]: the identity for segment 0, and segment i-1's matrix at its
   * end time times initialFlows[i-1] after that (newest factor on the left).
   */
  function Prefix(segs: seq<Segment>, e: seq<real>, n: nat, i: nat): (m: Matrix)
    requires WellShaped(segs, n) && |segs| == |e| && i < |segs|
    ensures IsSquare(m, n)
  {
    if i == 0 then Identity(n)
    else Mul(SegmentMatrix(segs[i - 1], e[i - 1], n), Prefix(segs, e, n, i - 1))
  }

  /** One step of the prefix recurrence, stated over named matrices. */
  lemma PrefixStep(segs: seq<Segment>, e: seq<real>, n: nat, i: nat, previous: Matrix, next: Matrix)
    requires WellShaped(segs, n) && |segs| == |e| && 0 < i < |segs|
    requires previous == Prefix(segs, e, n, i - 1)
    requires next == Mul(SegmentMatrix(segs[i - 1], e[i - 1], n), previous)
    ensures next == Prefix(segs, e, n, i)
  {
  }

  function Prefixes(segs: seq<Segment>, e: seq<real>, n: nat): (p: seq<Matrix>)
    requires WellShaped(segs, n) && |segs| == |e|
    ensures |p| == |segs|
  {
    seq(|segs|, i requires 0 <= i < |segs| => Prefix(segs, e, n, i))
  }

  /** `getFlow(time)` as written: in range, segment × prefix; past the last end time, prefix × segment. */
  function FlowAtAsWritten(segs: seq<Segment>, e: seq<real>, n: nat, t: real): (m: Matrix)
    requires WellShaped(segs, n) && |segs| == |e| > 0
    ensures IsSquare(m, n)
  {
    var i := FirstAtOrAfter(e, t);
    var last := |segs| - 1;
    if i < |segs| then Mul(SegmentMatrix(segs[i], t, n), Prefix(segs, e, n, i))
    else Mul(Prefix(segs, e, n, last), SegmentMatrix(segs[last], t, n))
  }

  /** The clamped query with the same composition order as in range: segment × prefix. */
  function FlowAt(segs: seq<Segment>, e: seq<real>, n: nat, t: real): (m: Matrix)
    requires WellShaped(segs, n) && |segs| == |e| > 0
    ensures IsSquare(m, n)
  {
    var i := FirstAtOrAfter(e, t);
    var k := if i < |segs| then i else |segs| - 1;
    Mul(SegmentMatrix(segs[k], t, n), Prefix(segs, e, n, k))
  }

  /**
   * The constructor's checks, in order. After the length and order checks it
   * builds the n×n identity for initialFlows[0], which fails for n = 0; only
   * then is the slot stored, which fails for an empty store.
   */
  function FlowCheck(segmentCount: nat, endTimes: seq<real>, n: nat): (r: Option<StoreError>)
    ensures r == None <==> segmentCount == |endTimes| > 0 && Sorted(endTimes) && n > 0
    ensures r == Some(NonPositiveDimension) <==> segmentCount == |endTimes| && Sorted(endTimes) && n == 0
    ensures r == Some(NoSegments) <==> segmentCount == |endTimes| == 0 && n > 0
  {
    match StoreCheck(segmentCount, endTimes)
    case Some(err) => Some(err)
    case None =>
      if n == 0 then Some(NonPositiveDimension)
      else if segmentCount == 0 then Some(NoSegments)
      else None
  }

  // ---------------------------------------------------------------------------
  // Composition

  /**
   * Φ is a flow the segments were integrated from: segment 0 starts from the
   * identity, and segment k > 0 carries Φ at its start time forward to Φ(s).
   */
  ghost predicate SegmentsOfFlow(segs: seq<Segment>, e: seq<real>, n: nat, phi: real -> Matrix)
    requires WellShaped(segs, n) && |segs| == |e|
  {
    && (forall s :: IsSquare(phi(s), n))
    && (|segs| > 0 ==> forall s :: SegmentMatrix(segs[0], s, n) == phi(s))
    && (forall k, s :: 0 < k < |segs| ==> Mul(SegmentMatrix(segs[k], s, n), phi(e[k - 1])) == phi(s))
  }

  /** Each prefix is Φ at the previous segment's end time. */
  lemma {:induction false} PrefixIsFlowAtStart(segs: seq<Segment>, e: seq<real>, n: nat, phi: real -> Matrix, i: nat)
    requires WellShaped(segs, n) && |segs| == |e| && 0 < i < |segs|
    requires SegmentsOfFlow(segs, e, n, phi)
    ensures Prefix(segs, e, n, i) == phi(e[i - 1])
  {
    if i == 1 {
      MulIdentityRight(SegmentMatrix(segs[0], e[0], n), n);
    } else {
      PrefixIsFlowAtStart(segs, e, n, phi, i - 1);
    }
  }

  /**
   * Telescoping: for a time up to the last end time, the composed query
   * returns Φ(t), whichever segment owns t.
   */
  lemma GetFlowTelescopes(segs: seq<Segment>, e: seq<real>, n: nat, phi: real -> Matrix, t: real)
    requires WellShaped(segs, n) && |segs| == |e| > 0
    requires SegmentsOfFlow(segs, e, n, phi)
    requires t <= e[|e| - 1]
    ensures FlowAtAsWritten(segs, e, n, t) == phi(t)
  {
    var i := FirstAtOrAfter(e, t);
    if i == 0 {
      MulIdentityRight(SegmentMatrix(segs[0], t, n), n);
    } else {
      PrefixIsFlowAtStart(segs, e, n, phi, i);
    }
  }

  /** With the order corrected, the query returns Φ(t) past the last end time as well. */
  lemma FlowAtTelescopes(segs: seq<Segment>, e: seq<real>, n: nat, phi: real -> Matrix, t: real)
    requires WellShaped(segs, n) && |segs| == |e| > 0
    requires SegmentsOfFlow(segs, e, n, phi)
    ensures FlowAt(segs, e, n, t) == phi(t)
  {
    var i := FirstAtOrAfter(e, t);
    var k := if i < |segs| then i else |segs| - 1;
    if k == 0 {
      MulIdentityRight(SegmentMatrix(segs[0], t, n), n);
    } else {
      PrefixIsFlowAtStart(segs, e, n, phi, k);
    }
  }

  /** In range the two queries agree; they differ only in the clamped branch. */
  lemma FlowAtAgreesInRange(segs: seq<Segment>, e: seq<real>, n: nat, t: real)
    requires WellShaped(segs, n) && |segs| == |e| > 0
    requires FirstAtOrAfter(e, t) < |e|
    ensures FlowAtAsWritten(segs, e, n, t) == FlowAt(segs, e, n, t)
  {
  }

  // ---------------------------------------------------------------------------
  // The clamped branch multiplies in the reverse order

  /**
   * A flow on two segments split at 1: Φ = A = [[1, 1], [0, 1]] up to time 1
   * and Φ = B·A = [[1, 1], [1, 2]] after it, with B = [[1, 0], [1, 1]].
   */
  function ShearFlow(s: real): Matrix {
    if s <= 1.0 then [[1.0, 1.0], [0.0, 1.0]] else [[1.0, 1.0], [1.0, 2.0]]
  }

  /** Segment 0 of the shear flow, integrated from the identity: Φ itself, column-major. */
  function ShearSegment0(s: real): seq<real> {
    if s <= 1.0 then [1.0, 0.0, 1.0, 1.0] else [1.0, 1.0, 1.0, 2.0]
  }

  /** Segment 1 of the shear flow, integrated from the identity at time 1: I, then B, column-major. */
  function ShearSegment1(s: real): seq<real> {
    if s <= 1.0 then [1.0, 0.0, 0.0, 1.0] else [1.0, 1.0, 0.0, 1.0]
  }

  /** The two shear segments, with end times 1 and 2, are segments of the flow `ShearFlow`. */
  lemma ShearSegmentsOfFlow()
    ensures WellShaped([ShearSegment0, ShearSegment1], 2)
    ensures SegmentsOfFlow([ShearSegment0, ShearSegment1], [1.0, 2.0], 2, ShearFlow)
  {
    var segs: seq<Segment> := [ShearSegment0, ShearSegment1];
    forall k, t | 0 <= k < 2 ensures 4 <= |segs[k](t)| {
      if k == 0 { assert |ShearSegment0(t)| == 4; } else { assert |ShearSegment1(t)| == 4; }
    }
    forall s ensures SegmentMatrix(segs[0], s, 2) == ShearFlow(s) {
      Unflatten2(ShearSegment0(s));
    }
    var a := ShearFlow(1.0);
    forall s ensures Mul(SegmentMatrix(segs[1], s, 2), a) == ShearFlow(s) {
      var m := SegmentMatrix(segs[1], s, 2);
      Unflatten2(ShearSegment1(s));
      Mul2(m, a);
    }
  }

  /**
   * At t = 3, past the last end time, the query as written returns
   * initialFlows[1]·B = A·B = [[2, 1], [1, 1]], while the flow the segments
   * come from is Φ(3) = B·A = [[1, 1], [1, 2]]; the corrected query returns Φ(3).
   */
  lemma ClampedQueryReversesOrder()
    ensures var segs: seq<Segment> := [ShearSegment0, ShearSegment1];
      && WellShaped(segs, 2)
      && SegmentsOfFlow(segs, [1.0, 2.0], 2, ShearFlow)
      && FlowAtAsWritten(segs, [1.0, 2.0], 2, 3.0) == [[2.0, 1.0], [1.0, 1.0]]
      && FlowAtAsWritten(segs, [1.0, 2.0], 2, 3.0) != ShearFlow(3.0)
      && FlowAt(segs, [1.0, 2.0], 2, 3.0) == ShearFlow(3.0)
  {
    var segs: seq<Segment> := [ShearSegment0, ShearSegment1];
    var e := [1.0, 2.0];
    ShearSegmentsOfFlow();
    var a := [[1.0, 1.0], [0.0, 1.0]];
    var b := [[1.0, 0.0], [1.0, 1.0]];
    Unflatten2(ShearSegment0(1.0));
    Unflatten2(ShearSegment1(3.0));
    MulIdentityRight(a, 2);
    assert Prefix(segs, e, 2, 1) == a;
    assert FirstAtOrAfter(e, 3.0) == 2;
    Mul2(a, b);
    Mul2(b, a);
  }

  lemma Unflatten2(x: seq<real>)
    requires |x| == 4
    ensures Unflatten(x, 2) == [[x[0], x[2]], [x[1], x[3]]]
  {
    var m := Unflatten(x, 2);
    UnflattenColumnMajor(x, 2, 0, 0);
    UnflattenColumnMajor(x, 2, 0, 1);
    UnflattenColumnMajor(x, 2, 1, 0);
    UnflattenColumnMajor(x, 2, 1, 1);
    assert m[0] == [x[0], x[2]];
    assert m[1] == [x[1], x[3]];
  }

  lemma Mul2(a: Matrix, b: Matrix)
    requires IsSquare(a, 2) && IsSquare(b, 2)
    ensures Mul(a, b) == [[a[0][0] * b[0][0] + a[0][1] * b[1][0], a[0][0] * b[0][1] + a[0][1] * b[1][1]],
                          [a[1][0] * b[0][0] + a[1][1] * b[1][0], a[1][0] * b[0][1] + a[1][1] * b[1][1]]]
  {
    var c := Mul(a, b);
    forall i, j | 0 <= i < 2 && 0 <= j < 2
      ensures c[i][j] == a[i][0] * b[0][j] + a[i][1] * b[1][j]
    {
      assert DotPrefix(a, b, i, j, 1) == a[i][0] * b[0][j];
    }
    assert c[0][0] == a[0][0] * b[0][0] + a[0][1] * b[1][0] && c[0][1] == a[0][0] * b[0][1] + a[0][1] * b[1][1];
    assert c[1][0] == a[1][0] * b[0][0] + a[1][1] * b[1][0] && c[1][1] == a[1][0] * b[0][1] + a[1][1] * b[1][1];
    assert c[0] == [a[0][0] * b[0][0] + a[0][1] * b[1][0], a[0][0] * b[0][1] + a[0][1] * b[1][1]];
    assert c[1] == [a[1][0] * b[0][0] + a[1][1] * b[1][0], a[1][0] * b[0][1] + a[1][1] * b[1][1]];
  }

  // ---------------------------------------------------------------------------
  // The class

  class Flow {
    const outputModels: array<Segment>
    const endTimes: array<real>
    const initialFlows: array<Matrix>
    const n: nat

    ghost predicate Valid()
      reads this, outputModels, endTimes, initialFlows
    {
      && outputModels.Length == endTimes.Length == initialFlows.Length > 0
      && WellShaped(outputModels[..], n)
      && Sorted(endTimes[..])
      && initialFlows[..] == Prefixes(outputModels[..], endTimes[..], n)
    }

    /** The constructor after its checks have passed: stores the arrays and fills the prefixes. */
    constructor Init(flows: array<Segment>, endTimes: array<real>, n: nat)
      requires FlowCheck(flows.Length, endTimes[..], n) == None
      requires WellShaped(flows[..], n)
      ensures Valid() && fresh(initialFlows)
      ensures outputModels == flows && this.endTimes == endTimes && this.n == n
    {
      this.n := n;
      this.outputModels := flows;
      this.endTimes := endTimes;
      var prefixes := new Matrix[flows.Length];
      this.initialFlows := prefixes;
      new;
      FillPrefixes(prefixes, flows[..], endTimes[..], n);
    }

    /** The constructor's loop: initialFlows[0] is the identity, each later entry the previous one left-multiplied. */
    static method FillPrefixes(prefixes: array<Matrix>, segs: seq<Segment>, ends: seq<real>, n: nat)
      requires WellShaped(segs, n) && |segs| == |ends| == prefixes.Length > 0
      modifies prefixes
      ensures prefixes[..] == Prefixes(segs, ends, n)
    {
      prefixes[0] := Identity(n);
      for i := 1 to prefixes.Length
        invariant forall k :: 0 <= k < i ==> prefixes[k] == Prefix(segs, ends, n, k)
      {
        var flowEnd := SegmentMatrix(segs[i - 1], ends[i - 1], n);
        var next := Mul(flowEnd, prefixes[i - 1]);
        PrefixStep(segs, ends, n, i, prefixes[i - 1], next);
        prefixes[i] := next;
      }
    }

    /**
     * `new Flow(flows, endTimes, n)`: rejects arrays of different lengths, then
     * end times with a strictly decreasing neighbour pair, then dimension 0,
     * then an empty store.
     */
    static method Create(flows: array<Segment>, endTimes: array<real>, n: nat) returns (r: Result<Flow, StoreError>)
      requires WellShaped(flows[..], n)
      ensures r.Failure? <==> FlowCheck(flows.Length, endTimes[..], n) != None
      ensures r.Failure? ==> Some(r.error) == FlowCheck(flows.Length, endTimes[..], n)
      ensures r.Success? ==> fresh(r.value) && fresh(r.value.initialFlows) && r.value.Valid()
      ensures r.Success? ==> r.value.outputModels == flows && r.value.endTimes == endTimes && r.value.n == n
    {
      if flows.Length != endTimes.Length {
        return Failure(LengthMismatch);
      }
      var sorted := CheckSorted(endTimes);
      if !sorted {
        return Failure(Unsorted);
      }
      if n == 0 {
        return Failure(NonPositiveDimension);
      }
      if flows.Length == 0 {
        return Failure(NoSegments);
      }
      var flow := new Flow.Init(flows, endTimes, n);
      return Success(flow);
    }

    /** `getFlow(time)`: a linear search for the owning segment with early return. */
    method GetFlow(time: real) returns (m: Matrix)
      requires Valid()
      ensures m == FlowAtAsWritten(outputModels[..], endTimes[..], n, time)
    {
      var i := 0;
      while i < outputModels.Length
        invariant 0 <= i <= outputModels.Length
        invariant forall k :: 0 <= k < i ==> endTimes[k] < time
      {
        if time <= endTimes[i] {
          assert FirstAtOrAfter(endTimes[..], time) == i;
          return Mul(SegmentMatrix(outputModels[i], time, n), initialFlows[i]);
        }
        i := i + 1;
      }
      assert FirstAtOrAfter(endTimes[..], time) == outputModels.Length;
      var last := initialFlows.Length - 1;
      return Mul(initialFlows[last], SegmentMatrix(outputModels[last], time, n));
    }
  }
}
