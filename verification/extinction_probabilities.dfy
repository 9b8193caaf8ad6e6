/**
 * `ExtinctionProbabilities`: the piecewise extinction curve e(t), one
 * interpolant per segment, queried by locating the owning segment; unlike
 * `Flow` there is no composition across segments.
 */
module ExtinctionStore {
  import opened Wrappers
  import opened Segments
  import opened FlowStore

  /** `getExtinctionProbability(time)`: the owning segment's state at `time`, clamped to the last segment. */
  function ProbabilityAt(segs: seq<Segment>, e: seq<real>, t: real): (r: Result<seq<real>, StoreError>)
    requires |segs| == |e|
  {
    if |segs| == 0 then Failure(NoSegments)
    else
      var i := FirstAtOrAfter(e, t);
      Success(segs[if i < |segs| then i else |segs| - 1](t))
  }

  /**
   * The lookup returns segment k's own value for a time in (e[k-1], e[k]] and
   * the last segment's value past the last end time; it fails only for an empty store.
   */
  lemma ProbabilityOfOwningSegment(segs: seq<Segment>, e: seq<real>, t: real, k: nat)
    requires |segs| == |e| && Sorted(e) && k < |e|
    requires (t <= e[k] && (k > 0 ==> e[k - 1] < t)) || (k == |e| - 1 && e[k] < t)
    ensures ProbabilityAt(segs, e, t) == Success(segs[k](t))
  {
    if t <= e[k] {
      SegmentOfTime(e, t, k);
    } else {
      ClampedPastLast(e, t);
    }
  }

  class ExtinctionProbabilities {
    const outputModels: array<Segment>
    const endTimes: array<real>

    ghost predicate Valid()
      reads this, outputModels, endTimes
    {
      outputModels.Length == endTimes.Length && Sorted(endTimes[..])
    }

    /** The constructor after its checks have passed: both arrays are stored as given, not copied. */
    constructor Init(flows: array<Segment>, endTimes: array<real>)
      requires StoreCheck(flows.Length, endTimes[..]) == None
      ensures Valid()
      ensures outputModels == flows && this.endTimes == endTimes
    {
      outputModels := flows;
      this.endTimes := endTimes;
    }

    /**
     * `new ExtinctionProbabilities(flows, endTimes)`: rejects arrays of different
     * lengths, then end times with a strictly decreasing neighbour pair.
     */
    static method Create(flows: array<Segment>, endTimes: array<real>) returns (r: Result<ExtinctionProbabilities, StoreError>)
      ensures r.Failure? <==> StoreCheck(flows.Length, endTimes[..]) != None
      ensures r.Failure? ==> Some(r.error) == StoreCheck(flows.Length, endTimes[..])
      ensures r.Success? ==> fresh(r.value) && r.value.Valid()
      ensures r.Success? ==> r.value.outputModels == flows && r.value.endTimes == endTimes
    {
      if flows.Length != endTimes.Length {
        return Failure(LengthMismatch);
      }
      var sorted := CheckSorted(endTimes);
      if !sorted {
        return Failure(Unsorted);
      }
      var store := new ExtinctionProbabilities.Init(flows, endTimes);
      return Success(store);
    }

    /** `getExtinctionProbability(time)`: linear search with early return, then the clamp. */
    method GetExtinctionProbability(time: real) returns (r: Result<seq<real>, StoreError>)
      requires Valid()
      ensures r == ProbabilityAt(outputModels[..], endTimes[..], time)
    {
      var i := 0;
      while i < outputModels.Length
        invariant 0 <= i <= outputModels.Length
        invariant forall k :: 0 <= k < i ==> endTimes[k] < time
      {
        if time <= endTimes[i] {
          assert FirstAtOrAfter(endTimes[..], time) == i;
          return Success(outputModels[i](time));
        }
        i := i + 1;
      }
      if outputModels.Length == 0 {
        return Failure(NoSegments);
      }
      return Success(outputModels[outputModels.Length - 1](time));
    }
  }
}
