/**
 * What `Flow` and `ExtinctionProbabilities` share: the validation of the
 * segment end times done by both constructors, and the search for the
 * segment that owns a query time.
 */
module Segments {
  import opened Wrappers

  /**
   * The constructors' error conditions; `NoSegments` is the index failure of
   * an empty store, `NonPositiveDimension` the refusal of a 0×0 identity.
   */
  datatype StoreError = LengthMismatch | Unsorted | NoSegments | NonPositiveDimension

  /** No adjacent pair of end times is strictly decreasing (equal neighbours allowed). */
  predicate Sorted(e: seq<real>) {
    forall i, j :: 0 <= i < |e| && 0 <= j < |e| && j == i + 1 ==> e[i] <= e[j]
  }

  /** Adjacent order gives order between any two positions. */
  lemma {:induction false} SortedPairwise(e: seq<real>, a: nat, b: nat)
    requires Sorted(e) && a <= b < |e|
    ensures e[a] <= e[b]
    decreases b - a
  {
    if a < b {
      SortedPairwise(e, a + 1, b);
    }
  }

  /** The checks both constructors make, in their order. */
  function StoreCheck(segmentCount: nat, endTimes: seq<real>): (r: Option<StoreError>)
  {
    if segmentCount != |endTimes| then Some(LengthMismatch)
    else if !Sorted(endTimes) then Some(Unsorted)
    else None
  }

  /**
   * The sortedness loop of the constructors: false exactly when some
   * endTimes[i] > endTimes[i + 1].
   */
  method CheckSorted(endTimes: array<real>) returns (sorted: bool)
    ensures sorted <==> Sorted(endTimes[..])
  {
    var i := 0;
    while i < endTimes.Length - 1
      invariant 0 <= i <= endTimes.Length
      invariant forall k :: 0 <= k < i && k < endTimes.Length - 1 ==> endTimes[k] <= endTimes[k + 1]
    {
      if endTimes[i] > endTimes[i + 1] {
        return false;
      }
      i := i + 1;
    }
    return true;
  }

  /**
   * The index of the first segment whose end time is at or after `t`, or
   * |e| when every end time is before `t` (the query is then clamped).
   */
  function FirstAtOrAfter(e: seq<real>, t: real): (i: nat)
    ensures i <= |e|
    ensures i < |e| ==> t <= e[i]
    ensures forall k :: 0 <= k < i ==> e[k] < t
  {
    if |e| == 0 then 0
    else if t <= e[0] then 0
    else 1 + FirstAtOrAfter(e[1..], t)
  }

  /**
   * For sorted end times, a time in (e[k-1], e[k]] belongs to segment k, a time
   * exactly on a boundary to the earlier segment, and a time after the last end
   * time to no segment.
   */
  lemma SegmentOfTime(e: seq<real>, t: real, k: nat)
    requires Sorted(e) && k < |e|
    requires t <= e[k] && (k > 0 ==> e[k - 1] < t)
    ensures FirstAtOrAfter(e, t) == k
  {
    var i := FirstAtOrAfter(e, t);
    if i < k {
      SortedPairwise(e, i, k - 1);
    }
  }

  lemma ClampedPastLast(e: seq<real>, t: real)
    requires Sorted(e) && |e| > 0
    ensures FirstAtOrAfter(e, t) == |e| <==> e[|e| - 1] < t
  {
    var i := FirstAtOrAfter(e, t);
    if i < |e| && e[|e| - 1] < t {
      SortedPairwise(e, i, |e| - 1);
    }
  }
}
