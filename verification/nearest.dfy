/** `find_nearest_index`: the index of the profile sample closest to a target
    value, as `(np.abs(array - value)).argmin()` computes it. */
module Nearest {
  import opened Outcomes

  function Abs(x: real): (r: real)
    ensures r >= 0.0
    ensures r == x || r == -x
  {
    if x < 0.0 then -x else x
  }

  /** Distance between a sample and the target. */
  function Dist(x: real, v: real): (d: real) {
    Abs(x - v)
  }

  /** `i` is where numpy's argmin lands: a sample at least as close to `v` as
      every other, and strictly closer than every sample before it (argmin
      returns the first of several equal minima). */
  ghost predicate IsNearest(a: seq<real>, v: real, i: int) {
    && 0 <= i < |a|
    && (forall j {:trigger Dist(a[j], v)} :: 0 <= j < |a| ==> Dist(a[i], v) <= Dist(a[j], v))
    && (forall j {:trigger Dist(a[j], v)} :: 0 <= j < i ==> Dist(a[i], v) < Dist(a[j], v))
  }

  ghost predicate StrictlyDecreasing(a: seq<real>) {
    forall j, k :: 0 <= j < k < |a| ==> a[j] > a[k]
  }

  /** The left-to-right scan of argmin: the best index of all but the last
      sample, replaced by the last one only when it is strictly closer. */
  function NearestIndex(a: seq<real>, v: real): (i: nat)
    requires |a| > 0
    ensures IsNearest(a, v, i)
    decreases |a|
  {
    if |a| == 1 then 0
    else
      var k := NearestIndex(a[..|a| - 1], v);
      if Dist(a[|a| - 1], v) < Dist(a[k], v) then |a| - 1 else k
  }

  /** `find_nearest_index` on any profile, including the empty one, where
      numpy raises. */
  function FindNearestIndex(a: seq<real>, v: real): (r: Result<nat>)
    ensures r.Err? <==> |a| == 0
    ensures r.Err? ==> r.fault == EmptyColumn
    ensures r.Ok? ==> IsNearest(a, v, r.value)
  {
    if |a| == 0 then Err(EmptyColumn) else Ok(NearestIndex(a, v))
  }

  /** The argmin specification pins the index down: NearestIndex is the one
      and only index that satisfies it. */
  lemma NearestIndexCharacterized(a: seq<real>, v: real, i: int)
    requires |a| > 0
    ensures IsNearest(a, v, i) <==> i == NearestIndex(a, v)
  {
  }

  /** A target equal to a sample of a profile with distinct heights selects
      exactly that sample. */
  lemma NearestOfSample(a: seq<real>, k: int)
    requires 0 <= k < |a|
    requires StrictlyDecreasing(a)
    ensures NearestIndex(a, a[k]) == k
  {
  }

  /** On a strictly decreasing profile a higher target never selects a later
      index: the nearest index is antitone in the target. */
  lemma NearestIndexAntitone(a: seq<real>, v: real, w: real)
    requires |a| > 0
    requires StrictlyDecreasing(a)
    requires v <= w
    ensures NearestIndex(a, w) <= NearestIndex(a, v)
  {
  }
}
