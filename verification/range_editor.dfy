/** The edit of `_atmos_edit_quantity_`: replace a height range of one
    quantity's profile by a two-point linear interpolant, or write a single
    sample when both (height, value) pairs are identical.  The four copies
    of the block in the program differ only in their target array, so the
    edit is written once, on one profile, and lifted to the atmosphere with
    a quantity selector. */
module RangeEditor {
  import opened Outcomes
  import opened Nearest
  import opened Interpolation
  import opened Atmos

  /** The four text fields: `lower` is (lower_height, lower_value) and
      `upper` is (upper_height, upper_value), heights in the profile's unit. */
  datatype Edit = Edit(lower: Point, upper: Point)

  /** Both heights and both values compare exactly equal: the point-write branch. */
  predicate IsPointEdit(e: Edit) {
    e.lower.x == e.upper.x && e.lower.y == e.upper.y
  }

  /** `values[lo:lo+|ys|] = ys`, numpy's slice assignment. */
  function Splice(values: seq<real>, lo: nat, ys: seq<real>): (r: seq<real>)
    requires lo + |ys| <= |values|
    ensures |r| == |values|
    ensures forall j :: 0 <= j < |values| && !(lo <= j < lo + |ys|) ==> r[j] == values[j]
    ensures forall j :: lo <= j < lo + |ys| ==> r[j] == ys[j - lo]
  {
    values[..lo] + ys + values[lo + |ys|..]
  }

  /** Sample `j` lies in the written slice `[idx_max+1, idx_min)`, where
      `idx_min` is the nearest index to the lower height and `idx_max` the
      nearest index to the upper height. */
  predicate InSlice(heights: seq<real>, e: Edit, j: int)
    requires |heights| > 0
  {
    NearestIndex(heights, e.upper.x) < j < NearestIndex(heights, e.lower.x)
  }

  /** The range branch: the two-point interpolant evaluated at the heights
      of the slice `[idx_max+1, idx_min)` and written over it.  It fails
      exactly when one of those heights is outside the two heights. */
  function RangeWrite(heights: seq<real>, values: seq<real>, e: Edit): (r: Result<seq<real>>)
    requires |heights| == |values| > 0
    ensures r.Ok? <==> forall j :: 0 <= j < |heights| && InSlice(heights, e, j) ==> InRange(e.lower, e.upper, heights[j])
    ensures r.Err? ==> r.fault != EmptyColumn
    ensures r.Ok? ==> |r.value| == |values|
    ensures r.Ok? ==> forall j :: 0 <= j < |values| ==>
      r.value[j] == (if InSlice(heights, e, j) then Line(e.lower, e.upper, heights[j]) else values[j])
  {
    var idxMin := NearestIndex(heights, e.lower.x);
    var idxMax := NearestIndex(heights, e.upper.x);
    // a slice whose stop is not past its start selects nothing
    var lo := idxMax + 1;
    var hi := if idxMin < lo then lo else idxMin;
    var selected := heights[lo..hi];
    var ys :- Interp1d(e.lower, e.upper, selected);
    Ok(Splice(values, lo, ys))
  }

  /** The edit of one profile, `heights` being the height profile beside it. */
  function EditProfile(heights: seq<real>, values: seq<real>, e: Edit): (r: Result<seq<real>>)
    requires |heights| == |values|
    ensures r == Err(EmptyColumn) <==> |heights| == 0
    ensures r.Ok? ==> |r.value| == |values|
    // point write: the nearest sample to the height takes the value, nothing else moves
    ensures |heights| > 0 && IsPointEdit(e) ==>
      r.Ok? && forall j :: 0 <= j < |values| ==>
        r.value[j] == (if j == NearestIndex(heights, e.lower.x) then e.lower.y else values[j])
    // range write: the slice follows the line, every other sample is kept
    ensures |heights| > 0 && !IsPointEdit(e) && r.Ok? ==>
      forall j :: 0 <= j < |values| ==>
        r.value[j] == (if InSlice(heights, e, j) then Line(e.lower, e.upper, heights[j]) else values[j])
    // the range write fails exactly when a selected height is outside the two heights
    ensures |heights| > 0 && !IsPointEdit(e) ==>
      (r.Ok? <==> forall j :: 0 <= j < |heights| && InSlice(heights, e, j) ==> InRange(e.lower, e.upper, heights[j]))
  {
    if |heights| == 0 then Err(EmptyColumn)
    else if IsPointEdit(e) then
      Ok(values[NearestIndex(heights, e.lower.x) := e.lower.y])
    else
      RangeWrite(heights, values, e)
  }

  /** When the slice `[idx_max+1, idx_min)` is empty the range branch writes
      nothing. */
  lemma EmptySliceKeepsProfile(heights: seq<real>, values: seq<real>, e: Edit)
    requires |heights| == |values| > 0
    requires !IsPointEdit(e)
    requires NearestIndex(heights, e.lower.x) <= NearestIndex(heights, e.upper.x) + 1
    ensures EditProfile(heights, values, e) == Ok(values)
  {
    var r := EditProfile(heights, values, e);
    assert r.Ok?;
    assert r.value == values;
  }

  /** Equal heights with different values take the range branch, whose
      slice is then empty: the profile is left as it was. */
  lemma EqualHeightsKeepProfile(heights: seq<real>, values: seq<real>, e: Edit)
    requires |heights| == |values| > 0
    requires e.lower.x == e.upper.x && e.lower.y != e.upper.y
    ensures EditProfile(heights, values, e) == Ok(values)
  {
    EmptySliceKeepsProfile(heights, values, e);
  }

  /** On a strictly decreasing height profile every selected height lies
      between the lower and the upper height: a sample beyond either end
      would be closer to that end than the sample the nearest-index lookup
      chose. */
  lemma DecreasingSliceWithinHeights(heights: seq<real>, e: Edit, j: int)
    requires |heights| > 0
    requires StrictlyDecreasing(heights)
    requires 0 <= j < |heights| && InSlice(heights, e, j)
    ensures e.lower.x <= heights[j] <= e.upper.x
  {
    var idxMin := NearestIndex(heights, e.lower.x);
    var idxMax := NearestIndex(heights, e.upper.x);
    assert heights[idxMax] > heights[j] > heights[idxMin];
    assert Dist(heights[idxMax], e.upper.x) <= Dist(heights[j], e.upper.x);
    assert Dist(heights[idxMin], e.lower.x) <= Dist(heights[j], e.lower.x);
  }

  /** Hence on a strictly decreasing profile the interpolant is never asked
      to extrapolate and the edit never fails. */
  lemma DecreasingEditSucceeds(heights: seq<real>, values: seq<real>, e: Edit)
    requires |heights| == |values| > 0
    requires StrictlyDecreasing(heights)
    ensures EditProfile(heights, values, e).Ok?
  {
    if !IsPointEdit(e) {
      forall j | 0 <= j < |heights| && InSlice(heights, e, j)
        ensures InRange(e.lower, e.upper, heights[j])
      {
        DecreasingSliceWithinHeights(heights, e, j);
      }
    }
  }

  /** ... and every value it writes lies between the lower and the upper value. */
  lemma DecreasingEditNoOvershoot(heights: seq<real>, values: seq<real>, e: Edit, j: int)
    requires |heights| == |values| > 0
    requires StrictlyDecreasing(heights)
    requires !IsPointEdit(e)
    requires 0 <= j < |heights| && InSlice(heights, e, j)
    ensures EditProfile(heights, values, e).Ok?
    ensures Min(e.lower.y, e.upper.y) <= EditProfile(heights, values, e).value[j] <= Max(e.lower.y, e.upper.y)
  {
    DecreasingEditSucceeds(heights, values, e);
    DecreasingSliceWithinHeights(heights, e, j);
    LineBetween(e.lower, e.upper, heights[j]);
  }

  /** `_atmos_edit_quantity_` on the whole atmosphere: the dropdown value
      `editIndex` picks the quantity (any other value does nothing) and
      `index` the profile shown by the column slider. */
  function EditAtmosphere(atm: Atmosphere, editIndex: int, index: nat, e: Edit): (r: Result<Atmosphere>)
    requires WellFormed(atm)
    requires index < |atm.height|
    ensures r.Ok? ==> WellFormed(r.value)
    // only the selected quantity's selected profile can change
    ensures r.Ok? ==> r.value.height == atm.height
    ensures r.Ok? ==> forall q :: QuantityOf(editIndex) != Some(q) ==> Profiles(r.value, q) == Profiles(atm, q)
    ensures r.Ok? ==> forall q, j :: 0 <= j < |atm.height| && j != index ==> Profiles(r.value, q)[j] == Profiles(atm, q)[j]
    // the selected profile is edited against its own height profile
    ensures QuantityOf(editIndex).Some? ==>
      var q := QuantityOf(editIndex).value;
      match EditProfile(atm.height[index], Profiles(atm, q)[index], e)
      case Ok(p) => r.Ok? && Profiles(r.value, q)[index] == p
      case Err(f) => r == Err(f)
    ensures QuantityOf(editIndex).None? ==> r == Ok(atm)
  {
    match QuantityOf(editIndex)
    case None => Ok(atm)
    case Some(q) =>
      ProfilesShape(atm, q);
      var p :- EditProfile(atm.height[index], Profiles(atm, q)[index], e);
      WithProfileWellFormed(atm, q, index, p);
      Ok(WithProfile(atm, q, index, p))
  }

  /** One sample of a successful range write. */
  lemma RangeWriteAt(heights: seq<real>, values: seq<real>, e: Edit, j: int)
    requires |heights| == |values| > 0
    requires !IsPointEdit(e)
    requires EditProfile(heights, values, e).Ok?
    requires 0 <= j < |values|
    ensures InSlice(heights, e, j) ==> EditProfile(heights, values, e).value[j] == Line(e.lower, e.upper, heights[j])
    ensures !InSlice(heights, e, j) ==> EditProfile(heights, values, e).value[j] == values[j]
  {
  }

  /** A successful range write whose slice is the single sample `k`. */
  lemma SingleSampleWrite(heights: seq<real>, values: seq<real>, e: Edit, k: nat)
    requires |heights| == |values| > 0
    requires RangeWrite(heights, values, e).Ok?
    requires NearestIndex(heights, e.upper.x) + 1 == k && k + 1 == NearestIndex(heights, e.lower.x)
    ensures e.lower.x != e.upper.x
    ensures RangeWrite(heights, values, e).value == values[k := Line(e.lower, e.upper, heights[k])]
  {
    var r := RangeWrite(heights, values, e).value;
    assert InSlice(heights, e, k);
    var w := values[k := Line(e.lower, e.upper, heights[k])];
    forall j | 0 <= j < |values| ensures r[j] == w[j] {
      if j != k {
        assert !InSlice(heights, e, j);
      }
    }
  }

  /** On a strictly decreasing profile, bounds at the heights of samples
      `k+1` (lower) and `k-1` (upper) rewrite sample `k` alone. */
  lemma InteriorSampleWrite(heights: seq<real>, values: seq<real>, e: Edit, k: nat)
    requires |heights| == |values|
    requires StrictlyDecreasing(heights)
    requires 0 < k && k + 1 < |heights|
    requires e.upper.x == heights[k - 1] && e.lower.x == heights[k + 1]
    ensures EditProfile(heights, values, e) == Ok(values[k := Line(e.lower, e.upper, heights[k])])
  {
    NearestOfSample(heights, k - 1);
    NearestOfSample(heights, k + 1);
    DecreasingEditSucceeds(heights, values, e);
    SingleSampleWrite(heights, values, e, k);
  }

  lemma ExampleHeightsDecreasing(heights: seq<real>)
    requires heights == [5.0, 4.0, 3.0, 2.0, 1.0]
    ensures StrictlyDecreasing(heights)
  {
  }

  /** Pressing "Change!" twice with the same fields changes nothing the
      second time: the written samples depend only on the heights and the
      two points, never on the values they replace. */
  lemma EditIdempotent(heights: seq<real>, values: seq<real>, e: Edit)
    requires |heights| == |values|
    requires EditProfile(heights, values, e).Ok?
    ensures EditProfile(heights, EditProfile(heights, values, e).value, e) == EditProfile(heights, values, e)
  {
    var once := EditProfile(heights, values, e).value;
    var twice := EditProfile(heights, once, e);
    if !IsPointEdit(e) {
      assert twice.Ok?;
      forall j | 0 <= j < |values| ensures twice.value[j] == once[j] {
        RangeWriteAt(heights, values, e, j);
        RangeWriteAt(heights, once, e, j);
      }
      assert twice.value == once;
    } else {
      var idx := NearestIndex(heights, e.lower.x);
      assert once == values[idx := e.lower.y];
      assert twice.value == once[idx := e.lower.y] == once;
    }
  }

  /** A five-sample profile with heights 5, 4, 3, 2, 1 (decreasing) and
      temperatures 6000, 5500, 5000, 4500, 4000.  Entering the larger height
      as the lower one puts `idx_min` = 1 before `idx_max` = 3, and the edit
      writes nothing. */
  lemma ExampleReversedHeightsWriteNothing(heights: seq<real>, values: seq<real>, e: Edit)
    requires heights == [5.0, 4.0, 3.0, 2.0, 1.0]
    requires values == [6000.0, 5500.0, 5000.0, 4500.0, 4000.0]
    requires e == Edit(Point(4.0, 5000.0), Point(2.0, 4000.0))
    ensures EditProfile(heights, values, e) == Ok(values)
  {
    ExampleHeightsDecreasing(heights);
    NearestOfSample(heights, 1);
    NearestOfSample(heights, 3);
    EmptySliceKeepsProfile(heights, values, e);
  }

  /** On the same profile, entering the smaller height as the lower one gives
      `idx_min` = 3 and `idx_max` = 1: only sample 2 (height 3) is written,
      with the line's value 4500, and both boundary samples keep theirs. */
  lemma ExampleOrderedHeightsWriteInterior(heights: seq<real>, values: seq<real>, e: Edit)
    requires heights == [5.0, 4.0, 3.0, 2.0, 1.0]
    requires values == [6000.0, 5500.0, 5000.0, 4500.0, 4000.0]
    requires e == Edit(Point(2.0, 4000.0), Point(4.0, 5000.0))
    ensures EditProfile(heights, values, e) == Ok([6000.0, 5500.0, 4500.0, 4500.0, 4000.0])
  {
    assert values[2 := 4500.0] == [6000.0, 5500.0, 4500.0, 4500.0, 4000.0];
    assert Line(e.lower, e.upper, heights[2]) == 4500.0;
    ExampleHeightsDecreasing(heights);
    InteriorSampleWrite(heights, values, e, 2);
  }
}
