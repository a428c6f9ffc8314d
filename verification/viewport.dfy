/** The y-limit rule of `_atmos_plot_update_data_`,
    `_atmos_plot_update_height_min_` and `_atmos_plot_update_height_max_`:
    over the samples of the visible height window, each panel's y-axis runs
    from `1.2*qmin - 0.2*qmax` to `1.2*qmax - 0.2*qmin`. */
module Viewport {
  import opened Outcomes
  import opened Nearest
  import opened Atmos
  import opened AxisLimits

  datatype YRange = YRange(lower: real, upper: real)

  /** The padded y-range: the data span widened by a fifth of itself at
      either end. */
  function PaddedRange(qmin: real, qmax: real): (r: YRange)
    ensures r.upper - r.lower == 1.4 * (qmax - qmin)
    ensures qmin - r.lower == r.upper - qmax == 0.2 * (qmax - qmin)
    ensures qmin <= qmax ==> r.lower <= qmin && qmax <= r.upper
  {
    YRange(1.2 * qmin - 0.2 * qmax, 1.2 * qmax - 0.2 * qmin)
  }

  /** The data minimum a padded range was made from. */
  function UnpadMin(r: YRange): (qmin: real) {
    (1.2 * r.lower + 0.2 * r.upper) / 1.4
  }

  /** The data maximum a padded range was made from. */
  function UnpadMax(r: YRange): (qmax: real) {
    (1.2 * r.upper + 0.2 * r.lower) / 1.4
  }

  /** The padding loses nothing: the data extremes can be read back from
      the y-limits. */
  lemma PaddedRangeRoundTrip(qmin: real, qmax: real)
    ensures UnpadMin(PaddedRange(qmin, qmax)) == qmin
    ensures UnpadMax(PaddedRange(qmin, qmax)) == qmax
  {
    var r := PaddedRange(qmin, qmax);
    assert 1.2 * r.lower + 0.2 * r.upper == 1.4 * qmin;
    assert 1.2 * r.upper + 0.2 * r.lower == 1.4 * qmax;
  }

  /** numpy's `min()` of a non-empty array. */
  function MinOf(s: seq<real>): (m: real)
    requires |s| > 0
    ensures exists k :: 0 <= k < |s| && s[k] == m
    ensures forall k :: 0 <= k < |s| ==> m <= s[k]
  {
    if |s| == 1 then s[0]
    else
      var m := MinOf(s[1..]);
      if s[0] <= m then s[0] else m
  }

  /** numpy's `max()` of a non-empty array. */
  function MaxOf(s: seq<real>): (m: real)
    requires |s| > 0
    ensures exists k :: 0 <= k < |s| && s[k] == m
    ensures forall k :: 0 <= k < |s| ==> s[k] <= m
  {
    if |s| == 1 then s[0]
    else
      var m := MaxOf(s[1..]);
      if s[0] >= m then s[0] else m
  }

  /** `qmin` and `qmax` are the smallest and the largest of `values[lo..hi]`. */
  ghost predicate AreExtremes(values: seq<real>, lo: int, hi: int, qmin: real, qmax: real)
    requires 0 <= lo <= hi <= |values|
  {
    && (exists j :: lo <= j < hi && values[j] == qmin)
    && (exists j :: lo <= j < hi && values[j] == qmax)
    && (forall j :: lo <= j < hi ==> qmin <= values[j] <= qmax)
  }

  /** The minimum and maximum of a slice are its extremes, read in the
      whole profile's indices. */
  lemma SliceExtremes(values: seq<real>, lo: int, hi: int)
    requires 0 <= lo < hi <= |values|
    ensures AreExtremes(values, lo, hi, MinOf(values[lo..hi]), MaxOf(values[lo..hi]))
  {
    var window := values[lo..hi];
    var qmin, qmax := MinOf(window), MaxOf(window);
    var j :| 0 <= j < |window| && window[j] == qmin;
    var k :| 0 <= k < |window| && window[k] == qmax;
    assert values[lo + j] == qmin && values[lo + k] == qmax;
    forall i | lo <= i < hi ensures qmin <= values[i] <= qmax {
      assert values[i] == window[i - lo];
    }
  }

  /** Sample `j` is one the y-limits are computed over: in
      `[idx_max, idx_min)`, `idx_min` being the nearest index to the window's
      left limit and `idx_max` to its right limit.  The sample at `idx_min`
      itself is not included. */
  predicate InWindow(heights: seq<real>, left: real, right: real, j: int)
    requires |heights| > 0
  {
    NearestIndex(heights, right) <= j < NearestIndex(heights, left)
  }

  /** The y-limits of one panel for the height window (`left`, `right`). */
  function WindowRange(heights: seq<real>, values: seq<real>, left: real, right: real): (r: Result<YRange>)
    requires |heights| == |values|
    ensures r == Err(EmptyColumn) <==> |heights| == 0
    ensures r == Err(EmptyWindow) <==>
      |heights| > 0 && NearestIndex(heights, left) <= NearestIndex(heights, right)
    ensures r.Ok? <==> |heights| > 0 && NearestIndex(heights, right) < NearestIndex(heights, left)
  {
    if |heights| == 0 then Err(EmptyColumn)
    else
      var idxMin := NearestIndex(heights, left);
      var idxMax := NearestIndex(heights, right);
      if idxMin <= idxMax then Err(EmptyWindow)
      else
        var window := values[idxMax..idxMin];
        Ok(PaddedRange(MinOf(window), MaxOf(window)))
  }

  /** What the y-limits of a non-empty window promise: every sample of the
      window is inside them, and they are the padding of the window's own
      extremes. */
  lemma WindowRangeBounds(heights: seq<real>, values: seq<real>, left: real, right: real)
    requires |heights| == |values|
    requires WindowRange(heights, values, left, right).Ok?
    ensures var r := WindowRange(heights, values, left, right).value;
      forall j :: 0 <= j < |values| && InWindow(heights, left, right, j) ==> r.lower <= values[j] <= r.upper
    ensures var r := WindowRange(heights, values, left, right).value;
      AreExtremes(values, NearestIndex(heights, right), NearestIndex(heights, left), UnpadMin(r), UnpadMax(r))
  {
    var idxMin := NearestIndex(heights, left);
    var idxMax := NearestIndex(heights, right);
    var window := values[idxMax..idxMin];
    var qmin, qmax := MinOf(window), MaxOf(window);
    PaddedRangeRoundTrip(qmin, qmax);
    SliceExtremes(values, idxMax, idxMin);
  }

  /** The y-limits of the four panels, in panel order, for profile `index`.
      The loop over the quantities raises at the first panel whose window is
      empty; all four share the height profile, so that is the first one. */
  function PanelRanges(atm: Atmosphere, index: nat, left: real, right: real): (r: Result<seq<YRange>>)
    requires WellFormed(atm)
    requires index < |atm.height|
    ensures r.Ok? <==> (|atm.height[index]| > 0 &&
      NearestIndex(atm.height[index], right) < NearestIndex(atm.height[index], left))
    ensures r.Err? ==> r.fault == WindowRange(atm.height[index], Profiles(atm, Temperature)[index], left, right).fault
    ensures r.Ok? ==> |r.value| == |Quantities|
    ensures r.Ok? ==> forall k :: 0 <= k < |Quantities| ==>
      Ok(r.value[k]) == WindowRange(atm.height[index], Profiles(atm, Quantities[k])[index], left, right)
  {
    var h := atm.height[index];
    var t := WindowRange(h, Profiles(atm, Temperature)[index], left, right);
    if t.Err? then Err(t.fault)
    else
      PanelsOk(atm, index, left, right);
      Ok(seq(|Quantities|, k requires 0 <= k < |Quantities| =>
        WindowRange(h, Profiles(atm, Quantities[k])[index], left, right).value))
  }

  /** With a non-empty window every panel has its range. */
  lemma PanelsOk(atm: Atmosphere, index: nat, left: real, right: real)
    requires WellFormed(atm)
    requires index < |atm.height|
    requires |atm.height[index]| > 0 &&
      NearestIndex(atm.height[index], right) < NearestIndex(atm.height[index], left)
    ensures forall k :: 0 <= k < |Quantities| ==>
      |Profiles(atm, Quantities[k])[index]| == |atm.height[index]| &&
      WindowRange(atm.height[index], Profiles(atm, Quantities[k])[index], left, right).Ok?
  {
    forall k | 0 <= k < |Quantities|
      ensures |Profiles(atm, Quantities[k])[index]| == |atm.height[index]|
      ensures WindowRange(atm.height[index], Profiles(atm, Quantities[k])[index], left, right).Ok?
    {
      ProfilesShape(atm, Quantities[k]);
    }
  }

  /** What the plot shows: the profile picked by the column slider and the
      x-limits (`left`, `right`) the axes store, in the heights' unit. */
  datatype View = View(index: nat, left: real, right: real)

  /** Every panel's y-range contains every sample of its quantity in the
      window (`left`, `right`) of profile `index`. */
  ghost predicate PanelsCoverWindow(atm: Atmosphere, index: nat, left: real, right: real, ranges: seq<YRange>)
    requires WellFormed(atm)
    requires index < |atm.height|
  {
    var h := atm.height[index];
    && |ranges| == |Quantities|
    && |h| > 0
    && forall k, j :: 0 <= k < |Quantities| && 0 <= j < |h| && InWindow(h, left, right, j) ==>
      ranges[k].lower <= Profiles(atm, Quantities[k])[index][j] <= ranges[k].upper
  }

  /** Every panel's y-range is exactly the padding of the smallest and the
      largest sample of its quantity in the window (`left`, `right`) of
      profile `index`, and that window is non-empty. */
  ghost predicate PanelsFitWindow(atm: Atmosphere, index: nat, left: real, right: real, ranges: seq<YRange>)
    requires WellFormed(atm)
    requires index < |atm.height|
  {
    var h := atm.height[index];
    && |ranges| == |Quantities|
    && |h| > 0
    && NearestIndex(h, right) < NearestIndex(h, left)
    && forall k :: 0 <= k < |Quantities| ==>
      && |Profiles(atm, Quantities[k])[index]| == |h|
      && ranges[k] == PaddedRange(UnpadMin(ranges[k]), UnpadMax(ranges[k]))
      && AreExtremes(Profiles(atm, Quantities[k])[index], NearestIndex(h, right), NearestIndex(h, left),
                     UnpadMin(ranges[k]), UnpadMax(ranges[k]))
  }

  /** The four panel ranges are the padded window extremes, and so contain
      the window's samples. */
  lemma PanelRangesFit(atm: Atmosphere, index: nat, left: real, right: real)
    requires WellFormed(atm)
    requires index < |atm.height|
    requires PanelRanges(atm, index, left, right).Ok?
    ensures PanelsFitWindow(atm, index, left, right, PanelRanges(atm, index, left, right).value)
    ensures PanelsCoverWindow(atm, index, left, right, PanelRanges(atm, index, left, right).value)
  {
    var h := atm.height[index];
    var ranges := PanelRanges(atm, index, left, right).value;
    forall k | 0 <= k < |Quantities|
      ensures |Profiles(atm, Quantities[k])[index]| == |h|
      ensures ranges[k] == PaddedRange(UnpadMin(ranges[k]), UnpadMax(ranges[k]))
      ensures AreExtremes(Profiles(atm, Quantities[k])[index], NearestIndex(h, right), NearestIndex(h, left),
                          UnpadMin(ranges[k]), UnpadMax(ranges[k]))
      ensures forall j :: 0 <= j < |h| && InWindow(h, left, right, j) ==>
        ranges[k].lower <= Profiles(atm, Quantities[k])[index][j] <= ranges[k].upper
    {
      ProfilesShape(atm, Quantities[k]);
      WindowRangeBounds(h, Profiles(atm, Quantities[k])[index], left, right);
      var w := MinOf(Profiles(atm, Quantities[k])[index][NearestIndex(h, right)..NearestIndex(h, left)]);
      var W := MaxOf(Profiles(atm, Quantities[k])[index][NearestIndex(h, right)..NearestIndex(h, left)]);
      PaddedRangeRoundTrip(w, W);
    }
  }

  /** `_atmos_plot_update_data_`: recompute the four y-ranges for the
      stored x-limits of the current view. */
  function RefreshRanges(atm: Atmosphere, v: View): (r: Result<seq<YRange>>)
    requires WellFormed(atm)
    requires v.index < |atm.height|
    ensures r.Err? <==> (|atm.height[v.index]| == 0 ||
      NearestIndex(atm.height[v.index], v.left) <= NearestIndex(atm.height[v.index], v.right))
    ensures r.Ok? ==> |r.value| == |Quantities| && forall k :: 0 <= k < |Quantities| ==>
      Ok(r.value[k]) == WindowRange(atm.height[v.index], Profiles(atm, Quantities[k])[v.index], v.left, v.right)
    ensures r.Ok? ==> PanelsFitWindow(atm, v.index, v.left, v.right, r.value)
    ensures r.Ok? ==> PanelsCoverWindow(atm, v.index, v.left, v.right, r.value)
  {
    var r := PanelRanges(atm, v.index, v.left, v.right);
    if r.Ok? then PanelRangesFit(atm, v.index, v.left, v.right); r else r
  }

  /** `_atmos_index_update_`: the column slider (0 to nx-1) picks another
      profile and the ranges are recomputed over the unchanged x-limits. */
  function SelectProfile(atm: Atmosphere, v: View, index: nat): (r: (View, Result<seq<YRange>>))
    requires WellFormed(atm)
    requires index < |atm.height|
    ensures r.0.index == index && r.0.left == v.left && r.0.right == v.right
    ensures r.1 == RefreshRanges(atm, r.0)
    ensures r.1.Err? <==> (|atm.height[index]| == 0 ||
      NearestIndex(atm.height[index], v.left) <= NearestIndex(atm.height[index], v.right))
    ensures r.1.Ok? ==> PanelsFitWindow(atm, index, v.left, v.right, r.1.value)
  {
    var v' := v.(index := index);
    (v', RefreshRanges(atm, v'))
  }

  /** `_atmos_plot_update_height_min_`: every axis stores the x-limits
      (`heightMin`, old right limit), widened if singular, whatever the ranges
      turn out to be. The window's left end is `heightMin` itself and its
      right end the stored right limit. */
  function SetHeightMin(atm: Atmosphere, v: View, heightMin: real): (r: (View, Result<seq<YRange>>))
    requires WellFormed(atm)
    requires v.index < |atm.height|
    ensures r.0.index == v.index && (r.0.left, r.0.right) == StoredLimits(heightMin, v.right)
    ensures !Singular(heightMin, v.right) ==> r.0 == v.(left := heightMin) && r.1 == RefreshRanges(atm, r.0)
    ensures r.1.Err? <==> (|atm.height[v.index]| == 0 ||
      NearestIndex(atm.height[v.index], heightMin) <= NearestIndex(atm.height[v.index], r.0.right))
    ensures r.1.Ok? ==> PanelsFitWindow(atm, v.index, heightMin, r.0.right, r.1.value)
  {
    var lim := StoredLimits(heightMin, v.right);
    var ranges := PanelRanges(atm, v.index, heightMin, lim.1);
    if ranges.Ok? then PanelRangesFit(atm, v.index, heightMin, lim.1); (View(v.index, lim.0, lim.1), ranges)
    else (View(v.index, lim.0, lim.1), ranges)
  }

  /** `_atmos_plot_update_height_max_`: the same for the right x-limit. The
      window's left end is the stored left limit and its right end
      `heightMax` itself. */
  function SetHeightMax(atm: Atmosphere, v: View, heightMax: real): (r: (View, Result<seq<YRange>>))
    requires WellFormed(atm)
    requires v.index < |atm.height|
    ensures r.0.index == v.index && (r.0.left, r.0.right) == StoredLimits(v.left, heightMax)
    ensures !Singular(v.left, heightMax) ==> r.0 == v.(right := heightMax) && r.1 == RefreshRanges(atm, r.0)
    ensures r.1.Err? <==> (|atm.height[v.index]| == 0 ||
      NearestIndex(atm.height[v.index], r.0.left) <= NearestIndex(atm.height[v.index], heightMax))
    ensures r.1.Ok? ==> PanelsFitWindow(atm, v.index, r.0.left, heightMax, r.1.value)
  {
    var lim := StoredLimits(v.left, heightMax);
    var ranges := PanelRanges(atm, v.index, lim.0, heightMax);
    if ranges.Ok? then PanelRangesFit(atm, v.index, lim.0, heightMax); (View(v.index, lim.0, lim.1), ranges)
    else (View(v.index, lim.0, lim.1), ranges)
  }

  /** The two window sliders commute as long as no limit they set is singular
      against the other: moving the left then the right limit shows the same
      view and ranges as the other order. */
  lemma WindowSlidersCommute(atm: Atmosphere, v: View, heightMin: real, heightMax: real)
    requires WellFormed(atm)
    requires v.index < |atm.height|
    requires !Singular(heightMin, v.right) && !Singular(v.left, heightMax) && !Singular(heightMin, heightMax)
    ensures SetHeightMax(atm, SetHeightMin(atm, v, heightMin).0, heightMax)
         == SetHeightMin(atm, SetHeightMax(atm, v, heightMax).0, heightMin)
  {
  }

  /** When the left slider lands on the right limit, the order matters: the
      widened left limit survives the right slider's move in one order and
      not in the other. */
  lemma SliderOrderMatters(atm: Atmosphere, v: View, heightMin: real, heightMax: real)
    requires WellFormed(atm)
    requires v.index < |atm.height|
    requires v.left == 1.0 && v.right == 5.0 && heightMin == 5.0 && heightMax == 3.0
    ensures SetHeightMax(atm, SetHeightMin(atm, v, heightMin).0, heightMax).0.left == 4.75
    ensures SetHeightMin(atm, SetHeightMax(atm, v, heightMax).0, heightMin).0.left == 5.0
  {
    assert Singular(heightMin, v.right);
    assert StoredLimits(heightMin, v.right) == (4.75, 5.25);
    assert !Singular(4.75, heightMax);
    assert !Singular(v.left, heightMax);
    assert !Singular(heightMin, heightMax);
  }

  /** On a strictly decreasing height profile a window whose left limit is
      below its right limit never selects its samples in reverse; only a
      window narrower than the sample spacing can still be empty. */
  lemma DecreasingWindowOrdered(heights: seq<real>, left: real, right: real)
    requires |heights| > 0
    requires StrictlyDecreasing(heights)
    requires left <= right
    ensures NearestIndex(heights, right) <= NearestIndex(heights, left)
  {
    NearestIndexAntitone(heights, left, right);
  }
}
