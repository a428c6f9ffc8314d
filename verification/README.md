# rh15d atmosphere editor: a Dafny model of its column arithmetic

`rh15d_edit_atmos.py` is a notebook tool for inspecting and hand-editing an RH 1.5D
model atmosphere. It loads five 4-D arrays from an HDF5 file: the height `z`, the
temperature, the electron density, the vertical velocity and the turbulent velocity.
It plots one height profile of the four quantities. The user may then replace a height
range of one quantity by a straight line between two (height, value) pairs typed into
text fields. This project models the arithmetic behind that tool, one profile at a time:

- `Nearest`: `find_nearest_index`, numpy's `argmin` of `|a - v|`. It returns the first
  of several equally close samples. On an empty profile it fails.
- `Interpolation`: the two-point `interp1d` interpolant. With scipy's default
  `bounds_error`, it fails instead of extrapolating.
- `Atmos`: the four quantities, the `edit_quantity` dropdown and the atmosphere record.
  Each array is reduced to the profiles along the axis the column slider selects.
- `RangeEditor`: the edit of `_atmos_edit_quantity_`, written once for the four
  copy-pasted branches. With identical heights and identical values it writes one
  sample. Otherwise it writes the slice `[idx_max+1, idx_min)` from the line.
- `Viewport`: the y-limits `1.2*qmin - 0.2*qmax` and `1.2*qmax - 0.2*qmin`, taken over
  the samples `[idx_max, idx_min)` of the visible height window. It also models the three
  callbacks that recompute them.
- `AxisLimits`: what `set_xlim` stores, including matplotlib's widening of limits too
  close together to draw.
- `Outcomes`: the exceptions the Python code raises, as a `Result` type. Every one is
  raised before anything is written, so a failed call leaves the atmosphere unchanged.

Heights and values are exact `real`s in place of float64.

What the code does, and the model with it:

- The range edit writes the indices strictly between `idx_max` and `idx_min`. It never
  writes the sample at `idx_min`.
- `interp1d` is built without `fill_value`, so it never extrapolates. A selected height
  outside the two entered heights raises, and nothing is written.
- An `edit_index` outside 0..3 matches none of the four branches, so the edit does
  nothing and raises nothing.
- The slider labelled `time_index` ranges over `0..nx-1` and indexes axis 1 (`x`) of
  the arrays. Axes 0 and 2 are always read and written at index 0.
- With heights stored in decreasing order, a non-empty edit needs the smaller height in
  the "lower" field. With heights 5, 4, 3, 2, 1 and lower height 4, upper height 2,
  nothing changes. With the fields swapped, only the height-3 sample is rewritten.
  `RangeEditor.ExampleReversedHeightsWriteNothing` and
  `RangeEditor.ExampleOrderedHeightsWriteInterior` state both cases.
- The height sliders store their x-limits through matplotlib's `set_xlim`. That call
  widens a singular pair by 5% at each end, for example a new left limit equal to the
  right one. The callbacks then read the stored limit back. So a window can be non-empty
  even when both sliders show the same height, and the two sliders commute only when
  neither move produces a singular pair.

## Model

| member | source | states |
|---|---|---|
| `Nearest.NearestIndex` | rh15d_edit_atmos.py:11-13 | On a non-empty profile, the result is an in-bounds index. No sample is closer to the target. Every earlier sample is strictly farther, so ties go to the first index, as with argmin. |
| `Nearest.FindNearestIndex` | rh15d_edit_atmos.py:11-13 | Fails exactly on the empty profile (numpy raises). Otherwise it returns the argmin index above. |
| `Nearest.NearestIndexCharacterized` | rh15d_edit_atmos.py:12 | The argmin specification has exactly one solution, and it is `NearestIndex`. |
| `Nearest.NearestOfSample` | rh15d_edit_atmos.py:12 | On a strictly decreasing profile, the target `a[k]` selects index `k`. |
| `Nearest.NearestIndexAntitone` | rh15d_edit_atmos.py:12 | On a strictly decreasing profile, a higher target never selects a later index. |
| `Interpolation.Interp1d` | rh15d_edit_atmos.py:112-120 | Succeeds iff every query height lies between the two abscissae, ends included. It fails below-range first, then above-range. On success it has one value per query, each on the line through the two points. |
| `Interpolation.LineThroughEnds` | rh15d_edit_atmos.py:112-114 | The interpolant passes through (lower_height, lower_value) and (upper_height, upper_value). |
| `Interpolation.LineSymmetric` | rh15d_edit_atmos.py:112-114 | The order of the two points does not change the interpolant. |
| `Interpolation.LineBetween` | rh15d_edit_atmos.py:114-120 | Inside its range, the interpolant stays between the two values. |
| `Atmos.QuantityOf` | rh15d_edit_atmos.py:214-215 | Dropdown values 0..3 select temperature, electron density, velocity_z and turbulence, in panel order. Every other value selects nothing. |
| `Atmos.WithProfile` | rh15d_edit_atmos.py:121 | Writing one profile of one quantity changes only that profile. The heights and the other quantities keep their values. |
| `RangeEditor.Splice` | rh15d_edit_atmos.py:121 | Slice assignment keeps the length. It writes the new values into the slice and keeps every sample outside it. |
| `RangeEditor.RangeWrite` | rh15d_edit_atmos.py:112-121 | The range branch on a non-empty profile succeeds iff every height strictly between `idx_max` and `idx_min` lies between the two entered heights. It never fails for emptiness. On success the length is kept, each sample in that slice is on the line at its own height, and every other sample keeps its value. |
| `RangeEditor.EditProfile` | rh15d_edit_atmos.py:102-121 | Fails only on an empty profile or an out-of-range height. A point edit sets the sample nearest the height to the value and nothing else. A range edit puts every sample strictly between `idx_max` and `idx_min` on the line at its own height and keeps all other samples. The range edit succeeds iff every selected height lies between the two heights. |
| `RangeEditor.EmptySliceKeepsProfile` | rh15d_edit_atmos.py:116-121 | When `idx_min <= idx_max + 1`, the range edit leaves the profile unchanged. |
| `RangeEditor.EqualHeightsKeepProfile` | rh15d_edit_atmos.py:108-121 | Equal heights with different values take the range branch. That branch writes nothing. |
| `RangeEditor.DecreasingSliceWithinHeights` | rh15d_edit_atmos.py:114-118 | On strictly decreasing heights, every selected height lies between lower_height and upper_height. |
| `RangeEditor.DecreasingEditSucceeds` | rh15d_edit_atmos.py:114-121 | On strictly decreasing heights, the edit of a non-empty profile never fails, so the interpolant is never asked to extrapolate. |
| `RangeEditor.DecreasingEditNoOvershoot` | rh15d_edit_atmos.py:112-121 | On strictly decreasing heights, every written value lies between lower_value and upper_value. |
| `RangeEditor.EditIdempotent` | rh15d_edit_atmos.py:102-121 | Running `_atmos_edit_quantity_` twice with the same fields, after a successful first run, leaves the profile as the first run did. |
| `RangeEditor.InteriorSampleWrite` | rh15d_edit_atmos.py:116-121 | On strictly decreasing heights with bounds at samples `k+1` and `k-1`, only sample `k` is rewritten, to the line's value. |
| `RangeEditor.ExampleReversedHeightsWriteNothing` | rh15d_edit_atmos.py:116-121 | Heights 5..1, lower height 4, upper height 2: the temperatures are unchanged. |
| `RangeEditor.ExampleOrderedHeightsWriteInterior` | rh15d_edit_atmos.py:112-121 | Heights 5..1, lower (2, 4000), upper (4, 5000): only the height-3 sample changes, to 4500. |
| `RangeEditor.EditAtmosphere` | rh15d_edit_atmos.py:102-184 | Only the selected quantity's selected profile can change: the heights, the other quantities and the other profiles stay the same. That profile is the one-profile edit against its own heights. An unknown selector changes nothing. Shapes are preserved. |
| `Viewport.PaddedRange` | rh15d_edit_atmos.py:68 | The span is 1.4 times the data span, padded by a fifth of the data span at each end. For `qmin <= qmax`, the range contains `[qmin, qmax]`. |
| `Viewport.PaddedRangeRoundTrip` | rh15d_edit_atmos.py:68 | The data minimum and maximum can be recovered from the y-limits. |
| `Viewport.MinOf` | rh15d_edit_atmos.py:66 | The minimum is an element of the slice and at most every element. |
| `Viewport.MaxOf` | rh15d_edit_atmos.py:67 | The maximum is an element of the slice and at least every element. |
| `Viewport.WindowRange` | rh15d_edit_atmos.py:60-68 | Fails with the empty-profile error exactly on an empty profile, and with the empty-window error exactly when `idx_min <= idx_max`. It succeeds otherwise. |
| `Viewport.WindowRangeBounds` | rh15d_edit_atmos.py:66-68 | On success, every sample in `[idx_max, idx_min)` lies within the limits, and the unpadded limits are that window's own minimum and maximum. |
| `Viewport.PanelRanges` | rh15d_edit_atmos.py:63-68 | Gives the four panel ranges in panel order, each the window range of its quantity. The failure is the first panel's failure. |
| `Viewport.PanelRangesFit` | rh15d_edit_atmos.py:63-68 | Each of the four ranges is the padding of the smallest and largest sample of its quantity in `[idx_max, idx_min)`, so it contains every sample there. |
| `Viewport.RefreshRanges` | rh15d_edit_atmos.py:59-70 | Fails iff the profile is empty or the window of the stored x-limits is empty. Otherwise each panel's range is the window range of its quantity: the padded minimum and maximum over `[idx_max, idx_min)`, which contains every window sample. |
| `Viewport.SelectProfile` | rh15d_edit_atmos.py:72-74 | The slider picks the profile and keeps the x-limits. The ranges are those of the data refresh for the new profile, with the same failure condition. |
| `Viewport.SetHeightMin` | rh15d_edit_atmos.py:76-87 | Every axis stores `(height_min, right)` as `set_xlim` does, whether or not the ranges fail. The window runs from `height_min` itself to the stored right limit. The ranges fail iff that window or the profile is empty, and otherwise are the padded window extremes. When the pair is not singular, this is the data refresh of the new view. |
| `Viewport.SetHeightMax` | rh15d_edit_atmos.py:89-100 | Every axis stores `(left, height_max)` as `set_xlim` does. The window runs from the stored left limit to `height_max` itself. The ranges fail iff that window or the profile is empty, and otherwise are the padded window extremes. When the pair is not singular, this is the data refresh of the new view. |
| `Viewport.WindowSlidersCommute` | rh15d_edit_atmos.py:76-100 | When neither slider produces a singular pair, moving the left limit then the right limit gives the same view and ranges as the opposite order. |
| `Viewport.SliderOrderMatters` | rh15d_edit_atmos.py:76-100 | With x-limits (1, 5), moving the left slider to 5 and then the right slider to 3 leaves the left limit at 4.75. The opposite order leaves it at 5. |
| `AxisLimits.StoredLimits` | rh15d_edit_atmos.py:78 | `set_xlim` stores a non-singular pair unchanged. A singular pair is replaced by a non-singular one in the same direction that contains it. |
| `AxisLimits.StoredLimitsIdempotent` | rh15d_edit_atmos.py:91 | Setting the stored limits again changes nothing, so reading them back with `get_xlim` and setting them again is harmless. |
| `AxisLimits.IdenticalLimitsWiden` | rh15d_edit_atmos.py:78 | Setting both limits to the same height stores a pair strictly around it. |
| `Viewport.DecreasingWindowOrdered` | rh15d_edit_atmos.py:79-80 | On strictly decreasing heights with left <= right, `idx_max <= idx_min`: the window is never reversed. |

## Left out

- HDF5 handling is I/O and is not modelled: opening the file in append mode, loading the five datasets, saving the four quantities and closing the file (rh15d_edit_atmos.py:21-26, 195-204).
- Plotting is rendering and is not modelled: figure and axes creation, line data, titles and `set_ylim` as a call. The x-limits are kept only as the two numbers of `Viewport.View` (rh15d_edit_atmos.py:38-57, 65).
- Widgets and button callbacks are UI wiring and are not modelled: `interact`, `FloatText`, `Button`, button descriptions and the closure-captured state (rh15d_edit_atmos.py:187-232). Their effects are the functions above, taking the field values as parameters.
- Unit scaling (`*1e6`, `/1e6`) is not modelled: all heights are in one unit.
- Floating point is not modelled: float64 rounding, NaN and infinity, scipy's internal slope computation, and the sign of a zero. Arithmetic is exact on `real`.
- Axes 0 and 2 of the 4-D arrays are not modelled, since the code only uses index 0 on both. Only the profiles along axis 1 are kept.
- Interpolation.Interp1d: requires distinct abscissae unless there are no query heights. scipy would produce NaN or infinity from two equal abscissae. That never happens in the editor, because equal heights give an empty slice.
- The y-ranges are the arguments the code passes to `set_ylim`. For a window whose samples are all equal, matplotlib widens that identical pair for display. The widening is never read back.
- AxisLimits.StoredLimits: does not model matplotlib's replacement of non-finite limits, since the model has no NaN or infinity.
- Viewport.RefreshRanges: when the window is empty, it does not model that the first panel's line data is set before the exception.
