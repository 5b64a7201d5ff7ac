# WISDEM reference blade: spanwise grid and composite layout

A Dafny model of the geometry and composite engine of WISDEM's `ReferenceBlade`
(`wisdem/rotorse/rotor_geometry_yaml.py`). The engine turns a blade description into
two things:

- one spanwise grid `s`, sampled with the planform, the airfoil and polar tables and the composite layers;
- per spanwise station, the PreComp inputs: a normalised profile, the suction-side, pressure-side and web composite sections, and the strain sectors of the spar caps and the trailing edge reinforcement.

Geometry is `real`. Splines (PCHIP), `np.sqrt`, `np.degrees`/`np.radians`, the
profile rotation and the surface intersection `calc_axis_intersection` are
parameters. Each comes with only the facts the code relies on:

- a fitted spline is any `real -> real`;
- the square root is any function whose values are non-negative roots;
- an intersection is any function returning arc fractions.

Python exceptions become `Result` errors (`KeyError`, `IndexError`, `ValueError`,
`TypeError`, `NameError`), so every error path of the modelled code is an outcome
of the model rather than a precondition.

The modules follow the parts of the engine:

| file | module | source |
|---|---|---|
| numerics.dfy | `Numerics` | `np.isclose`, `sorted(set(...))`, `np.linspace`, `np.argmax` of a mask, `str.lower` as the code uses them |
| spanwise_grid.dfy | `SpanwiseGrid` | `calc_spanwise_grid` |
| interpolation.dfy | `Interpolation` | `remap2grid`, `remapAirfoil`, `arc_length`, `trailing_edge_smoothing` |
| planform.dfy | `Planform` | `remap_planform` and the thickness flattening |
| profiles.dfy | `Profiles` | the reference-airfoil reduction of `remap_profiles` |
| polars.dfy | `Polars` | the index, padding, clamp and closure logic of `remap_polars` |
| composite_remap.dfy | `CompositeRemap` | `remap_composites` |
| composite_bounds.dfy | `CompositeBounds` | `calc_composite_bounds` |
| composite_stack.dfy | `CompositeStack` | `region_stacking` and the strain-sector reduction |
| web_stack.dfy | `WebStack` | `web_stacking` |
| precomp.dfy | `Precomp` | `convert_precomp` |
| control_points.dfy | `ControlPoints` | `calc_control_points`, `update_planform` |

The code does the work step by step in several places. There the model does the same:

- `calc_spanwise_grid`'s filler loop runs in place on two arrays;
- `trailing_edge_smoothing` swaps and overwrites rows of an `array2`;
- the composite passes update an array of sections;
- the stacking and conversion loops run as `while`/`for` loops.

Each such method is proved equal to a specification function, and the properties
are lemmas about that function.

The grid builder keeps every required point only while they fit. When there are more
required points than `NPTS`, the code only warns (lines 471-473); a filler count then
goes to -1, and the one-point `linspace(...)[:-1]` of that gap drops a required point
(lines 518-522). The model follows the code; `SpanwiseGrid.TooManyRequiredPointsDropsOne` exhibits the
drop, and every "contains every required point" property is stated under
`|r_points| <= NPTS`.

## Model

All source paths are relative to the repository root; every cited file is
`wisdem/rotorse/rotor_geometry_yaml.py`.

| member | source | states |
|---|---|---|
| SpanwiseGrid.FirstClose | wisdem/rotorse/rotor_geometry_yaml.py:455-463 | the `argmax(isclose(x, r_points))` guarded by `any`: the first collected point `x` is close to, and none before it; none when no point is close |
| SpanwiseGrid.SnapValue | wisdem/rotorse/rotor_geometry_yaml.py:455-465 | an endpoint close to a collected point is replaced by the first such point and nothing is appended; an endpoint close to none is appended as it is; the points stay distinct |
| SpanwiseGrid.SnapValueSnaps | wisdem/rotorse/rotor_geometry_yaml.py:455-465 | after one snap the endpoint is the first collected point close to it, and nothing collected is close to an earlier point |
| SpanwiseGrid.SnapGrid | wisdem/rotorse/rotor_geometry_yaml.py:451-465 | one layer grid: each endpoint (the last read before the first is overwritten) becomes the first collected point close to it; the points keep their prefix, gain only those endpoints, and a gained point is close to no point before it |
| SpanwiseGrid.SnapEndpoints | wisdem/rotorse/rotor_geometry_yaml.py:446-465 | over every web/layer grid: the collected points stay distinct, keep `r_in` + airfoil positions as prefix, gain only grid endpoints, each close to no earlier point; every snapped grid has each endpoint replaced by the first collected point close to it |
| SpanwiseGrid.ArgMinWhere | wisdem/rotorse/rotor_geometry_yaml.py:496-498 | `argmin(dri[fill > 0])` mapped back: a masked index of smallest spacing, the first such |
| SpanwiseGrid.ArgMax | wisdem/rotorse/rotor_geometry_yaml.py:509 | `np.argmax(dri)`: the first index of largest spacing (+inf counted largest) |
| SpanwiseGrid.TakeIndex | wisdem/rotorse/rotor_geometry_yaml.py:493-502 | the gap a filler is removed from holds a filler and has the smallest spacing among such gaps when any filler is left, else the smallest of all |
| SpanwiseGrid.AdjustReachesTarget | wisdem/rotorse/rotor_geometry_yaml.py:490-514 | the loop ends with `sum(fill) + len(r_points) == NPTS` |
| SpanwiseGrid.AdjustStaysNonNegative | wisdem/rotorse/rotor_geometry_yaml.py:491-514 | with `len(r_points) <= NPTS` no filler count ever drops below 0 |
| SpanwiseGrid.AdjustKeepsShape | wisdem/rotorse/rotor_geometry_yaml.py:491-514 | even with too many required points no count drops below -1, and once one is negative none is positive |
| SpanwiseGrid.TakeKeepsShape | wisdem/rotorse/rotor_geometry_yaml.py:493-505 | a removal keeps that shape |
| SpanwiseGrid.GiveKeepsShape | wisdem/rotorse/rotor_geometry_yaml.py:507-511 | an addition keeps that shape: a gap at -1 has infinite spacing and is the one that receives |
| SpanwiseGrid.AdjustOneStep | wisdem/rotorse/rotor_geometry_yaml.py:491-514 | each pass moves the total exactly one step towards `NPTS`, continues the same loop and changes only the spacing of the gap it touched |
| SpanwiseGrid.AdjustTakes | wisdem/rotorse/rotor_geometry_yaml.py:493-505 | a pass with too many points is one step of the loop's specification |
| SpanwiseGrid.AdjustGives | wisdem/rotorse/rotor_geometry_yaml.py:507-511 | a pass with too few points is one step of the loop's specification |
| SpanwiseGrid.FloorCountBrackets | wisdem/rotorse/rotor_geometry_yaml.py:485-488 | the initial count `int(gap / dr)` is the number of whole steps `dr` that fit in the gap |
| SpanwiseGrid.InitialFill | wisdem/rotorse/rotor_geometry_yaml.py:480-488 | the first loop fills `fill` with the initial counts and `dri` with their sub-spacings, and `dr > 0` |
| SpanwiseGrid.AdjustFill | wisdem/rotorse/rotor_geometry_yaml.py:490-514 | the in-place `while` loop leaves `fill` as the specified adjustment and keeps `dri` equal to the spacings of `fill` |
| SpanwiseGrid.GridLength | wisdem/rotorse/rotor_geometry_yaml.py:517-524 | the grid has one point per filler and per required point |
| SpanwiseGrid.GridIncreasing | wisdem/rotorse/rotor_geometry_yaml.py:517-524 | the concatenated segments increase strictly and lie between the first and last required points |
| SpanwiseGrid.GridHasRequiredPoints | wisdem/rotorse/rotor_geometry_yaml.py:517-524 | with no negative count every required point before the last is in the grid |
| SpanwiseGrid.GridStartsAtFirst | wisdem/rotorse/rotor_geometry_yaml.py:517-524 | with no negative count the grid starts at `r_points[0]` |
| SpanwiseGrid.GridEndsAtLast | wisdem/rotorse/rotor_geometry_yaml.py:517-524 | the grid ends at `r_points[-1]` |
| SpanwiseGrid.EmitGrid | wisdem/rotorse/rotor_geometry_yaml.py:517-524 | the last loop builds exactly the specified concatenation of `linspace` segments |
| SpanwiseGrid.PlannedFillBounds | wisdem/rotorse/rotor_geometry_yaml.py:480-514 | the settled counts sum to `NPTS - len(r_points)`, are at least -1, and at least 0 when the required points fit |
| SpanwiseGrid.PlannedGridLength | wisdem/rotorse/rotor_geometry_yaml.py:480-524 | the emitted grid has exactly `NPTS` points |
| SpanwiseGrid.PlannedGridIncreasing | wisdem/rotorse/rotor_geometry_yaml.py:480-524 | the emitted grid increases strictly |
| SpanwiseGrid.PlannedGridHasRequiredPoints | wisdem/rotorse/rotor_geometry_yaml.py:480-524 | when the required points fit, the grid holds every one and starts and ends at the outer ones |
| SpanwiseGrid.TooManyRequiredPointsDropsOne | wisdem/rotorse/rotor_geometry_yaml.py:471-473 | three required points on a two-point grid: a count goes to -1 and the root point is missing from the grid |
| SpanwiseGrid.CalcSpanwiseGrid | wisdem/rotorse/rotor_geometry_yaml.py:432-531 | the builder: IndexError with nothing to collect, ValueError for a negative `NPTS`, IndexError for `NPTS` of 0 or 1, ValueError when everything collected is close to a single point; success whenever `NPTS >= 2` and `r_in` with the airfoil positions hold two distinct values. On success the required points are sorted, distinct, drawn from `r_in`, the airfoil positions and the grid endpoints, and include `r_in` and the airfoil positions; the grid has `NPTS` strictly increasing points; every layer grid's endpoints are required points and, when they fit, grid points |
| Numerics.Dedup | wisdem/rotorse/rotor_geometry_yaml.py:735-738 | first-occurrence deduplication: distinct, same members |
| Numerics.SortedDistinctIsIncreasing | wisdem/rotorse/rotor_geometry_yaml.py:469 | sorting distinct points gives a strictly increasing list with the same members |
| Numerics.Sorted | wisdem/rotorse/rotor_geometry_yaml.py:469 | `sorted`: non-decreasing and a permutation |
| Numerics.LinspaceIncreasing | wisdem/rotorse/rotor_geometry_yaml.py:518-522 | a `linspace` from `a < b` increases strictly from `a` and ends exactly at `b` |
| Numerics.FirstTrue | wisdem/rotorse/rotor_geometry_yaml.py:1547 | `np.argmax` of a mask: the first `True`, or 0 when there is none |
| Numerics.LowerEachCharacter | wisdem/rotorse/rotor_geometry_yaml.py:1573 | `lower()` shifts exactly `A`..`Z` and keeps every other character |
| Interpolation.Clamp | wisdem/rotorse/rotor_geometry_yaml.py:73-74 | the two `np.place` calls: the value lands in `[lo, hi]` and is unchanged when already there |
| Interpolation.FitEither | wisdem/rotorse/rotor_geometry_yaml.py:53-58 | the spline is fitted on the reference points, or on both lists flipped when that raises; a second failure raises ValueError |
| Interpolation.FittedExtremes | wisdem/rotorse/rotor_geometry_yaml.py:53-58 | the flip keeps the extremes of `y_ref` |
| Interpolation.Remap2Grid | wisdem/rotorse/rotor_geometry_yaml.py:50-76 | the output has one value per query and lies in `[min(y_ref), max(y_ref)]` whatever the spline returns; it fails exactly when fitting fails |
| Interpolation.Remap2GridEvaluates | wisdem/rotorse/rotor_geometry_yaml.py:61-74 | each output is the clamped spline value, the last query being moved to `x_ref[-1]` when it is just past it (`isclose`) |
| Interpolation.Remap2GridScalar | wisdem/rotorse/rotor_geometry_yaml.py:65-74 | a scalar query gives a value within `[min(y_ref), max(y_ref)]` |
| Interpolation.Remap2GridScalarSnapsZero | wisdem/rotorse/rotor_geometry_yaml.py:66-67 | a scalar query close to 0 is evaluated at 0, whatever the reference grid |
| Interpolation.FirstArgMin | wisdem/rotorse/rotor_geometry_yaml.py:83 | `np.argmin`: the first index of the smallest value |
| Interpolation.FirstRise | wisdem/rotorse/rotor_geometry_yaml.py:86 | the first index with a positive step, or none |
| Interpolation.RemapAirfoil | wisdem/rotorse/rotor_geometry_yaml.py:78-90 | the unfolded remap: ValueError on an empty surface, IndexError when the queries never rise, else one value per query within the range of `y` |
| Interpolation.UnfoldedSurfaceIncreases | wisdem/rotorse/rotor_geometry_yaml.py:83-84 | negating the points before the leading edge of a surface that falls then rises makes the abscissae increase strictly |
| Interpolation.ArcLength | wisdem/rotorse/rotor_geometry_yaml.py:92-102 | the accumulating loop yields the cumulative segment lengths; IndexError exactly when `y` is shorter than `x` |
| Interpolation.ArcNonDecreasing | wisdem/rotorse/rotor_geometry_yaml.py:92-102 | the arc starts at 0 and never decreases |
| Interpolation.ArcFractionInUnit | wisdem/rotorse/rotor_geometry_yaml.py:1348-1350 | the arc divided by the total length lies in `[0, 1]` |
| Interpolation.SwapEnds | wisdem/rotorse/rotor_geometry_yaml.py:116-119 | the self-crossing swap leaves the first `y` at most the last and changes nothing else |
| Interpolation.Band | wisdem/rotorse/rotor_geometry_yaml.py:122-123 | the indices of the points strictly inside a chord band, in order |
| Interpolation.BreakAt | wisdem/rotorse/rotor_geometry_yaml.py:125-131 | one past the first gap in an index list, or none |
| Interpolation.SmoothedYProperties | wisdem/rotorse/rotor_geometry_yaml.py:112-147 | only the `y` of points in the 95-100 % band (and the swapped ends) change, every value stays in the profile's `y` range, and the trailing edge no longer crosses |
| Interpolation.SmoothBands | wisdem/rotorse/rotor_geometry_yaml.py:134-144 | the two re-interpolations change only the band rows and stay within range |
| Interpolation.OverwriteWithin | wisdem/rotorse/rotor_geometry_yaml.py:143-144 | overwriting with in-range values keeps a column in range |
| Interpolation.TrailingEdgeSmoothing | wisdem/rotorse/rotor_geometry_yaml.py:112-147 | in place on the `n x 2` profile: `x` unchanged, `y` the smoothed column, IndexError on an empty profile, the source's error otherwise |
| Interpolation.WriteColumn | wisdem/rotorse/rotor_geometry_yaml.py:143-144 | `data[idx, 1] = vals` row by row: only the listed rows of `y` change |
| Planform.ThicknessOf | wisdem/rotorse/rotor_geometry_yaml.py:558 | the reference thickness of every placed label; KeyError exactly when a label has no reference airfoil |
| Planform.Flatten | wisdem/rotorse/rotor_geometry_yaml.py:561-563 | every station after the first one equal to the minimum becomes the minimum, the earlier ones are kept, nothing changes without such a station |
| Planform.FlattenIdempotent | wisdem/rotorse/rotor_geometry_yaml.py:561-563 | flattening twice is flattening once |
| Planform.FlattenStaysAtMinimum | wisdem/rotorse/rotor_geometry_yaml.py:561-563 | once a flattened distribution reaches the minimum it stays there |
| Planform.RelativeThickness | wisdem/rotorse/rotor_geometry_yaml.py:558-563 | the spanwise thickness lies within the reference thicknesses and stays at the minimum once it reaches it |
| Planform.RemapCurve | wisdem/rotorse/rotor_geometry_yaml.py:551-556 | one distribution on `s`, within the range of its values |
| Planform.RemapPlanform | wisdem/rotorse/rotor_geometry_yaml.py:546-569 | succeeds exactly when every distribution and the thickness can be remapped; chord, pitch axis, `r` and presweep are the remaps of their distributions on `s`, twist the remap converted to degrees entry by entry, precurve minus the remap of `x`, thickness as `RelativeThickness`; chord stays within its given range |
| Planform.Negated | wisdem/rotorse/rotor_geometry_yaml.py:555 | `-1 * x` entry by entry |
| Profiles.FirstLabelOf | wisdem/rotorse/rotor_geometry_yaml.py:579-583 | `af_thk_dict[t]`: the first placed airfoil of thickness `t` |
| Profiles.ReduceReferenceAirfoils | wisdem/rotorse/rotor_geometry_yaml.py:576-586 | the dictionary loop: thicknesses sorted and distinct, each with its first airfoil; KeyError exactly when a label is missing |
| Profiles.ReferenceSetIsConsistent | wisdem/rotorse/rotor_geometry_yaml.py:579-586 | the reduced set increases strictly, covers every placed thickness, and each chosen airfoil has the thickness it is filed under |
| Polars.AlphaGrid | wisdem/rotorse/rotor_geometry_yaml.py:727-731 | the lift grid of the last airfoil's first polar with its ends set to `-pi` and `pi`; succeeds exactly when an airfoil is placed, has polars data, a first polar and a non-empty grid; IndexError without a placed airfoil, a polar or a grid entry, KeyError when the last airfoil has no polars data |
| Polars.DistinctLabels | wisdem/rotorse/rotor_geometry_yaml.py:735-738 | `af_ref`: each placed label once, first-occurrence order |
| Polars.ReynoldsGrid | wisdem/rotorse/rotor_geometry_yaml.py:744 | `Re`: every Reynolds number of every airfoil, strictly increasing |
| Polars.RemapPolar | wisdem/rotorse/rotor_geometry_yaml.py:765-768 | one polar's `cl`, `cd`, `cm` on `alpha`: `cl` within the polar's own range; ValueError when a curve cannot be fitted |
| Polars.RemapColumns | wisdem/rotorse/rotor_geometry_yaml.py:765-768 | each polar in the given order remapped onto `alpha`; ValueError when one cannot be fitted |
| Polars.PolarTableAsWritten | wisdem/rotorse/rotor_geometry_yaml.py:762-768 | the labels are the sorted Reynolds numbers but polar `j` fills column `j` |
| Polars.AsWrittenMislabelsColumns | wisdem/rotorse/rotor_geometry_yaml.py:762-768 | polars given at 2e6 then 1e6: the column labelled 1e6 holds the 2e6 polar |
| Polars.ArgSort | wisdem/rotorse/rotor_geometry_yaml.py:763 | `polar_idx`: the indices ordered by Reynolds number, a permutation of `range(n)` |
| Polars.PolarTable | wisdem/rotorse/rotor_geometry_yaml.py:762-768 | the intended table: every column holds a polar of its label's Reynolds number, labels non-decreasing |
| Polars.PolarTableUsesEveryPolarOnce | wisdem/rotorse/rotor_geometry_yaml.py:762-768 | each polar fills exactly one column |
| Polars.Pad | wisdem/rotorse/rotor_geometry_yaml.py:771-774 | the lowest polar repeated at Re 1e1 and the highest at 1e15; IndexError without polars |
| Polars.PadKeepsOrder | wisdem/rotorse/rotor_geometry_yaml.py:771-774 | padding keeps the labels in order |
| Polars.ClampThickness | wisdem/rotorse/rotor_geometry_yaml.py:788-792 | spanwise thickness clamped to the reference range, unchanged inside it; ValueError without reference airfoils |
| Polars.ClampAfterPlanformChangesNothing | wisdem/rotorse/rotor_geometry_yaml.py:788-792 | the clamp never changes the thickness the planform remap produced |
| Polars.PeriodicClosure | wisdem/rotorse/rotor_geometry_yaml.py:1030-1038 | the first angle-of-attack row becomes the last; every other row is untouched |
| CompositeRemap.Defined | wisdem/rotorse/rotor_geometry_yaml.py:1231-1235 | the values of a fully defined distribution; TypeError when one is `None` |
| CompositeRemap.WindowStart | wisdem/rotorse/rotor_geometry_yaml.py:1222-1225 | `idx_s`: a station index |
| CompositeRemap.SliceStop | wisdem/rotorse/rotor_geometry_yaml.py:1233 | Python reads the stop -1 as the last station |
| CompositeRemap.RemapField | wisdem/rotorse/rotor_geometry_yaml.py:1217-1237 | an empty grid is left alone; otherwise the grid becomes `s` and a station holds a value exactly when it is in `[idx_s, stop)` |
| CompositeRemap.RemapFieldWithinData | wisdem/rotorse/rotor_geometry_yaml.py:1231-1235 | every remapped value lies within the distribution's own values |
| CompositeRemap.WindowIsTheDefinedSpan | wisdem/rotorse/rotor_geometry_yaml.py:1222-1233 | for a partial distribution the stations given a value are exactly those within its grid |
| CompositeRemap.WindowBounds | wisdem/rotorse/rotor_geometry_yaml.py:1222-1229 | the window in terms of station positions |
| CompositeRemap.PartialToTipLeavesTipEmpty | wisdem/rotorse/rotor_geometry_yaml.py:1228-1233 | a distribution starting past the root and running to the tip leaves the tip station `None` |
| CompositeRemap.FullSpanIsDefinedEverywhere | wisdem/rotorse/rotor_geometry_yaml.py:1236-1237 | a full-span distribution gets a value at every station |
| CompositeRemap.RemapComposites | wisdem/rotorse/rotor_geometry_yaml.py:1214-1237 | every web/layer distribution is replaced by its remap; on the first error the later ones are left as they were |
| CompositeBounds.InitBounds | wisdem/rotorse/rotor_geometry_yaml.py:1359-1380 | with no placement given the section spans 0 to 1; a width or a missing bound makes that bound `None` everywhere on grid `s`; a bound given without a width is kept as given, also one holding only `fixed` |
| CompositeBounds.InitFiber | wisdem/rotorse/rotor_geometry_yaml.py:1381-1384 | a layer without fibre orientation gets 0 everywhere; webs are left alone |
| CompositeBounds.InitRotation | wisdem/rotorse/rotor_geometry_yaml.py:1385-1391 | a rotation fixed to the twist takes `-radians(theta)`; any other fixed reference only warns |
| CompositeBounds.At | wisdem/rotorse/rotor_geometry_yaml.py:1408-1413 | reading a station: KeyError without the key, IndexError past the end |
| CompositeBounds.ResizedWidth | wisdem/rotorse/rotor_geometry_yaml.py:1428-1432 | the width a too-wide layer is cut to fits within 0.8 of the chord on both sides of the pitch axis |
| CompositeBounds.ClampWebOffset | wisdem/rotorse/rotor_geometry_yaml.py:1472-1478 | a web offset outside `[-0.8 c p, 0.8 c (1-p)]` moves to the end on its own side; inside it is kept |
| CompositeBounds.LayerStep | wisdem/rotorse/rotor_geometry_yaml.py:1406-1453 | the layer is centred on the intersection at the offset read before any resize: start and end are that midpoint minus and plus half the width over the arc length; a layer too wide for the chord is stored with offset 0 and the resized width, any other keeps offset and width; only station `i` changes; an invalid side raises |
| CompositeBounds.LayerStepFits | wisdem/rotorse/rotor_geometry_yaml.py:1428-1432 | a too-wide layer is stored with offset 0 and a width that fits the chord and spans exactly its arc between start and end; a layer that fits keeps its offset and width |
| CompositeBounds.WebStep | wisdem/rotorse/rotor_geometry_yaml.py:1455-1481 | start is the smaller and end the larger of the suction and pressure intersections at the clamped offset; a clamped offset that differs is stored, otherwise the offset is kept; only station `i` changes |
| CompositeBounds.WebStepOrdersBounds | wisdem/rotorse/rotor_geometry_yaml.py:1472-1481 | a web's start is at most its end, and a changed offset lies within the allowed interval |
| CompositeBounds.MidpointStep | wisdem/rotorse/rotor_geometry_yaml.py:1483-1500 | the midpoint branch changes only station `i` |
| CompositeBounds.TrailingEdgeMidpointWraps | wisdem/rotorse/rotor_geometry_yaml.py:1486-1500 | centred on the trailing edge: start `1 - w/(2L)`, end wrapped to `w/(2L)` |
| CompositeBounds.LeadingEdgeMidpoint | wisdem/rotorse/rotor_geometry_yaml.py:1488-1497 | centred on the leading edge: start `LE_loc - w/(2L)` |
| CompositeBounds.InvalidMidpointWithoutPredecessor | wisdem/rotorse/rotor_geometry_yaml.py:1490-1497 | an invalid reference with no earlier midpoint raises NameError |
| CompositeBounds.InvalidMidpointReusesPrevious | wisdem/rotorse/rotor_geometry_yaml.py:1486-1500 | an invalid reference after an earlier midpoint `m` keeps `m`: start `m - w/(2L)`, end `m + w/(2L)` wrapped past 1 |
| CompositeBounds.IsLayerBranch | wisdem/rotorse/rotor_geometry_yaml.py:1406 | the width branch needs rotation, width and side; a missing thickness raises |
| CompositeBounds.SectionStep | wisdem/rotorse/rotor_geometry_yaml.py:1404-1500 | one section at one station changes nothing but that station |
| CompositeBounds.StationStep | wisdem/rotorse/rotor_geometry_yaml.py:1353-1500 | the inner loop extended by one section |
| CompositeBounds.StationErrorSticks | wisdem/rotorse/rotor_geometry_yaml.py:1353-1500 | a raising section stops the station |
| CompositeBounds.StationsErrorSticks | wisdem/rotorse/rotor_geometry_yaml.py:1332-1500 | a raising station stops the pass |
| CompositeBounds.StationPass | wisdem/rotorse/rotor_geometry_yaml.py:1353-1500 | the in-place inner loop leaves the sections as the specification of the station |
| CompositeBounds.FirstPass | wisdem/rotorse/rotor_geometry_yaml.py:1332-1500 | the nested loops leave the sections as the specification of the first pass, or its error |
| CompositeBounds.NextStation | wisdem/rotorse/rotor_geometry_yaml.py:1332-1500 | one turn of the outer loop leaves the sections and the midpoint as the first pass up to the next station, or returns the error of the whole pass |
| CompositeBounds.Station | wisdem/rotorse/rotor_geometry_yaml.py:1353-1500 | the sections before `k` processed at one station: as many sections, the later ones untouched |
| CompositeBounds.Stations | wisdem/rotorse/rotor_geometry_yaml.py:1332-1500 | the stations before `i` processed: as many sections |
| CompositeBounds.FirstNamed | wisdem/rotorse/rotor_geometry_yaml.py:1512 | the first layer of that name, or none |
| CompositeBounds.FixedBound | wisdem/rotorse/rotor_geometry_yaml.py:1504-1527 | fixed to TE: grid `s`, all 0 (start) or all 1 (end); to LE: grid `s`, `LE_loc`; to a name: that layer's opposite bound's grid and values; IndexError for an unknown name; KeyError when that bound is missing, has no grid (given only as `fixed` and not yet resolved) or no values; AttributeError when its grid was itself copied from a name (a list with no `tolist`) |
| CompositeBounds.ResolveLayer | wisdem/rotorse/rotor_geometry_yaml.py:1503-1527 | a fixed start is resolved as `FixedBound` on the layers as given, a fixed end as `FixedBound` on the layers with that start already stored; unfixed bounds are kept; every other layer untouched |
| CompositeBounds.Resolve | wisdem/rotorse/rotor_geometry_yaml.py:1503-1527 | the second pass over the first `k` layers: as many layers, the later ones untouched |
| CompositeBounds.ResolvedLayerIsFinal | wisdem/rotorse/rotor_geometry_yaml.py:1503 | resolving later layers never changes an earlier one |
| CompositeBounds.EdgeFixedBoundsAfterPass | wisdem/rotorse/rotor_geometry_yaml.py:1504-1514 | after the pass a start fixed to TE is all 0 and one fixed to LE is `LE_loc` |
| CompositeBounds.EdgeFixedEndsAfterPass | wisdem/rotorse/rotor_geometry_yaml.py:1517-1524 | after the pass an end fixed to TE is all 1 and one fixed to LE is `LE_loc` |
| CompositeBounds.UnknownReferenceRaises | wisdem/rotorse/rotor_geometry_yaml.py:1512 | a start fixed to an unknown name makes the pass raise IndexError |
| CompositeBounds.ForwardReferenceToFixedRaises | wisdem/rotorse/rotor_geometry_yaml.py:1503-1514 | a start fixed to a name whose first layer comes at or after it and has an end given only as `fixed` makes the pass raise KeyError (`grid` missing) |
| CompositeBounds.NamesKept | wisdem/rotorse/rotor_geometry_yaml.py:1503-1527 | the second pass never renames a layer |
| CompositeBounds.ResolveErrorSticks | wisdem/rotorse/rotor_geometry_yaml.py:1503-1527 | once a layer raises, every later point of the pass returns that same error, so the pass ends with it |
| CompositeBounds.ResolveFixed | wisdem/rotorse/rotor_geometry_yaml.py:1503-1527 | the in-place second loop leaves the layers as the specification, or its error |
| CompositeStack.Snap01 | wisdem/rotorse/rotor_geometry_yaml.py:1666-1669 | a bound close to 0 becomes 0, else one close to 1 becomes 1, else it is kept |
| CompositeStack.DivisionPoints | wisdem/rotorse/rotor_geometry_yaml.py:1672 | `dp`: strictly increasing, exactly the starts and ends |
| CompositeStack.Covering | wisdem/rotorse/rotor_geometry_yaml.py:1681-1687 | the layers spanning a region, in input order |
| CompositeStack.Stack | wisdem/rotorse/rotor_geometry_yaml.py:1681-1702 | a region's stack fails (KeyError) exactly when a spanning layer's material is unknown |
| CompositeStack.Stacks | wisdem/rotorse/rotor_geometry_yaml.py:1681-1707 | one stack per region, each that region's stack |
| CompositeStack.Record | wisdem/rotorse/rotor_geometry_yaml.py:1689-1693 | `region_loc[name][i]` set to `[k]` on the first visit, extended on later ones |
| CompositeStack.Track | wisdem/rotorse/rotor_geometry_yaml.py:1689-1693 | only station `i` of each tracked name changes |
| CompositeStack.StackStep | wisdem/rotorse/rotor_geometry_yaml.py:1686-1701 | a spanning layer appends its ply; any other leaves the stack |
| CompositeStack.StackRegion | wisdem/rotorse/rotor_geometry_yaml.py:1686-1707 | the inner loop yields the region's stack and extends `region_loc` by its tracked plies |
| CompositeStack.RegionStacking | wisdem/rotorse/rotor_geometry_yaml.py:1661-1718 | the whole loop yields the specified section and region map |
| CompositeStack.RegionStackingTracksSection | wisdem/rotorse/rotor_geometry_yaml.py:1661-1718 | the section does not depend on `region_loc`, and `region_loc` changes only at station `i` |
| CompositeStack.SpecFailsAt | wisdem/rotorse/rotor_geometry_yaml.py:1701 | an unknown material in any region fails the station with KeyError |
| CompositeStack.LayerOccupiesItsSpan | wisdem/rotorse/rotor_geometry_yaml.py:1681-1687 | a layer is in exactly the regions from its start to its end: a contiguous run |
| CompositeStack.RegionsAreContiguous | wisdem/rotorse/rotor_geometry_yaml.py:1681-1687 | a layer in two regions is in every region between |
| CompositeStack.VisitsAscending | wisdem/rotorse/rotor_geometry_yaml.py:1689-1693 | the recorded regions ascend and are exactly those holding the name |
| CompositeStack.RecordedRegionsOfLayer | wisdem/rotorse/rotor_geometry_yaml.py:1661-1718 | for a uniquely named layer the recorded regions are exactly its run |
| CompositeStack.SectorIndex | wisdem/rotorse/rotor_geometry_yaml.py:1948-1951 | `regs[int(len(regs)/2)]`: `None` kept, else a member of `regs` |
| CompositeStack.SectorIndices | wisdem/rotorse/rotor_geometry_yaml.py:1948-1951 | the sector of every station |
| CompositeStack.SectorIsMiddleOfRun | wisdem/rotorse/rotor_geometry_yaml.py:1948-1951 | the sector of a run `a..b-1` is its (upper) middle region |
| WebStack.Members | wisdem/rotorse/rotor_geometry_yaml.py:1734-1738 | the web layers grouped under one key, in input order |
| WebStack.Group | wisdem/rotorse/rotor_geometry_yaml.py:1734-1740 | one ply per web layer of that key; KeyError exactly for an unknown material |
| WebStack.CloseFlatback | wisdem/rotorse/rotor_geometry_yaml.py:1747-1752 | a flatback section gains position 1 and the last suction-side stack; IndexError without one |
| WebStack.UniqueRows | wisdem/rotorse/rotor_geometry_yaml.py:1732 | `np.unique(axis=0)`: distinct rows in lexicographic order |
| WebStack.NegatedRows | wisdem/rotorse/rotor_geometry_yaml.py:1731 | each web's negated start and end |
| WebStack.MeanOfStarts | wisdem/rotorse/rotor_geometry_yaml.py:1729 | each start's magnitude averaged with itself |
| WebStack.WebStackingAsWritten | wisdem/rotorse/rotor_geometry_yaml.py:1721-1756 | as written: succeeds exactly when every web material is known and a flatback section has a suction-side stack; positions strictly increasing, exactly the start magnitudes and 1 for flatback; one stack per distinct (start, end) row, plus the flatback one |
| WebStack.AsWrittenMispairsWebs | wisdem/rotorse/rotor_geometry_yaml.py:1729-1753 | webs at 0.3 and 0.6: position 0.3 gets the stack of the web at 0.6 |
| WebStack.WebStacksArePaired | wisdem/rotorse/rotor_geometry_yaml.py:1721-1756 | corrected: one stack per position, positions increasing, every ply of stack `k` from a web at position `k` |
| WebStack.WebStackingPaired | wisdem/rotorse/rotor_geometry_yaml.py:1721-1756 | corrected: the same success condition and positions as written, and one stack per position |
| WebStack.EveryWebInItsStack | wisdem/rotorse/rotor_geometry_yaml.py:1734-1745 | every web layer is in the stack of its own position |
| WebStack.FlatbackWebAtTrailingEdge | wisdem/rotorse/rotor_geometry_yaml.py:1747-1752 | a flatback section ends with the closing web at 1 holding the last suction-side stack |
| WebStack.WebStacking | wisdem/rotorse/rotor_geometry_yaml.py:1721-1756 | the loop over positions builds the corrected section |
| Precomp.NormalizedPoint | wisdem/rotorse/rotor_geometry_yaml.py:1815-1816 | normalised points lie on `[0, 1]`, at 1 exactly for the largest `x` and 0 for the smallest |
| Precomp.Normalized | wisdem/rotorse/rotor_geometry_yaml.py:1815-1816 | as many points; scaling a normalised point back by the chord and shifting by the smallest `x` gives the original point |
| Precomp.NormalizedKeepsOrder | wisdem/rotorse/rotor_geometry_yaml.py:1815-1816 | normalising keeps the chordwise order |
| Precomp.NormalizedToUnitChord | wisdem/rotorse/rotor_geometry_yaml.py:1815-1816 | the chord becomes exactly `[0, 1]` |
| Precomp.StartAtTrailingEdge | wisdem/rotorse/rotor_geometry_yaml.py:1818-1825 | starts at the first point of largest `x`; uses each point at most as often as the profile, dropping at most one |
| Precomp.TrailingEdgeFirst | wisdem/rotorse/rotor_geometry_yaml.py:1818-1825 | the reordered profile starts at the largest `x` and has the same `x` values |
| Precomp.UnclosedShape | wisdem/rotorse/rotor_geometry_yaml.py:1818-1830 | before closing: starts at `x = 1`, lies on the unit chord, leading edge at the origin |
| Precomp.Flatback | wisdem/rotorse/rotor_geometry_yaml.py:1836-1839 | a flatback profile has two distinct trailing-edge points |
| Precomp.PrecompProfileShape | wisdem/rotorse/rotor_geometry_yaml.py:1818-1833 | the PreComp profile runs from `x = 1` round to `x = 1` on the unit chord |
| Precomp.PrecompLeadingEdge | wisdem/rotorse/rotor_geometry_yaml.py:1826-1833 | its leading edge is the origin |
| Precomp.FlatbackIsOpenTrailingEdge | wisdem/rotorse/rotor_geometry_yaml.py:1836-1839 | flatback exactly when the trailing-edge points differ in `y`; a profile closed by repetition never is |
| Precomp.ArcCoversChord | wisdem/rotorse/rotor_geometry_yaml.py:1851 | the arc to a point is at least its chordwise distance from the first |
| Precomp.ArcLengthPositive | wisdem/rotorse/rotor_geometry_yaml.py:1851-1852 | a profile with extent has positive arc length, so the division is defined |
| Precomp.ArcFractionsOnUnit | wisdem/rotorse/rotor_geometry_yaml.py:1851-1853 | the arc fractions run from 0 to 1 within `[0, 1]` |
| Precomp.ArcFractionsNonDecreasing | wisdem/rotorse/rotor_geometry_yaml.py:1851-1853 | the arc fractions never decrease |
| Precomp.SurfaceOf | wisdem/rotorse/rotor_geometry_yaml.py:1849-1872 | `loc_LE` is the arc fraction of the first smallest `x`, in `[0, 1]`; ValueError when the spline cannot be fitted |
| Precomp.FindWeb | wisdem/rotorse/rotor_geometry_yaml.py:1916 | the first web of that name; IndexError when there is none |
| Precomp.ClassifyLayer | wisdem/rotorse/rotor_geometry_yaml.py:1875-1925 | one layer's placement; only TypeError or IndexError |
| Precomp.SuctionEnd | wisdem/rotorse/rotor_geometry_yaml.py:1881-1888 | the `x` of the start or the trailing edge 1; 1 for a start past the leading edge; on the unit chord when the spline is |
| Precomp.SuctionStart | wisdem/rotorse/rotor_geometry_yaml.py:1890-1893 | the `x` of the end or the leading edge 0; 0 for an end past the leading edge; on the unit chord when the spline is |
| Precomp.PressureEnd | wisdem/rotorse/rotor_geometry_yaml.py:1900-1907 | the `x` of the end or the trailing edge 1; 1 for a layer wrapping round the trailing edge; on the unit chord when the spline is |
| Precomp.PressureStart | wisdem/rotorse/rotor_geometry_yaml.py:1908-1911 | the `x` of the start or the leading edge 0; 0 for a start before the leading edge; on the unit chord when the spline is |
| Precomp.SurfaceLayerPlacement | wisdem/rotorse/rotor_geometry_yaml.py:1878-1911 | suction side exactly when an end lies before `loc_LE`, pressure side exactly when one lies after; wraps start at the leading edge / end at the trailing edge |
| Precomp.WebLayerPlacement | wisdem/rotorse/rotor_geometry_yaml.py:1914-1925 | a web layer is on its web exactly when the web has a start and the layer a thickness, never on a surface |
| Precomp.Classified | wisdem/rotorse/rotor_geometry_yaml.py:1875-1925 | the station's layers split into three index lists, each increasing; fails exactly when a layer fails |
| Precomp.ClassifiedSideListed | wisdem/rotorse/rotor_geometry_yaml.py:1875-1925 | every listed layer is placed there with the listed bounds |
| Precomp.ClassifiedSideComplete | wisdem/rotorse/rotor_geometry_yaml.py:1875-1925 | every layer placed on a side is listed there |
| Precomp.ClassifyStation | wisdem/rotorse/rotor_geometry_yaml.py:1875-1925 | the loop yields the specified split |
| Precomp.StationSpec | wisdem/rotorse/rotor_geometry_yaml.py:1807-1936 | a converted station was prepared and placed; a failing placement fails it; its profile runs from `x = 1` to `x = 1` |
| Precomp.Stacked | wisdem/rotorse/rotor_geometry_yaml.py:1931-1936 | upper and lower sections are the region stackings, the web section the corrected paired web stacking; no webs and no flatback give the empty section |
| Precomp.StackedFlatback | wisdem/rotorse/rotor_geometry_yaml.py:1933-1934 | a flatback station's web section ends at 1 |
| Precomp.StationShape | wisdem/rotorse/rotor_geometry_yaml.py:1807-1936 | a converted station's profile runs from `x = 1` to `x = 1`, and a flatback one closes its webs at 1 |
| Precomp.ConvertStation | wisdem/rotorse/rotor_geometry_yaml.py:1807-1936 | one station converted, threading both region maps, webs stacked by the corrected pairing |
| Precomp.MaterialIndex | wisdem/rotorse/rotor_geometry_yaml.py:1791-1792 | `material_dict`: every name to a position holding it |
| Precomp.MaterialIndexKeepsLast | wisdem/rotorse/rotor_geometry_yaml.py:1791-1792 | a name listed twice keeps its last position |
| Precomp.Unset | wisdem/rotorse/rotor_geometry_yaml.py:1763-1768 | every tracked name with `None` at every station |
| Precomp.Stations | wisdem/rotorse/rotor_geometry_yaml.py:1807-1936 | the first `m` stations: `m` results, both maps keep their names and station count |
| Precomp.StationsInOrder | wisdem/rotorse/rotor_geometry_yaml.py:1807-1936 | the loop succeeds exactly when every station does and lists their results in order |
| Precomp.StationsErrorSticks | wisdem/rotorse/rotor_geometry_yaml.py:1807-1936 | a failing station ends the conversion |
| Precomp.StationsRecordOwnRegions | wisdem/rotorse/rotor_geometry_yaml.py:1931-1932 | after the loop every station's map entry holds exactly the regions of its own stacks that hold the name |
| Precomp.RecordedSectors | wisdem/rotorse/rotor_geometry_yaml.py:1948-1951 | such a map yields, per station, the middle of that name's regions |
| Precomp.Sectors | wisdem/rotorse/rotor_geometry_yaml.py:1948-1951 | IndexError with fewer than two spar cap names; otherwise the stations handed on and each sector list the middle-region reduction of its name's map entry |
| Precomp.SectorsSucceed | wisdem/rotorse/rotor_geometry_yaml.py:1948-1949 | the sectors exist exactly when two spar cap names are given |
| Precomp.SectorsAreMiddleRegions | wisdem/rotorse/rotor_geometry_yaml.py:1948-1951 | each strain sector is the middle region of its layer on its side |
| Precomp.ConvertedSucceeds | wisdem/rotorse/rotor_geometry_yaml.py:1807-1951 | the conversion succeeds exactly when every station does and both spar cap names are given |
| Precomp.ConvertedResult | wisdem/rotorse/rotor_geometry_yaml.py:1807-1951 | the stations' own results in order, and every sector the middle region of its layer |
| Precomp.ConvertPrecompStations | wisdem/rotorse/rotor_geometry_yaml.py:1658-1955 | the blade converts exactly when each station does on its own; station `i` of the result is station `i`'s conversion |
| Precomp.InitRegions | wisdem/rotorse/rotor_geometry_yaml.py:1763-1768 | the map loop yields the empty maps |
| Precomp.IndexMaterials | wisdem/rotorse/rotor_geometry_yaml.py:1773-1792 | the material loop yields `material_dict` |
| Precomp.ConvertStations | wisdem/rotorse/rotor_geometry_yaml.py:1807-1936 | the spanwise loop yields the specified stations and maps (corrected web pairing) |
| Precomp.ConvertPrecomp | wisdem/rotorse/rotor_geometry_yaml.py:1658-1955 | the method yields the specified conversion (corrected web pairing) |
| ControlPoints.LastEqual | wisdem/rotorse/rotor_geometry_yaml.py:1543 | the last station of thickness exactly 1, none exactly when there is none |
| ControlPoints.FindLayer | wisdem/rotorse/rotor_geometry_yaml.py:1573-1574 | a layer index, or IndexError |
| ControlPoints.FindLayerFirstMatch | wisdem/rotorse/rotor_geometry_yaml.py:1573-1574 | the first case-insensitive name match; IndexError exactly when none |
| ControlPoints.ZeroNone | wisdem/rotorse/rotor_geometry_yaml.py:1577-1578 | `None` thicknesses become 0, others kept |
| ControlPoints.SliceDown | wisdem/rotorse/rotor_geometry_yaml.py:1549 | Python's `[start:stop:-1]` including its negative and clamped bounds |
| ControlPoints.ThinnestStation | wisdem/rotorse/rotor_geometry_yaml.py:1548 | `idx_e`: the first station close to the thinnest |
| ControlPoints.CylinderRadiusAsWritten | wisdem/rotorse/rotor_geometry_yaml.py:1545-1549 | the interpolation over the slice as written |
| ControlPoints.AsWrittenLosesCylinder | wisdem/rotorse/rotor_geometry_yaml.py:1547-1549 | with only the root station full-thickness the slice is empty and the interpolation raises |
| ControlPoints.CylinderRadius | wisdem/rotorse/rotor_geometry_yaml.py:1545-1549 | the intended interpolation from the transition start through the thinnest station |
| ControlPoints.CylinderRadiusWithinTransition | wisdem/rotorse/rotor_geometry_yaml.py:1545-1549 | the intended cylinder end lies between the transition start and the thinnest station |
| ControlPoints.AsWrittenAgreesPastSecondStation | wisdem/rotorse/rotor_geometry_yaml.py:1545-1549 | past the second station the slice as written and the intended one agree |
| ControlPoints.CylinderEnd | wisdem/rotorse/rotor_geometry_yaml.py:1542-1549 | ValueError without a full-thickness station; otherwise the corrected cylinder radius |
| ControlPoints.CylinderEndAtLastFullThickness | wisdem/rotorse/rotor_geometry_yaml.py:1543-1544 | the last full-thickness station, when not the root, ends the cylinder |
| ControlPoints.DefaultGrid | wisdem/rotorse/rotor_geometry_yaml.py:1555 | fails exactly for a negative `linspace` count |
| ControlPoints.DefaultGridShape | wisdem/rotorse/rotor_geometry_yaml.py:1555 | `[0, r_cylinder, linspace(r_max_chord, 1, NINPUT-2)]`: `NINPUT` points ending at 1, increasing from `r_max_chord` |
| ControlPoints.MaxChordRadius | wisdem/rotorse/rotor_geometry_yaml.py:1539-1540 | the given value, or the span of the widest station when given as 0 |
| ControlPoints.MaxChordAtWidest | wisdem/rotorse/rotor_geometry_yaml.py:1539-1540 | computed, it is the span of the first station of maximum chord |
| ControlPoints.ControlGrid | wisdem/rotorse/rotor_geometry_yaml.py:1538-1561 | the given grid or the default one, with the (corrected) cylinder end and `r_max_chord` as specified |
| ControlPoints.LayerControls | wisdem/rotorse/rotor_geometry_yaml.py:1573-1580 | the first spar cap layer's and the TE layer's thicknesses, `None` read as 0, remapped onto the control grid; succeeds exactly when `spar_var` is not empty, both names find a layer and both remaps succeed; IndexError for an empty `spar_var` |
| ControlPoints.SparControlsWithinStored | wisdem/rotorse/rotor_geometry_yaml.py:1577-1579 | spar cap controls lie within the stored thicknesses, `None` read as 0 |
| ControlPoints.CalcControlPoints | wisdem/rotorse/rotor_geometry_yaml.py:1533-1591 | succeeds exactly when the control grid, the five samplings and the layer controls do and `r` is not empty; twist, chord, precurve, presweep and thickness controls are the planform's distributions remapped onto the control grid (chord and thickness within the planform's range), blade length the last `r`, `update_r_in` exactly for the default grid, `r_max_chord` stored as a number (a numpy scalar when computed); grid from the corrected cylinder end |
| ControlPoints.CalcNeedsFullThickness | wisdem/rotorse/rotor_geometry_yaml.py:1543 | no full-thickness station: ValueError |
| ControlPoints.CalcNeedsLayers | wisdem/rotorse/rotor_geometry_yaml.py:1573-1574 | a missing spar cap or TE layer: failure |
| ControlPoints.RebuiltGrid | wisdem/rotorse/rotor_geometry_yaml.py:1597-1598 | a given grid is kept; indexing a stored scalar `r_max_chord` raises IndexError (computed numpy scalar) or TypeError (given float); a stored array rebuilds the default grid from its first entry, and fails exactly when it is empty or `n_input` is below 2 |
| ControlPoints.RebuiltGridReproducesCalc | wisdem/rotorse/rotor_geometry_yaml.py:1597-1598 | with `r_max_chord` stored as an array the rebuilt grid is the one the points were sampled on |
| ControlPoints.SparThicknessesSucceed | wisdem/rotorse/rotor_geometry_yaml.py:1620-1623 | the spar cap update fails exactly when a name matches no layer or the sampling fails |
| ControlPoints.SparThicknessesSetNamedLayer | wisdem/rotorse/rotor_geometry_yaml.py:1620-1623 | each named layer gets the sampled thicknesses on `s` |
| ControlPoints.SparThicknessesKeepOtherLayer | wisdem/rotorse/rotor_geometry_yaml.py:1620-1623 | every other layer is unchanged |
| ControlPoints.SparThicknesses | wisdem/rotorse/rotor_geometry_yaml.py:1620-1623 | the spar cap update keeps every layer's name and the number of layers |
| ControlPoints.UpdateSparThicknesses | wisdem/rotorse/rotor_geometry_yaml.py:1620-1623 | the loop yields the specified update |
| ControlPoints.UpdatedShape | wisdem/rotorse/rotor_geometry_yaml.py:1603-1616 | succeeds exactly when the four remaps and the thickness do; `s` and the pitch axis kept, `r = s * bladeLength`; chord, twist, precurve and presweep are their control points remapped back onto `s` (chord within its controls); thickness flattened as in the planform remap |
| ControlPoints.UpdatedLayers | wisdem/rotorse/rotor_geometry_yaml.py:1620-1627 | succeeds exactly when every spar cap name and the TE name find a layer and the samplings succeed (the spar cap one only when there is a spar cap name); names kept; the TE layer gets the TE controls sampled onto `s`, every other spar cap layer the spar cap controls; a layer no name finds is unchanged |
| ControlPoints.UpdatePlanform | wisdem/rotorse/rotor_geometry_yaml.py:1593-1655 | grid rebuilt or kept, then planform and layers as specified |
| ControlPoints.UpdateAfterDefaultCalcFails | wisdem/rotorse/rotor_geometry_yaml.py:1584-1598 | control points with the default grid cannot be fed to `update_planform`: it raises IndexError, or TypeError when `r_max_chord` was given |
| ControlPoints.IntendedRebuiltGrid | wisdem/rotorse/rotor_geometry_yaml.py:1597-1598 | the rebuild as intended: a given grid is kept, a stored number rebuilds the default grid from itself, a stored array as `RebuiltGrid` |
| ControlPoints.IntendedRebuiltGridReproducesCalc | wisdem/rotorse/rotor_geometry_yaml.py:1584-1598 | with the intended rebuild, control points from `calc_control_points` give back the grid they were sampled on |

## Left out

- The YAML load, validation and write (`load_ontology`, `write_ontology`, lines 269-430): file I/O.
- `runXfoil` and the flap profiles (lines 674-693, 964-1006, 1055-1193): the external XFoil tool, `CCAirfoil`, `gaussian_filter`, and the polar `correction3D`/`extrapolate`.
- The `flag_airfoil_polars` block (lines 832-964): CSV files and plots, and switched off in the code.
- Spline internals: PCHIP, `RectBivariateSpline` and `AirfoilShape.redistribute` are an abstract `Fit` parameter. Left out with them:
  - the evaluation of the padded polar table over all Reynolds numbers (lines 776-785);
  - the interpolation of polars and profiles across thickness (lines 650-653, 808-814);
  - the first-airfoil redistribution (lines 600-604).
- `rotate` and `calc_axis_intersection`: trigonometry and `polyfit`. A station's rotated profile is an input, and an intersection is an abstract function returning arc fractions.
- `np.sqrt`, `np.degrees`, `np.radians`: parameters.
- The per-station normalisation, `trailing_edge_smoothing` call and flap loop of `remap_profiles` (lines 588-719): these depend on the spline output. Only the reference-airfoil reduction (lines 576-586) is modelled; `remapAirfoil` and `trailing_edge_smoothing` themselves are modelled.
- The PreComp classes `CompositeSection`, `Profile` and `Orthotropic2DMaterial`: modelled as plain records. The material warnings and the isotropic `G` fill-in (lines 1773-1790) are left out, being float physics with no effect on indices.
- `remap_composites`' remap of the reference axis (lines 1209-1211): an ordinary `remap2grid`, already covered by `Interpolation.Remap2Grid`.
- `autoscale_y`, `plot_design`, `smooth_outer_shape`, `smoothListGaussian`: plotting or unused float smoothing.
- Precomp.Stacked: stacks the webs with `WebStack.WebStackingPaired`, the corrected half of the second Findings row, not the stacking as written at lines 1729-1753; the two differ whenever distinct web positions carry different stacks.
- Precomp.ConvertStation: inherits the corrected web stacking of `Precomp.Stacked`, so its web sections are paired with their own positions, unlike lines 1729-1753 as written.
- Precomp.ConvertStations: the spanwise loop over `Precomp.ConvertStation`, with the same corrected web stacking.
- Precomp.ConvertPrecomp: the conversion as a whole, with the same corrected web stacking.
- ControlPoints.CylinderEnd: uses `ControlPoints.CylinderRadius`, the corrected half of the third Findings row; where only the root station is a full cylinder it returns a radius, whereas lines 1545-1549 as written raise ValueError.
- ControlPoints.ControlGrid: inherits the corrected cylinder end of `ControlPoints.CylinderEnd`.
- ControlPoints.CalcControlPoints: inherits the corrected cylinder end of `ControlPoints.CylinderEnd`.
- Interpolation.Remap2Grid: returns the remapped values only; it does not write the snapped last query back into the caller's array (lines 63-64), which at lines 551-559 and 1233 is the grid `s` itself. The model's `s` keeps its last point as given.
- Numerics.Dedup: `list(set(...))` at line 444 has an order set by hashing; the model keeps first occurrences in order. The order decides which collected point `SpanwiseGrid.FirstClose` snaps an endpoint to when it is close to more than one.
- Numerics.Lower: shifts ASCII `A`..`Z` only; Python's `str.lower` (lines 1573-1574, 1621-1625) also folds non-ASCII letters.
- Interpolation.RemapAirfoil: states range and error cases only, not the pointwise unfolded evaluation, since the spline is abstract.
- Polars.RemapPolar: states the range of `cl` only; `cd` and `cm` are remapped the same way and only their lengths are stated.
- Floating point: values are exact reals, and `np.isclose` keeps its default tolerances (`Numerics.IsClose`). Rounding is not modelled anywhere.

## Findings

| source | as written | input that shows it | evidently intended | confidence | as-written member | corrected member |
|---|---|---|---|---|---|---|
| wisdem/rotorse/rotor_geometry_yaml.py:762-768 | polar `j` is written into column `j` while the column labels are the sorted Reynolds numbers | one airfoil with polars at Re 2e6 then 1e6: the column labelled 1e6 holds the 2e6 polar | column `k` holds polar `polar_idx[k]` | medium, not executed | Polars.AsWrittenMislabelsColumns | Polars.PolarTableUsesEveryPolarOnce |
| wisdem/rotorse/rotor_geometry_yaml.py:1729-1753 | positions are the sorted distinct start magnitudes, but the stacks follow `np.unique` of the negated (start, end) rows, i.e. from the largest start down | webs at 0.3 and 0.6 of one material: position 0.3 is given the stack of the web at 0.6 | stack `k` belongs to the webs at position `k` | medium, not executed | WebStack.AsWrittenMispairsWebs | WebStack.WebStacksArePaired |
| wisdem/rotorse/rotor_geometry_yaml.py:1545-1549 | the slice `[idx_e:idx_s-2:-1]` has stop -1 when `idx_s == 1`, which Python reads as the last station, so the slice is empty | relative thickness `[1.0, 0.9, ...]` (only the root a full cylinder): the interpolation raises ValueError | the stations from `idx_s - 1` through `idx_e`, reversed | high, not executed | ControlPoints.AsWrittenLosesCylinder | ControlPoints.CylinderRadiusWithinTransition |
| wisdem/rotorse/rotor_geometry_yaml.py:1584-1598 | `calc_control_points` stores `r_max_chord` as a number, which `update_planform` then indexes as `r_max_chord[0]` | `calc_control_points` with the default grid (`r_in` empty), then `update_planform` with the same object: IndexError on the numpy scalar, TypeError on a given float | the rebuild reads the stored number as the radius of maximum chord and gives back the grid the points were sampled on | medium, not executed | ControlPoints.UpdateAfterDefaultCalcFails | ControlPoints.IntendedRebuiltGridReproducesCalc |

The web stacking and the cylinder end of the rest of the model are the corrected halves of the second and third rows (see the matching lines under "## Left out"). `ControlPoints.UpdatePlanform` keeps the grid rebuild as written, so that the failure of the fourth row stays visible; `ControlPoints.IntendedRebuiltGrid` is the rebuild it evidently means.
