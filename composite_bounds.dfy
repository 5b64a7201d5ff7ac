/** `ReferenceBlade.calc_composite_bounds`: the chordwise start and end (as fractions of the
    airfoil arc length) of every web and layer at every spanwise station. Station by station,
    and within a station section by section (webs first), a section is defined by a rotation
    and width about the pitch axis, by a rotation and offset (a web), or by a width about the
    leading or trailing edge; a second pass then resolves ends fixed to the edges or to other
    layers. The airfoil intersection geometry is the parameter `inter`. */
module CompositeBounds {
  import opened Numerics

  /** `start_nd_arc` / `end_nd_arc`: an optional reference it is fixed to, its grid and its
      values per station, each `None` when the record lacks that key (a bound given only as
      `{fixed: ...}` has neither until the second pass reaches it), a station's value `None`
      where not yet known, and whether the grid is a Python list (the `.tolist()` copy a
      bound fixed to another layer takes) rather than an array. */
  datatype ArcBound = ArcBound(fixed: Option<string>, grid: Option<seq<real>>, values: Option<seq<Option<real>>>, listGrid: bool)

  /** `rotation`: an optional reference (`fixed`) and the values per station if given. */
  datatype Rotation = Rotation(fixed: Option<string>, values: Option<seq<Option<real>>>)

  /** `midpoint_nd_arc`: the edge the section is centred on, if the key `fixed` is given. */
  datatype MidpointDef = MidpointDef(fixed: Option<string>)

  /** A web or a layer; `None` stands for an absent key, `isWeb` for membership of the web
      list and `hasWebKey` for the key `web` of a layer. */
  datatype Section = Section(
    name: string, isWeb: bool, hasWebKey: bool,
    start: Option<ArcBound>, end: Option<ArcBound>, midpoint: Option<MidpointDef>,
    rotation: Option<Rotation>,
    width: Option<seq<Option<real>>>, offset: Option<seq<Option<real>>>,
    thickness: Option<seq<Option<real>>>, side: Option<string>,
    fiber: Option<seq<real>>)

  /** What is known of each station's airfoil: chord, pitch-axis position, arc length of
      the dimensional profile and arc fraction of the leading edge (`LE_loc`). */
  datatype Geometry = Geometry(chord: seq<real>, pLe: seq<real>, arcL: seq<real>, leLoc: seq<real>)

  /** The arc fraction where the line through the pitch axis, turned by `rotation` and moved
      by `offset`, meets the suction side (`true`) or pressure side (`false`) of station `i`. */
  type Intersect = (nat, real, real, bool) -> real

  /** `ratio_SCmax`: a section may reach at most this fraction of the chord from the pitch
      axis towards either edge. */
  const RatioSCMax: real := 0.8

  predicate ValidGeometry(g: Geometry, n: nat) {
    |g.chord| == n && |g.pLe| == n && |g.arcL| == n && |g.leLoc| == n &&
    forall i :: 0 <= i < n ==> g.arcL[i] > 0.0
  }

  function Fill(n: nat, v: Option<real>): (r: seq<Option<real>>)
    ensures |r| == n && forall i :: 0 <= i < n ==> r[i] == v
  {
    seq(n, i requires 0 <= i < n => v)
  }

  // ---------------------------------------------------------------------------------------
  // Initialisation at the first station

  /** The default bounds set when a section is met at station 0: with none of midpoint,
      start, end, rotation or web given the section spans 0 to 1; with a width, or without
      a start or an end, those become `None` at every station. */
  function InitBounds(sec: Section, s: seq<real>): (r: Section)
    ensures r.start.Some? && r.end.Some?
    ensures sec.midpoint.None? && sec.start.None? && sec.end.None? && sec.rotation.None? && !sec.hasWebKey && sec.width.None? ==>
              r.start.value.values == Some(Fill(|s|, Some(0.0))) && r.end.value.values == Some(Fill(|s|, Some(1.0)))
    ensures sec.width.Some? ==> r.start.value == ArcBound(None, Some(s), Some(Fill(|s|, None)), false) && r.end.value == ArcBound(None, Some(s), Some(Fill(|s|, None)), false)
    ensures sec.width.None? && sec.start.Some? ==> r.start == sec.start
    ensures sec.width.None? && sec.end.Some? ==> r.end == sec.end
    ensures r == sec.(start := r.start, end := r.end)
  {
    var n := |s|;
    var noDef := sec.midpoint.None? && sec.start.None? && sec.end.None? && sec.rotation.None? && !sec.hasWebKey;
    var a := if noDef then sec.(start := Some(ArcBound(None, Some(s), Some(Fill(n, Some(0.0))), false)), end := Some(ArcBound(None, Some(s), Some(Fill(n, Some(1.0))), false))) else sec;
    var b := if a.width.Some? then a.(start := Some(ArcBound(None, Some(s), Some(Fill(n, None)), false)), end := Some(ArcBound(None, Some(s), Some(Fill(n, None)), false))) else a;
    var c := if b.start.None? then b.(start := Some(ArcBound(None, Some(s), Some(Fill(n, None)), false))) else b;
    if c.end.None? then c.(end := Some(ArcBound(None, Some(s), Some(Fill(n, None)), false))) else c
  }

  /** A layer without a fibre orientation gets zero at every station; webs are left alone. */
  function InitFiber(sec: Section, n: nat): (r: Section)
    ensures !sec.isWeb && sec.fiber.None? ==> r.fiber == Some(seq(n, i requires 0 <= i < n => 0.0))
    ensures sec.isWeb || sec.fiber.Some? ==> r.fiber == sec.fiber
    ensures r == sec.(fiber := r.fiber)
  {
    if sec.fiber.None? && !sec.isWeb then sec.(fiber := Some(seq(n, i requires 0 <= i < n => 0.0))) else sec
  }

  /** A rotation fixed to the twist takes `twistRotation` (`-radians(theta)`); any other
      fixed reference only warns. */
  function InitRotation(sec: Section, twistRotation: seq<real>): (r: Section)
    ensures sec.rotation.Some? && sec.rotation.value.fixed == Some("twist") ==>
              r.rotation == Some(sec.rotation.value.(values := Some(Lift(twistRotation))))
    ensures !(sec.rotation.Some? && sec.rotation.value.fixed == Some("twist")) ==> r.rotation == sec.rotation
    ensures r == sec.(rotation := r.rotation)
  {
    if sec.rotation.Some? && sec.rotation.value.fixed == Some("twist") then
      sec.(rotation := Some(sec.rotation.value.(values := Some(Lift(twistRotation)))))
    else sec
  }

  /** Everything set when a section is met at station 0. */
  function InitSection(sec: Section, s: seq<real>, twistRotation: seq<real>): Section {
    InitRotation(InitFiber(InitBounds(sec, s), |s|), twistRotation)
  }

  // ---------------------------------------------------------------------------------------
  // One section at one station

  /** `sec[key]['values'][i]`: KeyError without the key, IndexError past the end. */
  function At(v: Option<seq<Option<real>>>, i: nat): (r: Result<Option<real>>)
    ensures v.None? <==> r == Err(KeyError)
    ensures v.Some? && i >= |v.value| <==> r == Err(IndexError)
    ensures r.Ok? ==> v.Some? && i < |v.value| && r.value == v.value[i]
  {
    if v.None? then Err(KeyError) else if i >= |v.value| then Err(IndexError) else Ok(v.value[i])
  }

  /** `None` read as 0. */
  function OrZero(x: Option<real>): real {
    if x.Some? then x.value else 0.0
  }

  /** Station `i` of a per-station list, `None` when the list or the station is absent. */
  function Entry(v: Option<seq<Option<real>>>, i: nat): Option<real> {
    if v.Some? && i < |v.value| then v.value[i] else None
  }

  /** Station `i` of a per-station list as the branches read it: an absent key or a `None`
      value is 0. */
  function ValueAt(v: Option<seq<Option<real>>>, i: nat): real {
    OrZero(Entry(v, i))
  }

  /** Station `i` of a start or end bound. */
  function BoundAt(b: Option<ArcBound>, i: nat): Option<real> {
    if b.Some? && b.value.values.Some? && i < |b.value.values.value| then b.value.values.value[i] else None
  }

  /** `sec[key]['values'][i] = x`. */
  function Store(v: Option<seq<Option<real>>>, i: nat, x: real): (r: Result<seq<Option<real>>>)
    ensures v.None? ==> r == Err(KeyError)
    ensures r.Ok? ==> v.Some? && i < |v.value| && r.value == v.value[i := Some(x)]
    ensures r.Err? ==> v.None? || i >= |v.value|
  {
    if v.None? then Err(KeyError) else if i >= |v.value| then Err(IndexError) else Ok(v.value[i := Some(x)])
  }

  /** Writes station `i` of a start or end bound: KeyError without the bound or without its
      `values` (a bound given only as `{fixed: ...}`), IndexError past the end. */
  function StoreBound(b: Option<ArcBound>, i: nat, x: real): (r: Result<ArcBound>)
    ensures b.None? || b.value.values.None? ==> r == Err(KeyError)
    ensures r.Ok? ==> b.Some? && b.value.values.Some? && i < |b.value.values.value| &&
                      r.value == b.value.(values := Some(b.value.values.value[i := Some(x)]))
    ensures r.Err? ==> b.None? || b.value.values.None? || i >= |b.value.values.value|
    ensures r.Ok? ==> BoundAt(Some(r.value), i) == Some(x)
  {
    if b.None? then Err(KeyError)
    else
      var v :- Store(b.value.values, i, x);
      Ok(b.value.(values := Some(v)))
  }

  /** `sec['start']['values'][i] = lo`, then `sec['end']['values'][i] = hi`; either raises
      as `StoreBound` does. */
  function StoreBounds(sec: Section, i: nat, lo: real, hi: real): (r: Result<Section>)
    ensures r.Ok? <==> StoreBound(sec.start, i, lo).Ok? && StoreBound(sec.end, i, hi).Ok?
    ensures StoreBound(sec.start, i, lo).Err? ==> r == Err(StoreBound(sec.start, i, lo).error)
    ensures r.Ok? ==> r.value == sec.(start := r.value.start, end := r.value.end)
    ensures r.Ok? ==> BoundAgreesOff(sec.start, r.value.start, i) && BoundAgreesOff(sec.end, r.value.end, i)
    ensures r.Ok? ==> BoundAt(r.value.start, i) == Some(lo) && BoundAt(r.value.end, i) == Some(hi)
  {
    var st :- StoreBound(sec.start, i, lo);
    var en :- StoreBound(sec.end, i, hi);
    Ok(sec.(start := Some(st), end := Some(en)))
  }

  /** The section reaches past 0.8 of the chord beyond the pitch axis towards the trailing
      edge, or past 0.8 of the chord before it towards the leading edge. */
  predicate TooWide(offset: real, width: real, chord: real, pLe: real) {
    offset + 0.5 * width > RatioSCMax * chord * (1.0 - pLe) || offset - 0.5 * width < -(RatioSCMax * chord * pLe)
  }

  /** The width a section that is too wide is cut down to (centred on the pitch axis). */
  function ResizedWidth(chord: real, pLe: real): (w: real)
    ensures 0.0 <= chord && 0.0 <= pLe <= 1.0 ==> !TooWide(0.0, w, chord, pLe) && w >= 0.0
    ensures w == 2.0 * RatioSCMax * chord * pLe || w == 2.0 * RatioSCMax * chord * (1.0 - pLe)
  {
    2.0 * Min(RatioSCMax * (chord * pLe), RatioSCMax * (chord * (1.0 - pLe)))
  }

  /** The web offset moved to the end of the allowed interval on its own side of the pitch
      axis when it lies outside; otherwise left alone. */
  function ClampWebOffset(offset: real, chord: real, pLe: real): (r: real)
    ensures -(RatioSCMax * chord * pLe) <= offset <= RatioSCMax * chord * (1.0 - pLe) ==> r == offset
    ensures 0.0 <= chord && 0.0 <= pLe <= 1.0 ==> -(RatioSCMax * chord * pLe) <= r <= RatioSCMax * chord * (1.0 - pLe)
    ensures r != offset ==> (offset <= 0.0 ==> r == -(RatioSCMax * chord * pLe)) && (offset > 0.0 ==> r == RatioSCMax * chord * (1.0 - pLe))
  {
    if offset < RatioSCMax * (-chord * pLe) || offset > RatioSCMax * (chord * (1.0 - pLe)) then
      if offset <= 0.0 then RatioSCMax * (-chord * pLe) else RatioSCMax * (chord * (1.0 - pLe))
    else offset
  }

  /** Values that agree everywhere except possibly at station `i`. */
  predicate AgreeOff(u: seq<Option<real>>, v: seq<Option<real>>, i: nat) {
    |u| == |v| && forall j :: 0 <= j < |u| && j != i ==> u[j] == v[j]
  }

  predicate BoundAgreesOff(x: Option<ArcBound>, y: Option<ArcBound>, i: nat) {
    x.Some? == y.Some? &&
    (x.Some? ==> x.value.fixed == y.value.fixed && x.value.grid == y.value.grid && x.value.listGrid == y.value.listGrid &&
                 ValuesAgreeOff(x.value.values, y.value.values, i))
  }

  predicate ValuesAgreeOff(x: Option<seq<Option<real>>>, y: Option<seq<Option<real>>>, i: nat) {
    x.Some? == y.Some? && (x.Some? ==> AgreeOff(x.value, y.value, i))
  }

  /** `b` is `a` with at most station `i` of its bounds, width and offset changed. */
  predicate SameElsewhere(a: Section, b: Section, i: nat) {
    a.name == b.name && a.isWeb == b.isWeb && a.hasWebKey == b.hasWebKey && a.midpoint == b.midpoint &&
    a.rotation == b.rotation && a.thickness == b.thickness && a.side == b.side && a.fiber == b.fiber &&
    BoundAgreesOff(a.start, b.start, i) && BoundAgreesOff(a.end, b.end, i) &&
    ValuesAgreeOff(a.width, b.width, i) && ValuesAgreeOff(a.offset, b.offset, i)
  }

  /** Outcome of one section at one station: the section and the `midpoint` local. */
  datatype StepState = StepState(sec: Section, midpoint: Option<real>)

  /** Width branch: a layer given by rotation, width and side with a non-zero thickness at
      this station. An oversized layer is stored centred with the resized width (raising
      KeyError without `offset_x_pa`), yet its midpoint is found with the offset it had. */
  function LayerStep(sec: Section, i: nat, g: Geometry, inter: Intersect): (r: Result<StepState>)
    requires i < |g.chord| && i < |g.pLe| && i < |g.arcL| && g.arcL[i] > 0.0
    requires sec.side.Some? && sec.rotation.Some?
    ensures r.Ok? ==> SameElsewhere(sec, r.value.sec, i)
    ensures Lower(sec.side.value) != "suction" && Lower(sec.side.value) != "pressure" ==> r.Err?
    ensures r.Ok? ==>
              var offset, w0 := ValueAt(sec.offset, i), ValueAt(sec.width, i);
              var resized := TooWide(offset, w0, g.chord[i], g.pLe[i]);
              var width := if resized then ResizedWidth(g.chord[i], g.pLe[i]) else w0;
              var mid := inter(i, ValueAt(sec.rotation.value.values, i), offset, Lower(sec.side.value) == "suction");
              r.value.midpoint == Some(mid) &&
              BoundAt(r.value.sec.start, i) == Some(mid - width / g.arcL[i] / 2.0) &&
              BoundAt(r.value.sec.end, i) == Some(mid + width / g.arcL[i] / 2.0) &&
              (resized ==> Entry(r.value.sec.offset, i) == Some(0.0) && Entry(r.value.sec.width, i) == Some(width)) &&
              (!resized ==> r.value.sec.offset == sec.offset && r.value.sec.width == sec.width)
  {
    var _ :- At(sec.rotation.value.values, i);
    var _ :- At(sec.width, i);
    var _ :- if sec.offset.Some? then At(sec.offset, i) else Ok(None);
    // each present entry read; an absent one (`None`) counts as 0
    var rotation, width0, offset := ValueAt(sec.rotation.value.values, i), ValueAt(sec.width, i), ValueAt(sec.offset, i);
    var c, p := g.chord[i], g.pLe[i];
    var resized := TooWide(offset, width0, c, p);
    var width := if resized then ResizedWidth(c, p) else width0;
    if resized && sec.offset.None? then Err(KeyError)
    else
      var sec1 := if resized then sec.(offset := Some(sec.offset.value[i := Some(0.0)]),
                                       width := Some(sec.width.value[i := Some(width)])) else sec;
      var side := Lower(sec.side.value);
      if side != "suction" && side != "pressure" then Err(NameError)
      else
        var mid := inter(i, rotation, offset, side == "suction");
        var sec2 :- StoreBounds(sec1, i, mid - width / g.arcL[i] / 2.0, mid + width / g.arcL[i] / 2.0);
        Ok(StepState(sec2, Some(mid)))
  }

  /** Web branch: a section given by rotation and offset. The offset is clamped to the
      chord, stored when changed, and the bounds are the two surface intersections in
      increasing order. */
  function WebStep(sec: Section, i: nat, g: Geometry, inter: Intersect): (r: Result<Section>)
    requires i < |g.chord| && i < |g.pLe|
    requires sec.rotation.Some?
    ensures r.Ok? ==> SameElsewhere(sec, r.value, i)
    ensures r.Ok? ==>
              var offset := ValueAt(sec.offset, i);
              var clamped := ClampWebOffset(offset, g.chord[i], g.pLe[i]);
              var rot := ValueAt(sec.rotation.value.values, i);
              var a, b := inter(i, rot, clamped, true), inter(i, rot, clamped, false);
              BoundAt(r.value.start, i) == Some(Min(a, b)) && BoundAt(r.value.end, i) == Some(Max(a, b)) &&
              (clamped != offset ==> Entry(r.value.offset, i) == Some(clamped)) &&
              (clamped == offset ==> r.value.offset == sec.offset)
  {
    var rot :- At(sec.rotation.value.values, i);
    var off0 :- if sec.offset.Some? then At(sec.offset, i) else Ok(None);
    var rotation, offset := OrZero(rot), OrZero(off0);
    var c, p := g.chord[i], g.pLe[i];
    var clamped := ClampWebOffset(offset, c, p);
    var offs :- if clamped != offset then Store(sec.offset, i, clamped) else Ok(if sec.offset.Some? then sec.offset.value else []);
    var a, b := inter(i, rotation, clamped, true), inter(i, rotation, clamped, false);
    var sec1 := if clamped != offset then sec.(offset := Some(offs)) else sec;
    StoreBounds(sec1, i, Min(a, b), Max(a, b))
  }

  /** Midpoint branch: a width centred on the trailing edge (arc fraction 1) or the leading
      edge; the end wraps past the trailing edge by subtracting 1. Any other reference only
      warns and reuses the `midpoint` left by an earlier section (NameError if none). */
  function MidpointStep(sec: Section, i: nat, g: Geometry, midpoint: Option<real>): (r: Result<StepState>)
    requires i < |g.leLoc| && i < |g.arcL| && g.arcL[i] > 0.0
    requires sec.midpoint.Some?
    ensures r.Ok? ==> SameElsewhere(sec, r.value.sec, i)
  {
    var w :- At(sec.width, i);
    if sec.midpoint.value.fixed.None? then Err(KeyError)
    else
      var f := Lower(sec.midpoint.value.fixed.value);
      var mid :- if f == "te" then Ok(1.0) else if f == "le" then Ok(g.leLoc[i])
                 else if midpoint.Some? then Ok(midpoint.value) else Err(NameError);
      var width := OrZero(w);
      var e0 := mid + width / g.arcL[i] / 2.0;
      var sec1 :- StoreBounds(sec, i, mid - width / g.arcL[i] / 2.0, if e0 > 1.0 then e0 - 1.0 else e0);
      Ok(StepState(sec1, Some(mid)))
  }

  /** The layer branch applies: rotation, width and side given and the thickness at this
      station neither `None` nor 0 (a missing thickness raises KeyError). */
  function IsLayerBranch(sec: Section, i: nat): (r: Result<bool>)
    ensures r == Ok(true) ==> sec.rotation.Some? && sec.width.Some? && sec.side.Some?
    ensures r.Err? ==> sec.thickness.None? || i >= |sec.thickness.value|
  {
    if sec.rotation.Some? && sec.width.Some? && sec.side.Some? then
      var t :- At(sec.thickness, i);
      Ok(t.Some? && t.value != 0.0)
    else Ok(false)
  }

  /** One section at station `i`. */
  function SectionStep(sec: Section, i: nat, g: Geometry, inter: Intersect, midpoint: Option<real>): (r: Result<StepState>)
    requires i < |g.chord| && i < |g.pLe| && i < |g.arcL| && i < |g.leLoc| && g.arcL[i] > 0.0
    ensures r.Ok? ==> SameElsewhere(sec, r.value.sec, i)
  {
    var layer :- IsLayerBranch(sec, i);
    if layer then LayerStep(sec, i, g, inter)
    else if sec.rotation.Some? then
      var sec1 :- WebStep(sec, i, g, inter);
      Ok(StepState(sec1, midpoint))
    else if sec.midpoint.Some? then MidpointStep(sec, i, g, midpoint)
    else Ok(StepState(sec, midpoint))
  }

  // ---------------------------------------------------------------------------------------
  // Properties of one step

  /** A web's bounds at a station are ordered, and its stored offset lies within 0.8 of the
      chord on either side of the pitch axis. */
  lemma WebStepOrdersBounds(sec: Section, i: nat, g: Geometry, inter: Intersect)
    requires i < |g.chord| && i < |g.pLe|
    requires sec.rotation.Some? && WebStep(sec, i, g, inter).Ok?
    requires 0.0 <= g.chord[i] && 0.0 <= g.pLe[i] <= 1.0
    ensures var r := WebStep(sec, i, g, inter).value;
            BoundAt(r.start, i).Some? && BoundAt(r.end, i).Some? && BoundAt(r.start, i).value <= BoundAt(r.end, i).value
    ensures var r := WebStep(sec, i, g, inter).value;
            r.offset != sec.offset ==>
              r.offset.Some? && i < |r.offset.value| && r.offset.value[i].Some? &&
              -(RatioSCMax * g.chord[i] * g.pLe[i]) <= r.offset.value[i].value <= RatioSCMax * g.chord[i] * (1.0 - g.pLe[i])
  {
  }

  /** A layer too wide for the chord is stored centred on the pitch axis with a width that
      fits, and spans exactly that width about its midpoint; any other layer keeps its
      offset and width. */
  lemma LayerStepFits(sec: Section, i: nat, g: Geometry, inter: Intersect)
    requires i < |g.chord| && i < |g.pLe| && i < |g.arcL| && g.arcL[i] > 0.0
    requires sec.side.Some? && sec.rotation.Some? && LayerStep(sec, i, g, inter).Ok?
    requires 0.0 <= g.chord[i] && 0.0 <= g.pLe[i] <= 1.0
    ensures var r := LayerStep(sec, i, g, inter).value.sec;
            TooWide(ValueAt(sec.offset, i), ValueAt(sec.width, i), g.chord[i], g.pLe[i]) ==>
              Entry(r.offset, i) == Some(0.0) && Entry(r.width, i).Some? &&
              !TooWide(0.0, Entry(r.width, i).value, g.chord[i], g.pLe[i]) &&
              BoundAt(r.end, i).Some? && BoundAt(r.start, i).Some? &&
              (BoundAt(r.end, i).value - BoundAt(r.start, i).value) * g.arcL[i] == Entry(r.width, i).value
    ensures var r := LayerStep(sec, i, g, inter).value.sec;
            !TooWide(ValueAt(sec.offset, i), ValueAt(sec.width, i), g.chord[i], g.pLe[i]) ==>
              r.offset == sec.offset && r.width == sec.width
  {
  }

  /** A width centred on the trailing edge runs from `1 - w/(2L)` to `w/(2L)`: its end
      wraps past the trailing edge. */
  lemma TrailingEdgeMidpointWraps(sec: Section, i: nat, g: Geometry, midpoint: Option<real>)
    requires i < |g.leLoc| && i < |g.arcL| && g.arcL[i] > 0.0
    requires sec.midpoint.Some? && sec.midpoint.value.fixed == Some("TE")
    requires MidpointStep(sec, i, g, midpoint).Ok?
    ensures var w := OrZero(sec.width.value[i]);
            var r := MidpointStep(sec, i, g, midpoint).value;
            r.midpoint == Some(1.0) &&
            BoundAt(r.sec.start, i) == Some(1.0 - w / g.arcL[i] / 2.0) &&
            (w > 0.0 ==> BoundAt(r.sec.end, i) == Some(w / g.arcL[i] / 2.0))
  {
    assert Lower("TE") == "te";
  }

  /** A width centred on the leading edge is centred on `LE_loc`. */
  lemma LeadingEdgeMidpoint(sec: Section, i: nat, g: Geometry, midpoint: Option<real>)
    requires i < |g.leLoc| && i < |g.arcL| && g.arcL[i] > 0.0
    requires sec.midpoint.Some? && sec.midpoint.value.fixed == Some("LE")
    requires MidpointStep(sec, i, g, midpoint).Ok?
    ensures var w := OrZero(sec.width.value[i]);
            var r := MidpointStep(sec, i, g, midpoint).value;
            r.midpoint == Some(g.leLoc[i]) &&
            BoundAt(r.sec.start, i) == Some(g.leLoc[i] - w / g.arcL[i] / 2.0)
  {
    assert Lower("LE") == "le";
  }

  /** An unknown midpoint reference on the first section that needs one raises NameError. */
  lemma InvalidMidpointWithoutPredecessor(sec: Section, i: nat, g: Geometry)
    requires i < |g.leLoc| && i < |g.arcL| && g.arcL[i] > 0.0
    requires sec.midpoint == Some(MidpointDef(Some("root"))) && sec.width.Some? && i < |sec.width.value|
    ensures MidpointStep(sec, i, g, None) == Err(NameError)
  {
    assert Lower("root") == "root";
  }

  /** An unknown midpoint reference after a section that set `midpoint` to `m` only warns:
      the section is centred on `m`, with the end wrapped past the trailing edge. */
  lemma InvalidMidpointReusesPrevious(sec: Section, i: nat, g: Geometry, m: real)
    requires i < |g.leLoc| && i < |g.arcL| && g.arcL[i] > 0.0
    requires sec.midpoint.Some? && sec.midpoint.value.fixed.Some?
    requires Lower(sec.midpoint.value.fixed.value) != "te" && Lower(sec.midpoint.value.fixed.value) != "le"
    requires sec.width.Some? && i < |sec.width.value|
    requires sec.start.Some? && sec.start.value.values.Some? && i < |sec.start.value.values.value|
    requires sec.end.Some? && sec.end.value.values.Some? && i < |sec.end.value.values.value|
    ensures MidpointStep(sec, i, g, Some(m)).Ok?
    ensures var w := OrZero(sec.width.value[i]);
            var e0 := m + w / g.arcL[i] / 2.0;
            var r := MidpointStep(sec, i, g, Some(m)).value;
            r.midpoint == Some(m) &&
            BoundAt(r.sec.start, i) == Some(m - w / g.arcL[i] / 2.0) &&
            BoundAt(r.sec.end, i) == Some(if e0 > 1.0 then e0 - 1.0 else e0)
  {
  }

  // ---------------------------------------------------------------------------------------
  // The first pass over stations and sections

  /** Every section and the `midpoint` local. */
  datatype PassState = PassState(secs: seq<Section>, midpoint: Option<real>)

  /** The sections before `k` processed at station `i`, from `st` (sections are initialised
      when first met, at station 0). */
  function Station(st: PassState, i: nat, k: nat, s: seq<real>, twistRotation: seq<real>, g: Geometry, inter: Intersect): (r: Result<PassState>)
    requires k <= |st.secs| && ValidGeometry(g, |s|) && i < |s|
    ensures r.Ok? ==> |r.value.secs| == |st.secs|
    ensures r.Ok? ==> forall j :: k <= j < |st.secs| ==> r.value.secs[j] == st.secs[j]
  {
    if k == 0 then Ok(st)
    else
      var prev :- Station(st, i, k - 1, s, twistRotation, g, inter);
      var sec := if i == 0 then InitSection(prev.secs[k - 1], s, twistRotation) else prev.secs[k - 1];
      var step :- SectionStep(sec, i, g, inter, prev.midpoint);
      Ok(PassState(prev.secs[k - 1 := step.sec], step.midpoint))
  }

  /** The state after every section at the stations before `i`. */
  function Stations(secs: seq<Section>, i: nat, s: seq<real>, twistRotation: seq<real>, g: Geometry, inter: Intersect): (r: Result<PassState>)
    requires ValidGeometry(g, |s|) && i <= |s|
    ensures r.Ok? ==> |r.value.secs| == |secs|
  {
    if i == 0 then Ok(PassState(secs, None))
    else
      var prev :- Stations(secs, i - 1, s, twistRotation, g, inter);
      Station(prev, i - 1, |prev.secs|, s, twistRotation, g, inter)
  }

  /** One more section at station `i`: the step applied to the state so far. */
  lemma StationStep(st: PassState, i: nat, k: nat, s: seq<real>, twistRotation: seq<real>, g: Geometry, inter: Intersect, p: PassState)
    requires k < |st.secs| && ValidGeometry(g, |s|) && i < |s|
    requires Station(st, i, k, s, twistRotation, g, inter) == Ok(p)
    ensures var sec := if i == 0 then InitSection(p.secs[k], s, twistRotation) else p.secs[k];
            Station(st, i, k + 1, s, twistRotation, g, inter) ==
              match SectionStep(sec, i, g, inter, p.midpoint)
              case Err(e) => Err(e)
              case Ok(step) => Ok(PassState(p.secs[k := step.sec], step.midpoint))
  {
  }

  /** Once a section raises, the station stops with that error. */
  lemma {:induction false} StationErrorSticks(st: PassState, i: nat, k: nat, k2: nat, s: seq<real>, twistRotation: seq<real>, g: Geometry, inter: Intersect)
    requires k <= k2 <= |st.secs| && ValidGeometry(g, |s|) && i < |s|
    requires Station(st, i, k, s, twistRotation, g, inter).Err?
    ensures Station(st, i, k2, s, twistRotation, g, inter) == Station(st, i, k, s, twistRotation, g, inter)
  {
    if k2 > k {
      StationErrorSticks(st, i, k, k2 - 1, s, twistRotation, g, inter);
    }
  }

  /** Once a station raises, the pass stops with that error. */
  lemma {:induction false} StationsErrorSticks(secs: seq<Section>, i: nat, s: seq<real>, twistRotation: seq<real>, g: Geometry, inter: Intersect, e: Error)
    requires i <= |s| && ValidGeometry(g, |s|)
    requires Stations(secs, i, s, twistRotation, g, inter) == Err(e)
    ensures Stations(secs, |s|, s, twistRotation, g, inter) == Err(e)
    decreases |s| - i
  {
    if i < |s| {
      StationsKeepError(secs, i, s, twistRotation, g, inter, e);
      StationsErrorSticks(secs, i + 1, s, twistRotation, g, inter, e);
    }
  }

  /** Station `i` run over all sections of the pass up to `i` gives the pass up to `i + 1`
      when it succeeds, and the error of the whole pass when it raises. */
  lemma StationsAdvance(secs: seq<Section>, i: nat, s: seq<real>, twistRotation: seq<real>, g: Geometry, inter: Intersect, st: PassState, r: Result<PassState>)
    requires i < |s| && ValidGeometry(g, |s|)
    requires Stations(secs, i, s, twistRotation, g, inter) == Ok(st)
    requires Station(st, i, |st.secs|, s, twistRotation, g, inter) == r
    ensures r.Ok? ==> Stations(secs, i + 1, s, twistRotation, g, inter) == r
    ensures r.Err? ==> Stations(secs, |s|, s, twistRotation, g, inter) == r
  {
    StationsNext(secs, i, s, twistRotation, g, inter, st, r);
    if r.Err? {
      StationsErrorSticks(secs, i + 1, s, twistRotation, g, inter, r.error);
    }
  }

  /** The pass up to station `i + 1` is station `i` run over all sections of the pass up to `i`. */
  lemma StationsNext(secs: seq<Section>, i: nat, s: seq<real>, twistRotation: seq<real>, g: Geometry, inter: Intersect, st: PassState, r: Result<PassState>)
    requires i < |s| && ValidGeometry(g, |s|)
    requires Stations(secs, i, s, twistRotation, g, inter) == Ok(st)
    requires Station(st, i, |st.secs|, s, twistRotation, g, inter) == r
    ensures Stations(secs, i + 1, s, twistRotation, g, inter) == r
  {
  }

  /** A failed pass stays failed at the next station. */
  lemma StationsKeepError(secs: seq<Section>, i: nat, s: seq<real>, twistRotation: seq<real>, g: Geometry, inter: Intersect, e: Error)
    requires i < |s| && ValidGeometry(g, |s|)
    requires Stations(secs, i, s, twistRotation, g, inter) == Err(e)
    ensures Stations(secs, i + 1, s, twistRotation, g, inter) == Err(e)
  {
  }

  /** The inner loop: every section (webs, then layers) at station `i`. */
  method StationPass(secs: array<Section>, i: nat, s: seq<real>, twistRotation: seq<real>, g: Geometry, inter: Intersect, midpoint: Option<real>)
    returns (err: Option<Error>, midpointOut: Option<real>)
    requires ValidGeometry(g, |s|) && i < |s|
    modifies secs
    ensures err.None? ==> Station(PassState(old(secs[..]), midpoint), i, secs.Length, s, twistRotation, g, inter) == Ok(PassState(secs[..], midpointOut))
    ensures err.Some? ==> Station(PassState(old(secs[..]), midpoint), i, secs.Length, s, twistRotation, g, inter) == Err(err.value)
  {
    ghost var st0 := PassState(secs[..], midpoint);
    midpointOut := midpoint;
    for k := 0 to secs.Length
      invariant Station(st0, i, k, s, twistRotation, g, inter) == Ok(PassState(secs[..], midpointOut))
    {
      StationStep(st0, i, k, s, twistRotation, g, inter, PassState(secs[..], midpointOut));
      var sec := if i == 0 then InitSection(secs[k], s, twistRotation) else secs[k];
      var step := SectionStep(sec, i, g, inter, midpointOut);
      if step.Err? {
        StationErrorSticks(st0, i, k + 1, secs.Length, s, twistRotation, g, inter);
        return Some(step.error), midpointOut;
      }
      ghost var before := secs[..];
      secs[k] := step.value.sec;
      midpointOut := step.value.midpoint;
      assert secs[..] == before[k := step.value.sec];
    }
    return None, midpointOut;
  }

  /** The first pass as the nested loops run it, over every station of `s`. */
  method FirstPass(secs: array<Section>, s: seq<real>, twistRotation: seq<real>, g: Geometry, inter: Intersect)
    returns (err: Option<Error>)
    requires ValidGeometry(g, |s|)
    modifies secs
    ensures err.None? ==> Stations(old(secs[..]), |s|, s, twistRotation, g, inter).Ok? &&
                          Stations(old(secs[..]), |s|, s, twistRotation, g, inter).value.secs == secs[..]
    ensures err.Some? ==> Stations(old(secs[..]), |s|, s, twistRotation, g, inter) == Err(err.value)
  {
    ghost var secs0 := secs[..];
    var midpoint: Option<real> := None;
    for i := 0 to |s|
      invariant Stations(secs0, i, s, twistRotation, g, inter) == Ok(PassState(secs[..], midpoint))
    {
      var e, m := NextStation(secs, secs0, i, s, twistRotation, g, inter, midpoint);
      if e.Some? {
        return e;
      }
      midpoint := m;
    }
    return None;
  }

  /** One turn of the outer loop: station `i` processed in place after the stations before
      it; its error is the error of the whole pass. */
  method NextStation(secs: array<Section>, ghost secs0: seq<Section>, i: nat, s: seq<real>, twistRotation: seq<real>,
                     g: Geometry, inter: Intersect, midpoint: Option<real>)
    returns (err: Option<Error>, midpointOut: Option<real>)
    requires ValidGeometry(g, |s|) && i < |s|
    requires Stations(secs0, i, s, twistRotation, g, inter) == Ok(PassState(secs[..], midpoint))
    modifies secs
    ensures err.None? ==> Stations(secs0, i + 1, s, twistRotation, g, inter) == Ok(PassState(secs[..], midpointOut))
    ensures err.Some? ==> Stations(secs0, |s|, s, twistRotation, g, inter) == Err(err.value)
  {
    ghost var st := PassState(secs[..], midpoint);
    err, midpointOut := StationPass(secs, i, s, twistRotation, g, inter, midpoint);
    StationsAdvance(secs0, i, s, twistRotation, g, inter, st, if err.None? then Ok(PassState(secs[..], midpointOut)) else Err(err.value));
  }

  // ---------------------------------------------------------------------------------------
  // The second pass: ends fixed to the edges or to other layers

  /** `[i for i, sec in enumerate(layers) if sec['name'] == name][0]`, if any. */
  function FirstNamed(layers: seq<Section>, name: string): (r: Option<nat>)
    ensures r.Some? ==> r.value < |layers| && layers[r.value].name == name &&
                        forall j :: 0 <= j < r.value ==> layers[j].name != name
    ensures r.None? ==> forall j :: 0 <= j < |layers| ==> layers[j].name != name
  {
    if layers == [] then None
    else if layers[0].name == name then Some(0)
    else match FirstNamed(layers[1..], name)
      case None => None
      case Some(j) => Some(j + 1)
  }

  predicate IsTrailingEdge(t: string) { t == "te" || t == "TE" }

  predicate IsLeadingEdge(t: string) { t == "le" || t == "LE" }

  /** The bound a fixed start (`isStart`) or end takes: all zeros (a start) or all ones (an
      end) on the grid `s` at the trailing edge, `LE_loc` at the leading edge, otherwise the
      opposite bound of the first layer with that name, its grid copied by `.tolist()`. No
      such layer raises IndexError; a target bound that has no grid (it is itself given only
      as `{fixed: ...}` and the pass has not reached it yet) or no values raises KeyError, and
      one whose grid is already a list (it was itself fixed to a name earlier in the pass)
      raises AttributeError. */
  function FixedBound(layers: seq<Section>, b: ArcBound, t: string, isStart: bool, s: seq<real>, leLoc: seq<real>): (r: Result<ArcBound>)
    ensures r.Ok? ==> r.value.fixed == b.fixed && r.value.grid.Some? && r.value.values.Some?
    ensures IsTrailingEdge(t) ==> r == Ok(ArcBound(b.fixed, Some(s), Some(Fill(|s|, Some(if isStart then 0.0 else 1.0))), false))
    ensures !IsTrailingEdge(t) && IsLeadingEdge(t) ==> r == Ok(ArcBound(b.fixed, Some(s), Some(Lift(leLoc)), false))
    ensures !IsTrailingEdge(t) && !IsLeadingEdge(t) && FirstNamed(layers, t).None? ==> r == Err(IndexError)
    ensures !IsTrailingEdge(t) && !IsLeadingEdge(t) && r.Ok? ==>
              FirstNamed(layers, t).Some? &&
              var target := layers[FirstNamed(layers, t).value];
              (if isStart then target.end else target.start).Some? &&
              var other := (if isStart then target.end else target.start).value;
              other.grid.Some? && !other.listGrid && other.values.Some? &&
              r.value == ArcBound(b.fixed, other.grid, other.values, true)
    ensures !IsTrailingEdge(t) && !IsLeadingEdge(t) && FirstNamed(layers, t).Some? ==>
              var target := layers[FirstNamed(layers, t).value];
              var other := if isStart then target.end else target.start;
              (other.None? ==> r == Err(KeyError)) &&
              (other.Some? && other.value.grid.None? ==> r == Err(KeyError)) &&
              (other.Some? && other.value.grid.Some? && other.value.listGrid ==> r == Err(AttributeError)) &&
              (other.Some? && other.value.grid.Some? && !other.value.listGrid && other.value.values.None? ==> r == Err(KeyError))
  {
    if IsTrailingEdge(t) then Ok(ArcBound(b.fixed, Some(s), Some(Fill(|s|, Some(if isStart then 0.0 else 1.0))), false))
    else if IsLeadingEdge(t) then Ok(ArcBound(b.fixed, Some(s), Some(Lift(leLoc)), false))
    else match FirstNamed(layers, t)
      case None => Err(IndexError)
      case Some(j) =>
        var other := if isStart then layers[j].end else layers[j].start;
        if other.None? || other.value.grid.None? then Err(KeyError)
        else if other.value.listGrid then Err(AttributeError)
        else if other.value.values.None? then Err(KeyError)
        else Ok(ArcBound(b.fixed, other.value.grid, other.value.values, true))
  }

  /** One layer of the second pass: a fixed start first, then a fixed end (which sees the
      start just resolved when a layer is fixed to itself). Only layer `k` changes. */
  function ResolveLayer(layers: seq<Section>, k: nat, s: seq<real>, leLoc: seq<real>): (r: Result<seq<Section>>)
    requires k < |layers|
    ensures r.Ok? ==> |r.value| == |layers| && forall j :: 0 <= j < |layers| && j != k ==> r.value[j] == layers[j]
    ensures r.Ok? ==> r.value[k].name == layers[k].name
    ensures layers[k].start.None? ==> r == Err(KeyError)
    ensures r.Ok? ==>
              r.value[k].start.Some? && layers[k].start.Some? &&
              (layers[k].start.value.fixed.None? ==> r.value[k].start == layers[k].start) &&
              (layers[k].start.value.fixed.Some? ==>
                 FixedBound(layers, layers[k].start.value, layers[k].start.value.fixed.value, true, s, leLoc) == Ok(r.value[k].start.value))
    ensures r.Ok? ==>
              r.value[k].end.Some? && layers[k].end.Some? &&
              (layers[k].end.value.fixed.None? ==> r.value[k].end == layers[k].end) &&
              (layers[k].end.value.fixed.Some? ==>
                 FixedBound(layers[k := r.value[k].(end := layers[k].end)], layers[k].end.value,
                            layers[k].end.value.fixed.value, false, s, leLoc) == Ok(r.value[k].end.value))
  {
    var l := layers[k];
    if l.start.None? then Err(KeyError)
    else
      var start :- if l.start.value.fixed.Some? then FixedBound(layers, l.start.value, l.start.value.fixed.value, true, s, leLoc)
                   else Ok(l.start.value);
      var layers1 := layers[k := l.(start := Some(start))];
      var l1 := layers1[k];
      if l1.end.None? then Err(KeyError)
      else
        var end :- if l1.end.value.fixed.Some? then FixedBound(layers1, l1.end.value, l1.end.value.fixed.value, false, s, leLoc)
                   else Ok(l1.end.value);
        Ok(layers1[k := l1.(end := Some(end))])
  }

  /** The layers after the first `k` were resolved, in list order. */
  function Resolve(layers: seq<Section>, k: nat, s: seq<real>, leLoc: seq<real>): (r: Result<seq<Section>>)
    requires k <= |layers|
    ensures r.Ok? ==> |r.value| == |layers|
    ensures r.Ok? ==> forall j :: k <= j < |layers| ==> r.value[j] == layers[j]
  {
    if k == 0 then Ok(layers)
    else
      var prev :- Resolve(layers, k - 1, s, leLoc);
      ResolveLayer(prev, k - 1, s, leLoc)
  }

  /** A layer keeps what it was resolved to while later layers are resolved. */
  lemma {:induction false} ResolvedLayerIsFinal(layers: seq<Section>, k: nat, m: nat, s: seq<real>, leLoc: seq<real>)
    requires k < m <= |layers|
    requires Resolve(layers, m, s, leLoc).Ok?
    ensures Resolve(layers, k + 1, s, leLoc).Ok?
    ensures Resolve(layers, m, s, leLoc).value[k] == Resolve(layers, k + 1, s, leLoc).value[k]
  {
    if m > k + 1 {
      ResolvedLayerIsFinal(layers, k, m - 1, s, leLoc);
    }
  }

  /** After the whole second pass, a start fixed to the trailing edge is 0 at every station,
      an end fixed to it 1, and one fixed to the leading edge follows `LE_loc`. */
  lemma EdgeFixedBoundsAfterPass(layers: seq<Section>, k: nat, s: seq<real>, leLoc: seq<real>)
    requires k < |layers| && Resolve(layers, |layers|, s, leLoc).Ok?
    requires layers[k].start.Some? && layers[k].start.value.fixed.Some?
    ensures var r := Resolve(layers, |layers|, s, leLoc).value[k];
            r.start.Some? &&
            (IsTrailingEdge(layers[k].start.value.fixed.value) ==> r.start.value.values == Some(Fill(|s|, Some(0.0)))) &&
            (!IsTrailingEdge(layers[k].start.value.fixed.value) && IsLeadingEdge(layers[k].start.value.fixed.value) ==>
               r.start.value.values == Some(Lift(leLoc)))
  {
    ResolvedLayerIsFinal(layers, k, |layers|, s, leLoc);
    var prev := Resolve(layers, k, s, leLoc).value;
    assert prev[k] == layers[k];
    var b := layers[k].start.value;
    assert FixedBound(prev, b, b.fixed.value, true, s, leLoc) == Ok(Resolve(layers, k + 1, s, leLoc).value[k].start.value);
  }

  /** After the whole second pass, an end fixed to the trailing edge is 1 at every station
      and one fixed to the leading edge follows `LE_loc`. */
  lemma EdgeFixedEndsAfterPass(layers: seq<Section>, k: nat, s: seq<real>, leLoc: seq<real>)
    requires k < |layers| && Resolve(layers, |layers|, s, leLoc).Ok?
    requires layers[k].end.Some? && layers[k].end.value.fixed.Some?
    ensures var r := Resolve(layers, |layers|, s, leLoc).value[k];
            r.end.Some? &&
            (IsTrailingEdge(layers[k].end.value.fixed.value) ==> r.end.value.values == Some(Fill(|s|, Some(1.0)))) &&
            (!IsTrailingEdge(layers[k].end.value.fixed.value) && IsLeadingEdge(layers[k].end.value.fixed.value) ==>
               r.end.value.values == Some(Lift(leLoc)))
  {
    ResolvedLayerIsFinal(layers, k, |layers|, s, leLoc);
    var prev := Resolve(layers, k, s, leLoc).value;
    assert prev[k] == layers[k];
  }

  /** A start fixed to a layer name that no layer has stops the pass with IndexError. */
  lemma UnknownReferenceRaises(layers: seq<Section>, k: nat, s: seq<real>, leLoc: seq<real>)
    requires k < |layers| && Resolve(layers, k, s, leLoc).Ok?
    requires layers[k].start.Some? && layers[k].start.value.fixed.Some?
    requires var t := layers[k].start.value.fixed.value;
             !IsTrailingEdge(t) && !IsLeadingEdge(t) && forall j :: 0 <= j < |layers| ==> layers[j].name != t
    ensures Resolve(layers, |layers|, s, leLoc) == Err(IndexError)
  {
    var prev := Resolve(layers, k, s, leLoc).value;
    assert prev[k] == layers[k];
    var t := layers[k].start.value.fixed.value;
    assert FirstNamed(prev, t).None? by {
      if FirstNamed(prev, t).Some? {
        NamesKept(layers, k, s, leLoc, FirstNamed(prev, t).value);
      }
    }
    assert ResolveLayer(prev, k, s, leLoc) == Err(IndexError) by {
      assert FixedBound(prev, prev[k].start.value, t, true, s, leLoc) == Err(IndexError);
    }
    assert Resolve(layers, k + 1, s, leLoc) == Err(IndexError);
    ResolveErrorSticks(layers, k + 1, |layers|, s, leLoc, IndexError);
  }

  /** A start fixed to the name of a layer `j` the pass has not reached yet (this layer or
      a later one) whose end is itself given only as `{fixed: ...}`, so has no grid, raises
      KeyError, and the pass ends with it. */
  lemma ForwardReferenceToFixedRaises(layers: seq<Section>, k: nat, j: nat, s: seq<real>, leLoc: seq<real>)
    requires k <= j < |layers| && Resolve(layers, k, s, leLoc).Ok?
    requires layers[k].start.Some? && layers[k].start.value.fixed.Some?
    requires var t := layers[k].start.value.fixed.value;
             !IsTrailingEdge(t) && !IsLeadingEdge(t) && FirstNamed(layers, t) == Some(j)
    requires layers[j].end.Some? && layers[j].end.value.grid.None?
    ensures Resolve(layers, |layers|, s, leLoc) == Err(KeyError)
  {
    ForwardReferenceRaisesAt(layers, k, j, s, leLoc);
    ResolveErrorSticks(layers, k + 1, |layers|, s, leLoc, KeyError);
  }

  /** The layer holding such a start is where the pass raises. */
  lemma ForwardReferenceRaisesAt(layers: seq<Section>, k: nat, j: nat, s: seq<real>, leLoc: seq<real>)
    requires k <= j < |layers| && Resolve(layers, k, s, leLoc).Ok?
    requires layers[k].start.Some? && layers[k].start.value.fixed.Some?
    requires var t := layers[k].start.value.fixed.value;
             !IsTrailingEdge(t) && !IsLeadingEdge(t) && FirstNamed(layers, t) == Some(j)
    requires layers[j].end.Some? && layers[j].end.value.grid.None?
    ensures Resolve(layers, k + 1, s, leLoc) == Err(KeyError)
  {
    var prev := Resolve(layers, k, s, leLoc).value;
    assert prev[k] == layers[k];
    var t := layers[k].start.value.fixed.value;
    assert prev[j] == layers[j];
    assert FirstNamed(prev, t) == Some(j) by {
      assert FirstNamed(prev, t).Some?;
      NamesKept(layers, k, s, leLoc, FirstNamed(prev, t).value);
    }
    assert ResolveLayer(prev, k, s, leLoc) == Err(KeyError) by {
      assert FixedBound(prev, prev[k].start.value, t, true, s, leLoc) == Err(KeyError);
    }
    assert Resolve(layers, k + 1, s, leLoc) == Err(KeyError);
  }

  /** The second pass never renames a layer. */
  lemma NamesKept(layers: seq<Section>, k: nat, s: seq<real>, leLoc: seq<real>, j: nat)
    requires k <= |layers| && j < |layers| && Resolve(layers, k, s, leLoc).Ok?
    ensures Resolve(layers, k, s, leLoc).value[j].name == layers[j].name
  {
    if j < k {
      ResolvedLayerIsFinal(layers, j, k, s, leLoc);
      var prev := Resolve(layers, j, s, leLoc);
      assert prev.Ok? && prev.value[j] == layers[j];
      assert Resolve(layers, j + 1, s, leLoc) == ResolveLayer(prev.value, j, s, leLoc);
    }
  }

  /** An error in the second pass is returned unchanged by the next layer's step. */
  lemma ResolveStepErr(layers: seq<Section>, k: nat, s: seq<real>, leLoc: seq<real>, e: Error)
    requires k < |layers| && Resolve(layers, k, s, leLoc) == Err(e)
    ensures Resolve(layers, k + 1, s, leLoc) == Err(e)
  {
  }

  /** Once a layer of the second pass raises, the pass ends with that error. */
  lemma ResolveErrorSticks(layers: seq<Section>, k: nat, k2: nat, s: seq<real>, leLoc: seq<real>, e: Error)
    requires k <= k2 <= |layers| && Resolve(layers, k, s, leLoc) == Err(e)
    ensures Resolve(layers, k2, s, leLoc) == Err(e)
  {
    for i := k to k2
      invariant Resolve(layers, i, s, leLoc) == Err(e)
    {
      ResolveStepErr(layers, i, s, leLoc, e);
    }
  }

  /** The second loop, over the layers in list order. */
  method ResolveFixed(layers: array<Section>, s: seq<real>, leLoc: seq<real>) returns (err: Option<Error>)
    modifies layers
    ensures err.None? ==> Resolve(old(layers[..]), layers.Length, s, leLoc) == Ok(layers[..])
    ensures err.Some? ==> Resolve(old(layers[..]), layers.Length, s, leLoc) == Err(err.value)
  {
    ghost var layers0 := layers[..];
    for k := 0 to layers.Length
      invariant Resolve(layers0, k, s, leLoc) == Ok(layers[..])
    {
      var r := ResolveLayer(layers[..], k, s, leLoc);
      if r.Err? {
        ResolveErrorSticks(layers0, k + 1, layers.Length, s, leLoc, r.error);
        return Some(r.error);
      }
      layers[k] := r.value[k];
      assert layers[..] == r.value;
    }
    return None;
  }
}
