/** The design control points of the blade (`ReferenceBlade.calc_control_points`) and the
    planform rebuilt from them (`ReferenceBlade.update_planform`): a short spanwise grid
    `r_in` from the root through the end of the cylinder and the station of maximum chord to
    the tip, the planform and the spar cap and trailing edge thicknesses sampled on it, and
    the way back from those samples onto the full spanwise grid `s`. */
module ControlPoints {
  import opened Numerics
  import opened Interpolation
  import opened Planform
  import opened CompositeRemap

  /** A composite layer of `blade['st']['layers']` as the control points see it: its name and
      its spanwise thickness. */
  datatype LayerThickness = LayerThickness(name: string, thickness: Field)

  /** `ctrl_pts['r_max_chord']` as stored: the number `calc_control_points` computes (a
      numpy scalar, `numpy`) or is given (a Python float), or the one-entry array an
      optimiser writes back in its place. */
  datatype MaxChord = Scalar(x: real, numpy: bool) | Vector(v: seq<real>)

  /** `blade['ctrl_pts']`. */
  datatype CtrlPts = CtrlPts(
    rIn: seq<real>, updateRIn: bool,
    thetaIn: seq<real>, chordIn: seq<real>, precurveIn: seq<real>, presweepIn: seq<real>, thicknessIn: seq<real>,
    sparTIn: seq<real>, teTIn: seq<real>,
    rCylinder: real, rMaxChord: MaxChord, bladeLength: real)

  /** `cyl_thk_min`: the relative thickness taken as the end of the cylinder when only the
      root station is a full cylinder. */
  const CylinderThicknessMin: real := 0.98

  // ---------------------------------------------------------------------------------------
  // Search helpers

  /** `max([i for i, thk in enumerate(t) if thk == m])`: the last station holding exactly
      `m`, or none (where `max` raises ValueError). */
  function LastEqual(t: seq<real>, m: real): (r: Option<nat>)
    ensures r.Some? ==> r.value < |t| && t[r.value] == m && forall j :: r.value < j < |t| ==> t[j] != m
    ensures r.None? <==> m !in t
  {
    if t == [] then None
    else if t[|t| - 1] == m then Some(|t| - 1)
    else
      var prefix := t[..|t| - 1];
      assert forall x :: x in t <==> x in prefix || x == t[|t| - 1];
      LastEqual(prefix, m)
  }

  /** `t < m` entry by entry. */
  function Below(t: seq<real>, m: real): (b: seq<bool>)
    ensures |b| == |t| && forall i :: 0 <= i < |t| ==> b[i] == (t[i] < m)
  {
    seq(|t|, i requires 0 <= i < |t| => t[i] < m)
  }

  /** `np.isclose(t, m)` entry by entry. */
  function CloseTo(t: seq<real>, m: real): (b: seq<bool>)
    ensures |b| == |t| && forall i :: 0 <= i < |t| ==> b[i] == IsClose(t[i], m)
  {
    seq(|t|, i requires 0 <= i < |t| => IsClose(t[i], m))
  }

  /** `[sec['name'].lower() == name.lower() for sec in layers]`. */
  function Matches(layers: seq<LayerThickness>, name: string): (b: seq<bool>)
    ensures |b| == |layers| && forall i :: 0 <= i < |layers| ==> b[i] == (Lower(layers[i].name) == Lower(name))
  {
    seq(|layers|, i requires 0 <= i < |layers| => Lower(layers[i].name) == Lower(name))
  }

  /** The first layer whose lower-cased name is that of `name`
      (`[i for i, sec in enumerate(layers) if sec['name'].lower() == name.lower()][0]`);
      IndexError when there is none. */
  function FindLayer(layers: seq<LayerThickness>, name: string): (r: Result<nat>)
    ensures r.Ok? ==> r.value < |layers|
    ensures r.Err? ==> r.error == IndexError
  {
    if |layers| == 0 then Err(IndexError)
    else
      var mask := Matches(layers, name);
      var k := FirstTrue(mask);
      if mask[k] then Ok(k) else Err(IndexError)
  }

  /** The layer found is the first whose lower-cased name is that of `name`; there is none
      exactly when no layer has that name. */
  lemma FindLayerFirstMatch(layers: seq<LayerThickness>, name: string)
    ensures var r := FindLayer(layers, name);
            (r.Ok? ==> Lower(layers[r.value].name) == Lower(name) &&
                       forall j :: 0 <= j < r.value ==> Lower(layers[j].name) != Lower(name)) &&
            (r.Err? <==> forall j :: 0 <= j < |layers| ==> Lower(layers[j].name) != Lower(name))
  {
  }

  /** A layer search depends only on the names. */
  lemma FindLayerByNames(a: seq<LayerThickness>, b: seq<LayerThickness>, name: string)
    requires |a| == |b| && forall k :: 0 <= k < |a| ==> a[k].name == b[k].name
    ensures FindLayer(a, name) == FindLayer(b, name)
  {
    assert Matches(a, name) == Matches(b, name);
  }

  /** `[0. if val == None else val for val in values]`. */
  function ZeroNone(values: seq<Option<real>>): (r: seq<real>)
    ensures |r| == |values|
    ensures forall i :: 0 <= i < |values| && values[i].Some? ==> r[i] == values[i].value
    ensures forall i :: 0 <= i < |values| && values[i].None? ==> r[i] == 0.0
  {
    seq(|values|, i requires 0 <= i < |values| => if values[i].None? then 0.0 else values[i].value)
  }

  /** `np.array(s) * bladeLength`. */
  function Scaled(s: seq<real>, length: real): (r: seq<real>)
    ensures |r| == |s| && forall i :: 0 <= i < |s| ==> r[i] == s[i] * length
  {
    seq(|s|, i requires 0 <= i < |s| => s[i] * length)
  }

  // ---------------------------------------------------------------------------------------
  // The end of the cylinder

  /** Python's bound for a slice with step -1 over `n` items: a negative value counts from
      the end, and what is still out of range is clamped to -1 below or `n - 1` above. */
  function DownBound(k: int, n: nat): (r: int)
    ensures -1 <= r <= n - 1
    ensures 0 <= k < n ==> r == k
  {
    if k < 0 then (if k + n < 0 then -1 else k + n)
    else if k >= n then n - 1
    else k
  }

  /** `s[start:stop:-1]`: from `start` down to just above `stop`. */
  function SliceDown(s: seq<real>, start: int, stop: int): (r: seq<real>)
    ensures DownBound(stop, |s|) >= DownBound(start, |s|) ==> r == []
    ensures DownBound(stop, |s|) < DownBound(start, |s|) ==>
              |r| == DownBound(start, |s|) - DownBound(stop, |s|) &&
              forall j :: 0 <= j < |r| ==> r[j] == s[DownBound(start, |s|) - j]
  {
    var hi, lo := DownBound(start, |s|), DownBound(stop, |s|);
    if lo < hi then Reverse(s[lo + 1..hi + 1]) else []
  }

  /** `idx_s`: the first station thinner than a full cylinder (0 when there is none). */
  function CylinderExit(t: seq<real>): (k: nat)
    requires |t| > 0
    ensures k < |t|
  {
    FirstTrue(Below(t, 1.0))
  }

  /** `idx_e`: the first station `isclose` to the thinnest one. */
  function ThinnestStation(t: seq<real>): (k: nat)
    requires |t| > 0
    ensures k < |t| && IsClose(t[k], SeqMin(t))
    ensures forall j :: 0 <= j < k ==> !IsClose(t[j], SeqMin(t))
  {
    var m := SeqMin(t);
    assert IsClose(m, m);
    var k := FirstTrue(CloseTo(t, m));
    assert CloseTo(t, m)[k] by {
      var w :| 0 <= w < |t| && t[w] == m;
      assert CloseTo(t, m)[w];
    }
    k
  }

  /** The root end of the cylinder-to-airfoil transition the interpolation runs over: the
      last station before the first thinner one (`idx_s - 1`), kept at or above the root and
      at or below the thinnest station. */
  function TransitionStart(t: seq<real>): (k: nat)
    requires |t| > 0
    ensures k <= ThinnestStation(t)
  {
    var a := if CylinderExit(t) >= 1 then CylinderExit(t) - 1 else 0;
    if a <= ThinnestStation(t) then a else ThinnestStation(t)
  }

  /** The cylinder end as written: span position against thickness interpolated at
      `cyl_thk_min` over `t[idx_e:idx_s-2:-1]`, which for `idx_s == 1` has the stop `-1`
      and so reads "down to just above the last station". */
  function CylinderRadiusAsWritten(s: seq<real>, t: seq<real>, fit: Fit): (r: Result<real>)
    requires |s| == |t| > 0
    ensures r.Ok? ==> FitEither(fit, SliceDown(t, ThinnestStation(t), CylinderExit(t) - 2),
                                 SliceDown(s, ThinnestStation(t), CylinderExit(t) - 2)).Ok?
  {
    Remap2GridScalar(SliceDown(t, ThinnestStation(t), CylinderExit(t) - 2),
                     SliceDown(s, ThinnestStation(t), CylinderExit(t) - 2), CylinderThicknessMin, fit)
  }

  /** With only the root station a full cylinder and the next one thinner, the slice as
      written is empty and the interpolation raises ValueError whatever the profile. */
  lemma AsWrittenLosesCylinder(s: seq<real>, t: seq<real>, fit: Fit)
    requires |s| == |t| >= 2 && t[0] >= 1.0 && t[1] < 1.0
    ensures CylinderRadiusAsWritten(s, t, fit) == Err(ValueError)
  {
    assert Below(t, 1.0)[1];
    assert CylinderExit(t) == 1;
    var e := ThinnestStation(t);
    assert SliceDown(t, e, -1) == [];
  }

  /** The cylinder end as intended: the same interpolation over the stations from the
      transition start through the thinnest one, thickest first reversed so the thickness
      rises. */
  function CylinderRadius(s: seq<real>, t: seq<real>, fit: Fit): (r: Result<real>)
    requires |s| == |t| > 0
    ensures r.Ok? <==> FitEither(fit, Reverse(t[TransitionStart(t)..ThinnestStation(t) + 1]),
                                      Reverse(s[TransitionStart(t)..ThinnestStation(t) + 1])).Ok?
  {
    TransitionRadius(s, t, TransitionStart(t), ThinnestStation(t), fit)
  }

  /** Span position against thickness over stations `a..e`, reversed so the thickness rises,
      interpolated at `cyl_thk_min`. */
  function TransitionRadius(s: seq<real>, t: seq<real>, a: nat, e: nat, fit: Fit): (r: Result<real>)
    requires |s| == |t| && a <= e < |s|
    ensures r.Ok? <==> FitEither(fit, Reverse(t[a..e + 1]), Reverse(s[a..e + 1])).Ok?
  {
    Remap2GridScalar(Reverse(t[a..e + 1]), Reverse(s[a..e + 1]), CylinderThicknessMin, fit)
  }

  /** On an increasing span grid the intended cylinder end lies between the transition
      start and the thinnest station. */
  lemma CylinderRadiusWithinTransition(s: seq<real>, t: seq<real>, fit: Fit)
    requires |s| == |t| > 0 && NonDecreasing(s)
    ensures CylinderRadius(s, t, fit).Ok? ==>
              s[TransitionStart(t)] <= CylinderRadius(s, t, fit).value <= s[ThinnestStation(t)]
  {
    InterpolationWithinStations(s, t, TransitionStart(t), ThinnestStation(t), fit);
  }

  /** Interpolating span position over stations `a..e` gives a position between theirs. */
  lemma InterpolationWithinStations(s: seq<real>, t: seq<real>, a: nat, e: nat, fit: Fit)
    requires |s| == |t| && a <= e < |s| && NonDecreasing(s)
    ensures var r := TransitionRadius(s, t, a, e, fit);
            r.Ok? ==> s[a] <= r.value <= s[e]
  {
    var xs := Reverse(s[a..e + 1]);
    assert forall j :: 0 <= j < |xs| ==> xs[j] == s[e - j];
    ExtremesWithin(xs, s[a], s[e]);
  }

  /** Every entry of `xs` within `[lo, hi]` puts its extremes there. */
  lemma ExtremesWithin(xs: seq<real>, lo: real, hi: real)
    requires |xs| > 0 && forall j :: 0 <= j < |xs| ==> lo <= xs[j] <= hi
    ensures lo <= SeqMin(xs) && SeqMax(xs) <= hi
  {
    var m, n := SeqMin(xs), SeqMax(xs);
    var i :| 0 <= i < |xs| && xs[i] == m;
    var k :| 0 <= k < |xs| && xs[k] == n;
  }

  /** A downward slice that stays inside the sequence is the reversed upward one, so the
      interpolation over it is the one over the reversed upward slice. */
  lemma SliceDownInside(s: seq<real>, t: seq<real>, start: int, stop: int, fit: Fit)
    requires |s| == |t| && 0 <= stop < start < |s|
    ensures Remap2GridScalar(SliceDown(t, start, stop), SliceDown(s, start, stop), CylinderThicknessMin, fit) ==
            TransitionRadius(s, t, stop + 1, start, fit)
  {
    SliceDownIsReversed(s, start, stop);
    SliceDownIsReversed(t, start, stop);
  }

  lemma SliceDownIsReversed(s: seq<real>, start: int, stop: int)
    requires 0 <= stop < start < |s|
    ensures SliceDown(s, start, stop) == Reverse(s[stop + 1..start + 1])
  {
    var hi, lo := DownBound(start, |s|), DownBound(stop, |s|);
    assert s[lo + 1..hi + 1] == s[stop + 1..start + 1];
  }

  /** Where the first thinner station lies past the second, the slice as written is the
      intended one and the two agree. */
  lemma AsWrittenAgreesPastSecondStation(s: seq<real>, t: seq<real>, fit: Fit)
    requires |s| == |t| > 0 && 2 <= CylinderExit(t) <= ThinnestStation(t) + 1
    ensures CylinderRadiusAsWritten(s, t, fit) == CylinderRadius(s, t, fit)
  {
    var x, e := CylinderExit(t), ThinnestStation(t);
    assert TransitionStart(t) == x - 1;
    calc {
      CylinderRadiusAsWritten(s, t, fit);
      Remap2GridScalar(SliceDown(t, e, x - 2), SliceDown(s, e, x - 2), CylinderThicknessMin, fit);
      { SliceDownInside(s, t, e, x - 2, fit); }
      TransitionRadius(s, t, x - 1, e, fit);
      CylinderRadius(s, t, fit);
    }
  }

  /** `r_cylinder`: the span position of the last full-cylinder station when that is not the
      root; when only the root is one, the interpolated end of the transition. No
      full-cylinder station raises ValueError (`max([])`). */
  function CylinderEnd(s: seq<real>, t: seq<real>, fit: Fit): (r: Result<real>)
    requires |s| == |t|
    ensures 1.0 !in t ==> r == Err(ValueError)
  {
    match LastEqual(t, 1.0)
    case None => Err(ValueError)
    case Some(idx) => if idx > 0 then Ok(s[idx]) else CylinderRadius(s, t, fit)
  }

  /** The last station of full relative thickness, when it is not the root, ends the
      cylinder. */
  lemma CylinderEndAtLastFullThickness(s: seq<real>, t: seq<real>, fit: Fit, k: nat)
    requires |s| == |t| && 0 < k < |t| && t[k] == 1.0
    requires forall j :: k < j < |t| ==> t[j] != 1.0
    ensures CylinderEnd(s, t, fit) == Ok(s[k])
  {
  }

  // ---------------------------------------------------------------------------------------
  // calc_control_points

  /** `np.hstack([0., r_cylinder, np.linspace(r_max_chord, 1., NINPUT - 2)])`; a negative
      `linspace` count raises ValueError. */
  function DefaultGrid(rCylinder: real, rMaxChord: real, nInput: int): (r: Result<seq<real>>)
    ensures r.Ok? <==> nInput >= 2
    ensures r.Err? ==> r.error == ValueError
  {
    if nInput - 2 < 0 then Err(ValueError)
    else Ok([0.0, rCylinder] + Linspace(rMaxChord, 1.0, nInput - 2))
  }

  /** The default grid has `NINPUT` points: the root, the cylinder end, then from the
      maximum chord strictly up to the tip when the maximum chord lies inboard of it. */
  lemma DefaultGridShape(rCylinder: real, rMaxChord: real, nInput: int)
    requires nInput >= 3
    ensures var g := DefaultGrid(rCylinder, rMaxChord, nInput).value;
            |g| == nInput && g[0] == 0.0 && g[1] == rCylinder && g[2] == rMaxChord
    ensures nInput >= 4 ==> DefaultGrid(rCylinder, rMaxChord, nInput).value[nInput - 1] == 1.0
    ensures rMaxChord < 1.0 ==> StrictlyIncreasing(DefaultGrid(rCylinder, rMaxChord, nInput).value[2..])
  {
    var g := DefaultGrid(rCylinder, rMaxChord, nInput).value;
    var l := Linspace(rMaxChord, 1.0, nInput - 2);
    assert g[2..] == l;
    if rMaxChord < 1.0 {
      LinspaceIncreasing(rMaxChord, 1.0, nInput - 2);
    } else if nInput - 2 >= 2 {
      assert l[0] == rMaxChord;
    }
  }

  /** `r_max_chord`: as given, or when given as 0 the span position of the widest station
      (`argmax` of no chord raises ValueError). */
  function MaxChordRadius(s: seq<real>, chord: seq<real>, given: real): (r: Result<real>)
    requires |chord| == |s|
    ensures given != 0.0 ==> r == Ok(given)
    ensures r.Err? <==> given == 0.0 && |chord| == 0
    ensures r.Err? ==> r.error == ValueError
  {
    if given != 0.0 then Ok(given)
    else if |chord| == 0 then Err(ValueError)
    else Ok(s[FirstArgMax(chord)])
  }

  /** When computed, `r_max_chord` is the span position of the first station of maximum
      chord. */
  lemma MaxChordAtWidest(s: seq<real>, chord: seq<real>)
    requires |chord| == |s| > 0
    ensures exists k :: 0 <= k < |s| && MaxChordRadius(s, chord, 0.0) == Ok(s[k]) && chord[k] == SeqMax(chord) &&
                        forall j :: 0 <= j < k ==> chord[j] < chord[k]
  {
    var k := FirstArgMax(chord);
    assert MaxChordRadius(s, chord, 0.0) == Ok(s[k]);
  }

  /** The grid part of `calc_control_points`: `r_max_chord`, `r_cylinder`, and the given grid
      or else the default one with `update_r_in` set. */
  function ControlGrid(pf: Planform, rIn: seq<real>, rMaxChord: real, nInput: int, fit: Fit)
    : (r: Result<(seq<real>, real, real)>)
    requires |pf.chord| == |pf.s| && |pf.rthick| == |pf.s|
    ensures 1.0 !in pf.rthick ==> r == Err(ValueError)
    ensures r.Ok? ==> MaxChordRadius(pf.s, pf.chord, rMaxChord) == Ok(r.value.2)
    ensures r.Ok? ==> CylinderEnd(pf.s, pf.rthick, fit) == Ok(r.value.1)
    ensures r.Ok? && rIn != [] ==> r.value.0 == rIn
    ensures r.Ok? && rIn == [] ==> DefaultGrid(r.value.1, r.value.2, nInput) == Ok(r.value.0)
  {
    var maxChord :- MaxChordRadius(pf.s, pf.chord, rMaxChord);
    var rCylinder :- CylinderEnd(pf.s, pf.rthick, fit);
    var grid :- if |rIn| == 0 then DefaultGrid(rCylinder, maxChord, nInput) else Ok(rIn);
    Ok((grid, rCylinder, maxChord))
  }

  /** The spar cap (`spar_var[0]`) and trailing edge (`te_var`) thicknesses, `None` read as
      0, sampled on the control grid; a missing name raises IndexError. */
  function LayerControls(layers: seq<LayerThickness>, sparVar: seq<string>, teVar: string, grid: seq<real>, fit: Fit)
    : (r: Result<(seq<real>, seq<real>)>)
    ensures r.Ok? <==>
              |sparVar| > 0 && FindLayer(layers, sparVar[0]).Ok? && FindLayer(layers, teVar).Ok? &&
              Remap2Grid(layers[FindLayer(layers, sparVar[0]).value].thickness.grid,
                         ZeroNone(layers[FindLayer(layers, sparVar[0]).value].thickness.values), grid, fit).Ok? &&
              Remap2Grid(layers[FindLayer(layers, teVar).value].thickness.grid,
                         ZeroNone(layers[FindLayer(layers, teVar).value].thickness.values), grid, fit).Ok?
    ensures r.Ok? ==>
              Remap2Grid(layers[FindLayer(layers, sparVar[0]).value].thickness.grid,
                         ZeroNone(layers[FindLayer(layers, sparVar[0]).value].thickness.values), grid, fit) == Ok(r.value.0)
    ensures r.Ok? ==>
              Remap2Grid(layers[FindLayer(layers, teVar).value].thickness.grid,
                         ZeroNone(layers[FindLayer(layers, teVar).value].thickness.values), grid, fit) == Ok(r.value.1)
    ensures r.Ok? ==> |r.value.0| == |grid| && |r.value.1| == |grid|
    ensures |sparVar| == 0 ==> r == Err(IndexError)
  {
    if |sparVar| == 0 then Err(IndexError)
    else
      var spar :- FindLayer(layers, sparVar[0]);
      var te :- FindLayer(layers, teVar);
      var sparT :- Remap2Grid(layers[spar].thickness.grid, ZeroNone(layers[spar].thickness.values), grid, fit);
      var teT :- Remap2Grid(layers[te].thickness.grid, ZeroNone(layers[te].thickness.values), grid, fit);
      Ok((sparT, teT))
  }

  /** A spar cap control thickness lies between the thinnest and the thickest stored value,
      an undefined station counting as 0. */
  lemma SparControlsWithinStored(layers: seq<LayerThickness>, sparVar: seq<string>, teVar: string, grid: seq<real>, fit: Fit,
                                 r: (seq<real>, seq<real>))
    requires LayerControls(layers, sparVar, teVar, grid, fit) == Ok(r)
    ensures var v := ZeroNone(layers[FindLayer(layers, sparVar[0]).value].thickness.values);
            |v| > 0 && forall i :: 0 <= i < |grid| ==> SeqMin(v) <= r.0[i] <= SeqMax(v)
  {
  }

  /** `calc_control_points`: the control grid, the planform sampled on it, and the spar cap
      and trailing edge thicknesses sampled on it; the blade length is the last span
      position. */
  function CalcControlPoints(pf: Planform, layers: seq<LayerThickness>, sparVar: seq<string>, teVar: string,
                             rIn: seq<real>, rMaxChord: real, nInput: int, fit: Fit): (r: Result<CtrlPts>)
    requires |pf.chord| == |pf.s| && |pf.rthick| == |pf.s|
    ensures r.Ok? ==> |pf.chord| > 0 && |r.value.chordIn| == |r.value.rIn| && forall i :: 0 <= i < |r.value.rIn| ==>
              SeqMin(pf.chord) <= r.value.chordIn[i] <= SeqMax(pf.chord)
    ensures r.Ok? ==> |pf.rthick| > 0 && |r.value.thicknessIn| == |r.value.rIn| && forall i :: 0 <= i < |r.value.rIn| ==>
              SeqMin(pf.rthick) <= r.value.thicknessIn[i] <= SeqMax(pf.rthick)
    ensures r.Ok? ==> |pf.r| > 0 && r.value.bladeLength == pf.r[|pf.r| - 1]
    ensures r.Ok? ==> r.value.rMaxChord.Scalar? && (r.value.rMaxChord.numpy <==> rMaxChord == 0.0) &&
                      ControlGrid(pf, rIn, rMaxChord, nInput, fit) == Ok((r.value.rIn, r.value.rCylinder, r.value.rMaxChord.x))
    ensures r.Ok? ==> (r.value.updateRIn <==> rIn == [])
    ensures r.Ok? ==> LayerControls(layers, sparVar, teVar, r.value.rIn, fit) == Ok((r.value.sparTIn, r.value.teTIn))
    ensures r.Ok? ==> Remap2Grid(pf.s, pf.theta, r.value.rIn, fit) == Ok(r.value.thetaIn) &&
                      Remap2Grid(pf.s, pf.chord, r.value.rIn, fit) == Ok(r.value.chordIn) &&
                      Remap2Grid(pf.s, pf.precurve, r.value.rIn, fit) == Ok(r.value.precurveIn) &&
                      Remap2Grid(pf.s, pf.presweep, r.value.rIn, fit) == Ok(r.value.presweepIn) &&
                      Remap2Grid(pf.s, pf.rthick, r.value.rIn, fit) == Ok(r.value.thicknessIn)
    ensures r.Ok? <==>
              ControlGrid(pf, rIn, rMaxChord, nInput, fit).Ok? &&
              var grid := ControlGrid(pf, rIn, rMaxChord, nInput, fit).value.0;
              Remap2Grid(pf.s, pf.theta, grid, fit).Ok? && Remap2Grid(pf.s, pf.chord, grid, fit).Ok? &&
              Remap2Grid(pf.s, pf.precurve, grid, fit).Ok? && Remap2Grid(pf.s, pf.presweep, grid, fit).Ok? &&
              Remap2Grid(pf.s, pf.rthick, grid, fit).Ok? && LayerControls(layers, sparVar, teVar, grid, fit).Ok? &&
              |pf.r| > 0
  {
    var g :- ControlGrid(pf, rIn, rMaxChord, nInput, fit);
    var grid := g.0;
    var theta :- Remap2Grid(pf.s, pf.theta, grid, fit);
    var chord :- Remap2Grid(pf.s, pf.chord, grid, fit);
    var precurve :- Remap2Grid(pf.s, pf.precurve, grid, fit);
    var presweep :- Remap2Grid(pf.s, pf.presweep, grid, fit);
    var thickness :- Remap2Grid(pf.s, pf.rthick, grid, fit);
    var t :- LayerControls(layers, sparVar, teVar, grid, fit);
    if |pf.r| == 0 then Err(IndexError)
    else
      Ok(CtrlPts(grid, |rIn| == 0, theta, chord, precurve, presweep, thickness, t.0, t.1,
                 g.1, Scalar(g.2, rMaxChord == 0.0), pf.r[|pf.r| - 1]))
  }

  /** Without a station of full relative thickness the control points cannot be built. */
  lemma CalcNeedsFullThickness(pf: Planform, layers: seq<LayerThickness>, sparVar: seq<string>, teVar: string,
                               rIn: seq<real>, rMaxChord: real, nInput: int, fit: Fit)
    requires |pf.chord| == |pf.s| && |pf.rthick| == |pf.s| && 1.0 !in pf.rthick
    ensures CalcControlPoints(pf, layers, sparVar, teVar, rIn, rMaxChord, nInput, fit) == Err(ValueError)
  {
  }

  /** Without the spar cap and trailing edge layers the control points cannot be built. */
  lemma CalcNeedsLayers(pf: Planform, layers: seq<LayerThickness>, sparVar: seq<string>, teVar: string,
                        rIn: seq<real>, rMaxChord: real, nInput: int, fit: Fit)
    requires |pf.chord| == |pf.s| && |pf.rthick| == |pf.s|
    requires |sparVar| == 0 || FindLayer(layers, sparVar[0]).Err? || FindLayer(layers, teVar).Err?
    ensures CalcControlPoints(pf, layers, sparVar, teVar, rIn, rMaxChord, nInput, fit).Err?
  {
  }

  // ---------------------------------------------------------------------------------------
  // update_planform

  /** The control grid `update_planform` works on: rebuilt from the stored cylinder end and
      `r_max_chord[0]` when the grid is the default one, kept otherwise. Indexing a stored
      number raises: IndexError for a numpy scalar, TypeError for a Python float. */
  function RebuiltGrid(c: CtrlPts, nInput: int): (r: Result<seq<real>>)
    ensures !c.updateRIn ==> r == Ok(c.rIn)
    ensures c.updateRIn && c.rMaxChord.Scalar? ==> r == Err(if c.rMaxChord.numpy then IndexError else TypeError)
    ensures c.updateRIn && c.rMaxChord.Vector? ==>
              (r.Ok? <==> |c.rMaxChord.v| > 0 && nInput >= 2) &&
              (r.Ok? ==> r == DefaultGrid(c.rCylinder, c.rMaxChord.v[0], nInput))
  {
    if !c.updateRIn then Ok(c.rIn)
    else match c.rMaxChord
      case Scalar(_, numpy) => Err(if numpy then IndexError else TypeError)
      case Vector(v) => if |v| == 0 then Err(IndexError) else DefaultGrid(c.rCylinder, v[0], nInput)
  }

  /** Once `r_max_chord` is written back as a one-entry array holding the same value, the
      rebuilt default grid is the grid the control points were sampled on. */
  lemma RebuiltGridReproducesCalc(pf: Planform, layers: seq<LayerThickness>, sparVar: seq<string>, teVar: string,
                                  rMaxChord: real, nInput: int, fit: Fit, c: CtrlPts)
    requires |pf.chord| == |pf.s| && |pf.rthick| == |pf.s|
    requires CalcControlPoints(pf, layers, sparVar, teVar, [], rMaxChord, nInput, fit) == Ok(c)
    ensures RebuiltGrid(c.(rMaxChord := Vector([c.rMaxChord.x])), nInput) == Ok(c.rIn)
  {
  }

  /** The spar cap layers in turn (`for var in spar_var`, the first `m`): each one found by
      name gets the spar cap control thicknesses sampled back onto `s`, `vals` being that
      sampling (`remap2grid(r_in, sparT_in, s)`, the same in every pass). The search runs on
      the layers as given: the update keeps every name, so it finds the same layer. */
  function SparThicknesses(layers: seq<LayerThickness>, sparVar: seq<string>, vals: Result<seq<real>>, s: seq<real>, m: nat)
    : (r: Result<seq<LayerThickness>>)
    requires m <= |sparVar|
    ensures r.Ok? ==> |r.value| == |layers| && forall k :: 0 <= k < |layers| ==> r.value[k].name == layers[k].name
  {
    if m == 0 then Ok(layers)
    else match SparThicknesses(layers, sparVar, vals, s, m - 1)
      case Err(e) => Err(e)
      case Ok(prev) =>
        match FindLayer(layers, sparVar[m - 1])
        case Err(e) => Err(e)
        case Ok(k) =>
          match vals
          case Err(e) => Err(e)
          case Ok(v) => Ok(prev[k := LayerThickness(prev[k].name, Field(s, Lift(v)))])
  }

  /** The spar cap update fails exactly when a name matches no layer or, with at least one
      name, the sampling fails. */
  lemma {:induction false} SparThicknessesSucceed(layers: seq<LayerThickness>, sparVar: seq<string>, vals: Result<seq<real>>,
                                                  s: seq<real>, m: nat)
    requires m <= |sparVar|
    ensures SparThicknesses(layers, sparVar, vals, s, m).Ok? <==>
              (forall q :: 0 <= q < m ==> FindLayer(layers, sparVar[q]).Ok?) && (m == 0 || vals.Ok?)
  {
    if m > 0 {
      SparThicknessesSucceed(layers, sparVar, vals, s, m - 1);
      AllFoundSplit(layers, sparVar, m);
    }
  }

  /** All of the first `m` names find a layer exactly when the first `m - 1` and name `m - 1` do. */
  lemma AllFoundSplit(layers: seq<LayerThickness>, sparVar: seq<string>, m: nat)
    requires 0 < m <= |sparVar|
    ensures (forall q :: 0 <= q < m ==> FindLayer(layers, sparVar[q]).Ok?) <==>
            (forall q :: 0 <= q < m - 1 ==> FindLayer(layers, sparVar[q]).Ok?) && FindLayer(layers, sparVar[m - 1]).Ok?
  {
  }

  /** After the spar cap update the layer spar cap name `q` finds holds the sampled
      thicknesses on `s`. */
  lemma {:induction false} SparThicknessesSetNamedLayer(layers: seq<LayerThickness>, sparVar: seq<string>, vals: Result<seq<real>>,
                                                        s: seq<real>, m: nat, r: seq<LayerThickness>, q: nat)
    requires q < m <= |sparVar| && SparThicknesses(layers, sparVar, vals, s, m) == Ok(r)
    ensures FindLayer(layers, sparVar[q]).Ok? && vals.Ok?
    ensures r[FindLayer(layers, sparVar[q]).value].thickness == Field(s, Lift(vals.value))
  {
    if q < m - 1 {
      var prev := SparThicknesses(layers, sparVar, vals, s, m - 1).value;
      SparThicknessesSetNamedLayer(layers, sparVar, vals, s, m - 1, prev, q);
    }
  }

  /** The spar cap update leaves layer `k` unchanged when no spar cap name finds it. */
  lemma {:induction false} SparThicknessesKeepOtherLayer(layers: seq<LayerThickness>, sparVar: seq<string>, vals: Result<seq<real>>,
                                                         s: seq<real>, m: nat, k: nat)
    requires m <= |sparVar| && k < |layers|
    requires forall q :: 0 <= q < m ==> FindLayer(layers, sparVar[q]) != Ok(k)
    ensures SparThicknesses(layers, sparVar, vals, s, m).Ok? ==> SparThicknesses(layers, sparVar, vals, s, m).value[k] == layers[k]
  {
    if m > 0 {
      SparThicknessesKeepOtherLayer(layers, sparVar, vals, s, m - 1, k);
    }
  }

  /** After the whole spar cap update every spar cap name's layer holds the sampled
      thicknesses on `s`. */
  lemma SparThicknessesSetNamedLayers(layers: seq<LayerThickness>, sparVar: seq<string>, vals: Result<seq<real>>,
                                      s: seq<real>, r: seq<LayerThickness>)
    requires SparThicknesses(layers, sparVar, vals, s, |sparVar|) == Ok(r)
    ensures forall q :: 0 <= q < |sparVar| ==>
              FindLayer(layers, sparVar[q]).Ok? && vals.Ok? && r[FindLayer(layers, sparVar[q]).value].thickness == Field(s, Lift(vals.value))
  {
    forall q | 0 <= q < |sparVar|
      ensures FindLayer(layers, sparVar[q]).Ok? && vals.Ok? && r[FindLayer(layers, sparVar[q]).value].thickness == Field(s, Lift(vals.value))
    {
      SparThicknessesSetNamedLayer(layers, sparVar, vals, s, |sparVar|, r, q);
    }
  }

  /** After the whole spar cap update every layer no spar cap name finds is unchanged. */
  lemma SparThicknessesKeepOtherLayers(layers: seq<LayerThickness>, sparVar: seq<string>, vals: Result<seq<real>>,
                                       s: seq<real>, r: seq<LayerThickness>)
    requires SparThicknesses(layers, sparVar, vals, s, |sparVar|) == Ok(r)
    ensures forall k :: 0 <= k < |layers| && (forall q :: 0 <= q < |sparVar| ==> FindLayer(layers, sparVar[q]) != Ok(k)) ==>
              r[k] == layers[k]
  {
    forall k | 0 <= k < |layers| && (forall q :: 0 <= q < |sparVar| ==> FindLayer(layers, sparVar[q]) != Ok(k))
      ensures r[k] == layers[k]
    {
      SparThicknessesKeepOtherLayer(layers, sparVar, vals, s, |sparVar|, k);
    }
  }

  /** Once the spar cap update fails, updating more names keeps that error. */
  lemma {:induction false} SparThicknessesErrorSticks(layers: seq<LayerThickness>, sparVar: seq<string>, vals: Result<seq<real>>,
                                                      s: seq<real>, m: nat, m': nat)
    requires m <= m' <= |sparVar| && SparThicknesses(layers, sparVar, vals, s, m).Err?
    ensures SparThicknesses(layers, sparVar, vals, s, m') == SparThicknesses(layers, sparVar, vals, s, m)
  {
    if m' > m {
      SparThicknessesErrorSticks(layers, sparVar, vals, s, m, m' - 1);
    }
  }

  /** One more spar cap name on top of a successful update `cur` of the first `q`: the
      layer that name finds gets the sampled thicknesses. */
  lemma SparStep(layers: seq<LayerThickness>, sparVar: seq<string>, vals: Result<seq<real>>, s: seq<real>,
                 q: nat, cur: seq<LayerThickness>, k: nat, v: seq<real>)
    requires q < |sparVar| && SparThicknesses(layers, sparVar, vals, s, q) == Ok(cur)
    requires FindLayer(layers, sparVar[q]) == Ok(k) && vals == Ok(v)
    ensures SparThicknesses(layers, sparVar, vals, s, q + 1) == Ok(cur[k := LayerThickness(cur[k].name, Field(s, Lift(v)))])
  {
  }

  /** One more spar cap name that finds no layer, or a failed sampling, fails the update. */
  lemma SparStepFails(layers: seq<LayerThickness>, sparVar: seq<string>, vals: Result<seq<real>>, s: seq<real>,
                      q: nat, cur: seq<LayerThickness>, e: Error)
    requires q < |sparVar| && SparThicknesses(layers, sparVar, vals, s, q) == Ok(cur)
    requires FindLayer(layers, sparVar[q]) == Err(e) || (FindLayer(layers, sparVar[q]).Ok? && vals == Err(e))
    ensures SparThicknesses(layers, sparVar, vals, s, |sparVar|) == Err(e)
  {
    SparThicknessesErrorSticks(layers, sparVar, vals, s, q + 1, |sparVar|);
  }

  /** The `for var in spar_var` loop of `update_planform`, one layer written per name, the
      search run on the layers as updated so far and the sampling redone in every pass. */
  method UpdateSparThicknesses(layers: seq<LayerThickness>, sparVar: seq<string>, rIn: seq<real>, sparTIn: seq<real>,
                               s: seq<real>, fit: Fit) returns (res: Result<seq<LayerThickness>>)
    ensures res == SparThicknesses(layers, sparVar, Remap2Grid(rIn, sparTIn, s, fit), s, |sparVar|)
  {
    ghost var sampled := Remap2Grid(rIn, sparTIn, s, fit);
    var cur := layers;
    for q := 0 to |sparVar|
      invariant SparThicknesses(layers, sparVar, sampled, s, q) == Ok(cur)
    {
      FindLayerByNames(cur, layers, sparVar[q]);
      var found := FindLayer(cur, sparVar[q]);
      if found.Err? {
        SparStepFails(layers, sparVar, sampled, s, q, cur, found.error);
        return Err(found.error);
      }
      var vals := Remap2Grid(rIn, sparTIn, s, fit);
      if vals.Err? {
        SparStepFails(layers, sparVar, sampled, s, q, cur, vals.error);
        return Err(vals.error);
      }
      SparStep(layers, sparVar, sampled, s, q, cur, found.value, vals.value);
      var k := found.value;
      cur := cur[k := LayerThickness(cur[k].name, Field(s, Lift(vals.value)))];
    }
    res := Ok(cur);
  }

  /** The planform `update_planform` rebuilds on the unchanged grid `s`: chord, twist,
      precurve and presweep sampled back from the control points, the span positions scaled
      by the blade length, the relative thickness interpolated from the airfoil positions and
      flattened after the thinnest airfoil; the pitch axis is untouched. */
  function UpdatedShape(pf: Planform, c: CtrlPts, rIn: seq<real>, airfoilGrid: seq<real>, labels: seq<string>,
                        thk: map<string, real>, fit: Fit): (r: Result<Planform>)
    ensures r.Ok? ==> r.value.s == pf.s && r.value.pLe == pf.pLe
    ensures r.Ok? ==> r.value.r == Scaled(pf.s, c.bladeLength)
    ensures r.Ok? ==> |r.value.chord| == |pf.s| && |c.chordIn| > 0 && forall i :: 0 <= i < |pf.s| ==>
              SeqMin(c.chordIn) <= r.value.chord[i] <= SeqMax(c.chordIn)
    ensures r.Ok? ==> RelativeThickness(airfoilGrid, labels, thk, pf.s, fit) == Ok(r.value.rthick)
    ensures r.Ok? ==> Remap2Grid(rIn, c.chordIn, pf.s, fit) == Ok(r.value.chord) &&
                      Remap2Grid(rIn, c.thetaIn, pf.s, fit) == Ok(r.value.theta) &&
                      Remap2Grid(rIn, c.precurveIn, pf.s, fit) == Ok(r.value.precurve) &&
                      Remap2Grid(rIn, c.presweepIn, pf.s, fit) == Ok(r.value.presweep)
    ensures r.Ok? <==>
              Remap2Grid(rIn, c.chordIn, pf.s, fit).Ok? && Remap2Grid(rIn, c.thetaIn, pf.s, fit).Ok? &&
              Remap2Grid(rIn, c.precurveIn, pf.s, fit).Ok? && Remap2Grid(rIn, c.presweepIn, pf.s, fit).Ok? &&
              RelativeThickness(airfoilGrid, labels, thk, pf.s, fit).Ok?
  {
    var s := pf.s;
    var chord :- Remap2Grid(rIn, c.chordIn, s, fit);
    var theta :- Remap2Grid(rIn, c.thetaIn, s, fit);
    var precurve :- Remap2Grid(rIn, c.precurveIn, s, fit);
    var presweep :- Remap2Grid(rIn, c.presweepIn, s, fit);
    var rthick :- RelativeThickness(airfoilGrid, labels, thk, s, fit);
    Ok(Planform(s, chord, theta, pf.pLe, Scaled(s, c.bladeLength), precurve, presweep, rthick))
  }

  /** The layers `update_planform` rewrites: the spar caps, then the trailing edge
      reinforcement, whose thickness comes from the trailing edge control points. It fails
      exactly when a name finds no layer or a sampling fails; every layer no name finds is
      left as it was. */
  function UpdatedLayers(layers: seq<LayerThickness>, sparVar: seq<string>, teVar: string, rIn: seq<real>, c: CtrlPts,
                         s: seq<real>, fit: Fit): (r: Result<seq<LayerThickness>>)
    ensures r.Ok? <==>
              (forall q :: 0 <= q < |sparVar| ==> FindLayer(layers, sparVar[q]).Ok?) &&
              (|sparVar| == 0 || Remap2Grid(rIn, c.sparTIn, s, fit).Ok?) &&
              FindLayer(layers, teVar).Ok? && Remap2Grid(rIn, c.teTIn, s, fit).Ok?
    ensures r.Ok? ==> |r.value| == |layers| && forall k :: 0 <= k < |layers| ==> r.value[k].name == layers[k].name
    ensures r.Ok? ==> FindLayer(layers, teVar).Ok? && Remap2Grid(rIn, c.teTIn, s, fit).Ok? &&
                      r.value[FindLayer(layers, teVar).value].thickness == Field(s, Lift(Remap2Grid(rIn, c.teTIn, s, fit).value))
    ensures r.Ok? && |sparVar| > 0 ==>
              SparLayersSet(layers, sparVar, FindLayer(layers, teVar), Field(s, Lift(Remap2Grid(rIn, c.sparTIn, s, fit).value)), r.value)
    ensures r.Ok? ==> OtherLayersKept(layers, sparVar, FindLayer(layers, teVar), r.value)
  {
    LayersUpdatedWith(layers, sparVar, teVar, Remap2Grid(rIn, c.sparTIn, s, fit), Remap2Grid(rIn, c.teTIn, s, fit), s)
  }

  /** `UpdatedLayers` once the spar cap and TE samplings `vals` and `teVals` are taken. */
  function LayersUpdatedWith(layers: seq<LayerThickness>, sparVar: seq<string>, teVar: string, vals: Result<seq<real>>,
                             teVals: Result<seq<real>>, s: seq<real>): (r: Result<seq<LayerThickness>>)
    ensures r.Ok? <==>
              (forall q :: 0 <= q < |sparVar| ==> FindLayer(layers, sparVar[q]).Ok?) &&
              (|sparVar| == 0 || vals.Ok?) && FindLayer(layers, teVar).Ok? && teVals.Ok?
    ensures r.Ok? ==> |r.value| == |layers| && forall k :: 0 <= k < |layers| ==> r.value[k].name == layers[k].name
    ensures r.Ok? ==> FindLayer(layers, teVar).Ok? && teVals.Ok? &&
                      r.value[FindLayer(layers, teVar).value].thickness == Field(s, Lift(teVals.value))
    ensures r.Ok? && |sparVar| > 0 ==> vals.Ok? && SparLayersSet(layers, sparVar, FindLayer(layers, teVar), Field(s, Lift(vals.value)), r.value)
    ensures r.Ok? ==> OtherLayersKept(layers, sparVar, FindLayer(layers, teVar), r.value)
  {
    SparThicknessesSucceed(layers, sparVar, vals, s, |sparVar|);
    var spars :- SparThicknesses(layers, sparVar, vals, s, |sparVar|);
    FindLayerByNames(spars, layers, teVar);
    var k :- FindLayer(spars, teVar);
    var te :- teVals;
    var t := LayerThickness(spars[k].name, Field(s, Lift(te)));
    TeLayerKeepsSpars(layers, sparVar, vals, s, spars, k, t);
    TeLayerKeepsOthers(layers, sparVar, vals, s, spars, k, t);
    Ok(spars[k := t])
  }

  /** In `out`, every layer a spar cap name finds, other than the layer `te`, holds `f`. */
  predicate SparLayersSet(layers: seq<LayerThickness>, sparVar: seq<string>, te: Result<nat>, f: Field,
                          out: seq<LayerThickness>)
    requires |out| == |layers|
  {
    forall q :: 0 <= q < |sparVar| && FindLayer(layers, sparVar[q]) != te ==>
      FindLayer(layers, sparVar[q]).Ok? && out[FindLayer(layers, sparVar[q]).value].thickness == f
  }

  /** In `out`, every layer found neither as `te` nor by a spar cap name is as in `layers`. */
  predicate OtherLayersKept(layers: seq<LayerThickness>, sparVar: seq<string>, te: Result<nat>, out: seq<LayerThickness>)
    requires |out| == |layers|
  {
    forall k :: 0 <= k < |layers| && te != Ok(k) && (forall q :: 0 <= q < |sparVar| ==> FindLayer(layers, sparVar[q]) != Ok(k)) ==>
      out[k] == layers[k]
  }

  /** After the spar cap update, setting the TE layer `k` leaves every spar cap layer other
      than the TE one as the update set it. */
  lemma TeLayerKeepsSpars(layers: seq<LayerThickness>, sparVar: seq<string>, vals: Result<seq<real>>, s: seq<real>,
                          spars: seq<LayerThickness>, k: nat, t: LayerThickness)
    requires SparThicknesses(layers, sparVar, vals, s, |sparVar|) == Ok(spars) && k < |spars|
    ensures |sparVar| > 0 ==> vals.Ok? && SparLayersSet(layers, sparVar, Ok(k), Field(s, Lift(vals.value)), spars[k := t])
  {
    SparThicknessesSetNamedLayers(layers, sparVar, vals, s, spars);
    if |sparVar| > 0 {
      assert FindLayer(layers, sparVar[0]).Ok? && vals.Ok?;
    }
  }

  /** After the spar cap update, setting the TE layer `k` leaves every layer no name finds
      unchanged. */
  lemma TeLayerKeepsOthers(layers: seq<LayerThickness>, sparVar: seq<string>, vals: Result<seq<real>>, s: seq<real>,
                           spars: seq<LayerThickness>, k: nat, t: LayerThickness)
    requires SparThicknesses(layers, sparVar, vals, s, |sparVar|) == Ok(spars) && k < |spars|
    ensures OtherLayersKept(layers, sparVar, Ok(k), spars[k := t])
  {
    SparThicknessesKeepOtherLayers(layers, sparVar, vals, s, spars);
  }

  /** `update_planform`: the control grid rebuilt if it is the default one, then the
      planform and the composite layer thicknesses sampled back onto `s`. */
  function UpdatePlanform(pf: Planform, c: CtrlPts, airfoilGrid: seq<real>, labels: seq<string>, thk: map<string, real>,
                          layers: seq<LayerThickness>, sparVar: seq<string>, teVar: string, nInput: int, fit: Fit)
    : (r: Result<(Planform, CtrlPts, seq<LayerThickness>)>)
    ensures r.Ok? ==> RebuiltGrid(c, nInput) == Ok(r.value.1.rIn) && r.value.1 == c.(rIn := r.value.1.rIn)
    ensures r.Ok? ==> UpdatedShape(pf, c, r.value.1.rIn, airfoilGrid, labels, thk, fit) == Ok(r.value.0)
    ensures r.Ok? ==> UpdatedLayers(layers, sparVar, teVar, r.value.1.rIn, c, pf.s, fit) == Ok(r.value.2)
  {
    var rIn :- RebuiltGrid(c, nInput);
    var shape :- UpdatedShape(pf, c, rIn, airfoilGrid, labels, thk, fit);
    var updated :- UpdatedLayers(layers, sparVar, teVar, rIn, c, pf.s, fit);
    Ok((shape, c.(rIn := rIn), updated))
  }

  /** Control points computed with the default grid cannot be fed straight back: rebuilding
      the grid indexes the stored number `r_max_chord`, which raises (IndexError for the
      computed numpy scalar, TypeError for a given float), until it is replaced by an
      array. */
  lemma UpdateAfterDefaultCalcFails(pf: Planform, layers: seq<LayerThickness>, sparVar: seq<string>, teVar: string,
                                    rMaxChord: real, nInput: int, fit: Fit, c: CtrlPts,
                                    pf': Planform, airfoilGrid: seq<real>, labels: seq<string>, thk: map<string, real>)
    requires |pf.chord| == |pf.s| && |pf.rthick| == |pf.s|
    requires CalcControlPoints(pf, layers, sparVar, teVar, [], rMaxChord, nInput, fit) == Ok(c)
    ensures UpdatePlanform(pf', c, airfoilGrid, labels, thk, layers, sparVar, teVar, nInput, fit) ==
              Err(if rMaxChord == 0.0 then IndexError else TypeError)
  {
  }

  /** The grid rebuild as evidently intended: `r_max_chord` read as the number it is, or as
      the first entry of the array written back in its place. */
  function IntendedRebuiltGrid(c: CtrlPts, nInput: int): (r: Result<seq<real>>)
    ensures !c.updateRIn ==> r == Ok(c.rIn)
    ensures c.updateRIn && c.rMaxChord.Scalar? ==> r == DefaultGrid(c.rCylinder, c.rMaxChord.x, nInput)
    ensures c.rMaxChord.Vector? ==> r == RebuiltGrid(c, nInput)
  {
    if !c.updateRIn then Ok(c.rIn)
    else match c.rMaxChord
      case Scalar(x, _) => DefaultGrid(c.rCylinder, x, nInput)
      case Vector(v) => if |v| == 0 then Err(IndexError) else DefaultGrid(c.rCylinder, v[0], nInput)
  }

  /** With the intended rebuild, control points computed on any grid give back the grid
      they were sampled on, whether `r_max_chord` was computed or given. */
  lemma IntendedRebuiltGridReproducesCalc(pf: Planform, layers: seq<LayerThickness>, sparVar: seq<string>, teVar: string,
                                          rIn: seq<real>, rMaxChord: real, nInput: int, fit: Fit, c: CtrlPts)
    requires |pf.chord| == |pf.s| && |pf.rthick| == |pf.s|
    requires CalcControlPoints(pf, layers, sparVar, teVar, rIn, rMaxChord, nInput, fit) == Ok(c)
    ensures IntendedRebuiltGrid(c, nInput) == Ok(c.rIn)
  {
  }
}
