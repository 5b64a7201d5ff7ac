/** The planform remap (`ReferenceBlade.remap_planform`): every spanwise distribution of the
    outer shape is interpolated onto the spanwise grid `s`, and the relative thickness is
    flattened after the first station that reaches the thinnest reference airfoil. */
module Planform {
  import opened Numerics
  import opened Interpolation

  /** A spanwise distribution given on its own grid (`grid`, `values`). */
  datatype Curve = Curve(grid: seq<real>, values: seq<real>)

  /** The outer shape of the blade definition: chord, twist, pitch axis, the three reference
      axis coordinates, and the spanwise airfoil positions with their labels. */
  datatype OuterShape = OuterShape(
    chord: Curve, twist: Curve, pitchAxis: Curve,
    refX: Curve, refY: Curve, refZ: Curve,
    airfoilGrid: seq<real>, airfoilLabels: seq<string>)

  /** The planform on the spanwise grid (`blade['pf']`). */
  datatype Planform = Planform(
    s: seq<real>, chord: seq<real>, theta: seq<real>, pLe: seq<real>, r: seq<real>,
    precurve: seq<real>, presweep: seq<real>, rthick: seq<real>)

  /** `[af_ref[af]['relative_thickness'] for af in labels]`: a label missing from the
      reference airfoils raises KeyError. */
  function ThicknessOf(labels: seq<string>, thk: map<string, real>): (r: Result<seq<real>>)
    ensures r.Ok? <==> forall l :: l in labels ==> l in thk
    ensures r.Err? ==> r.error == KeyError
    ensures r.Ok? ==> |r.value| == |labels| && forall i :: 0 <= i < |labels| ==> r.value[i] == thk[labels[i]]
  {
    if labels == [] then Ok([])
    else if labels[0] !in thk then Err(KeyError)
    else
      match ThicknessOf(labels[1..], thk)
      case Err(e) => Err(e)
      case Ok(rest) =>
        assert forall l :: l in labels ==> l == labels[0] || l in labels[1..];
        Ok([thk[labels[0]]] + rest)
  }

  /** The first station holding exactly `m`. */
  function FirstEqual(t: seq<real>, m: real): (r: Option<nat>)
    ensures r.Some? ==> r.value < |t| && t[r.value] == m && forall j :: 0 <= j < r.value ==> t[j] != m
    ensures r.None? ==> m !in t
  {
    if t == [] then None
    else if t[0] == m then Some(0)
    else match FirstEqual(t[1..], m)
      case None => None
      case Some(k) => Some(k + 1)
  }

  /** The smoothing after the minimum thickness: every station after the first one equal to
      `m` becomes `m`; that station and those before it are kept; without such a station
      nothing changes. */
  function Flatten(t: seq<real>, m: real): (r: seq<real>)
    ensures |r| == |t|
    ensures m !in t ==> r == t
    ensures forall k :: 0 <= k < |t| && t[k] == m && (forall j :: 0 <= j < k ==> t[j] != m) ==>
              (forall i :: 0 <= i <= k ==> r[i] == t[i]) && (forall i :: k < i < |t| ==> r[i] == m)
  {
    match FirstEqual(t, m)
    case None => t
    case Some(k) => seq(|t|, i requires 0 <= i < |t| => if i > k then m else t[i])
  }

  /** Flattening twice is flattening once. */
  lemma FlattenIdempotent(t: seq<real>, m: real)
    ensures Flatten(Flatten(t, m), m) == Flatten(t, m)
  {
    match FirstEqual(t, m)
    case None =>
    case Some(k) =>
      var f := Flatten(t, m);
      assert f[k] == m;
      assert forall j :: 0 <= j < k ==> f[j] != m;
  }

  /** The spanwise relative thickness: the reference airfoils' thicknesses interpolated from
      the airfoil positions onto `s`, then flattened after the thinnest one is reached. */
  function RelativeThickness(airfoilGrid: seq<real>, labels: seq<string>, thk: map<string, real>, s: seq<real>, fit: Fit): (r: Result<seq<real>>)
    ensures r.Ok? ==> |r.value| == |s| && ThicknessOf(labels, thk).Ok? && |labels| > 0
    ensures r.Ok? ==> forall i :: 0 <= i < |s| ==>
              SeqMin(ThicknessOf(labels, thk).value) <= r.value[i] <= SeqMax(ThicknessOf(labels, thk).value)
    ensures r.Ok? ==> forall i, j :: 0 <= i < j < |s| && r.value[i] == SeqMin(ThicknessOf(labels, thk).value) ==>
              r.value[j] == SeqMin(ThicknessOf(labels, thk).value)
  {
    var thkRef :- ThicknessOf(labels, thk);
    var t :- Remap2Grid(airfoilGrid, thkRef, s, fit);
    var m := SeqMin(thkRef);
    FlattenStaysAtMinimum(t, m);
    Ok(Flatten(t, m))
  }

  /** Once a flattened distribution reaches `m` it stays there. */
  lemma FlattenStaysAtMinimum(t: seq<real>, m: real)
    ensures forall i, j :: 0 <= i < j < |t| && Flatten(t, m)[i] == m ==> Flatten(t, m)[j] == m
  {
    var r := Flatten(t, m);
    match FirstEqual(t, m)
    case None =>
    case Some(k) =>
      forall i, j | 0 <= i < j < |t| && r[i] == m ensures r[j] == m {
        assert k < j;
      }
  }

  /** One distribution interpolated onto `s` (`remap2grid(grid, values, s)`). */
  function RemapCurve(c: Curve, s: seq<real>, fit: Fit): (r: Result<seq<real>>)
    ensures r.Ok? <==> FitEither(fit, c.grid, c.values).Ok?
    ensures r.Err? ==> r.error == ValueError
    ensures r.Ok? ==> |r.value| == |s| && |c.values| > 0
    ensures r.Ok? ==> forall i :: 0 <= i < |s| ==> SeqMin(c.values) <= r.value[i] <= SeqMax(c.values)
  {
    Remap2Grid(c.grid, c.values, s, fit)
  }

  /** `remap_planform`: chord, twist (in degrees), pitch axis, span position, precurve (the
      reference axis `x`, negated), presweep and relative thickness on the grid `s`. The
      twist conversion `np.degrees` is the parameter `degrees`. */
  function RemapPlanform(shape: OuterShape, s: seq<real>, thk: map<string, real>, fit: Fit, degrees: real -> real): (r: Result<Planform>)
    ensures r.Ok? ==> r.value.s == s
    ensures r.Ok? ==> |r.value.chord| == |r.value.theta| == |r.value.pLe| == |r.value.r| == |s|
    ensures r.Ok? ==> |r.value.precurve| == |r.value.presweep| == |r.value.rthick| == |s|
    ensures r.Ok? ==> |shape.chord.values| > 0 && forall i :: 0 <= i < |s| ==>
              SeqMin(shape.chord.values) <= r.value.chord[i] <= SeqMax(shape.chord.values)
    ensures r.Ok? ==> |shape.refX.values| > 0 && forall i :: 0 <= i < |s| ==>
              -SeqMax(shape.refX.values) <= r.value.precurve[i] <= -SeqMin(shape.refX.values)
    ensures r.Ok? ==> RelativeThickness(shape.airfoilGrid, shape.airfoilLabels, thk, s, fit) == Ok(r.value.rthick)
    ensures r.Ok? <==> RemapCurve(shape.chord, s, fit).Ok? && RemapCurve(shape.twist, s, fit).Ok? &&
                       RemapCurve(shape.pitchAxis, s, fit).Ok? && RemapCurve(shape.refZ, s, fit).Ok? &&
                       RemapCurve(shape.refX, s, fit).Ok? && RemapCurve(shape.refY, s, fit).Ok? &&
                       RelativeThickness(shape.airfoilGrid, shape.airfoilLabels, thk, s, fit).Ok?
    ensures r.Ok? ==> RemapCurve(shape.chord, s, fit) == Ok(r.value.chord) &&
                      RemapCurve(shape.pitchAxis, s, fit) == Ok(r.value.pLe) &&
                      RemapCurve(shape.refZ, s, fit) == Ok(r.value.r) &&
                      RemapCurve(shape.refY, s, fit) == Ok(r.value.presweep)
    ensures r.Ok? ==> forall i :: 0 <= i < |s| ==>
              r.value.theta[i] == degrees(RemapCurve(shape.twist, s, fit).value[i]) &&
              r.value.precurve[i] == -RemapCurve(shape.refX, s, fit).value[i]
  {
    var chord :- RemapCurve(shape.chord, s, fit);
    var twist :- RemapCurve(shape.twist, s, fit);
    var pLe :- RemapCurve(shape.pitchAxis, s, fit);
    var r :- RemapCurve(shape.refZ, s, fit);
    var x :- RemapCurve(shape.refX, s, fit);
    var presweep :- RemapCurve(shape.refY, s, fit);
    var rthick :- RelativeThickness(shape.airfoilGrid, shape.airfoilLabels, thk, s, fit);
    Ok(Planform(s, chord, Map(twist, degrees), pLe, r, Negated(x), presweep, rthick))
  }

  /** Every entry negated: the precurve is minus the reference axis `x`. */
  function Negated(x: seq<real>): (r: seq<real>)
    ensures |r| == |x| && forall i :: 0 <= i < |x| ==> r[i] + x[i] == 0.0
  {
    seq(|x|, i requires 0 <= i < |x| => -x[i])
  }

  /** A conversion applied entry by entry. */
  function Map(x: seq<real>, f: real -> real): (r: seq<real>)
    ensures |r| == |x| && forall i :: 0 <= i < |x| ==> r[i] == f(x[i])
  {
    seq(|x|, i requires 0 <= i < |x| => f(x[i]))
  }
}
