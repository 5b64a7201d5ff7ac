/** The module-level helpers of the blade geometry: `remap2grid` (spline interpolation onto a
    new grid, clamped to the reference range), `remapAirfoil`, `arc_length` and
    `trailing_edge_smoothing`. Splines and the square root are abstract: a spline
    constructor is a parameter that either rejects its reference points or yields a curve. */
module Interpolation {
  import opened Numerics

  /** An evaluated spline. */
  type Spline = real -> real

  /** A spline constructor (`PchipInterpolator`, `interp1d`): the curve through the reference
      points, or None where the constructor raises (PCHIP wants strictly increasing abscissae). */
  type Fit = (seq<real>, seq<real>) -> Option<Spline>

  function Reverse(s: seq<real>): (r: seq<real>)
    ensures |r| == |s|
    ensures forall i :: 0 <= i < |s| ==> r[i] == s[|s| - 1 - i]
  {
    seq(|s|, i requires 0 <= i < |s| => s[|s| - 1 - i])
  }

  /** Reversing keeps the elements. */
  lemma ReverseKeepsElements(s: seq<real>)
    ensures forall x :: x in Reverse(s) <==> x in s
  {
    var r := Reverse(s);
    forall x | x in s ensures x in r {
      var i :| 0 <= i < |s| && s[i] == x;
      assert r[|s| - 1 - i] == x;
    }
  }

  /** Two lists with the same elements have the same extremes. */
  lemma SameExtremes(a: seq<real>, b: seq<real>)
    requires |a| > 0 && |b| > 0 && forall x :: x in a <==> x in b
    ensures SeqMin(a) == SeqMin(b) && SeqMax(a) == SeqMax(b)
  {
    assert SeqMin(a) in b && SeqMin(b) in a;
    assert SeqMax(a) in b && SeqMax(b) in a;
  }

  /** The two `np.place` calls: a value below `lo` becomes `lo`, above `hi` becomes `hi`. */
  function Clamp(v: real, lo: real, hi: real): (r: real)
    requires lo <= hi
    ensures lo <= r <= hi
    ensures lo <= v <= hi ==> r == v
    ensures v < lo ==> r == lo
    ensures v > hi ==> r == hi
  {
    if v < lo then lo else if v > hi then hi else v
  }

  /** The reference points a spline was built on (flipped when the first attempt raised),
      and the spline. */
  datatype Fitted = Fitted(xRef: seq<real>, yRef: seq<real>, spline: Spline)

  /** The `try`/`except` around the spline constructor: on failure it retries on both lists
      reversed, and a second failure propagates (ValueError). Empty reference lists raise. */
  function FitEither(fit: Fit, xRef: seq<real>, yRef: seq<real>): (r: Result<Fitted>)
    ensures r.Ok? <==> |xRef| > 0 && |yRef| > 0 && (fit(xRef, yRef).Some? || fit(Reverse(xRef), Reverse(yRef)).Some?)
    ensures r.Ok? && fit(xRef, yRef).Some? ==> r.value == Fitted(xRef, yRef, fit(xRef, yRef).value)
    ensures r.Ok? && fit(xRef, yRef).None? ==>
              r.value == Fitted(Reverse(xRef), Reverse(yRef), fit(Reverse(xRef), Reverse(yRef)).value)
    ensures r.Err? ==> r.error == ValueError
  {
    if |xRef| == 0 || |yRef| == 0 then Err(ValueError)
    else match fit(xRef, yRef)
      case Some(s) => Ok(Fitted(xRef, yRef, s))
      case None =>
        match fit(Reverse(xRef), Reverse(yRef))
        case Some(s) => Ok(Fitted(Reverse(xRef), Reverse(yRef), s))
        case None => Err(ValueError)
  }

  /** The spline's reference values, flipped or not, have the extremes of `y_ref`. */
  lemma FittedExtremes(fit: Fit, xRef: seq<real>, yRef: seq<real>)
    requires FitEither(fit, xRef, yRef).Ok?
    ensures var f := FitEither(fit, xRef, yRef).value;
            |f.xRef| > 0 && |f.yRef| > 0 && SeqMin(f.yRef) == SeqMin(yRef) && SeqMax(f.yRef) == SeqMax(yRef)
  {
    var f := FitEither(fit, xRef, yRef).value;
    ReverseKeepsElements(yRef);
    SameExtremes(yRef, f.yRef);
  }

  /** The query snap of the array form: a last query past every reference abscissa yet
      `isclose` to the last one is moved onto it. */
  function SnapLast(q: seq<real>, xRef: seq<real>): (r: seq<real>)
    requires |xRef| > 0
  {
    if |q| > 0 && q[|q| - 1] > SeqMax(xRef) && IsClose(q[|q| - 1], xRef[|xRef| - 1])
    then q[|q| - 1 := xRef[|xRef| - 1]]
    else q
  }

  /** `remap2grid` on a list of queries: the spline through the reference points evaluated at
      every query, clamped to `[min(y_ref), max(y_ref)]`. */
  function Remap2Grid(xRef: seq<real>, yRef: seq<real>, x: seq<real>, fit: Fit): (r: Result<seq<real>>)
    ensures r.Ok? <==> FitEither(fit, xRef, yRef).Ok?
    ensures r.Err? ==> r.error == ValueError
    ensures r.Ok? ==> |r.value| == |x|
    ensures r.Ok? ==> forall i :: 0 <= i < |x| ==> SeqMin(yRef) <= r.value[i] <= SeqMax(yRef)
  {
    match FitEither(fit, xRef, yRef)
    case Err(e) => Err(e)
    case Ok(f) =>
      FittedExtremes(fit, xRef, yRef);
      var q := SnapLast(x, f.xRef);
      var lo, hi := SeqMin(f.yRef), SeqMax(f.yRef);
      Ok(seq(|x|, i requires 0 <= i < |x| => Clamp(f.spline(q[i]), lo, hi)))
  }

  /** Where the spline stays inside the reference range it is returned unchanged; the last
      query is evaluated at the last (possibly flipped) reference abscissa when it lies just
      past it, and at itself otherwise. */
  lemma Remap2GridEvaluates(xRef: seq<real>, yRef: seq<real>, x: seq<real>, fit: Fit, i: nat)
    requires FitEither(fit, xRef, yRef).Ok? && i < |x|
    ensures var f := FitEither(fit, xRef, yRef).value;
            var at := if i == |x| - 1 && x[i] > SeqMax(f.xRef) && IsClose(x[i], f.xRef[|f.xRef| - 1])
                      then f.xRef[|f.xRef| - 1] else x[i];
            Remap2Grid(xRef, yRef, x, fit).value[i] == Clamp(f.spline(at), SeqMin(yRef), SeqMax(yRef))
  {
    FittedExtremes(fit, xRef, yRef);
  }

  /** `remap2grid` on one query (the `except` branch, taken when `x` is not iterable): a query
      `isclose` to 0 becomes 0, then the same snap onto the last reference abscissa. */
  function Remap2GridScalar(xRef: seq<real>, yRef: seq<real>, x: real, fit: Fit): (r: Result<real>)
    ensures r.Ok? <==> FitEither(fit, xRef, yRef).Ok?
    ensures r.Ok? ==> SeqMin(yRef) <= r.value <= SeqMax(yRef)
  {
    match FitEither(fit, xRef, yRef)
    case Err(e) => Err(e)
    case Ok(f) =>
      FittedExtremes(fit, xRef, yRef);
      var x0 := if IsClose(x, 0.0) then 0.0 else x;
      var x1 := if x0 > SeqMax(f.xRef) && IsClose(x0, f.xRef[|f.xRef| - 1]) then f.xRef[|f.xRef| - 1] else x0;
      Ok(Clamp(f.spline(x1), SeqMin(f.yRef), SeqMax(f.yRef)))
  }

  /** A query near zero is evaluated exactly at zero. */
  lemma Remap2GridScalarSnapsZero(xRef: seq<real>, yRef: seq<real>, x: real, fit: Fit)
    requires FitEither(fit, xRef, yRef).Ok? && IsClose(x, 0.0)
    ensures Remap2GridScalar(xRef, yRef, x, fit) == Remap2GridScalar(xRef, yRef, 0.0, fit)
  {
    assert IsClose(0.0, 0.0);
  }

  // ---------------------------------------------------------------------------------------
  // remapAirfoil

  /** The abscissae with the first `k` negated (`x[:k] *= -1`). */
  function NegatePrefix(x: seq<real>, k: nat): (r: seq<real>)
  {
    seq(|x|, i requires 0 <= i < |x| => if i < k then -x[i] else x[i])
  }

  /** `np.argmin`: the first index holding the smallest value. */
  function FirstArgMin(x: seq<real>): (k: nat)
    requires |x| > 0
    ensures k < |x| && x[k] == SeqMin(x)
    ensures forall i :: 0 <= i < k ==> x[i] > x[k]
  {
    if |x| == 1 then 0
    else if x[0] <= SeqMin(x[1..]) then
      assert forall y :: y in x ==> y == x[0] || y in x[1..];
      0
    else
      assert forall y :: y in x ==> y == x[0] || y in x[1..];
      assert x[1..][FirstArgMin(x[1..])] == x[1 + FirstArgMin(x[1..])];
      1 + FirstArgMin(x[1..])
  }

  /** `np.argmax`: the first index holding the largest value. */
  function FirstArgMax(x: seq<real>): (k: nat)
    requires |x| > 0
    ensures k < |x| && x[k] == SeqMax(x)
    ensures forall i :: 0 <= i < k ==> x[i] < x[k]
  {
    if |x| == 1 then 0
    else if x[0] >= SeqMax(x[1..]) then
      assert forall y :: y in x ==> y == x[0] || y in x[1..];
      0
    else
      assert forall y :: y in x ==> y == x[0] || y in x[1..];
      assert x[1..][FirstArgMax(x[1..])] == x[1 + FirstArgMax(x[1..])];
      1 + FirstArgMax(x[1..])
  }

  /** The first `i` with `x[i+1] - x[i] > 0`. */
  function FirstRise(x: seq<real>): (r: Option<nat>)
    ensures r.Some? ==> r.value + 1 < |x| && x[r.value + 1] - x[r.value] > 0.0
    ensures r.Some? ==> forall i :: 0 <= i < r.value ==> x[i + 1] - x[i] <= 0.0
    ensures r.None? ==> forall i :: 0 <= i < |x| - 1 ==> x[i + 1] - x[i] <= 0.0
  {
    if |x| < 2 then None
    else if x[1] - x[0] > 0.0 then Some(0)
    else match FirstRise(x[1..])
      case None => None
      case Some(j) => Some(j + 1)
  }

  /** `remapAirfoil`: unfolds a surface given trailing edge to leading edge to trailing edge
      into one increasing abscissa by negating the points before the leading edge (the
      smallest `x`), unfolds the queries the same way up to their first rise, and remaps. An
      empty surface raises ValueError (`argmin`), queries that never rise IndexError. */
  function RemapAirfoil(xRef: seq<real>, yRef: seq<real>, x0: seq<real>, fit: Fit): (r: Result<seq<real>>)
    ensures |xRef| == 0 ==> r == Err(ValueError)
    ensures |xRef| > 0 && FirstRise(x0).None? ==> r == Err(IndexError)
    ensures r.Ok? ==> |r.value| == |x0| && |yRef| > 0 && forall i :: 0 <= i < |x0| ==> SeqMin(yRef) <= r.value[i] <= SeqMax(yRef)
  {
    if |xRef| == 0 then Err(ValueError)
    else
      var le := FirstArgMin(xRef);
      match FirstRise(x0)
      case None => Err(IndexError)
      case Some(idx) => Remap2Grid(NegatePrefix(xRef, le), yRef, NegatePrefix(x0, idx), fit)
  }

  /** Why the unfolding works: for a surface with non-negative abscissae that fall strictly to
      the leading edge and then rise strictly, the unfolded abscissae rise strictly, so PCHIP
      accepts them without the flip. */
  lemma UnfoldedSurfaceIncreases(x: seq<real>)
    requires |x| > 0
    requires forall i :: 0 <= i < |x| ==> x[i] >= 0.0
    requires forall i :: 0 <= i < FirstArgMin(x) ==> x[i] > x[i + 1]
    requires forall i :: FirstArgMin(x) <= i < |x| - 1 ==> x[i] < x[i + 1]
    ensures StrictlyIncreasing(NegatePrefix(x, FirstArgMin(x)))
  {
    var le := FirstArgMin(x);
    var u := NegatePrefix(x, le);
    forall i | 0 <= i < |u| - 1 ensures u[i] < u[i + 1] {
      if i + 1 < le {
        assert x[i] > x[i + 1];
      } else if i + 1 == le {
        assert u[i] == -x[i] && x[i] > 0.0;
      }
    }
    ChainIncreasing(u);
  }

  /** Consecutive increases make a strictly increasing list. */
  lemma {:induction false} ChainIncreasing(u: seq<real>)
    requires forall i :: 0 <= i < |u| - 1 ==> u[i] < u[i + 1]
    ensures StrictlyIncreasing(u)
  {
    if |u| > 1 {
      ChainIncreasing(u[1..]);
      forall j | 1 <= j < |u| ensures u[0] < u[j] {
        assert u[1..][0] <= u[1..][j - 1];
      }
      forall i, j | 0 <= i < j < |u| ensures u[i] < u[j] {
        if i > 0 {
          assert u[1..][i - 1] < u[1..][j - 1];
        }
      }
    }
  }

  // ---------------------------------------------------------------------------------------
  // arc_length

  /** Length of segment `k - 1 .. k`: `sqrt(dx² + dy² + dz²)` when `z` is as long as `x`,
      else `sqrt(dx² + dy²)`. */
  function SegmentLength(x: seq<real>, y: seq<real>, z: seq<real>, k: nat, sqrt: real -> real): real
    requires 1 <= k < |x| && k < |y|
  {
    var dx, dy := x[k] - x[k - 1], y[k] - y[k - 1];
    if |z| == |x| then sqrt(dx * dx + dy * dy + (z[k] - z[k - 1]) * (z[k] - z[k - 1]))
    else sqrt(dx * dx + dy * dy)
  }

  /** The first `m` cumulative arc lengths. */
  function Arc(x: seq<real>, y: seq<real>, z: seq<real>, sqrt: real -> real, m: nat): (r: seq<real>)
    requires m <= |x| && (m >= 2 ==> m <= |y|)
    ensures |r| == m
  {
    if m == 0 then []
    else if m == 1 then [0.0]
    else
      var prev := Arc(x, y, z, sqrt, m - 1);
      prev + [prev[m - 2] + SegmentLength(x, y, z, m - 1, sqrt)]
  }

  /** One more point extends the arc by the next segment. */
  lemma ArcStep(x: seq<real>, y: seq<real>, z: seq<real>, sqrt: real -> real, k: nat, prev: seq<real>, v: real)
    requires 1 <= k < |x| && k < |y|
    requires prev == Arc(x, y, z, sqrt, k) && v == prev[k - 1] + SegmentLength(x, y, z, k, sqrt)
    ensures Arc(x, y, z, sqrt, k + 1) == prev + [v]
  {
  }

  /** With a square root that is never negative, the arc starts at 0 and never decreases. */
  lemma {:induction false} ArcNonDecreasing(x: seq<real>, y: seq<real>, z: seq<real>, sqrt: real -> real, m: nat)
    requires m <= |x| && |y| >= |x|
    requires forall t :: 0.0 <= t ==> 0.0 <= sqrt(t)
    ensures m > 0 ==> Arc(x, y, z, sqrt, m)[0] == 0.0
    ensures NonDecreasing(Arc(x, y, z, sqrt, m))
  {
    if m > 1 {
      ArcNonDecreasing(x, y, z, sqrt, m - 1);
      var prev := Arc(x, y, z, sqrt, m - 1);
      var dx, dy := x[m - 1] - x[m - 2], y[m - 1] - y[m - 2];
      assert 0.0 <= dx * dx + dy * dy;
      if |z| == |x| {
        var dz := z[m - 1] - z[m - 2];
        assert 0.0 <= dx * dx + dy * dy + dz * dz;
      }
      assert SegmentLength(x, y, z, m - 1, sqrt) >= 0.0;
      assert forall i :: 0 <= i < m - 1 ==> prev[i] <= prev[m - 2];
    }
  }

  /** The station's arc positions divided by its total length (`profile_i_arc /= arc_L`, as
      read at the leading edge for `LE_loc`) lie in `[0, 1]`. */
  lemma ArcFractionInUnit(x: seq<real>, y: seq<real>, z: seq<real>, sqrt: real -> real, i: nat)
    requires |y| >= |x| && i < |x|
    requires forall t :: 0.0 <= t ==> 0.0 <= sqrt(t)
    requires Arc(x, y, z, sqrt, |x|)[|x| - 1] > 0.0
    ensures 0.0 <= Arc(x, y, z, sqrt, |x|)[i] / Arc(x, y, z, sqrt, |x|)[|x| - 1] <= 1.0
  {
    ArcNonDecreasing(x, y, z, sqrt, |x|);
    var a := Arc(x, y, z, sqrt, |x|);
    assert a[0] <= a[i] <= a[|x| - 1];
    DivideAtMost(a[i], a[|x| - 1]);
  }

  lemma DivideAtMost(a: real, b: real)
    requires 0.0 <= a <= b && b > 0.0
    ensures 0.0 <= a / b <= 1.0
  {}

  /** `arc_length`: the cumulative length along the polyline, accumulated in place in an array
      of zeros. A `y` shorter than `x` raises IndexError once the loop reaches its end. */
  method ArcLength(x: seq<real>, y: seq<real>, z: seq<real>, sqrt: real -> real) returns (r: Result<seq<real>>)
    ensures |x| >= 2 && |y| < |x| <==> r == Err(IndexError)
    ensures r.Ok? ==> r.value == Arc(x, y, z, sqrt, |x|)
  {
    var npts := |x|;
    if npts >= 2 && |y| < npts {
      return Err(IndexError);
    }
    var arc := new real[npts](_ => 0.0);
    if npts == 0 {
      return Ok(arc[..]);
    }
    for k := 1 to npts
      invariant arc[..k] == Arc(x, y, z, sqrt, k)
    {
      ghost var prev := arc[..k];
      arc[k] := arc[k - 1] + SegmentLength(x, y, z, k, sqrt);
      ArcStep(x, y, z, sqrt, k, prev, arc[k]);
      assert arc[..k + 1] == prev + [arc[k]];
    }
    assert arc[..] == arc[..npts];
    r := Ok(arc[..]);
  }

  // ---------------------------------------------------------------------------------------
  // trailing_edge_smoothing

  /** The self-crossing correction: when the last point's `y` is below the first's, the two
      are swapped. */
  function SwapEnds(ys: seq<real>): (r: seq<real>)
    requires |ys| > 0
    ensures |r| == |ys| && r[0] <= r[|r| - 1]
    ensures forall i :: 0 < i < |ys| - 1 ==> r[i] == ys[i]
    ensures forall v :: v in r <==> v in ys
  {
    var n := |ys|;
    if ys[n - 1] < ys[0] then
      var r := ys[0 := ys[n - 1]][n - 1 := ys[0]];
      assert forall v :: v in ys ==> v in r by {
        forall v | v in ys ensures v in r {
          var i :| 0 <= i < n && ys[i] == v;
          if i == 0 { assert r[n - 1] == v; } else if i == n - 1 { assert r[0] == v; } else { assert r[i] == v; }
        }
      }
      r
    else ys
  }

  /** Every index in `idx` is a row of an `n`-row profile. */
  predicate InRange(idx: seq<nat>, n: nat) {
    forall j :: 0 <= j < |idx| ==> idx[j] < n
  }

  /** The indices `i` (ascending) with `lo < xs[i] < hi`. */
  function Band(xs: seq<real>, lo: real, hi: real): (r: seq<nat>)
    ensures InRange(r, |xs|)
    ensures forall i :: 0 <= i < |xs| ==> (i in r <==> lo < xs[i] < hi)
  {
    if xs == [] then []
    else
      var rest := Band(xs[..|xs| - 1], lo, hi);
      var i := |xs| - 1;
      if lo < xs[i] < hi then rest + [i] else rest
  }

  /** The split point between the suction-side and the pressure-side run of a band: one past
      the first gap in the index list. */
  function BreakAt(idx: seq<nat>): (r: Option<nat>)
    ensures r.Some? ==> 0 < r.value < |idx| && idx[r.value - 1] + 1 < idx[r.value]
    ensures r.None? ==> forall j :: 0 < j < |idx| ==> idx[j] <= idx[j - 1] + 1
  {
    if |idx| < 2 then None
    else if idx[0] + 1 < idx[1] then Some(1)
    else match BreakAt(idx[1..])
      case None => None
      case Some(j) => Some(j + 1)
  }

  /** The two runs of a band split at `k`, and the reference rows of each side. */
  lemma SplitInRange(idx: seq<nat>, k: nat, n: nat)
    requires InRange(idx, n) && k <= |idx| && n > 0
    ensures InRange(idx[..k], n) && InRange(idx[k..], n)
    ensures InRange(idx[k..] + [n - 1], n) && InRange([0] + idx[..k], n)
    ensures forall i :: i in idx <==> i in idx[..k] || i in idx[k..]
  {
    assert idx == idx[..k] + idx[k..];
  }

  function Pick(s: seq<real>, idx: seq<nat>): (r: seq<real>)
    requires InRange(idx, |s|)
    ensures |r| == |idx|
    ensures forall v :: v in r ==> v in s
  {
    seq(|idx|, j requires 0 <= j < |idx| => s[idx[j]])
  }

  /** Re-interpolates the rows `outIdx` from the rows `inIdx`; the new values stay within the
      `y` range of the profile. */
  function Resample(xs: seq<real>, ys: seq<real>, inIdx: seq<nat>, outIdx: seq<nat>, fit: Fit): (r: Result<seq<real>>)
    requires |xs| == |ys| > 0 && InRange(inIdx, |xs|) && InRange(outIdx, |xs|) && |inIdx| > 0
    ensures r.Ok? ==> |r.value| == |outIdx|
    ensures r.Ok? ==> Within(r.value, SeqMin(ys), SeqMax(ys))
  {
    var yRef := Pick(ys, inIdx);
    var r := Remap2Grid(Pick(xs, inIdx), yRef, Pick(xs, outIdx), fit);
    if r.Ok? then
      SubRange(ys, yRef);
      r
    else r
  }

  /** Every value of `s` lies in `[lo, hi]`. */
  predicate Within(s: seq<real>, lo: real, hi: real) {
    forall i :: 0 <= i < |s| ==> lo <= s[i] <= hi
  }

  /** A list lies within its own extremes. */
  lemma WithinExtremes(s: seq<real>)
    requires |s| > 0
    ensures Within(s, SeqMin(s), SeqMax(s))
  {
    forall i | 0 <= i < |s| ensures SeqMin(s) <= s[i] <= SeqMax(s) {
      var v := s[i];
      assert v in s;
    }
  }

  /** The extremes of a sub-list lie within those of the list. */
  lemma SubRange(s: seq<real>, t: seq<real>)
    requires |s| > 0 && |t| > 0 && forall v :: v in t ==> v in s
    ensures SeqMin(s) <= SeqMin(t) && SeqMax(t) <= SeqMax(s)
  {
    assert SeqMin(t) in s && SeqMax(t) in s;
  }

  /** `data[idx, 1] = vals`. */
  function Overwrite(ys: seq<real>, idx: seq<nat>, vals: seq<real>): (r: seq<real>)
    requires |vals| == |idx| && InRange(idx, |ys|)
    ensures |r| == |ys|
    ensures forall i :: 0 <= i < |ys| && i !in idx ==> r[i] == ys[i]
  {
    if idx == [] then ys
    else
      var k := |idx| - 1;
      var prev := Overwrite(ys, idx[..k], vals[..k]);
      assert forall i :: i in idx ==> i in idx[..k] || i == idx[k];
      prev[idx[k] := vals[k]]
  }

  /** Overwriting with values in a range keeps a list in that range. */
  lemma {:induction false} OverwriteWithin(ys: seq<real>, idx: seq<nat>, vals: seq<real>, lo: real, hi: real)
    requires |vals| == |idx| && InRange(idx, |ys|)
    requires Within(ys, lo, hi) && Within(vals, lo, hi)
    ensures Within(Overwrite(ys, idx, vals), lo, hi)
  {
    if idx != [] {
      var k := |idx| - 1;
      OverwriteWithin(ys, idx[..k], vals[..k], lo, hi);
    }
  }

  /** The smoothed `y` column of a profile `xs`, `ys` (trailing edge, suction side, leading
      edge, pressure side, trailing edge): after the swap, the points in the 95-100 % chord
      band of each side are re-interpolated from that side's 85-95 % band and the adjacent
      trailing-edge point. A band without a gap between its two runs raises IndexError. */
  function SmoothedY(xs: seq<real>, ys: seq<real>, fit: Fit): (r: Result<seq<real>>)
    requires |xs| == |ys| > 0
  {
    var n := |xs|;
    var b1, b2 := Band(xs, 0.85, 0.95), Band(xs, 0.95, 1.0);
    match BreakAt(b1)
    case None => Err(IndexError)
    case Some(k1) =>
      match BreakAt(b2)
      case None => Err(IndexError)
      case Some(k2) =>
        SplitInRange(b1, k1, n);
        SplitInRange(b2, k2, n);
        SmoothBands(xs, SwapEnds(ys), b1, b2, k1, k2, fit)
  }

  /** The two re-interpolations (pressure side first) and the overwrite. */
  function SmoothBands(xs: seq<real>, y1: seq<real>, b1: seq<nat>, b2: seq<nat>, k1: nat, k2: nat, fit: Fit): (r: Result<seq<real>>)
    requires |xs| == |y1| > 0 && k1 <= |b1| && k2 <= |b2|
    requires InRange(b1[k1..] + [|xs| - 1], |xs|) && InRange([0] + b1[..k1], |xs|)
    requires InRange(b2[..k2], |xs|) && InRange(b2[k2..], |xs|)
    ensures r.Ok? ==> |r.value| == |y1|
    ensures r.Ok? ==> forall i :: 0 <= i < |y1| && i !in b2[..k2] && i !in b2[k2..] ==> r.value[i] == y1[i]
    ensures r.Ok? ==> Within(r.value, SeqMin(y1), SeqMax(y1))
  {
    match Resample(xs, y1, b1[k1..] + [|xs| - 1], b2[k2..], fit)
    case Err(e) => Err(e)
    case Ok(yPS) =>
      match Resample(xs, y1, [0] + b1[..k1], b2[..k2], fit)
      case Err(e) => Err(e)
      case Ok(ySS) =>
        var m := Overwrite(y1, b2[..k2], ySS);
        var r := Overwrite(m, b2[k2..], yPS);
        WithinExtremes(y1);
        OverwriteWithin(y1, b2[..k2], ySS, SeqMin(y1), SeqMax(y1));
        OverwriteWithin(m, b2[k2..], yPS, SeqMin(y1), SeqMax(y1));
        Ok(r)
  }

  /** The smoothing changes only the `y` of the points strictly inside the 95-100 % band (and
      the swap of the two end points), every new value lies within the profile's `y` range,
      and unless an end point is itself re-interpolated the trailing edge no longer crosses. */
  lemma SmoothedYProperties(xs: seq<real>, ys: seq<real>, fit: Fit)
    requires |xs| == |ys| > 0 && SmoothedY(xs, ys, fit).Ok?
    ensures |SmoothedY(xs, ys, fit).value| == |ys|
    ensures forall i :: 0 < i < |ys| - 1 && !(0.95 < xs[i] < 1.0) ==> SmoothedY(xs, ys, fit).value[i] == ys[i]
    ensures forall i :: 0 <= i < |ys| ==> SeqMin(ys) <= SmoothedY(xs, ys, fit).value[i] <= SeqMax(ys)
    ensures !(0.95 < xs[0] < 1.0) && !(0.95 < xs[|xs| - 1] < 1.0) ==>
              SmoothedY(xs, ys, fit).value[0] <= SmoothedY(xs, ys, fit).value[|ys| - 1]
  {
    var n := |xs|;
    var y1 := SwapEnds(ys);
    SameExtremes(ys, y1);
    var b1, b2 := Band(xs, 0.85, 0.95), Band(xs, 0.95, 1.0);
    var k1, k2 := BreakAt(b1).value, BreakAt(b2).value;
    SplitInRange(b1, k1, n);
    SplitInRange(b2, k2, n);
    var r := SmoothBands(xs, y1, b1, b2, k1, k2, fit);
    assert SmoothedY(xs, ys, fit) == r;
    forall i | 0 <= i < n && !(0.95 < xs[i] < 1.0) ensures r.value[i] == y1[i] {
      assert i !in b2;
    }
  }

  function Column(data: array2<real>, c: nat): (r: seq<real>)
    requires c < data.Length1
    reads data
    ensures |r| == data.Length0 && forall i :: 0 <= i < data.Length0 ==> r[i] == data[i, c]
  {
    seq(data.Length0, i requires 0 <= i < data.Length0 reads data => data[i, c])
  }

  /** `trailing_edge_smoothing`, in place on an `n x 2` profile of `x`, `y` rows. An empty
      profile raises IndexError. On success the `y` column is the smoothed one; on a failure
      the end points may already be swapped, as in the source. */
  method TrailingEdgeSmoothing(data: array2<real>, fit: Fit) returns (err: Option<Error>)
    requires data.Length1 == 2
    modifies data
    ensures Column(data, 0) == old(Column(data, 0))
    ensures data.Length0 == 0 ==> err == Some(IndexError)
    ensures data.Length0 > 0 ==>
              (err.None? <==> SmoothedY(old(Column(data, 0)), old(Column(data, 1)), fit).Ok?)
    ensures data.Length0 > 0 && err.None? ==>
              Column(data, 1) == SmoothedY(old(Column(data, 0)), old(Column(data, 1)), fit).value
    ensures data.Length0 > 0 && err.Some? ==>
              err.value == SmoothedY(old(Column(data, 0)), old(Column(data, 1)), fit).error
  {
    var n := data.Length0;
    if n == 0 {
      return Some(IndexError);
    }
    var xs := Column(data, 0);
    ghost var ys := Column(data, 1);
    if data[n - 1, 1] < data[0, 1] {
      var temp := data[0, 1];
      data[0, 1] := data[n - 1, 1];
      data[n - 1, 1] := temp;
    }
    assert Column(data, 1) == SwapEnds(ys);
    assert Column(data, 0) == xs;
    var y1 := Column(data, 1);
    var b1, b2 := Band(xs, 0.85, 0.95), Band(xs, 0.95, 1.0);
    var k1 := BreakAt(b1);
    if k1.None? {
      return Some(IndexError);
    }
    var k2 := BreakAt(b2);
    if k2.None? {
      return Some(IndexError);
    }
    SplitInRange(b1, k1.value, n);
    SplitInRange(b2, k2.value, n);
    var ps, ss := b2[k2.value..], b2[..k2.value];
    var yPS := Resample(xs, y1, b1[k1.value..] + [n - 1], ps, fit);
    if yPS.Err? {
      return Some(yPS.error);
    }
    var ySS := Resample(xs, y1, [0] + b1[..k1.value], ss, fit);
    if ySS.Err? {
      return Some(ySS.error);
    }
    WriteColumn(data, ss, ySS.value);
    WriteColumn(data, ps, yPS.value);
    err := None;
  }

  /** `data[idx, 1] = vals`, one row at a time. */
  method WriteColumn(data: array2<real>, idx: seq<nat>, vals: seq<real>)
    requires data.Length1 == 2 && |vals| == |idx| && InRange(idx, data.Length0)
    modifies data
    ensures Column(data, 0) == old(Column(data, 0))
    ensures Column(data, 1) == Overwrite(old(Column(data, 1)), idx, vals)
  {
    ghost var c0, c1 := Column(data, 0), Column(data, 1);
    for j := 0 to |idx|
      invariant Column(data, 0) == c0
      invariant Column(data, 1) == Overwrite(c1, idx[..j], vals[..j])
    {
      data[idx[j], 1] := vals[j];
      assert idx[..j + 1][..j] == idx[..j] && vals[..j + 1][..j] == vals[..j];
    }
    assert idx[..|idx|] == idx && vals[..|vals|] == vals;
  }
}
