/** The conversion of the blade into PreComp input (`ReferenceBlade.convert_precomp`): per
    spanwise station the profile is brought into PreComp's trailing-edge-to-trailing-edge
    form, every composite layer is placed on the suction side, the pressure side or a web,
    the three composite sections are stacked, and the regions of the tracked layers are
    reduced to the strain sectors. */
module Precomp {
  import opened Numerics
  import opened Interpolation
  import opened CompositeStack
  import opened WebStack

  // ---------------------------------------------------------------------------------------
  // Profiles

  /** One profile coordinate, chordwise `x` and thickness-wise `y`. */
  datatype Point = Point(x: real, y: real)

  function Xs(p: seq<Point>): (r: seq<real>)
    ensures |r| == |p| && forall i :: 0 <= i < |p| ==> r[i] == p[i].x
  {
    seq(|p|, i requires 0 <= i < |p| => p[i].x)
  }

  function Ys(p: seq<Point>): (r: seq<real>)
    ensures |r| == |p| && forall i :: 0 <= i < |p| ==> r[i] == p[i].y
  {
    seq(|p|, i requires 0 <= i < |p| => p[i].y)
  }

  /** A profile with a chordwise extent to divide by. */
  predicate Spread(p: seq<Point>) {
    |p| > 0 && SeqMin(Xs(p)) < SeqMax(Xs(p))
  }

  /** `x -= min(x)` followed by dividing both coordinates by the new largest `x`. */
  function Normalized(p: seq<Point>): (r: seq<Point>)
    requires Spread(p)
    ensures |r| == |p|
    ensures forall i :: 0 <= i < |p| ==> Unscaled(r[i], SeqMin(Xs(p)), SeqMax(Xs(p)) - SeqMin(Xs(p))) == p[i]
  {
    ScaledBy(p, SeqMin(Xs(p)), SeqMax(Xs(p)) - SeqMin(Xs(p)))
  }

  /** Every point shifted by `lo` and divided by the chord `d`. */
  function ScaledBy(p: seq<Point>, lo: real, d: real): (r: seq<Point>)
    requires d > 0.0
    ensures |r| == |p| && forall i :: 0 <= i < |p| ==> Unscaled(r[i], lo, d) == p[i]
  {
    ScaleEach(p, lo, d);
    seq(|p|, i requires 0 <= i < |p| => Scale(p[i], lo, d))
  }

  /** A normalised point taken back: scaled by the chord `d`, then shifted by `lo`. */
  function Unscaled(q: Point, lo: real, d: real): Point {
    Point(q.x * d + lo, q.y * d)
  }

  /** One point shifted by `lo` and divided by the chord `d`. */
  function Scale(q: Point, lo: real, d: real): Point
    requires d > 0.0
  {
    Point((q.x - lo) / d, q.y / d)
  }

  /** Taking a scaled point back gives the point. */
  lemma ScaleEach(p: seq<Point>, lo: real, d: real)
    requires d > 0.0
    ensures forall i :: 0 <= i < |p| ==> Unscaled(Scale(p[i], lo, d), lo, d) == p[i]
  {
    forall i | 0 <= i < |p| ensures Unscaled(Scale(p[i], lo, d), lo, d) == p[i] {
      assert (p[i].x - lo) / d * d == p[i].x - lo && p[i].y / d * d == p[i].y;
    }
  }

  lemma Scaled(v: real, w: real, lo: real, hi: real)
    requires lo <= v <= hi && lo <= w <= hi && lo < hi
    ensures 0.0 <= (v - lo) / (hi - lo) <= 1.0
    ensures (v - lo) / (hi - lo) == 1.0 <==> v == hi
    ensures (v - lo) / (hi - lo) == 0.0 <==> v == lo
    ensures (v - lo) / (hi - lo) < (w - lo) / (hi - lo) <==> v < w
  {
    var d := hi - lo;
    assert (v - lo) / d * d == v - lo;
    assert (w - lo) / d * d == w - lo;
  }

  lemma ScaledZero(v: real, d: real)
    requires d > 0.0
    ensures v / d == 0.0 <==> v == 0.0
  {
    assert v / d * d == v;
  }

  /** One normalised point: on the unit chord, at 1 exactly when it had the largest `x`, at
      0 exactly when it had the smallest, and on `y = 0` exactly when it was. */
  lemma NormalizedPoint(p: seq<Point>, i: nat)
    requires Spread(p) && i < |p|
    ensures 0.0 <= Normalized(p)[i].x <= 1.0
    ensures Normalized(p)[i].x == 1.0 <==> p[i].x == SeqMax(Xs(p))
    ensures Normalized(p)[i].x == 0.0 <==> p[i].x == SeqMin(Xs(p))
    ensures Normalized(p)[i].y == 0.0 <==> p[i].y == 0.0
  {
    var lo, hi := SeqMin(Xs(p)), SeqMax(Xs(p));
    assert Normalized(p)[i] == Point((p[i].x - lo) / (hi - lo), p[i].y / (hi - lo));
    assert Xs(p)[i] in Xs(p);
    Scaled(p[i].x, p[i].x, lo, hi);
    ScaledZero(p[i].y, hi - lo);
  }

  /** Normalising keeps the chordwise order of the points. */
  lemma NormalizedKeepsOrder(p: seq<Point>, i: nat, j: nat)
    requires Spread(p) && i < |p| && j < |p|
    ensures Normalized(p)[i].x < Normalized(p)[j].x <==> p[i].x < p[j].x
  {
    var lo, hi := SeqMin(Xs(p)), SeqMax(Xs(p));
    assert Normalized(p)[i].x == (p[i].x - lo) / (hi - lo) && Normalized(p)[j].x == (p[j].x - lo) / (hi - lo);
    assert Xs(p)[i] in Xs(p) && Xs(p)[j] in Xs(p);
    Scaled(p[i].x, p[j].x, lo, hi);
  }

  /** Normalising puts the chord on `[0, 1]` and keeps its extent. */
  lemma NormalizedToUnitChord(p: seq<Point>)
    requires Spread(p)
    ensures Spread(Normalized(p))
    ensures SeqMin(Xs(Normalized(p))) == 0.0 && SeqMax(Xs(Normalized(p))) == 1.0
  {
    var r := Normalized(p);
    var lo, hi := SeqMin(Xs(p)), SeqMax(Xs(p));
    var a :| 0 <= a < |p| && Xs(p)[a] == lo;
    var b :| 0 <= b < |p| && Xs(p)[b] == hi;
    NormalizedPoint(p, a);
    NormalizedPoint(p, b);
    assert Xs(r)[a] in Xs(r) && Xs(r)[b] in Xs(r);
    var m := SeqMin(Xs(r));
    var k :| 0 <= k < |r| && Xs(r)[k] == m;
    NormalizedPoint(p, k);
    var m' := SeqMax(Xs(r));
    var k' :| 0 <= k' < |r| && Xs(r)[k'] == m';
    NormalizedPoint(p, k');
  }

  /** The reordering that makes the profile start at its largest `x` (the trailing edge):
      the rows from there on, then the rows before it, leaving out the first row when it
      repeats the last row's `x` (a closed profile). */
  function StartAtTrailingEdge(p: seq<Point>): (r: seq<Point>)
    requires |p| > 0
    ensures |r| > 0 && r[0] == p[FirstArgMax(Xs(p))]
    ensures multiset(r) <= multiset(p) && |p| - 1 <= |r|
  {
    var te := FirstArgMax(Xs(p));
    if te == 0 then p
    else
      var from := if p[0].x == p[|p| - 1].x then 1 else 0;
      RotationWithin(p, from, te);
      p[te..] + p[from..te]
  }

  /** The rows from `te` on, then those from `from` up to `te`, are rows of `p`. */
  lemma RotationWithin(p: seq<Point>, from: nat, te: nat)
    requires from <= te <= |p|
    ensures multiset(p[te..] + p[from..te]) <= multiset(p)
  {
    assert p == p[..from] + p[from..te] + p[te..];
  }

  /** The reordered profile starts at the largest `x` and holds the same `x` values. */
  lemma TrailingEdgeFirst(p: seq<Point>)
    requires |p| > 0
    ensures |StartAtTrailingEdge(p)| > 0 && StartAtTrailingEdge(p)[0].x == SeqMax(Xs(p))
    ensures forall v :: v in Xs(StartAtTrailingEdge(p)) <==> v in Xs(p)
  {
    forall v | v in Xs(p) ensures v in Xs(StartAtTrailingEdge(p)) {
      ReorderKeeps(p, v);
    }
    forall v | v in Xs(StartAtTrailingEdge(p)) ensures v in Xs(p) {
      ReorderAdds(p, v);
    }
  }

  lemma ReorderKeeps(p: seq<Point>, v: real)
    requires |p| > 0 && v in Xs(p)
    ensures v in Xs(StartAtTrailingEdge(p))
  {
    var q := StartAtTrailingEdge(p);
    var te := FirstArgMax(Xs(p));
    if te != 0 {
      var s := if p[0].x == p[|p| - 1].x then 1 else 0;
      assert q == p[te..] + p[s..te];
      var i :| 0 <= i < |p| && Xs(p)[i] == v;
      if i >= te {
        assert Xs(q)[i - te] == v;
      } else if i >= s {
        assert Xs(q)[|p| - te + i - s] == v;
      } else {
        assert Xs(q)[|p| - 1 - te] == v;
      }
    }
  }

  lemma ReorderAdds(p: seq<Point>, v: real)
    requires |p| > 0 && v in Xs(StartAtTrailingEdge(p))
    ensures v in Xs(p)
  {
    var q := StartAtTrailingEdge(p);
    var te := FirstArgMax(Xs(p));
    if te != 0 {
      var s := if p[0].x == p[|p| - 1].x then 1 else 0;
      assert q == p[te..] + p[s..te];
      var k :| 0 <= k < |q| && Xs(q)[k] == v;
      if k < |p| - te {
        assert Xs(p)[k + te] == v;
      } else {
        assert Xs(p)[k - (|p| - te) + s] == v;
      }
    }
  }

  /** `y` lowered by the `y` of the point of smallest `x`. */
  function Lowered(q: seq<Point>, dy: real): (r: seq<Point>)
    ensures |r| == |q| && Xs(r) == Xs(q)
  {
    var r := seq(|q|, i requires 0 <= i < |q| => Point(q[i].x, q[i].y - dy));
    assert forall i :: 0 <= i < |q| ==> Xs(r)[i] == Xs(q)[i];
    r
  }

  /** The reordered profile with its leading edge (first point of smallest `x`) moved to
      `y = 0` and its chord normalised to `[0, 1]`. */
  function Unclosed(p: seq<Point>): (n: seq<Point>)
    requires Spread(p)
    ensures |n| == |StartAtTrailingEdge(p)| > 0
  {
    TrailingEdgeFirst(p);
    var q := StartAtTrailingEdge(p);
    var shifted := Lowered(q, q[FirstArgMin(Xs(q))].y);
    SameExtremes(Xs(shifted), Xs(p));
    Normalized(shifted)
  }

  /** The PreComp profile: the first point repeated at the end when the profile does not
      already end at `x = 1`. */
  function PrecompProfile(p: seq<Point>): (r: seq<Point>)
    requires Spread(p)
    ensures |r| > 0
  {
    Closed(Unclosed(p))
  }

  /** The first point repeated at the end unless the profile already ends at `x = 1`. */
  function Closed(n: seq<Point>): (r: seq<Point>)
    requires |n| > 0
    ensures |n| <= |r| && r[..|n|] == n
  {
    if n[|n| - 1].x != 1.0 then n + [n[0]] else n
  }

  /** `np.argmin` picks `k` when `x[k]` is the minimum and everything before it is larger. */
  lemma FirstArgMinIs(x: seq<real>, k: nat)
    requires k < |x| && x[k] == SeqMin(x)
    requires forall i :: 0 <= i < k ==> x[i] > x[k]
    ensures FirstArgMin(x) == k
  {
    var f := FirstArgMin(x);
    assert x[f] == SeqMin(x);
  }

  /** Before closing, the profile starts at `x = 1`, lies on the unit chord and has its
      leading edge at the origin, at the same index as before normalising. */
  lemma UnclosedShape(p: seq<Point>)
    requires Spread(p)
    ensures Unclosed(p)[0].x == 1.0
    ensures forall i :: 0 <= i < |Unclosed(p)| ==> 0.0 <= Unclosed(p)[i].x <= 1.0
    ensures FirstArgMin(Xs(Unclosed(p))) == FirstArgMin(Xs(StartAtTrailingEdge(p)))
    ensures Unclosed(p)[FirstArgMin(Xs(Unclosed(p)))] == Point(0.0, 0.0)
  {
    TrailingEdgeFirst(p);
    var q := StartAtTrailingEdge(p);
    var le := FirstArgMin(Xs(q));
    var shifted := Lowered(q, q[le].y);
    SameExtremes(Xs(shifted), Xs(p));
    var n := Normalized(shifted);
    assert n == Unclosed(p);
    assert Xs(shifted)[0] == SeqMax(Xs(shifted));
    NormalizedPoint(shifted, 0);
    forall i | 0 <= i < |n| ensures 0.0 <= n[i].x <= 1.0 {
      NormalizedPoint(shifted, i);
    }
    assert Xs(shifted)[le] == SeqMin(Xs(shifted)) && shifted[le].y == 0.0;
    NormalizedPoint(shifted, le);
    NormalizedToUnitChord(shifted);
    forall i | 0 <= i < le ensures Xs(n)[i] > Xs(n)[le] {
      assert Xs(shifted)[i] > Xs(shifted)[le];
      NormalizedKeepsOrder(shifted, le, i);
    }
    FirstArgMinIs(Xs(n), le);
  }

  /** The PreComp profile runs from the trailing edge at `x = 1` round to the trailing edge
      at `x = 1`, and every point lies on the unit chord. */
  lemma PrecompProfileShape(p: seq<Point>)
    requires Spread(p)
    ensures PrecompProfile(p)[0].x == 1.0
    ensures PrecompProfile(p)[|PrecompProfile(p)| - 1].x == 1.0
    ensures forall i :: 0 <= i < |PrecompProfile(p)| ==> 0.0 <= PrecompProfile(p)[i].x <= 1.0
  {
    var n := Unclosed(p);
    UnclosedShape(p);
    ClosedShape(n);
    var r := PrecompProfile(p);
    assert r == Closed(n);
    assert r[|r| - 1] == Closed(n)[|Closed(n)| - 1];
  }

  /** Closing a profile that starts at `x = 1` on the unit chord makes it end there too. */
  lemma ClosedShape(n: seq<Point>)
    requires |n| > 0 && n[0].x == 1.0
    requires forall i :: 0 <= i < |n| ==> 0.0 <= n[i].x <= 1.0
    ensures Closed(n)[0].x == 1.0 && Closed(n)[|Closed(n)| - 1].x == 1.0
    ensures forall i :: 0 <= i < |Closed(n)| ==> 0.0 <= Closed(n)[i].x <= 1.0
  {
    var r := Closed(n);
    if n[|n| - 1].x != 1.0 {
      assert r == n + [n[0]];
      forall i | 0 <= i < |r| ensures 0.0 <= r[i].x <= 1.0 {
        if i < |n| {
          assert r[i] == n[i];
        }
      }
    }
  }

  /** The leading edge of the PreComp profile, its first point of smallest `x`, is the
      origin. */
  lemma PrecompLeadingEdge(p: seq<Point>)
    requires Spread(p)
    ensures PrecompProfile(p)[FirstArgMin(Xs(PrecompProfile(p)))] == Point(0.0, 0.0)
  {
    UnclosedShape(p);
    ClosedShape(Unclosed(p));
    ClosedLeadingEdge(Unclosed(p));
  }

  /** Closing keeps the first point of smallest `x` where it was. */
  lemma ClosedLeadingEdge(n: seq<Point>)
    requires |n| > 0 && n[0].x == 1.0
    requires forall i :: 0 <= i < |n| ==> 0.0 <= n[i].x <= 1.0
    requires n[FirstArgMin(Xs(n))] == Point(0.0, 0.0)
    ensures Closed(n)[FirstArgMin(Xs(Closed(n)))] == Point(0.0, 0.0)
  {
    ClosedShape(n);
    var r := Closed(n);
    var le := FirstArgMin(Xs(n));
    assert r[..|n|] == n;
    assert r[le] == n[le];
    assert Xs(r)[le] == 0.0;
    assert Xs(r)[le] in Xs(r);
    forall i | 0 <= i < |r| ensures Xs(r)[i] >= 0.0 {
    }
    forall i | 0 <= i < le ensures Xs(r)[i] > Xs(r)[le] {
      assert r[i] == n[i];
      assert Xs(n)[i] > Xs(n)[le];
    }
    FirstArgMinIs(Xs(r), le);
  }

  /** `flatback`: the profile ends at the `x` it starts at but at another `y`, so the
      trailing edge is an open, blunt edge that PreComp closes with a web. */
  predicate Flatback(p: seq<Point>)
    requires |p| > 0
    ensures Flatback(p) ==> |p| >= 2 && p[0] != p[|p| - 1]
  {
    p[0].y != p[|p| - 1].y && p[0].x == p[|p| - 1].x
  }

  /** A PreComp profile is flatback exactly when its two trailing edge points differ in `y`;
      one closed by repeating its first point never is. */
  lemma FlatbackIsOpenTrailingEdge(p: seq<Point>)
    requires Spread(p)
    ensures Flatback(PrecompProfile(p)) <==> PrecompProfile(p)[0].y != PrecompProfile(p)[|PrecompProfile(p)| - 1].y
    ensures |PrecompProfile(p)| > |Unclosed(p)| ==> !Flatback(PrecompProfile(p))
  {
    PrecompProfileShape(p);
    var n := Unclosed(p);
    var r := PrecompProfile(p);
    assert r == Closed(n);
    ClosedRepeatsFirst(n);
  }

  /** A profile closed by `Closed` ends at its first point. */
  lemma ClosedRepeatsFirst(n: seq<Point>)
    requires |n| > 0
    ensures |Closed(n)| > |n| ==> Closed(n)[|Closed(n)| - 1] == Closed(n)[0]
  {
  }

  // ---------------------------------------------------------------------------------------
  // The leading edge on the arc

  /** `np.sqrt` on the values it is given: a non-negative root. The fact is stated over
      `Root`, so it is brought in only where a proof names the root it needs. */
  ghost predicate IsSqrt(sqrt: real -> real) {
    forall t {:trigger Root(sqrt, t)} :: 0.0 <= t ==> 0.0 <= Root(sqrt, t) && Root(sqrt, t) * Root(sqrt, t) == t
  }

  ghost function Root(sqrt: real -> real, t: real): real {
    sqrt(t)
  }

  /** The root of a non-negative value is non-negative and squares back to it. */
  lemma RootOf(sqrt: real -> real, t: real)
    requires IsSqrt(sqrt) && 0.0 <= t
    ensures 0.0 <= sqrt(t) && sqrt(t) * sqrt(t) == t
  {
    assert Root(sqrt, t) == sqrt(t);
  }

  /** No root is negative. */
  lemma RootsNonNegative(sqrt: real -> real)
    requires IsSqrt(sqrt)
    ensures forall t :: 0.0 <= t ==> 0.0 <= sqrt(t)
  {
    forall t | 0.0 <= t ensures 0.0 <= sqrt(t) {
      RootOf(sqrt, t);
    }
  }

  lemma SquareBelow(a: real, b: real)
    requires 0.0 <= a < b
    ensures a * a < b * b
  {
    assert (b - a) * a >= 0.0;
    assert (b - a) * b > 0.0;
  }

  /** A segment is at least as long as its chordwise extent. */
  lemma SegmentCoversChord(x: seq<real>, y: seq<real>, k: nat, sqrt: real -> real)
    requires 1 <= k < |x| && k < |y| && IsSqrt(sqrt)
    ensures SegmentLength(x, y, [], k, sqrt) >= Abs(x[k] - x[k - 1])
  {
    var dx, dy := x[k] - x[k - 1], y[k] - y[k - 1];
    var t := dx * dx + dy * dy;
    assert t >= 0.0 by { assert dx * dx >= 0.0 && dy * dy >= 0.0; }
    var none: seq<real> := [];
    assert |none| != |x|;
    var l := SegmentLength(x, y, none, k, sqrt);
    RootOf(sqrt, (x[k] - x[k - 1]) * (x[k] - x[k - 1]) + (y[k] - y[k - 1]) * (y[k] - y[k - 1]));
    assert l >= 0.0 && l * l == t;
    assert Abs(dx) * Abs(dx) == dx * dx;
    if l < Abs(dx) {
      SquareBelow(l, Abs(dx));
    }
  }

  /** The arc to point `k` is at least as long as the chordwise distance from the first
      point. */
  lemma {:induction false} ArcCoversChord(x: seq<real>, y: seq<real>, sqrt: real -> real, m: nat)
    requires m <= |x| && |y| >= |x| && IsSqrt(sqrt)
    ensures forall k :: 0 <= k < m ==> Arc(x, y, [], sqrt, m)[k] >= Abs(x[k] - x[0])
  {
    if m >= 2 {
      ArcCoversChord(x, y, sqrt, m - 1);
      var prev := Arc(x, y, [], sqrt, m - 1);
      assert Arc(x, y, [], sqrt, m) == prev + [prev[m - 2] + SegmentLength(x, y, [], m - 1, sqrt)];
      SegmentCoversChord(x, y, m - 1, sqrt);
    }
  }

  /** A profile with a chordwise extent has a positive arc length. */
  lemma ArcLengthPositive(p: seq<Point>, sqrt: real -> real)
    requires Spread(p) && IsSqrt(sqrt)
    ensures Arc(Xs(p), Ys(p), [], sqrt, |p|)[|p| - 1] > 0.0
  {
    var x := Xs(p);
    var k :| 0 <= k < |p| && x[k] != x[0] && (x[k] == SeqMin(x) || x[k] == SeqMax(x));
    ArcCoversChord(x, Ys(p), sqrt, |p|);
    RootsNonNegative(sqrt);
    ArcNonDecreasing(x, Ys(p), [], sqrt, |p|);
  }

  /** `profile_i_arc`: the arc positions of the points divided by the arc length. */
  function ArcFractions(p: seq<Point>, sqrt: real -> real): (r: seq<real>)
    requires Spread(p) && IsSqrt(sqrt)
    ensures |r| == |p|
  {
    var arc := Arc(Xs(p), Ys(p), [], sqrt, |p|);
    ArcLengthPositive(p, sqrt);
    seq(|p|, i requires 0 <= i < |p| => arc[i] / arc[|p| - 1])
  }

  /** The arc fractions run from 0 at the first point to 1 at the last and stay in
      `[0, 1]`. */
  lemma ArcFractionsOnUnit(p: seq<Point>, sqrt: real -> real)
    requires Spread(p) && IsSqrt(sqrt)
    ensures ArcFractions(p, sqrt)[0] == 0.0 && ArcFractions(p, sqrt)[|p| - 1] == 1.0
    ensures forall i :: 0 <= i < |p| ==> 0.0 <= ArcFractions(p, sqrt)[i] <= 1.0
  {
    var arc := Arc(Xs(p), Ys(p), [], sqrt, |p|);
    var f := ArcFractions(p, sqrt);
    ArcLengthPositive(p, sqrt);
    RootsNonNegative(sqrt);
    ArcNonDecreasing(Xs(p), Ys(p), [], sqrt, |p|);
    var l := arc[|p| - 1];
    assert f[0] == arc[0] / l && arc[0] == 0.0;
    assert f[|p| - 1] == l / l;
    DivideSelf(l);
    forall i | 0 <= i < |p| ensures 0.0 <= f[i] <= 1.0 {
      ArcFractionInUnit(Xs(p), Ys(p), [], sqrt, i);
    }
  }

  /** The arc fractions never decrease along the profile. */
  lemma ArcFractionsNonDecreasing(p: seq<Point>, sqrt: real -> real)
    requires Spread(p) && IsSqrt(sqrt)
    ensures NonDecreasing(ArcFractions(p, sqrt))
  {
    var arc := Arc(Xs(p), Ys(p), [], sqrt, |p|);
    var f := ArcFractions(p, sqrt);
    ArcLengthPositive(p, sqrt);
    RootsNonNegative(sqrt);
    ArcNonDecreasing(Xs(p), Ys(p), [], sqrt, |p|);
    forall i, j | 0 <= i <= j < |p| ensures f[i] <= f[j] {
      DivideMonotone(arc[i], arc[j], arc[|p| - 1]);
    }
  }

  lemma DivideSelf(a: real)
    requires a > 0.0
    ensures a / a == 1.0
  {
  }

  lemma DivideMonotone(a: real, b: real, d: real)
    requires a <= b && d > 0.0
    ensures a / d <= b / d
  {
    assert a / d * d == a && b / d * d == b;
  }

  /** What the station's profile tells the layer placement: the arc fraction of the leading
      edge, the spline from arc fraction to chordwise `x`, and the `x` of the first and last
      profile points. */
  datatype Surface = Surface(locLE: real, toX: Spline, xFirst: real, xLast: real)

  /** `loc_LE` and `spline_arc2xnd`: the leading edge is the first point of smallest `x`,
      and its arc fraction lies in `[0, 1]`; fitting the spline fails with ValueError. */
  function SurfaceOf(p: seq<Point>, fit: Fit, sqrt: real -> real): (r: Result<Surface>)
    requires Spread(p) && IsSqrt(sqrt)
    ensures r.Err? <==> fit(ArcFractions(p, sqrt), Xs(p)).None?
    ensures r.Err? ==> r.error == ValueError
    ensures r.Ok? ==> r.value.locLE == ArcFractions(p, sqrt)[FirstArgMin(Xs(p))]
    ensures r.Ok? ==> 0.0 <= r.value.locLE <= 1.0
    ensures r.Ok? ==> r.value.xFirst == p[0].x && r.value.xLast == p[|p| - 1].x
  {
    var arc := ArcFractions(p, sqrt);
    ArcFractionsOnUnit(p, sqrt);
    match fit(arc, Xs(p))
    case None => Err(ValueError)
    case Some(toX) => Ok(Surface(arc[FirstArgMin(Xs(p))], toX, p[0].x, p[|p| - 1].x))
  }

  // ---------------------------------------------------------------------------------------
  // Placing the layers of one station

  /** What a web of `blade['st']['webs']` holds at one station. */
  datatype WebAt = WebAt(name: string, start: Option<real>, end: Option<real>)

  /** The first web of the given name; none raises IndexError. */
  function FindWeb(webs: seq<WebAt>, name: string): (r: Result<nat>)
    ensures r.Ok? ==> r.value < |webs| && webs[r.value].name == name
    ensures r.Ok? ==> forall k :: 0 <= k < r.value ==> webs[k].name != name
    ensures r.Err? ==> r.error == IndexError && forall k :: 0 <= k < |webs| ==> webs[k].name != name
  {
    if webs == [] then Err(IndexError)
    else if webs[0].name == name then Ok(0)
    else
      var k :- FindWeb(webs[1..], name);
      Ok(k + 1)
  }

  /** Where a layer lies at a station: the chordwise start and end on the suction side, on
      the pressure side and on a web, each absent where the layer is not. */
  datatype Placement = Placement(ss: Option<(real, real)>, ps: Option<(real, real)>, web: Option<(real, real)>)

  datatype Where = Suction | Pressure | OnWeb

  function At(p: Placement, w: Where): Option<(real, real)> {
    match w
    case Suction => p.ss
    case Pressure => p.ps
    case OnWeb => p.web
  }

  /** The spline maps the unit arc onto the unit chord. */
  ghost predicate OnUnitChord(sf: Surface) {
    forall t :: 0.0 <= t <= 1.0 ==> 0.0 <= sf.toX(t) <= 1.0
  }

  /** The suction side runs from the leading edge (arc fraction `locLE`) back to the trailing
      edge at the start of the arc: a layer ends at the `x` of its start when that lies on
      the suction side, where an `x` equal to the first point's (when that is not 1) is moved
      to the trailing edge; otherwise it ends at the trailing edge. */
  function SuctionEnd(s: real, sf: Surface): (r: real)
    ensures r == sf.toX(s) || r == 1.0
    ensures sf.locLE <= s ==> r == 1.0
    ensures OnUnitChord(sf) && 0.0 <= s <= 1.0 ==> 0.0 <= r <= 1.0
  {
    if s < sf.locLE then
      var t := sf.toX(s);
      if t == sf.xFirst && sf.xFirst != 1.0 then 1.0 else t
    else 1.0
  }

  /** A layer starts at the `x` of its end when that lies on the suction side, otherwise at
      the leading edge. */
  function SuctionStart(e: real, sf: Surface): (r: real)
    ensures r == sf.toX(e) || r == 0.0
    ensures sf.locLE <= e ==> r == 0.0
    ensures OnUnitChord(sf) && 0.0 <= e <= 1.0 ==> 0.0 <= r <= 1.0
  {
    if e < sf.locLE then sf.toX(e) else 0.0
  }

  /** On the pressure side a layer starts at the `x` of its start, or at the leading edge
      when it starts on the suction side. */
  function PressureStart(s: real, sf: Surface): (r: real)
    ensures r == sf.toX(s) || r == 0.0
    ensures s < sf.locLE ==> r == 0.0
    ensures OnUnitChord(sf) && 0.0 <= s <= 1.0 ==> 0.0 <= r <= 1.0
  {
    if s < sf.locLE then 0.0 else sf.toX(s)
  }

  /** On the pressure side a layer that wraps round the trailing edge ends there; otherwise
      at the `x` of its end, where an `x` close to the last point's (when that is not 1) is
      moved to the trailing edge. */
  function PressureEnd(s: real, e: real, sf: Surface): (r: real)
    ensures r == sf.toX(e) || r == 1.0
    ensures sf.locLE < s && e < sf.locLE ==> r == 1.0
    ensures OnUnitChord(sf) && 0.0 <= e <= 1.0 ==> 0.0 <= r <= 1.0
  {
    if s > sf.locLE && e < sf.locLE then 1.0
    else
      var t := sf.toX(e);
      if IsClose(t, sf.xLast) && sf.xLast != 1.0 then 1.0 else t
  }

  /** One layer at one station. A surface layer without start or thickness is left out, one
      without an end raises TypeError when its end is compared; a web layer names a web that
      must exist (IndexError) and is left out without the web's start or its own thickness;
      a web without an end cannot be mapped (TypeError). */
  function ClassifyLayer(l: LayerAt, webs: seq<WebAt>, sf: Surface): (r: Result<Placement>)
    ensures r.Err? ==> r.error in {TypeError, IndexError}
  {
    if l.web.None? then
      if l.start.None? || l.thickness.None? then Ok(Placement(None, None, None))
      else if l.end.None? then Err(TypeError)
      else
        var s, e := l.start.value, l.end.value;
        Ok(Placement(
          if s < sf.locLE || e < sf.locLE then Some((SuctionStart(e, sf), SuctionEnd(s, sf))) else None,
          if s > sf.locLE || e > sf.locLE then Some((PressureStart(s, sf), PressureEnd(s, e, sf))) else None,
          None))
    else
      var w :- FindWeb(webs, l.web.value);
      if webs[w].start.None? || l.thickness.None? then Ok(Placement(None, None, None))
      else if webs[w].end.None? then Err(TypeError)
      else Ok(Placement(None, None, Some((sf.toX(webs[w].start.value), sf.toX(webs[w].end.value)))))
  }

  /** A surface layer lies on the suction side exactly when one of its ends lies before the
      leading edge, and on the pressure side exactly when one lies after it; it is never on a
      web. One that wraps round the leading edge starts at the leading edge on both sides, one
      that wraps round the trailing edge ends at the trailing edge on both sides. */
  lemma SurfaceLayerPlacement(l: LayerAt, webs: seq<WebAt>, sf: Surface)
    requires l.web.None? && l.start.Some? && l.end.Some? && l.thickness.Some?
    ensures ClassifyLayer(l, webs, sf).Ok?
    ensures var s, e, p := l.start.value, l.end.value, ClassifyLayer(l, webs, sf).value;
      (p.ss.Some? <==> s < sf.locLE || e < sf.locLE) &&
      (p.ps.Some? <==> s > sf.locLE || e > sf.locLE) &&
      p.web.None? &&
      (s < sf.locLE < e ==> p.ss.value.0 == 0.0 && p.ps.value.0 == 0.0) &&
      (e < sf.locLE < s ==> p.ss.value.1 == 1.0 && p.ps.value.1 == 1.0)
  {
  }

  /** A web layer is never on either surface; it is on its web exactly when the web has a
      start there and the layer a thickness. */
  lemma WebLayerPlacement(l: LayerAt, webs: seq<WebAt>, sf: Surface)
    requires l.web.Some? && ClassifyLayer(l, webs, sf).Ok?
    ensures ClassifyLayer(l, webs, sf).value.ss.None? && ClassifyLayer(l, webs, sf).value.ps.None?
    ensures FindWeb(webs, l.web.value).Ok?
    ensures ClassifyLayer(l, webs, sf).value.web.Some? <==>
              webs[FindWeb(webs, l.web.value).value].start.Some? && l.thickness.Some?
  {
  }

  /** The layers of one station sorted onto the suction side, the pressure side and the
      webs (`ss_idx`, `ps_idx`, `web_idx` with their chordwise starts and ends). */
  datatype Split = Split(ss: Side, ps: Side, web: Side)

  function SideAt(sp: Split, w: Where): Side {
    match w
    case Suction => sp.ss
    case Pressure => sp.ps
    case OnWeb => sp.web
  }

  function Add(side: Side, k: nat, v: Option<(real, real)>): Side {
    if v.None? then side else Side(side.idx + [k], side.start + [v.value.0], side.end + [v.value.1])
  }

  function Place(sp: Split, k: nat, p: Placement): Split {
    Split(Add(sp.ss, k, p.ss), Add(sp.ps, k, p.ps), Add(sp.web, k, p.web))
  }

  predicate Increasing(s: seq<nat>) {
    forall i, j :: 0 <= i < j < |s| ==> s[i] < s[j]
  }

  function EmptySplit(): Split {
    Split(Side([], [], []), Side([], [], []), Side([], [], []))
  }

  /** The first `m` layers of the station placed in order; the first layer that cannot be
      placed stops the conversion with its error. */
  function Classified(layers: seq<LayerAt>, webs: seq<WebAt>, sf: Surface, m: nat): (r: Result<Split>)
    requires m <= |layers|
    ensures r.Ok? <==> forall k :: 0 <= k < m ==> ClassifyLayer(layers[k], webs, sf).Ok?
    ensures r.Ok? ==> SideOf(r.value.ss, m) && SideOf(r.value.ps, m) && SideOf(r.value.web, m)
    ensures r.Ok? ==> Increasing(r.value.ss.idx) && Increasing(r.value.ps.idx) && Increasing(r.value.web.idx)
  {
    if m == 0 then Ok(EmptySplit())
    else match Classified(layers, webs, sf, m - 1)
      case Err(e) => Err(e)
      case Ok(sp) =>
        match ClassifyLayer(layers[m - 1], webs, sf)
        case Err(e) => Err(e)
        case Ok(p) => Ok(Place(sp, m - 1, p))
  }

  /** Placing one more layer after a failure keeps the failure. */
  lemma ClassifiedStepErr(layers: seq<LayerAt>, webs: seq<WebAt>, sf: Surface, m: nat)
    requires m < |layers| && Classified(layers, webs, sf, m).Err?
    ensures Classified(layers, webs, sf, m + 1) == Classified(layers, webs, sf, m)
  {
  }

  /** Placing one more layer on top of the first `m` placed as `prev`. */
  lemma ClassifiedStep(layers: seq<LayerAt>, webs: seq<WebAt>, sf: Surface, m: nat, prev: Split)
    requires m < |layers| && Classified(layers, webs, sf, m) == Ok(prev)
    ensures Classified(layers, webs, sf, m + 1) ==
              match ClassifyLayer(layers[m], webs, sf)
              case Err(e) => Err(e)
              case Ok(p) => Ok(Place(prev, m, p))
  {
  }

  /** Every layer listed on `side` is placed on `w` with the listed start and end. */
  predicate Listed(layers: seq<LayerAt>, webs: seq<WebAt>, sf: Surface, w: Where, side: Side) {
    |side.start| == |side.end| == |side.idx| &&
    forall t :: 0 <= t < |side.idx| ==>
      side.idx[t] < |layers| &&
      ClassifyLayer(layers[side.idx[t]], webs, sf).Ok? &&
      At(ClassifyLayer(layers[side.idx[t]], webs, sf).value, w) == Some((side.start[t], side.end[t]))
  }

  /** Every layer listed on a side is placed there with the listed start and end. */
  lemma {:induction false} ClassifiedSideListed(layers: seq<LayerAt>, webs: seq<WebAt>, sf: Surface, m: nat, w: Where, sp: Split)
    requires m <= |layers| && Classified(layers, webs, sf, m) == Ok(sp)
    ensures Listed(layers, webs, sf, w, SideAt(sp, w))
  {
    if m > 0 {
      var prev := Classified(layers, webs, sf, m - 1).value;
      ClassifiedSideListed(layers, webs, sf, m - 1, w, prev);
      ClassifiedStep(layers, webs, sf, m - 1, prev);
      var p := ClassifyLayer(layers[m - 1], webs, sf).value;
      ListedAdd(layers, webs, sf, w, SideAt(prev, w), m - 1, p);
      assert SideAt(sp, w) == Add(SideAt(prev, w), m - 1, At(p, w));
    }
  }

  lemma ListedAdd(layers: seq<LayerAt>, webs: seq<WebAt>, sf: Surface, w: Where, before: Side, k: nat, p: Placement)
    requires Listed(layers, webs, sf, w, before) && k < |layers| && ClassifyLayer(layers[k], webs, sf) == Ok(p)
    ensures Listed(layers, webs, sf, w, Add(before, k, At(p, w)))
  {
    var side := Add(before, k, At(p, w));
    if At(p, w).Some? {
      forall t | 0 <= t < |side.idx|
        ensures side.idx[t] < |layers|
        ensures ClassifyLayer(layers[side.idx[t]], webs, sf).Ok?
        ensures At(ClassifyLayer(layers[side.idx[t]], webs, sf).value, w) == Some((side.start[t], side.end[t]))
      {
        if t < |before.idx| {
          assert side.idx[t] == before.idx[t] && side.start[t] == before.start[t] && side.end[t] == before.end[t];
        }
      }
    }
  }

  /** Every layer placed on a side is listed there. */
  lemma {:induction false} ClassifiedSideComplete(layers: seq<LayerAt>, webs: seq<WebAt>, sf: Surface, m: nat, w: Where, sp: Split)
    requires m <= |layers| && Classified(layers, webs, sf, m) == Ok(sp)
    ensures forall k :: 0 <= k < m && At(ClassifyLayer(layers[k], webs, sf).value, w).Some? ==>
              k in SideAt(sp, w).idx
  {
    if m > 0 {
      var prev := Classified(layers, webs, sf, m - 1).value;
      ClassifiedSideComplete(layers, webs, sf, m - 1, w, prev);
      ClassifiedStep(layers, webs, sf, m - 1, prev);
      var p := ClassifyLayer(layers[m - 1], webs, sf).value;
      var side, before := SideAt(sp, w), SideAt(prev, w);
      assert side == Add(before, m - 1, At(p, w));
      assert forall k :: k in before.idx ==> k in side.idx;
    }
  }

  /** Once a layer cannot be placed, placing more layers keeps that error. */
  lemma {:induction false} ClassifiedErrorSticks(layers: seq<LayerAt>, webs: seq<WebAt>, sf: Surface, m: nat, m': nat)
    requires m <= m' <= |layers| && Classified(layers, webs, sf, m).Err?
    ensures Classified(layers, webs, sf, m') == Classified(layers, webs, sf, m)
    decreases m' - m
  {
    if m' > m {
      ClassifiedStepErr(layers, webs, sf, m);
      ClassifiedErrorSticks(layers, webs, sf, m + 1, m');
    }
  }

  /** The loop over `blade['st']['layers']` at one station, appending every layer to the
      lists of the sides it lies on. */
  method ClassifyStation(layers: seq<LayerAt>, webs: seq<WebAt>, sf: Surface) returns (res: Result<Split>)
    ensures res == Classified(layers, webs, sf, |layers|)
  {
    var ssIdx: seq<nat>, ssStart: seq<real>, ssEnd: seq<real> := [], [], [];
    var psIdx: seq<nat>, psStart: seq<real>, psEnd: seq<real> := [], [], [];
    var webIdx: seq<nat>, webStart: seq<real>, webEnd: seq<real> := [], [], [];
    for k := 0 to |layers|
      invariant Classified(layers, webs, sf, k) ==
        Ok(Split(Side(ssIdx, ssStart, ssEnd), Side(psIdx, psStart, psEnd), Side(webIdx, webStart, webEnd)))
    {
      ClassifiedStep(layers, webs, sf, k,
        Split(Side(ssIdx, ssStart, ssEnd), Side(psIdx, psStart, psEnd), Side(webIdx, webStart, webEnd)));
      var p := ClassifyLayer(layers[k], webs, sf);
      if p.Err? {
        ClassifiedErrorSticks(layers, webs, sf, k + 1, |layers|);
        return Err(p.error);
      }
      if p.value.ss.Some? {
        ssIdx, ssStart, ssEnd := ssIdx + [k], ssStart + [p.value.ss.value.0], ssEnd + [p.value.ss.value.1];
      }
      if p.value.ps.Some? {
        psIdx, psStart, psEnd := psIdx + [k], psStart + [p.value.ps.value.0], psEnd + [p.value.ps.value.1];
      }
      if p.value.web.Some? {
        webIdx, webStart, webEnd := webIdx + [k], webStart + [p.value.web.value.0], webEnd + [p.value.web.value.1];
      }
    }
    res := Ok(Split(Side(ssIdx, ssStart, ssEnd), Side(psIdx, psStart, psEnd), Side(webIdx, webStart, webEnd)));
  }

  // ---------------------------------------------------------------------------------------
  // One station

  /** What PreComp receives for one station: the profile and the composite sections of the
      suction side (`upperCS`), the pressure side (`lowerCS`) and the webs (`websCS`). */
  datatype StationOut = StationOut(profile: seq<Point>, upper: CompositeSection, lower: CompositeSection, webs: CompositeSection)

  /** A profile that runs from the trailing edge at `x = 1` round to `x = 1`. */
  predicate TeToTe(q: seq<Point>) {
    |q| > 0 && q[0].x == 1.0 && q[|q| - 1].x == 1.0
  }

  /** The station's profile prepared for PreComp, and what the placement of its layers needs
      from the normalised profile. */
  function Prepared(rot: seq<Point>, fit: Fit, sqrt: real -> real): (r: Result<(seq<Point>, Surface)>)
    requires Spread(rot) && IsSqrt(sqrt)
    ensures r.Ok? ==> TeToTe(r.value.0)
    ensures r.Ok? ==> 0.0 <= r.value.1.locLE <= 1.0
  {
    NormalizedToUnitChord(rot);
    var p := Normalized(rot);
    var pre := PrecompProfile(p);
    PrecompProfileShape(p);
    assert pre[|pre| - 1].x == 1.0;
    match SurfaceOf(p, fit, sqrt)
    case Err(e) => Err(e)
    case Ok(sf) => Ok((pre, sf))
  }

  /** The three composite sections of a station from its rotated profile: the profile
      prepared, the layers placed, then stacked. */
  function StationSpec(rot: seq<Point>, layers: seq<LayerAt>, webs: seq<WebAt>, materials: map<string, nat>,
                       fit: Fit, sqrt: real -> real): (r: Result<StationOut>)
    requires Spread(rot) && IsSqrt(sqrt)
    ensures r.Ok? ==> Prepared(rot, fit, sqrt).Ok? && Classified(layers, webs, Prepared(rot, fit, sqrt).value.1, |layers|).Ok?
    ensures Prepared(rot, fit, sqrt).Ok? && Classified(layers, webs, Prepared(rot, fit, sqrt).value.1, |layers|).Err? ==> r.Err?
    ensures r.Ok? ==> TeToTe(r.value.profile)
  {
    match Prepared(rot, fit, sqrt)
    case Err(e) => Err(e)
    case Ok(prep) =>
      match Classified(layers, webs, prep.1, |layers|)
      case Err(e) => Err(e)
      case Ok(sp) => Stacked(prep.0, sp, layers, materials)
  }

  /** Both surfaces stacked, and the webs stacked when there are web layers or the trailing
      edge is flatback. */
  function Stacked(pre: seq<Point>, sp: Split, layers: seq<LayerAt>, materials: map<string, nat>): (r: Result<StationOut>)
    requires |pre| > 0 && SideOf(sp.ss, |layers|) && SideOf(sp.ps, |layers|) && SideOf(sp.web, |layers|)
    ensures r.Ok? ==> r.value.profile == pre
    ensures r.Ok? ==> RegionSection(sp.ss, layers, materials) == Ok(r.value.upper)
    ensures r.Ok? ==> RegionSection(sp.ps, layers, materials) == Ok(r.value.lower)
    ensures r.Ok? && |sp.web.idx| == 0 && !Flatback(pre) ==> r.value.webs == CompositeSection([], [])
  {
    var upper :- RegionSection(sp.ss, layers, materials);
    var lower :- RegionSection(sp.ps, layers, materials);
    var web :- if |sp.web.idx| > 0 || Flatback(pre)
               then WebStackingPaired(sp.web, layers, materials, Flatback(pre), upper)
               else Ok(CompositeSection([], []));
    Ok(StationOut(pre, upper, lower, web))
  }

  /** A flatback station closes its web section at the trailing edge. */
  lemma StackedFlatback(pre: seq<Point>, sp: Split, layers: seq<LayerAt>, materials: map<string, nat>, out: StationOut)
    requires |pre| > 0 && SideOf(sp.ss, |layers|) && SideOf(sp.ps, |layers|) && SideOf(sp.web, |layers|)
    requires Stacked(pre, sp, layers, materials) == Ok(out) && Flatback(pre)
    ensures |out.webs.loc| > 0 && out.webs.loc[|out.webs.loc| - 1] == 1.0
  {
    assert WebStackingPaired(sp.web, layers, materials, true, out.upper) == Ok(out.webs);
    FlatbackWebAtTrailingEdge(sp.web, layers, materials, out.upper, out.webs);
  }

  /** Station `i` with both `region_loc` maps updated: the suction map gains the regions of
      its suction stacks, the pressure map those of its pressure stacks, at index `i` only. */
  function WithRegions(st: Result<StationOut>, i: nat, locSS: RegionLoc, locPS: RegionLoc): (r: Result<(StationOut, RegionLoc, RegionLoc)>)
    requires Tracks(locSS, i) && Tracks(locPS, i)
    ensures r.Ok? <==> st.Ok?
    ensures r.Ok? ==> r.value.0 == st.value && r.value.1.Keys == locSS.Keys && r.value.2.Keys == locPS.Keys
  {
    match st
    case Err(e) => Err(e)
    case Ok(out) => Ok((out, Track(locSS, i, out.upper.stacks), Track(locPS, i, out.lower.stacks)))
  }

  /** A converted station was prepared, placed and stacked without error. */
  lemma StationParts(rot: seq<Point>, layers: seq<LayerAt>, webs: seq<WebAt>, materials: map<string, nat>,
                     fit: Fit, sqrt: real -> real, out: StationOut)
    requires Spread(rot) && IsSqrt(sqrt)
    requires StationSpec(rot, layers, webs, materials, fit, sqrt) == Ok(out)
    ensures Prepared(rot, fit, sqrt).Ok?
    ensures Classified(layers, webs, Prepared(rot, fit, sqrt).value.1, |layers|).Ok?
    ensures Stacked(Prepared(rot, fit, sqrt).value.0, Classified(layers, webs, Prepared(rot, fit, sqrt).value.1, |layers|).value,
                    layers, materials) == Ok(out)
  {
  }

  /** The PreComp profile of a converted station runs from `x = 1` round to `x = 1`, and a
      flatback one closes its web section at the trailing edge. */
  lemma StationShape(rot: seq<Point>, layers: seq<LayerAt>, webs: seq<WebAt>, materials: map<string, nat>,
                     fit: Fit, sqrt: real -> real, out: StationOut)
    requires Spread(rot) && IsSqrt(sqrt)
    requires StationSpec(rot, layers, webs, materials, fit, sqrt) == Ok(out)
    ensures TeToTe(out.profile)
    ensures Flatback(out.profile) ==> |out.webs.loc| > 0 && out.webs.loc[|out.webs.loc| - 1] == 1.0
  {
    StationParts(rot, layers, webs, materials, fit, sqrt, out);
    var prep := Prepared(rot, fit, sqrt).value;
    var sp := Classified(layers, webs, prep.1, |layers|).value;
    if Flatback(out.profile) {
      StackedFlatback(prep.0, sp, layers, materials, out);
    }
  }

  /** The conversion of station `i`, threading both `region_loc` maps. */
  method ConvertStation(i: nat, rot: seq<Point>, layers: seq<LayerAt>, webs: seq<WebAt>, materials: map<string, nat>,
                        locSS: RegionLoc, locPS: RegionLoc, fit: Fit, sqrt: real -> real)
    returns (res: Result<(StationOut, RegionLoc, RegionLoc)>)
    requires Spread(rot) && IsSqrt(sqrt) && Tracks(locSS, i) && Tracks(locPS, i)
    ensures res == WithRegions(StationSpec(rot, layers, webs, materials, fit, sqrt), i, locSS, locPS)
  {
    var prep :- Prepared(rot, fit, sqrt);
    var pre, flatback := prep.0, Flatback(prep.0);
    var sp :- ClassifyStation(layers, webs, prep.1);
    RegionStackingTracksSection(i, sp.ss, layers, materials, locSS);
    RegionStackingTracksSection(i, sp.ps, layers, materials, locPS);
    var upper :- RegionStacking(i, sp.ss, layers, materials, locSS);
    var lower :- RegionStacking(i, sp.ps, layers, materials, locPS);
    var web := CompositeSection([], []);
    if |sp.web.idx| > 0 || flatback {
      web :- WebStacking(sp.web, layers, materials, flatback, upper.0);
    }
    res := Ok((StationOut(pre, upper.0, lower.0, web), upper.1, lower.1));
  }

  // ---------------------------------------------------------------------------------------
  // The whole blade

  /** A composite layer of `blade['st']['layers']`, one value per station. */
  datatype Layer = Layer(
    name: string, web: Option<string>,
    start: seq<Option<real>>, end: seq<Option<real>>,
    thickness: seq<Option<real>>, fiber: seq<Option<real>>, material: string)

  /** A shear web of `blade['st']['webs']`, one value per station. */
  datatype Web = Web(name: string, start: seq<Option<real>>, end: seq<Option<real>>)

  /** The blade as the conversion reads it: the rotated profile of every station, the
      composite layers and the webs. */
  datatype Blade = Blade(profiles: seq<seq<Point>>, layers: seq<Layer>, webs: seq<Web>)

  /** Every profile has a chordwise extent and every layer and web a value per station. */
  predicate WellFormed(b: Blade) {
    (forall i :: 0 <= i < |b.profiles| ==> Spread(b.profiles[i])) &&
    (forall k :: 0 <= k < |b.layers| ==>
       |b.layers[k].start| == |b.profiles| && |b.layers[k].end| == |b.profiles| &&
       |b.layers[k].thickness| == |b.profiles| && |b.layers[k].fiber| == |b.profiles|) &&
    (forall k :: 0 <= k < |b.webs| ==> |b.webs[k].start| == |b.profiles| && |b.webs[k].end| == |b.profiles|)
  }

  /** The layers as seen at station `i`. */
  function LayersAt(b: Blade, i: nat): (r: seq<LayerAt>)
    requires WellFormed(b) && i < |b.profiles|
    ensures |r| == |b.layers|
    ensures forall k :: 0 <= k < |b.layers| ==> r[k].name == b.layers[k].name && r[k].start == b.layers[k].start[i]
  {
    seq(|b.layers|, k requires 0 <= k < |b.layers| =>
      var l := b.layers[k];
      LayerAt(l.name, l.web, l.start[i], l.end[i], l.thickness[i], l.fiber[i], l.material))
  }

  /** The webs as seen at station `i`. */
  function WebsAt(b: Blade, i: nat): (r: seq<WebAt>)
    requires WellFormed(b) && i < |b.profiles|
    ensures |r| == |b.webs|
    ensures forall k :: 0 <= k < |b.webs| ==> r[k] == WebAt(b.webs[k].name, b.webs[k].start[i], b.webs[k].end[i])
  {
    seq(|b.webs|, k requires 0 <= k < |b.webs| => WebAt(b.webs[k].name, b.webs[k].start[i], b.webs[k].end[i]))
  }

  /** `material_dict`: every material name to its position in the material list; a name
      listed twice keeps its last position. */
  function MaterialIndex(names: seq<string>): (r: map<string, nat>)
    ensures forall n :: n in r <==> n in names
    ensures forall n :: n in r ==> r[n] < |names| && names[r[n]] == n
  {
    if names == [] then map[]
    else
      var prefix := names[..|names| - 1];
      assert forall n :: n in names <==> n in prefix || n == names[|names| - 1];
      MaterialIndex(prefix)[names[|names| - 1] := |names| - 1]
  }

  /** A material listed more than once keeps its last position. */
  lemma {:induction false} MaterialIndexKeepsLast(names: seq<string>, n: string, k: nat)
    requires n in MaterialIndex(names) && MaterialIndex(names)[n] < k < |names|
    ensures names[k] != n
  {
    var prefix := names[..|names| - 1];
    var last := names[|names| - 1];
    assert MaterialIndex(names) == MaterialIndex(prefix)[last := |names| - 1];
    if n != last {
      assert MaterialIndex(names)[n] == MaterialIndex(prefix)[n];
      if k < |names| - 1 {
        MaterialIndexKeepsLast(prefix, n, k);
        assert prefix[k] == names[k];
      }
    }
  }

  /** Every station of a `region_loc` map. */
  predicate Sized(loc: RegionLoc, n: nat) {
    forall v :: v in loc ==> |loc[v]| == n
  }

  /** `region_loc` before the first station: every tracked name, no regions anywhere. */
  function Unset(names: seq<string>, n: nat): (r: RegionLoc)
    ensures forall v :: v in r <==> v in names
    ensures forall v :: v in r ==> r[v] == seq(n, _ => None)
  {
    if names == [] then map[]
    else
      var prefix := names[..|names| - 1];
      assert forall v :: v in names <==> v in prefix || v == names[|names| - 1];
      Unset(prefix, n)[names[|names| - 1] := seq(n, _ => None)]
  }

  /** Every station converted on its own: a station's sections do not depend on the region
      maps. */
  function StationResults(b: Blade, materials: map<string, nat>, fit: Fit, sqrt: real -> real): (r: seq<Result<StationOut>>)
    requires WellFormed(b) && IsSqrt(sqrt)
    ensures |r| == |b.profiles|
    ensures forall i :: 0 <= i < |b.profiles| ==>
              r[i] == StationSpec(b.profiles[i], LayersAt(b, i), WebsAt(b, i), materials, fit, sqrt)
  {
    seq(|b.profiles|, i requires 0 <= i < |b.profiles| =>
      StationSpec(b.profiles[i], LayersAt(b, i), WebsAt(b, i), materials, fit, sqrt))
  }

  /** The first `m` stations in order, each updating both region maps; the first station
      that fails stops the conversion with its error. */
  function Stations(outs: seq<Result<StationOut>>, locSS: RegionLoc, locPS: RegionLoc, m: nat)
    : (r: Result<(seq<StationOut>, RegionLoc, RegionLoc)>)
    requires m <= |outs| && Sized(locSS, |outs|) && Sized(locPS, |outs|)
    ensures r.Ok? ==> |r.value.0| == m && r.value.1.Keys == locSS.Keys && r.value.2.Keys == locPS.Keys
    ensures r.Ok? ==> Sized(r.value.1, |outs|) && Sized(r.value.2, |outs|)
  {
    if m == 0 then Ok(([], locSS, locPS))
    else match Stations(outs, locSS, locPS, m - 1)
      case Err(e) => Err(e)
      case Ok(prev) =>
        match WithRegions(outs[m - 1], m - 1, prev.1, prev.2)
        case Err(e) => Err(e)
        case Ok(st) => Ok((prev.0 + [st.0], st.1, st.2))
  }

  /** The conversion succeeds exactly when every station does, and then lists the stations'
      own results in order. */
  lemma {:induction false} StationsInOrder(outs: seq<Result<StationOut>>, locSS: RegionLoc, locPS: RegionLoc, m: nat)
    requires m <= |outs| && Sized(locSS, |outs|) && Sized(locPS, |outs|)
    ensures Stations(outs, locSS, locPS, m).Ok? <==> forall q :: 0 <= q < m ==> outs[q].Ok?
    ensures Stations(outs, locSS, locPS, m).Ok? ==>
              forall q :: 0 <= q < m ==> Stations(outs, locSS, locPS, m).value.0[q] == outs[q].value
  {
    if m > 0 {
      StationsInOrder(outs, locSS, locPS, m - 1);
    }
  }

  /** One more station: its result extends the conversion so far, or its error ends it. */
  lemma StationsStep(outs: seq<Result<StationOut>>, locSS: RegionLoc, locPS: RegionLoc, i: nat,
                     prev: (seq<StationOut>, RegionLoc, RegionLoc), st: Result<(StationOut, RegionLoc, RegionLoc)>)
    requires i < |outs| && Sized(locSS, |outs|) && Sized(locPS, |outs|)
    requires Stations(outs, locSS, locPS, i) == Ok(prev) && st == WithRegions(outs[i], i, prev.1, prev.2)
    ensures Stations(outs, locSS, locPS, i + 1) == if st.Ok? then Ok((prev.0 + [st.value.0], st.value.1, st.value.2)) else Err(st.error)
  {
  }

  /** One more station from the conversion so far: its result extends the conversion, or its
      error is the error of the whole conversion. */
  lemma StationsAdvance(outs: seq<Result<StationOut>>, loc: RegionLoc, i: nat,
                        prev: (seq<StationOut>, RegionLoc, RegionLoc), st: Result<(StationOut, RegionLoc, RegionLoc)>)
    requires i < |outs| && Sized(loc, |outs|)
    requires Stations(outs, loc, loc, i) == Ok(prev) && st == WithRegions(outs[i], i, prev.1, prev.2)
    ensures st.Ok? ==> Stations(outs, loc, loc, i + 1) == Ok((prev.0 + [st.value.0], st.value.1, st.value.2))
    ensures st.Err? ==> Stations(outs, loc, loc, |outs|) == Err(st.error)
  {
    StationsStep(outs, loc, loc, i, prev, st);
    if st.Err? {
      StationsErrorSticks(outs, loc, loc, i + 1, |outs|);
    }
  }

  /** One more station after a failure keeps the failure. */
  lemma StationsStepErr(outs: seq<Result<StationOut>>, locSS: RegionLoc, locPS: RegionLoc, i: nat)
    requires i < |outs| && Sized(locSS, |outs|) && Sized(locPS, |outs|) && Stations(outs, locSS, locPS, i).Err?
    ensures Stations(outs, locSS, locPS, i + 1) == Stations(outs, locSS, locPS, i)
  {
  }

  /** Once a station fails, converting more stations keeps that error. */
  lemma {:induction false} StationsErrorSticks(outs: seq<Result<StationOut>>, locSS: RegionLoc, locPS: RegionLoc, m: nat, m': nat)
    requires m <= m' <= |outs| && Sized(locSS, |outs|) && Sized(locPS, |outs|)
    requires Stations(outs, locSS, locPS, m).Err?
    ensures Stations(outs, locSS, locPS, m') == Stations(outs, locSS, locPS, m)
  {
    if m' > m {
      StationsErrorSticks(outs, locSS, locPS, m, m' - 1);
      StationsStepErr(outs, locSS, locPS, m' - 1);
    }
  }

  /** Station `q` of `loc` holds, for every tracked name, the regions of `stacks[q]` that
      hold that name, and the stations from `|stacks|` on hold none. */
  ghost predicate Records(loc: RegionLoc, stacks: seq<seq<seq<Ply>>>) {
    (forall v, q :: v in loc && 0 <= q < |stacks| && q < |loc[v]| ==> loc[v][q] == Record(None, Visits(stacks[q], v))) &&
    (forall v, q :: v in loc && |stacks| <= q < |loc[v]| ==> loc[v][q] == None)
  }

  /** Tracking the next station's stacks extends what the map records by that station. */
  lemma RecordsStep(loc: RegionLoc, stacks: seq<seq<seq<Ply>>>, next: seq<seq<Ply>>)
    requires Records(loc, stacks) && Tracks(loc, |stacks|)
    ensures Records(Track(loc, |stacks|, next), stacks + [next])
  {
    var i := |stacks|;
    var r := Track(loc, i, next);
    forall v, q | v in r && 0 <= q <= i && q < |r[v]| ensures r[v][q] == Record(None, Visits((stacks + [next])[q], v)) {
      if q < i {
        assert r[v][q] == loc[v][q];
      } else {
        assert loc[v][i] == None;
      }
    }
    forall v, q | v in r && i + 1 <= q < |r[v]| ensures r[v][q] == None {
      assert r[v][q] == loc[v][q];
    }
  }

  /** The suction-side and pressure-side stacks of every station. */
  function Uppers(st: seq<StationOut>): (r: seq<seq<seq<Ply>>>)
    ensures |r| == |st| && forall q :: 0 <= q < |st| ==> r[q] == st[q].upper.stacks
  {
    seq(|st|, q requires 0 <= q < |st| => st[q].upper.stacks)
  }

  function Lowers(st: seq<StationOut>): (r: seq<seq<seq<Ply>>>)
    ensures |r| == |st| && forall q :: 0 <= q < |st| ==> r[q] == st[q].lower.stacks
  {
    seq(|st|, q requires 0 <= q < |st| => st[q].lower.stacks)
  }

  /** Starting from maps with no regions, after `m` stations every station `q < m` holds,
      for every tracked name, exactly the regions of its own suction and pressure stacks that
      hold that name, and the stations not yet converted hold none. */
  lemma {:induction false} StationsRecordOwnRegions(outs: seq<Result<StationOut>>, locSS: RegionLoc, locPS: RegionLoc, m: nat,
                                                    r: (seq<StationOut>, RegionLoc, RegionLoc))
    requires m <= |outs| && Sized(locSS, |outs|) && Sized(locPS, |outs|)
    requires Records(locSS, []) && Records(locPS, [])
    requires Stations(outs, locSS, locPS, m) == Ok(r)
    ensures Records(r.1, Uppers(r.0)) && Records(r.2, Lowers(r.0))
  {
    if m > 0 {
      var prev := Stations(outs, locSS, locPS, m - 1).value;
      StationsRecordOwnRegions(outs, locSS, locPS, m - 1, prev);
      StationsStep(outs, locSS, locPS, m - 1, prev, WithRegions(outs[m - 1], m - 1, prev.1, prev.2));
      var out := outs[m - 1].value;
      assert r == (prev.0 + [out], Track(prev.1, m - 1, out.upper.stacks), Track(prev.2, m - 1, out.lower.stacks));
      assert Uppers(r.0) == Uppers(prev.0) + [out.upper.stacks];
      assert Lowers(r.0) == Lowers(prev.0) + [out.lower.stacks];
      RecordsStep(prev.1, Uppers(prev.0), out.upper.stacks);
      RecordsStep(prev.2, Lowers(prev.0), out.lower.stacks);
    } else {
      assert Uppers(r.0) == [] && Lowers(r.0) == [];
    }
  }

  /** The sector of a station: the middle of the regions a tracked layer lies in, if any. */
  function MiddleRegion(v: seq<nat>): (r: Option<nat>)
    ensures r.Some? <==> v != []
    ensures r.Some? ==> r.value in v
  {
    if v == [] then None else Some(v[|v| / 2])
  }

  /** What the conversion hands to PreComp: every station's profile and sections, and per
      station the strain sectors of the spar caps and the trailing edge reinforcement on
      either surface. */
  datatype PrecompOut = PrecompOut(
    stations: seq<StationOut>,
    sparSS: seq<Option<nat>>, sparPS: seq<Option<nat>>,
    teSS: seq<Option<nat>>, tePS: seq<Option<nat>>)

  /** The region maps reduced to strain sectors (`sector_idx_strain_*`): the middle region
      of every station's entry, `None` where the entry is `None`; the suction-side spar cap
      is `spar_var[0]` and the pressure-side one `spar_var[1]`, which raises IndexError
      when `spar_var` is shorter. */
  function Sectors(st: seq<StationOut>, locSS: RegionLoc, locPS: RegionLoc, teVar: string, sparVar: seq<string>)
    : (r: Result<PrecompOut>)
    requires teVar in locSS && teVar in locPS && forall v :: v in sparVar ==> v in locSS && v in locPS
    ensures |sparVar| < 2 ==> r == Err(IndexError)
    ensures r.Ok? ==> r.value.stations == st
    ensures r.Ok? ==> SectorIndices(locSS[sparVar[0]]) == Ok(r.value.sparSS) && SectorIndices(locPS[sparVar[1]]) == Ok(r.value.sparPS)
    ensures r.Ok? ==> SectorIndices(locSS[teVar]) == Ok(r.value.teSS) && SectorIndices(locPS[teVar]) == Ok(r.value.tePS)
  {
    if |sparVar| == 0 then Err(IndexError)
    else
      var sparSS :- SectorIndices(locSS[sparVar[0]]);
      if |sparVar| == 1 then Err(IndexError)
      else
        var sparPS :- SectorIndices(locPS[sparVar[1]]);
        var teSS :- SectorIndices(locSS[teVar]);
        var tePS :- SectorIndices(locPS[teVar]);
        Ok(PrecompOut(st, sparSS, sparPS, teSS, tePS))
  }

  /** A map that records every station's own regions yields, for a tracked name, the middle
      region of that name's regions at every station, and never fails. */
  lemma RecordedSectors(loc: RegionLoc, stacks: seq<seq<seq<Ply>>>, v: string)
    requires Records(loc, stacks) && v in loc && |loc[v]| == |stacks|
    ensures SectorIndices(loc[v]).Ok? && |SectorIndices(loc[v]).value| == |stacks|
    ensures forall q :: 0 <= q < |stacks| ==> SectorIndices(loc[v]).value[q] == MiddleRegion(Visits(stacks[q], v))
  {
    forall q | 0 <= q < |stacks| ensures SectorIndex(loc[v][q]) == Ok(MiddleRegion(Visits(stacks[q], v))) {
      assert loc[v][q] == Record(None, Visits(stacks[q], v));
    }
  }

  /** The sectors of maps that record every station's own regions exist exactly when both
      spar cap names are given. */
  lemma SectorsSucceed(st: seq<StationOut>, locSS: RegionLoc, locPS: RegionLoc, teVar: string, sparVar: seq<string>)
    requires teVar in locSS && teVar in locPS && forall v :: v in sparVar ==> v in locSS && v in locPS
    requires Records(locSS, Uppers(st)) && Records(locPS, Lowers(st)) && Sized(locSS, |st|) && Sized(locPS, |st|)
    ensures Sectors(st, locSS, locPS, teVar, sparVar).Ok? <==> |sparVar| >= 2
  {
    if |sparVar| >= 2 {
      RecordedSectors(locSS, Uppers(st), sparVar[0]);
      RecordedSectors(locPS, Lowers(st), sparVar[1]);
      RecordedSectors(locSS, Uppers(st), teVar);
      RecordedSectors(locPS, Lowers(st), teVar);
    } else if |sparVar| == 1 {
      RecordedSectors(locSS, Uppers(st), sparVar[0]);
    }
  }

  /** Every strain sector is the middle region of its layer's regions at that station, on
      the suction side for `sparSS` and `teSS` and on the pressure side for `sparPS` and
      `tePS`; the stations are handed on unchanged. */
  lemma SectorsAreMiddleRegions(st: seq<StationOut>, locSS: RegionLoc, locPS: RegionLoc, teVar: string, sparVar: seq<string>,
                                out: PrecompOut)
    requires teVar in locSS && teVar in locPS && forall v :: v in sparVar ==> v in locSS && v in locPS
    requires Records(locSS, Uppers(st)) && Records(locPS, Lowers(st)) && Sized(locSS, |st|) && Sized(locPS, |st|)
    requires Sectors(st, locSS, locPS, teVar, sparVar) == Ok(out)
    ensures |sparVar| >= 2 && out.stations == st
    ensures |out.sparSS| == |out.sparPS| == |out.teSS| == |out.tePS| == |st|
    ensures forall q :: 0 <= q < |st| ==> out.sparSS[q] == MiddleRegion(Visits(st[q].upper.stacks, sparVar[0]))
    ensures forall q :: 0 <= q < |st| ==> out.sparPS[q] == MiddleRegion(Visits(st[q].lower.stacks, sparVar[1]))
    ensures forall q :: 0 <= q < |st| ==> out.teSS[q] == MiddleRegion(Visits(st[q].upper.stacks, teVar))
    ensures forall q :: 0 <= q < |st| ==> out.tePS[q] == MiddleRegion(Visits(st[q].lower.stacks, teVar))
  {
    RecordedSectors(locSS, Uppers(st), sparVar[0]);
    RecordedSectors(locPS, Lowers(st), sparVar[1]);
    RecordedSectors(locSS, Uppers(st), teVar);
    RecordedSectors(locPS, Lowers(st), teVar);
  }

  /** `convert_precomp`: the `region_loc` maps of the trailing edge and spar cap names set
      up empty, the material positions indexed, the stations converted in order, then each
      map reduced to its strain sectors. */
  function ConvertPrecompSpec(b: Blade, materialNames: seq<string>, teVar: string, sparVar: seq<string>, fit: Fit, sqrt: real -> real)
    : (r: Result<PrecompOut>)
    requires WellFormed(b) && IsSqrt(sqrt)
  {
    Converted(StationResults(b, MaterialIndex(materialNames), fit, sqrt), teVar, sparVar)
  }

  /** The stations' own results threaded through the region maps, then reduced to sectors. */
  function Converted(outs: seq<Result<StationOut>>, teVar: string, sparVar: seq<string>): (r: Result<PrecompOut>) {
    var loc := Unset([teVar] + sparVar, |outs|);
    var st :- Stations(outs, loc, loc, |outs|);
    assert forall v :: v in sparVar ==> v in [teVar] + sparVar;
    Sectors(st.0, st.1, st.2, teVar, sparVar)
  }

  /** The empty maps record no regions. */
  lemma UnsetRecordsNothing(names: seq<string>, n: nat)
    ensures Records(Unset(names, n), []) && Sized(Unset(names, n), n)
  {
  }

  /** The conversion succeeds exactly when every station does and both spar cap names are
      given. */
  lemma ConvertedSucceeds(outs: seq<Result<StationOut>>, teVar: string, sparVar: seq<string>)
    ensures Converted(outs, teVar, sparVar).Ok? <==> (forall i :: 0 <= i < |outs| ==> outs[i].Ok?) && |sparVar| >= 2
  {
    var loc := Unset([teVar] + sparVar, |outs|);
    UnsetRecordsNothing([teVar] + sparVar, |outs|);
    StationsInOrder(outs, loc, loc, |outs|);
    var st := Stations(outs, loc, loc, |outs|);
    if st.Ok? {
      StationsRecordOwnRegions(outs, loc, loc, |outs|, st.value);
      assert forall v :: v in sparVar ==> v in [teVar] + sparVar;
      SectorsSucceed(st.value.0, st.value.1, st.value.2, teVar, sparVar);
    }
  }

  /** A converted blade lists every station's own result, and every strain sector is the
      middle region of the spar cap or trailing edge layer at that station. */
  lemma ConvertedResult(outs: seq<Result<StationOut>>, teVar: string, sparVar: seq<string>, out: PrecompOut)
    requires Converted(outs, teVar, sparVar) == Ok(out)
    ensures |sparVar| >= 2 && |out.stations| == |outs|
    ensures forall i :: 0 <= i < |outs| ==> outs[i] == Ok(out.stations[i])
    ensures |out.sparSS| == |out.sparPS| == |out.teSS| == |out.tePS| == |outs|
    ensures forall i :: 0 <= i < |outs| ==> out.sparSS[i] == MiddleRegion(Visits(out.stations[i].upper.stacks, sparVar[0]))
    ensures forall i :: 0 <= i < |outs| ==> out.sparPS[i] == MiddleRegion(Visits(out.stations[i].lower.stacks, sparVar[1]))
    ensures forall i :: 0 <= i < |outs| ==> out.teSS[i] == MiddleRegion(Visits(out.stations[i].upper.stacks, teVar))
    ensures forall i :: 0 <= i < |outs| ==> out.tePS[i] == MiddleRegion(Visits(out.stations[i].lower.stacks, teVar))
  {
    var loc := Unset([teVar] + sparVar, |outs|);
    UnsetRecordsNothing([teVar] + sparVar, |outs|);
    StationsInOrder(outs, loc, loc, |outs|);
    var st := Stations(outs, loc, loc, |outs|).value;
    StationsRecordOwnRegions(outs, loc, loc, |outs|, st);
    assert forall v :: v in sparVar ==> v in [teVar] + sparVar;
    SectorsAreMiddleRegions(st.0, st.1, st.2, teVar, sparVar, out);
  }

  /** The blade converts exactly when every station does and both spar cap names are given;
      then station `i` of the result is the conversion of the blade's station `i` on its
      own. */
  lemma ConvertPrecompStations(b: Blade, materialNames: seq<string>, teVar: string, sparVar: seq<string>, fit: Fit, sqrt: real -> real)
    requires WellFormed(b) && IsSqrt(sqrt)
    ensures ConvertPrecompSpec(b, materialNames, teVar, sparVar, fit, sqrt).Ok? <==>
              (forall i :: 0 <= i < |b.profiles| ==>
                 StationSpec(b.profiles[i], LayersAt(b, i), WebsAt(b, i), MaterialIndex(materialNames), fit, sqrt).Ok?) &&
              |sparVar| >= 2
    ensures ConvertPrecompSpec(b, materialNames, teVar, sparVar, fit, sqrt).Ok? ==>
              var out := ConvertPrecompSpec(b, materialNames, teVar, sparVar, fit, sqrt).value;
              |out.stations| == |b.profiles| &&
              forall i :: 0 <= i < |b.profiles| ==>
                StationSpec(b.profiles[i], LayersAt(b, i), WebsAt(b, i), MaterialIndex(materialNames), fit, sqrt) == Ok(out.stations[i])
  {
    var outs := StationResults(b, MaterialIndex(materialNames), fit, sqrt);
    ConvertedSucceeds(outs, teVar, sparVar);
    if Converted(outs, teVar, sparVar).Ok? {
      ConvertedResult(outs, teVar, sparVar, Converted(outs, teVar, sparVar).value);
    }
  }

  /** `region_loc_ss` and `region_loc_ps` before the first station, built name by name. */
  method InitRegions(vars: seq<string>, n: nat) returns (loc: RegionLoc)
    ensures loc == Unset(vars, n)
  {
    loc := map[];
    for k := 0 to |vars|
      invariant loc == Unset(vars[..k], n)
    {
      assert vars[..k + 1][..k] == vars[..k];
      loc := loc[vars[k] := seq(n, _ => None)];
    }
    assert vars[..|vars|] == vars;
  }

  /** `material_dict`, built material by material. */
  method IndexMaterials(names: seq<string>) returns (materials: map<string, nat>)
    ensures materials == MaterialIndex(names)
  {
    materials := map[];
    for k := 0 to |names|
      invariant materials == MaterialIndex(names[..k])
    {
      assert names[..k + 1][..k] == names[..k];
      materials := materials[names[k] := k];
    }
    assert names[..|names|] == names;
  }

  /** `outs` lists what every station of the blade converts to on its own. The relation is
      stated over `OutAt`, so a proof brings in a station's conversion only where it names
      that station. */
  ghost predicate Converts(b: Blade, materials: map<string, nat>, fit: Fit, sqrt: real -> real, outs: seq<Result<StationOut>>)
    requires WellFormed(b) && IsSqrt(sqrt)
  {
    |outs| == |b.profiles| &&
    forall i {:trigger OutAt(outs, i)} :: 0 <= i < |outs| ==>
      OutAt(outs, i) == StationSpec(b.profiles[i], LayersAt(b, i), WebsAt(b, i), materials, fit, sqrt)
  }

  ghost function OutAt(outs: seq<Result<StationOut>>, i: nat): Result<StationOut>
    requires i < |outs|
  {
    outs[i]
  }

  /** The stations converted on their own are what the blade's stations convert to. */
  lemma StationResultsConvert(b: Blade, materials: map<string, nat>, fit: Fit, sqrt: real -> real)
    requires WellFormed(b) && IsSqrt(sqrt)
    ensures Converts(b, materials, fit, sqrt, StationResults(b, materials, fit, sqrt))
  {
  }

  /** Station `i` converted from the conversion of the stations before it: its result extends
      that conversion, or its error is the error of the whole conversion. */
  method ConvertAt(b: Blade, materials: map<string, nat>, fit: Fit, sqrt: real -> real, ghost outs: seq<Result<StationOut>>,
                   ghost loc: RegionLoc, i: nat, ghost stations: seq<StationOut>, locSS: RegionLoc, locPS: RegionLoc)
    returns (st: Result<(StationOut, RegionLoc, RegionLoc)>)
    requires WellFormed(b) && IsSqrt(sqrt) && Converts(b, materials, fit, sqrt, outs) && i < |outs| && Sized(loc, |outs|)
    requires Stations(outs, loc, loc, i) == Ok((stations, locSS, locPS))
    ensures st.Ok? ==> Stations(outs, loc, loc, i + 1) == Ok((stations + [st.value.0], st.value.1, st.value.2))
    ensures st.Err? ==> Stations(outs, loc, loc, |outs|) == Err(st.error)
  {
    st := ConvertStation(i, b.profiles[i], LayersAt(b, i), WebsAt(b, i), materials, locSS, locPS, fit, sqrt);
    assert OutAt(outs, i) == outs[i];
    StationsAdvance(outs, loc, i, (stations, locSS, locPS), st);
  }

  /** The spanwise loop of `convert_precomp`: every station converted in turn, threading
      both region maps; the first station that fails ends the loop with its error. */
  method ConvertStations(b: Blade, materials: map<string, nat>, loc: RegionLoc, fit: Fit, sqrt: real -> real,
                         ghost outs: seq<Result<StationOut>>)
    returns (res: Result<(seq<StationOut>, RegionLoc, RegionLoc)>)
    requires WellFormed(b) && IsSqrt(sqrt) && Converts(b, materials, fit, sqrt, outs) && Sized(loc, |outs|)
    ensures res == Stations(outs, loc, loc, |outs|)
  {
    var stations: seq<StationOut> := [];
    var locSS, locPS := loc, loc;
    assert |outs| == |b.profiles|;
    for i := 0 to |b.profiles|
      invariant Stations(outs, loc, loc, i) == Ok((stations, locSS, locPS))
    {
      var st := ConvertAt(b, materials, fit, sqrt, outs, loc, i, stations, locSS, locPS);
      if st.Err? {
        return Err(st.error);
      }
      stations, locSS, locPS := stations + [st.value.0], st.value.1, st.value.2;
    }
    res := Ok((stations, locSS, locPS));
  }

  /** `convert_precomp` step by step: the region maps and the material positions set up,
      the stations converted one after another, then the sectors read off. */
  method ConvertPrecomp(b: Blade, materialNames: seq<string>, teVar: string, sparVar: seq<string>, fit: Fit, sqrt: real -> real)
    returns (res: Result<PrecompOut>)
    requires WellFormed(b) && IsSqrt(sqrt)
    ensures res == ConvertPrecompSpec(b, materialNames, teVar, sparVar, fit, sqrt)
  {
    var vars := [teVar] + sparVar;
    var loc := InitRegions(vars, |b.profiles|);
    var materials := IndexMaterials(materialNames);
    StationResultsConvert(b, materials, fit, sqrt);
    var st :- ConvertStations(b, materials, loc, fit, sqrt, StationResults(b, materials, fit, sqrt));
    assert forall v :: v in sparVar ==> v in vars;
    res := Sectors(st.0, st.1, st.2, teVar, sparVar);
  }
}
