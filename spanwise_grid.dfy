/** The spanwise grid builder (`ReferenceBlade.calc_spanwise_grid`): it gathers the span
    positions every composite layer and web starts and ends at, snaps near-duplicates onto
    points already collected, shares the remaining grid points out among the gaps between
    required points and emits the grid as concatenated `linspace` segments. */
module SpanwiseGrid {
  import opened Numerics

  // ---------------------------------------------------------------------------------------
  // Snapping the layer and web grid endpoints onto the required points

  /** `np.argmax(np.isclose(x, pts))` guarded by `any(...)`: the first point `x` is close to. */
  function FirstClose(x: real, pts: seq<real>): (r: Option<nat>)
    ensures r.Some? ==> r.value < |pts| && IsClose(x, pts[r.value])
    ensures r.Some? ==> forall i :: 0 <= i < r.value ==> !IsClose(x, pts[i])
    ensures r.None? ==> forall i :: 0 <= i < |pts| ==> !IsClose(x, pts[i])
  {
    if pts == [] then None
    else if IsClose(x, pts[0]) then Some(0)
    else match FirstClose(x, pts[1..])
      case None => None
      case Some(j) => Some(j + 1)
  }

  /** One endpoint: the first collected point it is close to, or else the endpoint itself,
      appended to the collected points. */
  function SnapValue(x: real, pts: seq<real>): (r: (real, seq<real>))
    requires Distinct(pts)
    ensures r.1 == pts || r.1 == pts + [x]
    ensures r.1 == pts + [x] ==> r.0 == x
    ensures r.0 in r.1 && IsClose(x, r.0)
    ensures Distinct(r.1)
    ensures r.1 == pts <==> exists i :: 0 <= i < |pts| && IsClose(x, pts[i])
    ensures FirstClose(x, pts).Some? ==> r.0 == pts[FirstClose(x, pts).value]
  {
    match FirstClose(x, pts)
    case Some(j) => (pts[j], pts)
    case None => AppendFresh(pts, x); (x, pts + [x])
  }

  /** Appending a point that is close to no collected point keeps the points distinct. */
  lemma AppendFresh(pts: seq<real>, x: real)
    requires Distinct(pts)
    requires forall i :: 0 <= i < |pts| ==> !IsClose(x, pts[i])
    ensures Distinct(pts + [x])
  {
    forall i | 0 <= i < |pts| ensures pts[i] != x {
      assert IsClose(x, x);
    }
  }

  /** Collecting more points after `p` never changes the first point of `p` close to `x`;
      when none is, a close point appended first is the one found. */
  lemma {:induction false} FirstCloseExtends(x: real, p: seq<real>, q: seq<real>)
    ensures FirstClose(x, p).Some? ==> FirstClose(x, p + q) == FirstClose(x, p)
    ensures FirstClose(x, p).None? && |q| > 0 && IsClose(x, q[0]) ==> FirstClose(x, p + q) == Some(|p|)
  {
    if p == [] {
      assert p + q == q;
    } else {
      assert (p + q)[0] == p[0];
      assert (p + q)[1..] == p[1..] + q;
      FirstCloseExtends(x, p[1..], q);
    }
  }

  /** Every point collected after the first `|pts|` is close to no point collected before
      it: near-duplicates are never collected. */
  predicate AppendedFresh(pts: seq<real>, points: seq<real>) {
    forall j, i :: |pts| <= j < |points| && 0 <= i < j ==> !IsClose(points[j], points[i])
  }

  /** The endpoints of a non-empty grid `g` are, in `s`, the first collected point close
      to each of them. */
  predicate SnappedTo(g: seq<real>, s: seq<real>, points: seq<real>) {
    |s| == |g| &&
    (|g| > 0 ==>
       FirstClose(g[0], points).Some? && s[0] == points[FirstClose(g[0], points).value] &&
       FirstClose(g[|g| - 1], points).Some? && s[|g| - 1] == points[FirstClose(g[|g| - 1], points).value])
  }

  /** What is snapped stays snapped as more points are collected. */
  lemma SnappedToGrows(g: seq<real>, s: seq<real>, points: seq<real>, more: seq<real>)
    requires SnappedTo(g, s, points)
    ensures SnappedTo(g, s, points + more)
  {
    if |g| > 0 {
      FirstCloseExtends(g[0], points, more);
      FirstCloseExtends(g[|g| - 1], points, more);
      assert (points + more)[FirstClose(g[0], points).value] == points[FirstClose(g[0], points).value];
      assert (points + more)[FirstClose(g[|g| - 1], points).value] == points[FirstClose(g[|g| - 1], points).value];
    }
  }

  /** One snap keeps the collected points fresh and leaves `x` at the first point close to it. */
  lemma SnapValueSnaps(x: real, pts: seq<real>)
    requires Distinct(pts)
    ensures var r := SnapValue(x, pts);
            AppendedFresh(pts, r.1) && FirstClose(x, r.1).Some? && r.0 == r.1[FirstClose(x, r.1).value]
  {
    var r := SnapValue(x, pts);
    if FirstClose(x, pts).Some? {
      FirstCloseExtends(x, pts, []);
      assert pts + [] == pts;
    } else {
      assert IsClose(x, x);
      FirstCloseExtends(x, pts, [x]);
    }
  }

  /** The first and last values of every non-empty grid. */
  function Ends(grids: seq<seq<real>>): seq<real> {
    if grids == [] then []
    else
      var g := grids[|grids| - 1];
      Ends(grids[..|grids| - 1]) + (if g == [] then [] else [g[0], g[|g| - 1]])
  }

  /** `s` is grid `g` with at most its two endpoints replaced, each by a value close to it. */
  predicate SnappedFrom(g: seq<real>, s: seq<real>) {
    |s| == |g| &&
    (forall j :: 0 < j < |g| - 1 ==> s[j] == g[j]) &&
    (|g| > 0 ==> IsClose(g[0], s[0]) && IsClose(g[|g| - 1], s[|g| - 1]))
  }

  /** Both endpoints of a non-empty grid `s` are among `points`. */
  predicate EndsAmong(s: seq<real>, points: seq<real>) {
    |s| > 0 ==> s[0] in points && s[|s| - 1] in points
  }

  /** One layer/web grid: its first value is snapped, then its last value (read before the
      first was replaced), each against the points collected so far. */
  method SnapGrid(pts: seq<real>, g: seq<real>) returns (points: seq<real>, s: seq<real>)
    requires Distinct(pts) && |g| > 0
    ensures Distinct(points)
    ensures |points| >= |pts| && points[..|pts|] == pts
    ensures forall x :: x in points[|pts|..] ==> x == g[0] || x == g[|g| - 1]
    ensures SnappedFrom(g, s) && EndsAmong(s, points)
    ensures AppendedFresh(pts, points) && SnappedTo(g, s, points)
  {
    var first := SnapValue(g[0], pts);
    var last := SnapValue(g[|g| - 1], first.1);
    s := g[0 := first.0][|g| - 1 := last.0];
    points := last.1;
    SnapKeepsPrefix(pts, first.1, points, g[0], g[|g| - 1]);
    SnapValueSnaps(g[0], pts);
    SnapValueSnaps(g[|g| - 1], first.1);
    FreshChains(pts, first.1, points);
    if first.1 == points {
      assert first.1 + [] == points;
      FirstCloseExtends(g[0], first.1, []);
    } else {
      FirstCloseExtends(g[0], first.1, [g[|g| - 1]]);
      assert points[FirstClose(g[0], first.1).value] == first.1[FirstClose(g[0], first.1).value];
    }
  }

  /** Freshness composes along a chain of collected points. */
  lemma FreshChains(a: seq<real>, b: seq<real>, c: seq<real>)
    requires |a| <= |b| <= |c| && c[..|b|] == b
    requires AppendedFresh(a, b) && AppendedFresh(b, c)
    ensures AppendedFresh(a, c)
  {
    forall j, i | |a| <= j < |c| && 0 <= i < j ensures !IsClose(c[j], c[i]) {
      if j < |b| {
        assert c[j] == b[j] && c[i] == b[i];
      }
    }
  }

  /** Two snaps in a row keep the points collected before them and add only the two
      snapped values. */
  lemma SnapKeepsPrefix(pts: seq<real>, mid: seq<real>, points: seq<real>, x: real, y: real)
    requires mid == pts || mid == pts + [x]
    requires points == mid || points == mid + [y]
    ensures |points| >= |pts| && points[..|pts|] == pts
    ensures forall z :: z in points[|pts|..] ==> z == x || z == y
  {
    assert points[..|pts|] == pts by {
      assert mid[..|pts|] == pts;
    }
    assert points[|pts|..] == mid[|pts|..] + points[|mid|..];
  }

  /** Walks every layer/web grid in order and snaps the endpoints of the non-empty ones,
      collecting the points that match nothing yet. */
  method SnapEndpoints(base: seq<real>, grids: seq<seq<real>>) returns (points: seq<real>, snapped: seq<seq<real>>)
    requires Distinct(base)
    ensures Distinct(points)
    ensures |points| >= |base| && points[..|base|] == base
    ensures forall x :: x in points[|base|..] ==> x in Ends(grids)
    ensures |snapped| == |grids|
    ensures forall k :: 0 <= k < |grids| ==> SnappedFrom(grids[k], snapped[k]) && EndsAmong(snapped[k], points)
    ensures AppendedFresh(base, points)
    ensures forall k :: 0 <= k < |grids| ==> SnappedTo(grids[k], snapped[k], points)
  {
    points := base;
    snapped := [];
    assert base[|base|..] == [];
    for k := 0 to |grids|
      invariant Collected(base, grids, k, points, snapped)
    {
      points, snapped := SnapNext(base, grids, k, points, snapped);
    }
    assert grids[..|grids|] == grids;
  }

  /** The state of the endpoint walk after the first `k` grids. */
  predicate Collected(base: seq<real>, grids: seq<seq<real>>, k: nat, points: seq<real>, snapped: seq<seq<real>>) {
    k <= |grids| && Distinct(points) &&
    |points| >= |base| && points[..|base|] == base &&
    (forall x :: x in points[|base|..] ==> x in Ends(grids[..k])) &&
    |snapped| == k && AppendedFresh(base, points) &&
    forall q :: 0 <= q < k ==> Settled(grids[q], snapped[q], points)
  }

  /** One step of the walk: grid `k` snapped against the points collected so far. */
  method SnapNext(base: seq<real>, grids: seq<seq<real>>, k: nat, points: seq<real>, snapped: seq<seq<real>>)
    returns (points': seq<real>, snapped': seq<seq<real>>)
    requires k < |grids| && Collected(base, grids, k, points, snapped)
    ensures Collected(base, grids, k + 1, points', snapped')
  {
    var g := grids[k];
    EndsStep(grids, k);
    points' := points;
    if |g| > 0 {
      points', g := SnapGrid(points, g);
      GrowKeepsBase(base, points, points', Ends(grids[..k]), grids[k][0], grids[k][|grids[k]| - 1]);
      FreshChains(base, points, points');
      StillSettled(grids, k, snapped, points, points');
    }
    SettledAppend(grids, k, snapped, g, points');
    snapped' := snapped + [g];
  }

  /** Grid `g` is settled as `s` against the collected `points`. */
  predicate Settled(g: seq<real>, s: seq<real>, points: seq<real>) {
    SnappedFrom(g, s) && EndsAmong(s, points) && SnappedTo(g, s, points)
  }

  /** Grids settled against some points stay settled as those points grow. */
  lemma StillSettled(grids: seq<seq<real>>, k: nat, snapped: seq<seq<real>>, before: seq<real>, after: seq<real>)
    requires k <= |grids| && |snapped| == k && |before| <= |after| && after[..|before|] == before
    requires forall q :: 0 <= q < k ==> Settled(grids[q], snapped[q], before)
    ensures forall q :: 0 <= q < k ==> Settled(grids[q], snapped[q], after)
  {
    assert after == before + after[|before|..];
    forall q | 0 <= q < k ensures Settled(grids[q], snapped[q], after) {
      SnappedToGrows(grids[q], snapped[q], before, after[|before|..]);
      var s := snapped[q];
      if |s| > 0 {
        assert s[0] in before && s[|s| - 1] in before;
      }
    }
  }

  /** One more settled grid extends the settled prefix. */
  lemma SettledAppend(grids: seq<seq<real>>, k: nat, snapped: seq<seq<real>>, g: seq<real>, points: seq<real>)
    requires k < |grids| && |snapped| == k
    requires forall q :: 0 <= q < k ==> Settled(grids[q], snapped[q], points)
    requires Settled(grids[k], g, points)
    ensures forall q :: 0 <= q < k + 1 ==> Settled(grids[q], (snapped + [g])[q], points)
  {
    forall q | 0 <= q < k + 1 ensures Settled(grids[q], (snapped + [g])[q], points) {
      if q < k {
        assert (snapped + [g])[q] == snapped[q];
      }
    }
  }

  /** Endpoints among the points stay among them as the points grow. */
  lemma EndsStillAmong(snapped: seq<seq<real>>, before: seq<real>, after: seq<real>)
    requires forall x :: x in before ==> x in after
    ensures forall q :: 0 <= q < |snapped| && EndsAmong(snapped[q], before) ==> EndsAmong(snapped[q], after)
  {
    forall q | 0 <= q < |snapped| && EndsAmong(snapped[q], before) ensures EndsAmong(snapped[q], after) {
      var s := snapped[q];
      if |s| > 0 {
        var first, last := s[0], s[|s| - 1];
        assert first in before && last in before;
      }
    }
  }

  lemma EndsStep(grids: seq<seq<real>>, k: nat)
    requires k < |grids|
    ensures Ends(grids[..k + 1]) ==
            Ends(grids[..k]) + (if grids[k] == [] then [] else [grids[k][0], grids[k][|grids[k]| - 1]])
  {
    assert grids[..k + 1][..k] == grids[..k];
  }

  /** Points collected for one more grid keep the earlier points, and everything past the
      base is an endpoint seen so far. */
  lemma GrowKeepsBase(base: seq<real>, before: seq<real>, after: seq<real>, ends: seq<real>, x: real, y: real)
    requires |before| >= |base| && before[..|base|] == base
    requires forall z :: z in before[|base|..] ==> z in ends
    requires |after| >= |before| && after[..|before|] == before
    requires forall z :: z in after[|before|..] ==> z == x || z == y
    ensures |after| >= |base| && after[..|base|] == base
    ensures forall z :: z in after[|base|..] ==> z in ends + [x, y]
    ensures forall z :: z in before ==> z in after
  {
    assert after[..|base|] == base by {
      assert after[..|before|][..|base|] == after[..|base|];
    }
    assert after[|base|..] == before[|base|..] + after[|before|..];
    forall z | z in before ensures z in after {
      assert z in after[..|before|];
    }
  }

  // ---------------------------------------------------------------------------------------
  // Sharing filler points among the gaps

  /** One entry of `dri`, a gap's sub-spacing `gap / (fill + 1)`. A filler count of -1 makes
      numpy divide by zero, which gives +inf. */
  datatype Spacing = Finite(v: real) | Infinite

  /** Strict `<` on spacings, +inf above every finite one. */
  predicate Below(a: Spacing, b: Spacing) {
    match a
    case Infinite => false
    case Finite(x) => b.Infinite? || x < b.v
  }

  function SpacingOf(gap: real, f: int): Spacing {
    if f + 1 == 0 then Infinite else Finite(gap / ((f + 1) as real))
  }

  function Spacings(gaps: seq<real>, fill: seq<int>): seq<Spacing>
    requires |gaps| == |fill|
  {
    seq(|gaps|, i requires 0 <= i < |gaps| => SpacingOf(gaps[i], fill[i]))
  }

  /** The width of gap `i`, never negative between increasing points. */
  function Gap(r: seq<real>, i: nat): (w: real)
    requires i < |r| - 1 && StrictlyIncreasing(r)
    ensures w > 0.0
  {
    r[i + 1] - r[i]
  }

  /** Gap widths between consecutive required points. */
  function Gaps(r: seq<real>): seq<real>
    requires |r| >= 1
  {
    seq(|r| - 1, i requires 0 <= i < |r| - 1 => r[i + 1] - r[i])
  }

  /** `fill > 0`, the mask of gaps that still hold a filler point. */
  function Positive(fill: seq<int>): seq<bool> {
    seq(|fill|, i requires 0 <= i < |fill| => fill[i] > 0)
  }

  /** `np.argmin` over the masked entries: the first of the smallest. */
  function ArgMinWhere(d: seq<Spacing>, mask: seq<bool>): (k: nat)
    requires |mask| == |d|
    requires exists i :: 0 <= i < |d| && mask[i]
    ensures k < |d| && mask[k]
    ensures forall j :: 0 <= j < |d| && mask[j] ==> !Below(d[j], d[k])
    ensures forall j :: 0 <= j < k && mask[j] ==> Below(d[k], d[j])
  {
    if !mask[0] then
      var i :| 0 <= i < |d| && mask[i];
      assert mask[1..][i - 1];
      1 + ArgMinWhere(d[1..], mask[1..])
    else if forall i :: 1 <= i < |d| ==> !mask[i] then 0
    else
      var i :| 1 <= i < |d| && mask[i];
      assert mask[1..][i - 1];
      var k := 1 + ArgMinWhere(d[1..], mask[1..]);
      assert forall j :: 1 <= j < |d| && mask[j] ==> !Below(d[j], d[k]) by {
        forall j | 1 <= j < |d| && mask[j] ensures !Below(d[j], d[k]) {
          assert mask[1..][j - 1] && d[1..][j - 1] == d[j];
        }
      }
      if Below(d[k], d[0]) then k else 0
  }

  /** `np.argmin`: the first of the smallest entries. */
  function ArgMin(d: seq<Spacing>): (k: nat)
    requires |d| > 0
    ensures k < |d|
    ensures forall j :: 0 <= j < |d| ==> !Below(d[j], d[k])
    ensures forall j :: 0 <= j < k ==> Below(d[k], d[j])
  {
    var all := seq(|d|, i requires 0 <= i < |d| => true);
    assert all[0];
    ArgMinWhere(d, all)
  }

  /** `np.argmax`: the first of the largest entries. */
  function ArgMax(d: seq<Spacing>): (k: nat)
    requires |d| > 0
    ensures k < |d|
    ensures forall j :: 0 <= j < |d| ==> !Below(d[k], d[j])
    ensures forall j :: 0 <= j < k ==> Below(d[j], d[k])
  {
    if |d| == 1 then 0
    else
      var k := 1 + ArgMax(d[1..]);
      assert forall j :: 1 <= j < |d| ==> !Below(d[k], d[j]) by {
        forall j | 1 <= j < |d| ensures !Below(d[k], d[j]) {
          assert d[1..][j - 1] == d[j];
        }
      }
      if Below(d[0], d[k]) then k else 0
  }

  /** The distance of the running point count from the target, which every pass shrinks by one. */
  function Distance(total: int, n: int): nat {
    if total >= n then total - n else n - total
  }

  /** The gap a filler is taken from: the smallest sub-spacing among the gaps that still hold
      a filler if any does (`np.argmin(dri[fill > 0])`), else the smallest of all. */
  function TakeIndex(dri: seq<Spacing>, fill: seq<int>): (k: nat)
    requires |dri| == |fill| > 0
    ensures k < |fill|
    ensures Sum(fill) > 0 ==> fill[k] > 0 && forall j :: 0 <= j < |fill| && fill[j] > 0 ==> !Below(dri[j], dri[k])
    ensures Sum(fill) <= 0 ==> forall j :: 0 <= j < |fill| ==> !Below(dri[j], dri[k])
  {
    if Sum(fill) > 0 then
      PositiveMask(fill);
      ArgMinWhere(dri, Positive(fill))
    else ArgMin(dri)
  }

  lemma PositiveMask(fill: seq<int>)
    requires Sum(fill) > 0
    ensures exists i :: 0 <= i < |fill| && Positive(fill)[i]
  {
    PositiveTerm(fill);
    var i :| 0 <= i < |fill| && fill[i] > 0;
    assert Positive(fill)[i];
  }

  /** The filler-adjust loop as a specification: while the point count `sum(fill) + npts`
      differs from `n`, take one filler from `TakeIndex` or give one to the gap with the
      largest sub-spacing. */
  function Adjust(gaps: seq<real>, fill: seq<int>, n: int): (r: seq<int>)
    requires |fill| == |gaps| > 0
    ensures |r| == |fill|
    decreases Distance(Sum(fill) + |fill| + 1, n)
  {
    var total := Sum(fill) + |fill| + 1;
    var dri := Spacings(gaps, fill);
    if total == n then fill
    else if total > n then
      var idx := TakeIndex(dri, fill);
      SumUpdate(fill, idx, fill[idx] - 1);
      Adjust(gaps, fill[idx := fill[idx] - 1], n)
    else
      var idx := ArgMax(dri);
      SumUpdate(fill, idx, fill[idx] + 1);
      Adjust(gaps, fill[idx := fill[idx] + 1], n)
  }

  /** One pass of the loop while too many points are counted: a filler taken from the
      `TakeIndex` gap. */
  lemma AdjustTakes(gaps: seq<real>, fill: seq<int>, n: int, idx: nat, next: seq<int>)
    requires |fill| == |gaps| > 0 && Sum(fill) + |fill| + 1 > n
    requires idx == TakeIndex(Spacings(gaps, fill), fill) && next == fill[idx := fill[idx] - 1]
    ensures Adjust(gaps, fill, n) == Adjust(gaps, next, n)
  {
  }

  /** One pass of the loop while too few points are counted: a filler given to the gap with
      the largest sub-spacing. */
  lemma AdjustGives(gaps: seq<real>, fill: seq<int>, n: int, idx: nat, next: seq<int>)
    requires |fill| == |gaps| > 0 && Sum(fill) + |fill| + 1 < n
    requires idx == ArgMax(Spacings(gaps, fill)) && next == fill[idx := fill[idx] + 1]
    ensures Adjust(gaps, fill, n) == Adjust(gaps, next, n)
  {
  }

  /** The loop always ends with exactly `n` points counted. */
  lemma {:induction false} AdjustReachesTarget(gaps: seq<real>, fill: seq<int>, n: int)
    requires |fill| == |gaps| > 0
    ensures Sum(Adjust(gaps, fill, n)) + |fill| + 1 == n
    decreases Distance(Sum(fill) + |fill| + 1, n)
  {
    var total := Sum(fill) + |fill| + 1;
    var dri := Spacings(gaps, fill);
    if total > n {
      var idx := TakeIndex(dri, fill);
      var next := fill[idx := fill[idx] - 1];
      SumUpdate(fill, idx, fill[idx] - 1);
      AdjustReachesTarget(gaps, next, n);
      AdjustTakes(gaps, fill, n, idx, next);
    } else if total < n {
      var idx := ArgMax(dri);
      var next := fill[idx := fill[idx] + 1];
      SumUpdate(fill, idx, fill[idx] + 1);
      AdjustReachesTarget(gaps, next, n);
      AdjustGives(gaps, fill, n, idx, next);
    }
  }

  /** With no more required points than grid points, no filler count ever drops below zero:
      a filler is only taken while the counts still sum to a positive number, and then from a
      gap that has one. */
  lemma {:induction false} AdjustStaysNonNegative(gaps: seq<real>, fill: seq<int>, n: int)
    requires |fill| == |gaps| > 0
    requires |fill| + 1 <= n
    requires CountsAtLeast(fill, 0)
    ensures CountsAtLeast(Adjust(gaps, fill, n), 0)
    decreases Distance(Sum(fill) + |fill| + 1, n)
  {
    var total := Sum(fill) + |fill| + 1;
    var dri := Spacings(gaps, fill);
    if total > n {
      var idx := TakeIndex(dri, fill);
      assert fill[idx] > 0;
      var next := fill[idx := fill[idx] - 1];
      SumUpdate(fill, idx, fill[idx] - 1);
      AdjustStaysNonNegative(gaps, next, n);
      AdjustTakes(gaps, fill, n, idx, next);
    } else if total < n {
      var idx := ArgMax(dri);
      var next := fill[idx := fill[idx] + 1];
      SumUpdate(fill, idx, fill[idx] + 1);
      AdjustStaysNonNegative(gaps, next, n);
      AdjustGives(gaps, fill, n, idx, next);
    }
  }

  /** The shape the counts keep in every case: none below -1, and once one is negative
      none is positive. */
  predicate FillShape(fill: seq<int>) {
    CountsAtLeast(fill, -1) &&
    ((exists i :: 0 <= i < |fill| && fill[i] < 0) ==> forall i :: 0 <= i < |fill| ==> fill[i] <= 0)
  }

  /** Taking a filler while the total is still above `n >= 2` keeps the shape: with every
      count at or below zero, the smallest spacing is a finite one, so it belongs to a gap at
      zero, and such a gap exists since not every gap can be at -1 yet. */
  lemma TakeKeepsShape(gaps: seq<real>, fill: seq<int>, n: int)
    requires |fill| == |gaps| > 0 && n >= 2
    requires FillShape(fill) && Sum(fill) + |fill| + 1 > n
    ensures FillShape(fill[TakeIndex(Spacings(gaps, fill), fill) := fill[TakeIndex(Spacings(gaps, fill), fill)] - 1])
  {
    var dri := Spacings(gaps, fill);
    var idx := TakeIndex(dri, fill);
    if Sum(fill) <= 0 {
      if exists i :: 0 <= i < |fill| && fill[i] > 0 {
        NonNegativeSum(fill);
      }
      if forall i :: 0 <= i < |fill| ==> fill[i] == -1 {
        AllMinusOne(fill);
      }
      var z :| 0 <= z < |fill| && fill[z] == 0;
      assert dri[z].Finite?;
      assert !Below(dri[z], dri[idx]);
    }
  }

  /** Giving a filler keeps the shape: while a gap is at -1 its spacing is +inf, the largest,
      so the first such gap is the one that receives. */
  lemma GiveKeepsShape(gaps: seq<real>, fill: seq<int>)
    requires |fill| == |gaps| > 0
    requires FillShape(fill)
    ensures FillShape(fill[ArgMax(Spacings(gaps, fill)) := fill[ArgMax(Spacings(gaps, fill))] + 1])
  {
    var dri := Spacings(gaps, fill);
    var idx := ArgMax(dri);
    if exists i :: 0 <= i < |fill| && fill[i] < 0 {
      var m :| 0 <= m < |fill| && fill[m] < 0;
      assert dri[m] == Infinite;
      assert dri[idx] == Infinite;
    }
  }

  /** Even with more required points than grid points, no count drops below -1. */
  lemma {:induction false} AdjustKeepsShape(gaps: seq<real>, fill: seq<int>, n: int)
    requires |fill| == |gaps| > 0
    requires n >= 2
    requires FillShape(fill)
    ensures FillShape(Adjust(gaps, fill, n))
    decreases Distance(Sum(fill) + |fill| + 1, n)
  {
    var total := Sum(fill) + |fill| + 1;
    var dri := Spacings(gaps, fill);
    if total > n {
      var idx := TakeIndex(dri, fill);
      var next := fill[idx := fill[idx] - 1];
      SumUpdate(fill, idx, fill[idx] - 1);
      TakeKeepsShape(gaps, fill, n);
      AdjustKeepsShape(gaps, next, n);
      AdjustTakes(gaps, fill, n, idx, next);
    } else if total < n {
      var idx := ArgMax(dri);
      var next := fill[idx := fill[idx] + 1];
      SumUpdate(fill, idx, fill[idx] + 1);
      GiveKeepsShape(gaps, fill);
      AdjustKeepsShape(gaps, next, n);
      AdjustGives(gaps, fill, n, idx, next);
    }
  }

  /** A sum of non-negative terms with a positive one is positive. */
  lemma {:induction false} NonNegativeSum(s: seq<int>)
    requires CountsAtLeast(s, 0)
    requires exists i :: 0 <= i < |s| && s[i] > 0
    ensures Sum(s) > 0
  {
    var i :| 0 <= i < |s| && s[i] > 0;
    if i == 0 {
      NonNegativeSumZero(s[1..]);
    } else {
      assert s[1..][i - 1] > 0;
      NonNegativeSum(s[1..]);
    }
  }

  lemma {:induction false} NonNegativeSumZero(s: seq<int>)
    requires CountsAtLeast(s, 0)
    ensures Sum(s) >= 0
  {
    if s != [] {
      NonNegativeSumZero(s[1..]);
    }
  }

  lemma {:induction false} AllMinusOne(s: seq<int>)
    requires forall i :: 0 <= i < |s| ==> s[i] == -1
    ensures Sum(s) == -|s|
  {
    if s != [] {
      AllMinusOne(s[1..]);
    }
  }

  /** The initial count for one gap, `int(gap / dr)`. */
  function FloorCount(gap: real, dr: real): (k: int)
    requires gap >= 0.0 && dr > 0.0
    ensures k >= 0
  {
    FloorNonNegative(gap, dr);
    (gap / dr).Floor
  }

  lemma FloorNonNegative(gap: real, dr: real)
    requires gap >= 0.0 && dr > 0.0
    ensures (gap / dr).Floor >= 0
  {
    assert gap / dr >= 0.0;
  }

  /** The initial count is the number of whole steps that fit in the gap. */
  lemma FloorCountBrackets(gap: real, dr: real)
    requires gap >= 0.0 && dr > 0.0
    ensures (FloorCount(gap, dr) as real) * dr <= gap < (FloorCount(gap, dr) as real) * dr + dr
  {
    FloorBelow(gap, dr);
    FloorAbove(gap, dr);
  }

  lemma FloorBelow(gap: real, dr: real)
    requires gap >= 0.0 && dr > 0.0
    ensures ((gap / dr).Floor as real) * dr <= gap
  {
    var q := gap / dr;
    ScaleAtMost(q.Floor as real, q, dr);
    assert q * dr == gap;
  }

  lemma FloorAbove(gap: real, dr: real)
    requires gap >= 0.0 && dr > 0.0
    ensures gap < ((gap / dr).Floor as real) * dr + dr
  {
    var q := gap / dr;
    var x := q.Floor as real;
    assert q < x + 1.0;
    ScaleBelow(q, x + 1.0, dr);
    assert q * dr == gap;
    assert (x + 1.0) * dr == x * dr + dr;
  }

  lemma ScaleAtMost(a: real, b: real, d: real)
    requires a <= b && d > 0.0
    ensures a * d <= b * d
  {}

  lemma ScaleBelow(a: real, b: real, d: real)
    requires a < b && d > 0.0
    ensures a * d < b * d
  {}

  /** `dr`, the step of `linspace(r[0], r[-1], n)`. */
  function Step(r: seq<real>, n: int): real
    requires |r| >= 1 && n >= 2
  {
    (r[|r| - 1] - r[0]) / ((n - 1) as real)
  }

  /** The initial filler counts for step `dr`, one per gap. */
  function InitialCounts(r: seq<real>, dr: real): (f: seq<int>)
    requires |r| >= 2 && StrictlyIncreasing(r) && dr > 0.0
    ensures |f| == |r| - 1 && CountsAtLeast(f, 0)
  {
    seq(|r| - 1, i requires 0 <= i < |r| - 1 => FloorCount(Gap(r, i), dr))
  }

  /** Computes the initial counts and their spacings into fresh arrays, as the source's
      first loop does. */
  method InitialFill(r: seq<real>, n: int) returns (fill: array<int>, dri: array<Spacing>)
    requires |r| >= 2 && n >= 2 && StrictlyIncreasing(r)
    ensures fresh(fill) && fresh(dri)
    ensures Step(r, n) > 0.0 && fill[..] == InitialCounts(r, Step(r, n))
    ensures dri[..] == Spacings(Gaps(r), fill[..])
  {
    var dr := Step(r, n);
    StepPositive(r, n);
    fill := new int[|r| - 1];
    dri := new Spacing[|r| - 1];
    for i := 1 to |r|
      invariant forall j :: 0 <= j < i - 1 ==> fill[j] == FloorCount(Gap(r, j), dr)
      invariant forall j :: 0 <= j < i - 1 ==> dri[j] == SpacingOf(Gap(r, j), fill[j])
    {
      fill[i - 1] := FloorCount(Gap(r, i - 1), dr);
      dri[i - 1] := SpacingOf(Gap(r, i - 1), fill[i - 1]);
    }
    InitialCountsAre(r, dr, fill[..]);
    SpacingsAre(r, fill[..], dri[..]);
  }

  lemma StepPositive(r: seq<real>, n: int)
    requires |r| >= 2 && n >= 2 && StrictlyIncreasing(r)
    ensures Step(r, n) > 0.0
  {
    assert r[0] < r[|r| - 1];
  }

  /** Counts computed gap by gap are the initial counts. */
  lemma InitialCountsAre(r: seq<real>, dr: real, f: seq<int>)
    requires |r| >= 2 && StrictlyIncreasing(r) && dr > 0.0 && |f| == |r| - 1
    requires forall j :: 0 <= j < |f| ==> f[j] == FloorCount(Gap(r, j), dr)
    ensures f == InitialCounts(r, dr)
  {
  }

  /** Spacings computed gap by gap are the spacings of the gaps. */
  lemma SpacingsAre(r: seq<real>, f: seq<int>, d: seq<Spacing>)
    requires |r| >= 2 && StrictlyIncreasing(r) && |f| == |d| == |r| - 1
    requires forall j :: 0 <= j < |f| ==> d[j] == SpacingOf(Gap(r, j), f[j])
    ensures d == Spacings(Gaps(r), f)
  {
  }

  /** Changing one count changes only that gap's spacing. */
  lemma SpacingsUpdate(gaps: seq<real>, fill: seq<int>, i: nat, v: int)
    requires |gaps| == |fill| && i < |fill|
    ensures Spacings(gaps, fill[i := v]) == Spacings(gaps, fill)[i := SpacingOf(gaps[i], v)]
  {}

  /** The filler-adjust `while` loop, in place on `fill` and `dri`. */
  method AdjustFill(gaps: seq<real>, fill: array<int>, dri: array<Spacing>, n: int)
    requires fill.Length == dri.Length == |gaps| > 0
    requires dri[..] == Spacings(gaps, fill[..])
    modifies fill, dri
    ensures fill[..] == Adjust(gaps, old(fill[..]), n)
    ensures dri[..] == Spacings(gaps, fill[..])
  {
    var nOut := Sum(fill[..]) + fill.Length + 1;
    while nOut != n
      invariant dri[..] == Spacings(gaps, fill[..])
      invariant nOut == Sum(fill[..]) + fill.Length + 1
      invariant Adjust(gaps, fill[..], n) == Adjust(gaps, old(fill[..]), n)
      decreases Distance(nOut, n)
    {
      ghost var f := fill[..];
      var idx, v;
      if nOut > n {
        idx := TakeIndex(dri[..], fill[..]);
        v := fill[idx] - 1;
      } else {
        idx := ArgMax(dri[..]);
        v := fill[idx] + 1;
      }
      AdjustOneStep(gaps, f, n, idx, v);
      fill[idx] := v;
      dri[idx] := SpacingOf(gaps[idx], v);
      assert fill[..] == f[idx := v];
      nOut := Sum(fill[..]) + fill.Length + 1;
    }
  }

  /** One pass of the loop: the gap it picks and the count it leaves there continue the
      same `Adjust`, move the total one step towards `n` and change one spacing only. */
  lemma AdjustOneStep(gaps: seq<real>, f: seq<int>, n: int, idx: nat, v: int)
    requires |f| == |gaps| > 0 && Sum(f) + |f| + 1 != n
    requires idx == if Sum(f) + |f| + 1 > n then TakeIndex(Spacings(gaps, f), f) else ArgMax(Spacings(gaps, f))
    requires v == if Sum(f) + |f| + 1 > n then f[idx] - 1 else f[idx] + 1
    ensures Adjust(gaps, f[idx := v], n) == Adjust(gaps, f, n)
    ensures Sum(f[idx := v]) == Sum(f) - f[idx] + v
    ensures Distance(Sum(f[idx := v]) + |f| + 1, n) < Distance(Sum(f) + |f| + 1, n)
    ensures Spacings(gaps, f[idx := v]) == Spacings(gaps, f)[idx := SpacingOf(gaps[idx], v)]
  {
    SumUpdate(f, idx, v);
    SpacingsUpdate(gaps, f, idx, v);
  }

  // ---------------------------------------------------------------------------------------
  // Emitting the grid

  /** Gap `i`'s segment, `linspace(r[i], r[i+1], fill[i] + 2)`, without its last value unless
      it is the final gap (`[:-1]` of an empty or one-point segment is empty). */
  function Segment(r: seq<real>, fill: seq<int>, i: nat): seq<real>
    requires |fill| == |r| - 1 && i < |fill| && fill[i] >= -1
  {
    var l := Linspace(r[i], r[i + 1], fill[i] + 2);
    if i == |fill| - 1 then l else l[..|l| - 1]
  }

  predicate CountsAtLeast(fill: seq<int>, lo: int) {
    forall i :: 0 <= i < |fill| ==> fill[i] >= lo
  }

  /** The concatenation of the first `m` segments. */
  function GridUpTo(r: seq<real>, fill: seq<int>, m: nat): seq<real>
    requires |fill| == |r| - 1 && m <= |fill| && CountsAtLeast(fill, -1)
  {
    if m == 0 then [] else GridUpTo(r, fill, m - 1) + Segment(r, fill, m - 1)
  }

  function Grid(r: seq<real>, fill: seq<int>): seq<real>
    requires |fill| == |r| - 1 && CountsAtLeast(fill, -1)
  {
    GridUpTo(r, fill, |fill|)
  }

  /** The grid has one point per filler and per required point, whatever the counts. */
  lemma {:induction false} GridLength(r: seq<real>, fill: seq<int>, m: nat)
    requires |fill| == |r| - 1 && m <= |fill| && CountsAtLeast(fill, -1)
    ensures |GridUpTo(r, fill, m)| == Sum(fill[..m]) + m + (if m == |fill| && m > 0 then 1 else 0)
  {
    if m > 0 {
      GridLength(r, fill, m - 1);
      assert fill[..m] == fill[..m - 1] + [fill[m - 1]];
      SumAppend(fill[..m - 1], [fill[m - 1]]);
    }
  }

  /** The grid runs strictly upwards, every point of the first `m` segments lying in
      `[r[0], r[m])` (or up to `r[m]` once the final segment is in). */
  lemma {:induction false} GridIncreasing(r: seq<real>, fill: seq<int>, m: nat)
    requires |fill| == |r| - 1 && m <= |fill| && CountsAtLeast(fill, -1)
    requires StrictlyIncreasing(r)
    ensures StrictlyIncreasing(GridUpTo(r, fill, m))
    ensures forall x :: x in GridUpTo(r, fill, m) ==> r[0] <= x && (x < r[m] || (m == |fill| && x <= r[m]))
  {
    if m > 0 {
      GridIncreasing(r, fill, m - 1);
      var a := GridUpTo(r, fill, m - 1);
      var l := Linspace(r[m - 1], r[m], fill[m - 1] + 2);
      LinspaceIncreasing(r[m - 1], r[m], fill[m - 1] + 2);
      var seg := Segment(r, fill, m - 1);
      assert StrictlyIncreasing(seg);
      assert forall x :: x in seg ==> r[m - 1] <= x && (x < r[m] || (m == |fill| && x <= r[m])) by {
        forall x | x in seg ensures r[m - 1] <= x && (x < r[m] || (m == |fill| && x <= r[m])) {
          var j :| 0 <= j < |seg| && seg[j] == x;
          assert l[j] == x;
        }
      }
      assert r[0] <= r[m - 1];
      ConcatIncreasing(a, seg, r[m - 1]);
    }
  }

  lemma ConcatIncreasing(a: seq<real>, b: seq<real>, mid: real)
    requires StrictlyIncreasing(a) && StrictlyIncreasing(b)
    requires forall x :: x in a ==> x < mid
    requires forall x :: x in b ==> mid <= x
    ensures StrictlyIncreasing(a + b)
  {
    forall i, j | 0 <= i < j < |a + b| ensures (a + b)[i] < (a + b)[j] {
      if i < |a| && j >= |a| {
        assert a[i] in a && b[j - |a|] in b;
      }
    }
  }

  /** With no negative count, every required point is in the grid: each segment starts with
      its gap's left point. */
  lemma GridHasRequiredPoints(r: seq<real>, fill: seq<int>, m: nat)
    requires |fill| == |r| - 1 && m <= |fill| && CountsAtLeast(fill, 0)
    ensures forall j :: 0 <= j < m ==> r[j] in GridUpTo(r, fill, m)
  {
    forall j | 0 <= j < m ensures r[j] in GridUpTo(r, fill, m) {
      RequiredPointInGrid(r, fill, j, m);
    }
  }

  /** Required point `j` is in every grid prefix past gap `j`. */
  lemma {:induction false} RequiredPointInGrid(r: seq<real>, fill: seq<int>, j: nat, m: nat)
    requires |fill| == |r| - 1 && j < m <= |fill| && CountsAtLeast(fill, 0)
    ensures r[j] in GridUpTo(r, fill, m)
  {
    var prev := GridUpTo(r, fill, m - 1);
    var seg := SegmentStartsAtGap(r, fill, m - 1);
    assert GridUpTo(r, fill, m) == prev + seg;
    if j == m - 1 {
      assert (prev + seg)[|prev|] == r[j];
    } else {
      RequiredPointInGrid(r, fill, j, m - 1);
    }
  }

  /** With no negative count, segment `i` is not empty and starts with `r[i]`. */
  lemma SegmentStartsAtGap(r: seq<real>, fill: seq<int>, i: nat) returns (seg: seq<real>)
    requires |fill| == |r| - 1 && i < |fill| && CountsAtLeast(fill, 0)
    ensures seg == Segment(r, fill, i) && |seg| > 0 && seg[0] == r[i]
  {
    seg := Segment(r, fill, i);
    var l := Linspace(r[i], r[i + 1], fill[i] + 2);
    assert l[0] == r[i];
  }

  /** With no negative count, the grid starts at the first required point. */
  lemma {:induction false} GridStartsAtFirst(r: seq<real>, fill: seq<int>, m: nat)
    requires |fill| == |r| - 1 && 0 < m <= |fill| && CountsAtLeast(fill, 0)
    ensures |GridUpTo(r, fill, m)| > 0 && GridUpTo(r, fill, m)[0] == r[0]
  {
    var seg := SegmentStartsAtGap(r, fill, m - 1);
    if m > 1 {
      GridStartsAtFirst(r, fill, m - 1);
    }
  }

  /** The whole grid ends at the last required point. */
  lemma GridEndsAtLast(r: seq<real>, fill: seq<int>)
    requires |fill| == |r| - 1 && |fill| > 0 && CountsAtLeast(fill, 0)
    ensures |Grid(r, fill)| > 0 && Grid(r, fill)[|Grid(r, fill)| - 1] == r[|r| - 1]
  {
    var m := |fill|;
    var l := Linspace(r[m - 1], r[m], fill[m - 1] + 2);
    assert l[|l| - 1] == r[m];
    var g := GridUpTo(r, fill, m);
    assert g == GridUpTo(r, fill, m - 1) + l;
  }

  /** One more gap appends its segment. */
  lemma GridUpToStep(r: seq<real>, fill: seq<int>, m: nat, prev: seq<real>, seg: seq<real>)
    requires |fill| == |r| - 1 && m < |fill| && CountsAtLeast(fill, -1)
    requires prev == GridUpTo(r, fill, m) && seg == Segment(r, fill, m)
    ensures prev + seg == GridUpTo(r, fill, m + 1)
  {
  }

  /** Concatenates the segments, as the source's last loop does. */
  method EmitGrid(r: seq<real>, fill: seq<int>) returns (grid: seq<real>)
    requires |fill| == |r| - 1 && CountsAtLeast(fill, -1)
    ensures grid == Grid(r, fill)
  {
    grid := [];
    for i := 1 to |r|
      invariant grid == GridUpTo(r, fill, i - 1)
    {
      var l := Linspace(r[i - 1], r[i], fill[i - 1] + 2);
      var seg := if i == |r| - 1 then l else l[..|l| - 1];
      GridUpToStep(r, fill, i - 1, grid, seg);
      grid := grid + seg;
    }
  }

  // ---------------------------------------------------------------------------------------
  // The whole builder

  /** The counts the builder settles on for sorted required points `r` and `n` grid points. */
  function PlannedFill(r: seq<real>, n: int): seq<int>
    requires |r| >= 2 && n >= 2 && StrictlyIncreasing(r)
  {
    StepPositive(r, n);
    Adjust(Gaps(r), InitialCounts(r, Step(r, n)), n)
  }

  /** The settled counts never go below -1, and not below 0 when the required points fit. */
  lemma PlannedFillBounds(r: seq<real>, n: int)
    requires |r| >= 2 && n >= 2 && StrictlyIncreasing(r)
    ensures |PlannedFill(r, n)| == |r| - 1
    ensures Sum(PlannedFill(r, n)) + |r| == n
    ensures CountsAtLeast(PlannedFill(r, n), -1)
    ensures |r| <= n ==> CountsAtLeast(PlannedFill(r, n), 0)
  {
    StepPositive(r, n);
    var f0 := InitialCounts(r, Step(r, n));
    AdjustReachesTarget(Gaps(r), f0, n);
    AdjustKeepsShape(Gaps(r), f0, n);
    if |r| <= n {
      AdjustStaysNonNegative(Gaps(r), f0, n);
    }
  }

  function PlannedGrid(r: seq<real>, n: int): seq<real>
    requires |r| >= 2 && n >= 2 && StrictlyIncreasing(r)
  {
    PlannedFillBounds(r, n);
    Grid(r, PlannedFill(r, n))
  }

  /** The emitted grid has exactly `n` points. */
  lemma PlannedGridLength(r: seq<real>, n: int)
    requires |r| >= 2 && n >= 2 && StrictlyIncreasing(r)
    ensures |PlannedGrid(r, n)| == n
  {
    PlannedFillBounds(r, n);
    var f := PlannedFill(r, n);
    GridLength(r, f, |f|);
    assert f[..|f|] == f;
  }

  /** The emitted grid increases strictly. */
  lemma PlannedGridIncreasing(r: seq<real>, n: int)
    requires |r| >= 2 && n >= 2 && StrictlyIncreasing(r)
    ensures StrictlyIncreasing(PlannedGrid(r, n))
  {
    PlannedFillBounds(r, n);
    var f := PlannedFill(r, n);
    GridIncreasing(r, f, |f|);
  }

  /** When the required points fit, the emitted grid starts and ends at the outer ones and
      holds every one of them. */
  lemma PlannedGridHasRequiredPoints(r: seq<real>, n: int)
    requires |r| >= 2 && n >= 2 && StrictlyIncreasing(r) && |r| <= n
    ensures forall x :: x in r ==> x in PlannedGrid(r, n)
    ensures |PlannedGrid(r, n)| == n && PlannedGrid(r, n)[0] == r[0] && PlannedGrid(r, n)[n - 1] == r[|r| - 1]
  {
    PlannedFillBounds(r, n);
    PlannedGridLength(r, n);
    var f := PlannedFill(r, n);
    var g := PlannedGrid(r, n);
    assert g == GridUpTo(r, f, |f|);
    GridHasRequiredPoints(r, f, |f|);
    GridStartsAtFirst(r, f, |f|);
    GridEndsAtLast(r, f);
    forall x | x in r ensures x in g {
      var j :| 0 <= j < |r| && r[j] == x;
      if j == |f| {
        assert g[n - 1] == x;
      }
    }
  }

  /** Three required points on a two-point grid: the only gap-to-remove is the first, its
      count goes to -1, its `linspace(0, 0.5, 1)[:-1]` is empty, and the root point 0 is
      dropped from the grid (the source only warns). */
  lemma TooManyRequiredPointsDropsOne()
    ensures PlannedFill([0.0, 0.5, 1.0], 2) == [-1, 0]
    ensures PlannedGrid([0.0, 0.5, 1.0], 2) == [0.5, 1.0]
    ensures 0.0 !in PlannedGrid([0.0, 0.5, 1.0], 2)
  {
    ExampleInitialCounts();
    ExampleAdjust();
    ExampleGrid();
  }

  lemma ExampleInitialCounts()
    ensures Step([0.0, 0.5, 1.0], 2) == 1.0
    ensures InitialCounts([0.0, 0.5, 1.0], 1.0) == [0, 0]
    ensures Gaps([0.0, 0.5, 1.0]) == [0.5, 0.5]
  {
    var r := [0.0, 0.5, 1.0];
    assert Step(r, 2) == 1.0;
    FloorZero(0.5, 1.0);
  }

  lemma FloorZero(gap: real, dr: real)
    requires 0.0 <= gap < dr
    ensures FloorCount(gap, dr) == 0
  {
    assert gap / dr < 1.0;
  }

  lemma ExampleAdjust()
    ensures Adjust([0.5, 0.5], [0, 0], 2) == [-1, 0]
  {
    var d := Spacings([0.5, 0.5], [0, 0]);
    assert d == [Finite(0.5), Finite(0.5)];
    assert Sum([0, 0]) == 0;
    assert TakeIndex(d, [0, 0]) == 0;
    assert [0, 0][0 := -1] == [-1, 0];
    assert Sum([-1, 0]) == -1;
  }

  lemma ExampleGrid()
    ensures Grid([0.0, 0.5, 1.0], [-1, 0]) == [0.5, 1.0]
  {
    var r := [0.0, 0.5, 1.0];
    var f := [-1, 0];
    assert Linspace(0.0, 0.5, 1) == [0.0];
    assert Segment(r, f, 0) == [];
    assert Linspace(0.5, 1.0, 2) == [0.5, 1.0];
    assert Segment(r, f, 1) == [0.5, 1.0];
    assert GridUpTo(r, f, 1) == [];
    assert GridUpTo(r, f, 2) == [] + [0.5, 1.0];
  }

  /** Every endpoint of the grids is the first or last value of one of them. */
  lemma EndsFromGrids(grids: seq<seq<real>>)
    ensures forall x :: x in Ends(grids) ==>
              exists k :: 0 <= k < |grids| && |grids[k]| > 0 && (x == grids[k][0] || x == grids[k][|grids[k]| - 1])
  {
    if grids != [] {
      var init := grids[..|grids| - 1];
      EndsFromGrids(init);
      forall x | x in Ends(grids)
        ensures exists k :: 0 <= k < |grids| && |grids[k]| > 0 && (x == grids[k][0] || x == grids[k][|grids[k]| - 1])
      {
        if x in Ends(init) {
          var k :| 0 <= k < |init| && |init[k]| > 0 && (x == init[k][0] || x == init[k][|init[k]| - 1]);
          assert grids[k] == init[k];
        } else {
          assert grids[|grids| - 1] != [];
        }
      }
    }
  }

  /** Every value of `xs` is close to `p`. */
  predicate AllCloseTo(xs: seq<real>, p: real) {
    forall x :: x in xs ==> IsClose(x, p)
  }

  /** The collected points are the given points and grid endpoints: none exactly when there
      is nothing to collect, and a single one is close to everything collected. */
  lemma CollectedCover(given: seq<real>, grids: seq<seq<real>>, base: seq<real>, points: seq<real>, snapped: seq<seq<real>>)
    requires base == Dedup(given)
    requires |points| >= |base| && points[..|base|] == base
    requires forall x :: x in points[|base|..] ==> x in Ends(grids)
    requires |snapped| == |grids|
    requires forall k :: 0 <= k < |grids| ==> SnappedFrom(grids[k], snapped[k]) && EndsAmong(snapped[k], points)
    ensures |points| == 0 <==> given + Ends(grids) == []
    ensures forall x :: x in points ==> x in given || x in Ends(grids)
    ensures |points| == 1 ==> AllCloseTo(given + Ends(grids), points[0])
  {
    CollectedFromInputs(given, grids, base, points);
    CollectedSomething(given, grids, base, points, snapped);
    if |points| == 1 {
      forall x | x in given + Ends(grids) ensures IsClose(x, points[0]) {
        CloseToSingle(given, grids, base, points, snapped, x);
      }
    }
  }

  /** With a single collected point, every given point is it and every endpoint is close to it. */
  lemma CloseToSingle(given: seq<real>, grids: seq<seq<real>>, base: seq<real>, points: seq<real>, snapped: seq<seq<real>>, x: real)
    requires base == Dedup(given)
    requires |points| == 1 && |points| >= |base| && points[..|base|] == base
    requires |snapped| == |grids|
    requires forall k :: 0 <= k < |grids| ==> SnappedFrom(grids[k], snapped[k]) && EndsAmong(snapped[k], points)
    requires x in given + Ends(grids)
    ensures IsClose(x, points[0])
  {
    if x in given {
      assert x in base;
      assert x in points[..|base|];
      assert IsClose(points[0], points[0]);
    } else {
      assert x in Ends(grids);
      EndsFromGrids(grids);
      var k :| 0 <= k < |grids| && |grids[k]| > 0 && (x == grids[k][0] || x == grids[k][|grids[k]| - 1]);
      assert snapped[k][0] in points && snapped[k][|snapped[k]| - 1] in points;
    }
  }

  /** Every collected point is a given point or a grid endpoint. */
  lemma CollectedFromInputs(given: seq<real>, grids: seq<seq<real>>, base: seq<real>, points: seq<real>)
    requires base == Dedup(given)
    requires |points| >= |base| && points[..|base|] == base
    requires forall x :: x in points[|base|..] ==> x in Ends(grids)
    ensures forall x :: x in points ==> x in given || x in Ends(grids)
  {
    forall x | x in points ensures x in given || x in Ends(grids) {
      var i :| 0 <= i < |points| && points[i] == x;
      if i < |base| {
        assert x in points[..|base|];
      } else {
        assert x in points[|base|..];
      }
    }
  }

  /** Something is collected exactly when there is a given point or a grid endpoint. */
  lemma CollectedSomething(given: seq<real>, grids: seq<seq<real>>, base: seq<real>, points: seq<real>, snapped: seq<seq<real>>)
    requires base == Dedup(given)
    requires |points| >= |base| && points[..|base|] == base
    requires forall x :: x in points[|base|..] ==> x in Ends(grids)
    requires |snapped| == |grids|
    requires forall k :: 0 <= k < |grids| ==> SnappedFrom(grids[k], snapped[k]) && EndsAmong(snapped[k], points)
    ensures |points| == 0 <==> given + Ends(grids) == []
  {
    if given != [] {
      assert given[0] in base;
    } else if Ends(grids) != [] {
      EndsFromGrids(grids);
      var x := Ends(grids)[0];
      assert x in Ends(grids);
      var k :| 0 <= k < |grids| && |grids[k]| > 0 && (x == grids[k][0] || x == grids[k][|grids[k]| - 1]);
      assert SnappedFrom(grids[k], snapped[k]) && EndsAmong(snapped[k], points);
      assert snapped[k][0] in points;
      assert given + Ends(grids) == Ends(grids);
    } else {
      assert base == [];
      assert given + Ends(grids) == [];
      assert points[|base|..] == points;
      DrawnFromNonEmpty(points[|base|..], Ends(grids));
    }
  }

  /** Values all drawn from another list: that list has some when they do. */
  lemma DrawnFromNonEmpty(xs: seq<real>, ys: seq<real>)
    requires forall x :: x in xs ==> x in ys
    ensures |xs| > 0 ==> |ys| > 0
  {
    if |xs| > 0 {
      var x := xs[0];
      assert x in xs;
    }
  }

  /** What the builder leaves behind: the grid `s`, the sorted required points and every
      layer/web grid with its endpoints snapped. */
  datatype SpanwiseLayout = SpanwiseLayout(grid: seq<real>, required: seq<real>, snapped: seq<seq<real>>)

  /** `calc_spanwise_grid`. `rIn` and `airfoilGrid` are the user control radii and the airfoil
      positions; `grids` lists every layer/web variable grid in section and key order; `n` is
      `NPTS`. The failures are the source's: no required point (IndexError), `n` below 2
      (IndexError from the one-point `linspace`, ValueError for a negative count), a single
      required point (ValueError from `argmax` of no gaps). */
  method CalcSpanwiseGrid(rIn: seq<real>, airfoilGrid: seq<real>, grids: seq<seq<real>>, n: int)
    returns (res: Result<SpanwiseLayout>)
    ensures res.Ok? ==> n >= 2 && |res.value.required| >= 2
    ensures n < 2 ==> res.Err?
    ensures rIn + airfoilGrid + Ends(grids) == [] ==> res == Err(IndexError)
    ensures rIn + airfoilGrid + Ends(grids) != [] && n < 0 ==> res == Err(ValueError)
    ensures rIn + airfoilGrid + Ends(grids) != [] && 0 <= n < 2 ==> res == Err(IndexError)
    ensures n >= 2 && |Dedup(rIn + airfoilGrid)| >= 2 ==> res.Ok?
    ensures n >= 2 && rIn + airfoilGrid + Ends(grids) != [] && res.Err? ==>
              res == Err(ValueError) && |Dedup(rIn + airfoilGrid)| <= 1 &&
              exists p :: AllCloseTo(rIn + airfoilGrid + Ends(grids), p)
    ensures res.Ok? ==> forall x :: x in res.value.required ==> x in rIn + airfoilGrid || x in Ends(grids)
    ensures res.Ok? ==> StrictlyIncreasing(res.value.required)
    ensures res.Ok? ==> res.value.grid == PlannedGrid(res.value.required, n)
    ensures res.Ok? ==> |res.value.grid| == n && StrictlyIncreasing(res.value.grid)
    ensures res.Ok? ==> forall x :: x in rIn + airfoilGrid ==> x in res.value.required
    ensures res.Ok? ==> |res.value.snapped| == |grids|
    ensures res.Ok? ==> forall k :: 0 <= k < |grids| ==>
              SnappedFrom(grids[k], res.value.snapped[k]) && EndsAmong(res.value.snapped[k], res.value.required)
    ensures res.Ok? && |res.value.required| <= n ==> forall x :: x in res.value.required ==> x in res.value.grid
    ensures res.Ok? && |res.value.required| <= n ==> forall k :: 0 <= k < |grids| ==>
              EndsAmong(res.value.snapped[k], res.value.grid)
  {
    var base := Dedup(rIn + airfoilGrid);
    var points, snapped := SnapEndpoints(base, grids);
    forall x | x in rIn + airfoilGrid ensures x in points {
      assert x in base;
      assert x in points[..|base|];
    }
    var r := Sorted(points);
    SortedDistinctIsIncreasing(points);
    EndsStillAmong(snapped, points, r);
    CollectedCover(rIn + airfoilGrid, grids, base, points, snapped);
    if |r| == 0 {
      return Err(IndexError);
    }
    if n < 0 {
      return Err(ValueError);
    }
    if n < 2 {
      return Err(IndexError);
    }
    if |r| == 1 {
      assert AllCloseTo(rIn + airfoilGrid + Ends(grids), points[0]);
      return Err(ValueError);
    }
    var fill, dri := InitialFill(r, n);
    AdjustFill(Gaps(r), fill, dri, n);
    assert fill[..] == PlannedFill(r, n);
    PlannedFillBounds(r, n);
    var grid := EmitGrid(r, fill[..]);
    PlannedGridLength(r, n);
    PlannedGridIncreasing(r, n);
    if |r| <= n {
      PlannedGridHasRequiredPoints(r, n);
      EndsStillAmong(snapped, r, grid);
    }
    res := Ok(SpanwiseLayout(grid, r, snapped));
  }
}
