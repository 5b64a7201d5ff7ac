/** The index, ordering, clamping and closure logic of `ReferenceBlade.remap_polars`: the
    common angle-of-attack grid, the reference airfoils in first-placement order, the global
    Reynolds number grid, each airfoil's Reynolds-number table padded at both ends, the
    spanwise thickness clamp and the periodic closure of the coefficient tables. */
module Polars {
  import opened Numerics
  import opened Interpolation
  import opened Planform

  /** One polar of a reference airfoil: its Reynolds number and the three coefficient curves
      over the angle of attack. */
  datatype Polar = Polar(re: real, cl: Curve, cd: Curve, cm: Curve)

  /** The polars of one reference airfoil (`AFref[af]['polars']`). */
  datatype AirfoilPolars = AirfoilPolars(polars: seq<Polar>)

  /** `alpha`: the lift grid of the first polar of the last placed airfoil, its first entry
      set to minus a half turn and its last to a half turn (`np.radians(±180.)`, the
      parameter `halfTurn`). With a single entry both writes hit it and the half turn wins.
      No placed airfoil, an empty polar list or an empty grid raise IndexError, an airfoil
      without polars data KeyError. */
  function AlphaGrid(labels: seq<string>, afs: map<string, AirfoilPolars>, halfTurn: real): (r: Result<seq<real>>)
    ensures labels == [] ==> r == Err(IndexError)
    ensures labels != [] && labels[|labels| - 1] !in afs ==> r == Err(KeyError)
    ensures labels != [] && labels[|labels| - 1] in afs && afs[labels[|labels| - 1]].polars == [] ==> r == Err(IndexError)
    ensures (labels != [] && labels[|labels| - 1] in afs && afs[labels[|labels| - 1]].polars != [] &&
             afs[labels[|labels| - 1]].polars[0].cl.grid == []) ==> r == Err(IndexError)
    ensures r.Ok? <==>
              labels != [] && labels[|labels| - 1] in afs && afs[labels[|labels| - 1]].polars != [] &&
              afs[labels[|labels| - 1]].polars[0].cl.grid != []
    ensures r.Ok? ==>
              var g := afs[labels[|labels| - 1]].polars[0].cl.grid;
              |r.value| == |g| > 0 &&
              r.value[|g| - 1] == halfTurn &&
              (|g| >= 2 ==> r.value[0] == -halfTurn) &&
              forall i :: 0 < i < |g| - 1 ==> r.value[i] == g[i]
    ensures r.Err? ==> r.error == IndexError || r.error == KeyError
  {
    if labels == [] then Err(IndexError)
    else if labels[|labels| - 1] !in afs then Err(KeyError)
    else
      var ps := afs[labels[|labels| - 1]].polars;
      if ps == [] then Err(IndexError)
      else
        var g := ps[0].cl.grid;
        if g == [] then Err(IndexError)
        else
          var a := if g[0] != -halfTurn then g[0 := -halfTurn] else g;
          var b := if a[|a| - 1] != halfTurn then a[|a| - 1 := halfTurn] else a;
          Ok(b)
  }

  /** The `af_ref` loop: each placed label appended the first time it is met. */
  method DistinctLabels(labels: seq<string>) returns (afRef: seq<string>)
    ensures afRef == Dedup(labels)
    ensures Distinct(afRef) && forall l :: l in afRef <==> l in labels
  {
    afRef := [];
    for k := 0 to |labels|
      invariant afRef == Dedup(labels[..k])
    {
      assert labels[..k + 1][..k] == labels[..k];
      if labels[k] !in afRef {
        afRef := afRef + [labels[k]];
      }
    }
    assert labels[..|labels|] == labels;
  }

  function Concat(ss: seq<seq<real>>): (r: seq<real>)
  {
    if ss == [] then [] else ss[0] + Concat(ss[1..])
  }

  /** A value is in the concatenation exactly when it is in one of the parts. */
  lemma {:induction false} ConcatMembers(ss: seq<seq<real>>, x: real)
    ensures x in Concat(ss) <==> exists i :: 0 <= i < |ss| && x in ss[i]
  {
    if ss != [] {
      ConcatMembers(ss[1..], x);
      if x in Concat(ss[1..]) {
        var i :| 0 <= i < |ss[1..]| && x in ss[1..][i];
        assert x in ss[i + 1];
      }
      if i :| 0 <= i < |ss| && x in ss[i] {
        if i > 0 {
          assert x in ss[1..][i - 1];
        }
      }
    }
  }

  /** `Re`: every Reynolds number of every reference airfoil, given as one list per airfoil,
      without repeats and in increasing order. */
  function ReynoldsGrid(res: seq<seq<real>>): (r: seq<real>)
    ensures StrictlyIncreasing(r)
    ensures forall x :: x in r <==> exists i :: 0 <= i < |res| && x in res[i]
  {
    forall x ensures x in Concat(res) <==> exists i :: 0 <= i < |res| && x in res[i] {
      ConcatMembers(res, x);
    }
    SortedDistinct(Concat(res))
  }

  /** The three coefficient curves of one polar, each on the grid `alpha`. */
  datatype Column = Column(cl: seq<real>, cd: seq<real>, cm: seq<real>)

  /** One airfoil's table over the Reynolds number: column `k` is labelled `re[k]` and holds
      the polar with index `sources[k]`. */
  datatype ReTable = ReTable(re: seq<real>, sources: seq<nat>, columns: seq<Column>)

  function RemapPolar(p: Polar, alpha: seq<real>, fit: Fit): (r: Result<Column>)
    ensures r.Err? ==> r.error == ValueError
    ensures r.Ok? ==> |r.value.cl| == |r.value.cd| == |r.value.cm| == |alpha|
    ensures r.Ok? ==> |p.cl.values| > 0 && forall i :: 0 <= i < |alpha| ==>
              SeqMin(p.cl.values) <= r.value.cl[i] <= SeqMax(p.cl.values)
  {
    var cl :- RemapCurve(p.cl, alpha, fit);
    var cd :- RemapCurve(p.cd, alpha, fit);
    var cm :- RemapCurve(p.cm, alpha, fit);
    Ok(Column(cl, cd, cm))
  }

  /** The polars with the indices `order`, remapped onto `alpha` in that order; a polar
      whose curves cannot be fitted raises ValueError. */
  function RemapColumns(ps: seq<Polar>, order: seq<nat>, alpha: seq<real>, fit: Fit): (r: Result<seq<Column>>)
    requires forall k :: 0 <= k < |order| ==> order[k] < |ps|
    ensures r.Ok? <==> forall k :: 0 <= k < |order| ==> RemapPolar(ps[order[k]], alpha, fit).Ok?
    ensures r.Err? ==> r.error == ValueError
    ensures r.Ok? ==> |r.value| == |order|
    ensures r.Ok? ==> forall k :: 0 <= k < |order| ==> RemapPolar(ps[order[k]], alpha, fit) == Ok(r.value[k])
  {
    if forall k :: 0 <= k < |order| ==> RemapPolar(ps[order[k]], alpha, fit).Ok? then
      Ok(seq(|order|, k requires 0 <= k < |order| => RemapPolar(ps[order[k]], alpha, fit).value))
    else Err(ValueError)
  }

  function Range(n: nat): (r: seq<nat>)
    ensures |r| == n && forall k :: 0 <= k < n ==> r[k] == k
  {
    seq(n, k requires 0 <= k < n => k)
  }

  function ReOf(ps: seq<Polar>): (r: seq<real>)
    ensures |r| == |ps| && forall k :: 0 <= k < |ps| ==> r[k] == ps[k].re
  {
    seq(|ps|, k requires 0 <= k < |ps| => ps[k].re)
  }

  /** Every column holds a polar whose Reynolds number is the column's label. */
  predicate Labelled(ps: seq<Polar>, t: ReTable) {
    |t.sources| == |t.re| == |t.columns| &&
    forall k :: 0 <= k < |t.sources| ==> t.sources[k] < |ps| && ps[t.sources[k]].re == t.re[k]
  }

  /** The table as the loop writes it: the labels are the sorted Reynolds numbers, but polar
      `j` is written into column `j`, its position in the input. */
  function PolarTableAsWritten(ps: seq<Polar>, alpha: seq<real>, fit: Fit): (r: Result<ReTable>)
    ensures r.Ok? ==> r.value.re == Sorted(ReOf(ps)) && r.value.sources == Range(|ps|)
  {
    var cols :- RemapColumns(ps, Range(|ps|), alpha, fit);
    Ok(ReTable(Sorted(ReOf(ps)), Range(|ps|), cols))
  }

  /** Two polars given in decreasing Reynolds-number order: the column labelled 1e6 holds
      the polar measured at 2e6. */
  lemma AsWrittenMislabelsColumns(c: Curve, alpha: seq<real>, fit: Fit)
    requires PolarTableAsWritten([Polar(2000000.0, c, c, c), Polar(1000000.0, c, c, c)], alpha, fit).Ok?
    ensures var t := PolarTableAsWritten([Polar(2000000.0, c, c, c), Polar(1000000.0, c, c, c)], alpha, fit).value;
            t.re[0] == 1000000.0 && t.sources[0] == 0 &&
            !Labelled([Polar(2000000.0, c, c, c), Polar(1000000.0, c, c, c)], t)
  {
    var ps := [Polar(2000000.0, c, c, c), Polar(1000000.0, c, c, c)];
    assert ReOf(ps) == [2000000.0, 1000000.0];
    SortedDescendingPair(2000000.0, 1000000.0);
    var t := PolarTableAsWritten(ps, alpha, fit).value;
    assert t.re[0] == 1000000.0 && t.sources[0] == 0;
    assert ps[t.sources[0]].re != t.re[0];
  }

  lemma SortedDescendingPair(a: real, b: real)
    requires b < a
    ensures Sorted([a, b]) == [b, a]
  {
    assert [a, b][1..] == [b];
    assert Sorted([b]) == [b] by {
      assert [b][1..] == [];
    }
  }

  /** A key-ordered list of polar indices: indices below `|res|`, each once, keys nondecreasing. */
  predicate ArgSorted(p: seq<nat>, res: seq<real>) {
    (forall k :: 0 <= k < |p| ==> p[k] < |res|) &&
    (forall a, b :: 0 <= a < b < |p| ==> res[p[a]] <= res[p[b]])
  }

  /** `sorted(zip(Re_i, range(n)))`: index `i` inserted after every index with key at most
      `res[i]` (ties keep input order). */
  function InsertIndex(i: nat, t: seq<nat>, res: seq<real>): (r: seq<nat>)
    requires i < |res| && ArgSorted(t, res)
    ensures ArgSorted(r, res)
    ensures multiset(r) == multiset(t) + multiset{i}
  {
    if t == [] then [i]
    else if res[i] < res[t[0]] then
      HeadKeysAbove(res[i], t, res);
      PrependArgSorted(i, t, res);
      [i] + t
    else
      var rest := InsertIndex(i, t[1..], res);
      assert t == [t[0]] + t[1..];
      TailKeysAbove(t, res);
      KeysAboveOfMultiset(res[t[0]], rest, t[1..], i, res);
      PrependArgSorted(t[0], rest, res);
      [t[0]] + rest
  }

  /** Every index of `p` is a row whose key is at least `key`. */
  predicate KeysAbove(key: real, p: seq<nat>, res: seq<real>) {
    forall k :: 0 <= k < |p| ==> p[k] < |res| && key <= res[p[k]]
  }

  lemma HeadKeysAbove(key: real, t: seq<nat>, res: seq<real>)
    requires ArgSorted(t, res) && t != [] && key <= res[t[0]]
    ensures KeysAbove(key, t, res)
  {
    forall k | 0 <= k < |t| ensures key <= res[t[k]] {
      if k > 0 {
        assert res[t[0]] <= res[t[k]];
      }
    }
  }

  lemma TailKeysAbove(t: seq<nat>, res: seq<real>)
    requires ArgSorted(t, res) && t != []
    ensures KeysAbove(res[t[0]], t[1..], res)
  {
    forall k | 0 <= k < |t| - 1 ensures res[t[0]] <= res[t[1..][k]] {
      assert t[1..][k] == t[k + 1];
    }
  }

  /** The bound carries over to a list with the same indices and one more. */
  lemma KeysAboveOfMultiset(key: real, p: seq<nat>, q: seq<nat>, i: nat, res: seq<real>)
    requires multiset(p) == multiset(q) + multiset{i}
    requires KeysAbove(key, q, res) && i < |res| && key <= res[i]
    ensures KeysAbove(key, p, res)
  {
    forall k | 0 <= k < |p| ensures p[k] < |res| && key <= res[p[k]] {
      var x := p[k];
      assert x in multiset(p);
      if x != i {
        assert x in multiset(q);
        var j :| 0 <= j < |q| && q[j] == x;
      }
    }
  }

  lemma PrependArgSorted(x: nat, p: seq<nat>, res: seq<real>)
    requires x < |res| && ArgSorted(p, res) && KeysAbove(res[x], p, res)
    ensures ArgSorted([x] + p, res)
  {
    var r := [x] + p;
    forall a, b | 0 <= a < b < |r| ensures res[r[a]] <= res[r[b]] {
      if a > 0 {
        assert r[a] == p[a - 1] && r[b] == p[b - 1];
      }
    }
  }

  /** `polar_idx`: the indices `0 .. n-1` ordered by their Reynolds number. */
  function ArgSort(res: seq<real>, n: nat): (r: seq<nat>)
    requires n <= |res|
    ensures ArgSorted(r, res)
    ensures multiset(r) == multiset(Range(n))
  {
    if n == 0 then []
    else
      assert Range(n) == Range(n - 1) + [n - 1];
      InsertIndex(n - 1, ArgSort(res, n - 1), res)
  }

  /** The intended table: column `k` holds the polar `polar_idx[k]`. */
  function PolarTable(ps: seq<Polar>, alpha: seq<real>, fit: Fit): (r: Result<ReTable>)
    ensures r.Ok? ==> Labelled(ps, r.value) && NonDecreasing(r.value.re)
    ensures r.Ok? ==> multiset(r.value.sources) == multiset(Range(|ps|))
    ensures r.Ok? ==> forall k :: 0 <= k < |r.value.columns| ==>
              RemapPolar(ps[r.value.sources[k]], alpha, fit) == Ok(r.value.columns[k])
  {
    var order := ArgSort(ReOf(ps), |ps|);
    var cols :- RemapColumns(ps, order, alpha, fit);
    Ok(ReTable(seq(|order|, k requires 0 <= k < |order| => ps[order[k]].re), order, cols))
  }

  /** Each polar of the airfoil fills exactly one column of the intended table. */
  lemma PolarTableUsesEveryPolarOnce(ps: seq<Polar>, alpha: seq<real>, fit: Fit)
    requires PolarTable(ps, alpha, fit).Ok?
    ensures var t := PolarTable(ps, alpha, fit).value;
            |t.sources| == |ps| && Distinct(t.sources) && forall j :: 0 <= j < |ps| ==> j in t.sources
  {
    PermutationOfRange(PolarTable(ps, alpha, fit).value.sources, |ps|);
  }

  /** A rearrangement of `0 .. n-1` holds each index exactly once. */
  lemma PermutationOfRange(p: seq<nat>, n: nat)
    requires multiset(p) == multiset(Range(n))
    ensures |p| == n && Distinct(p) && forall j :: 0 <= j < n ==> j in p
  {
    var m := multiset(p);
    assert |p| == |m| == |Range(n)|;
    forall j | 0 <= j < n ensures j in p {
      assert Range(n)[j] == j;
      assert j in multiset(Range(n));
    }
    forall a, b | 0 <= a < b < |p| ensures p[a] != p[b] {
      if p[a] == p[b] {
        var x := p[a];
        assert p == p[..a] + [x] + p[a + 1..b] + [x] + p[b + 1..];
        assert m[x] >= 2;
        RangeOnce(n, x);
      }
    }
  }

  lemma RangeOnce(n: nat, x: nat)
    ensures multiset(Range(n))[x] <= 1
  {
    if n > 0 {
      assert Range(n) == Range(n - 1) + [n - 1];
      RangeOnce(n - 1, x);
      if x == n - 1 {
        assert x !in Range(n - 1);
      }
    }
  }

  /** Padding for interpolation outside the given range: the lowest polar repeated at
      Reynolds number 1e1 and the highest at 1e15. A table without columns raises IndexError. */
  function Pad(t: ReTable): (r: Result<ReTable>)
    requires |t.re| == |t.sources| == |t.columns|
    ensures t.columns == [] <==> r == Err(IndexError)
    ensures r.Ok? ==>
              var n := |t.columns|;
              |r.value.columns| == |r.value.re| == |r.value.sources| == n + 2 &&
              r.value.re[0] == 10.0 && r.value.re[n + 1] == 1000000000000000.0 &&
              r.value.columns[0] == t.columns[0] && r.value.columns[n + 1] == t.columns[n - 1] &&
              forall k :: 0 <= k < n ==> r.value.columns[k + 1] == t.columns[k] && r.value.re[k + 1] == t.re[k]
  {
    if t.columns == [] then Err(IndexError)
    else
      var n := |t.columns|;
      Ok(ReTable([10.0] + t.re + [1000000000000000.0],
                 [t.sources[0]] + t.sources + [t.sources[n - 1]],
                 [t.columns[0]] + t.columns + [t.columns[n - 1]]))
  }

  /** Padding keeps the labels in order when they lie between the two padding values. */
  lemma PadKeepsOrder(t: ReTable)
    requires |t.re| == |t.sources| == |t.columns| > 0 && NonDecreasing(t.re)
    requires forall k :: 0 <= k < |t.re| ==> 10.0 <= t.re[k] <= 1000000000000000.0
    ensures NonDecreasing(Pad(t).value.re)
  {
    var r := Pad(t).value.re;
    var n := |t.re|;
    forall a, b | 0 <= a < b < |r| ensures r[a] <= r[b] {
      if 0 < a && b < n + 1 {
        assert r[a] == t.re[a - 1] && r[b] == t.re[b - 1];
      }
    }
  }

  /** The thickness clamp: spanwise thicknesses outside the range of the reference airfoils
      are set to the nearer end. No reference airfoil raises ValueError (`max([])`). */
  function ClampThickness(thkSpan: seq<real>, thkAfref: seq<real>): (r: Result<seq<real>>)
    ensures thkAfref == [] <==> r == Err(ValueError)
    ensures r.Ok? ==> |r.value| == |thkSpan|
    ensures r.Ok? ==> forall i :: 0 <= i < |thkSpan| ==> SeqMin(thkAfref) <= r.value[i] <= SeqMax(thkAfref)
    ensures r.Ok? ==> forall i :: 0 <= i < |thkSpan| && SeqMin(thkAfref) <= thkSpan[i] <= SeqMax(thkAfref) ==>
              r.value[i] == thkSpan[i]
  {
    if thkAfref == [] then Err(ValueError)
    else
      var lo, hi := SeqMin(thkAfref), SeqMax(thkAfref);
      Ok(seq(|thkSpan|, i requires 0 <= i < |thkSpan| => Clamp(thkSpan[i], lo, hi)))
  }

  function ReverseLabels(s: seq<string>): (r: seq<string>)
    ensures forall x :: x in r <==> x in s
  {
    if s == [] then [] else ReverseLabels(s[1..]) + [s[0]]
  }

  /** The clamp never changes the relative thickness produced by the planform remap: the
      airfoils in `af_ref[::-1]` carry the same thicknesses as the placed ones. */
  lemma ClampAfterPlanformChangesNothing(grid: seq<real>, labels: seq<string>, thk: map<string, real>, s: seq<real>, fit: Fit)
    requires RelativeThickness(grid, labels, thk, s, fit).Ok?
    ensures ThicknessOf(ReverseLabels(Dedup(labels)), thk).Ok?
    ensures var rt := RelativeThickness(grid, labels, thk, s, fit).value;
            ClampThickness(rt, ThicknessOf(ReverseLabels(Dedup(labels)), thk).value) == Ok(rt)
  {
    var rt := RelativeThickness(grid, labels, thk, s, fit).value;
    var refs := ReverseLabels(Dedup(labels));
    var a := ThicknessOf(labels, thk).value;
    var b := ThicknessOf(refs, thk).value;
    forall x ensures x in a <==> x in b {
      if x in a {
        var i :| 0 <= i < |a| && a[i] == x;
        assert labels[i] in refs;
        var j :| 0 <= j < |refs| && refs[j] == labels[i];
        assert b[j] == x;
      }
      if x in b {
        var j :| 0 <= j < |b| && b[j] == x;
        assert refs[j] in labels;
        var i :| 0 <= i < |labels| && labels[i] == refs[j];
        assert a[i] == x;
      }
    }
    assert |b| > 0 by {
      assert labels[0] in refs;
    }
    SameExtremes(a, b);
    var c := ClampThickness(rt, b).value;
    assert c == rt;
  }

  /** Periodic closure of one coefficient table (rows: angle of attack; columns: every
      station, Reynolds number and control setting): the first row becomes the last. */
  method PeriodicClosure(c: array2<real>)
    requires c.Length0 > 0
    modifies c
    ensures forall j :: 0 <= j < c.Length1 ==> c[0, j] == old(c[c.Length0 - 1, j])
    ensures forall i, j :: 0 < i < c.Length0 && 0 <= j < c.Length1 ==> c[i, j] == old(c[i, j])
  {
    var last := c.Length0 - 1;
    for j := 0 to c.Length1
      invariant forall q :: 0 <= q < j ==> c[0, q] == old(c[last, q])
      invariant forall q :: j <= q < c.Length1 ==> c[0, q] == old(c[0, q])
      invariant forall i, q :: 0 < i < c.Length0 && 0 <= q < c.Length1 ==> c[i, q] == old(c[i, q])
    {
      if c[0, j] != c[last, j] {
        c[0, j] := c[last, j];
      }
    }
  }
}
