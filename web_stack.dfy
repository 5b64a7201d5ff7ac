/** The shear-web stacks of one station (`web_stacking` inside
    `ReferenceBlade.convert_precomp`): the web layers are grouped by their chordwise
    position, one stack per web, and a flatback airfoil gets a closing web at the trailing
    edge that copies the last suction-side stack. */
module WebStack {
  import opened Numerics
  import opened CompositeStack

  // ---------------------------------------------------------------------------------------
  // Grouping

  /** The positions `j < m` whose key is `v`, in input order. */
  function Members<K(==)>(keys: seq<K>, v: K, m: nat): (r: seq<nat>)
    requires m <= |keys|
    ensures forall t :: 0 <= t < |r| ==> r[t] < m && keys[r[t]] == v
    ensures forall j :: 0 <= j < m && keys[j] == v ==> j in r
    ensures forall t, u :: 0 <= t < u < |r| ==> r[t] < r[u]
  {
    if m == 0 then []
    else
      var prev := Members(keys, v, m - 1);
      if keys[m - 1] == v then prev + [m - 1] else prev
  }

  /** The stack of the web whose key is `v`: one ply per web layer with that key, in input
      order; an unknown material raises KeyError. */
  function Group<K(==)>(webs: Side, keys: seq<K>, v: K, layers: seq<LayerAt>, materials: map<string, nat>): (r: Result<seq<Ply>>)
    requires SideOf(webs, |layers|) && |keys| == |webs.idx|
    ensures r.Err? <==> exists j :: 0 <= j < |keys| && keys[j] == v && layers[webs.idx[j]].material !in materials
    ensures r.Err? ==> r.error == KeyError
    ensures r.Ok? ==> |r.value| == |Members(keys, v, |keys|)|
    ensures r.Ok? ==> forall t :: 0 <= t < |r.value| ==>
              r.value[t] == PlyOf(layers[webs.idx[Members(keys, v, |keys|)[t]]], webs.idx[Members(keys, v, |keys|)[t]], materials)
  {
    var c := Members(keys, v, |keys|);
    if forall t :: 0 <= t < |c| ==> layers[webs.idx[c[t]]].material in materials then
      Ok(seq(|c|, t requires 0 <= t < |c| => PlyOf(layers[webs.idx[c[t]]], webs.idx[c[t]], materials)))
    else
      Err(KeyError)
  }

  /** One stack per value of `vals`, or KeyError. */
  function Groups<K(==)>(webs: Side, keys: seq<K>, vals: seq<K>, layers: seq<LayerAt>, materials: map<string, nat>): (r: Result<seq<seq<Ply>>>)
    requires SideOf(webs, |layers|) && |keys| == |webs.idx|
    ensures r.Ok? <==> forall k :: 0 <= k < |vals| ==> Group(webs, keys, vals[k], layers, materials).Ok?
    ensures r.Err? ==> r.error == KeyError
    ensures r.Ok? ==> |r.value| == |vals|
    ensures r.Ok? ==> forall k :: 0 <= k < |vals| ==> Group(webs, keys, vals[k], layers, materials) == Ok(r.value[k])
  {
    if forall k :: 0 <= k < |vals| ==> Group(webs, keys, vals[k], layers, materials).Ok? then
      Ok(seq(|vals|, k requires 0 <= k < |vals| => Group(webs, keys, vals[k], layers, materials).value))
    else
      Err(KeyError)
  }

  /** The flatback closing web: position 1 and a copy of the last suction-side stack, which
      must exist (`upperCS.n_plies[-1]` raises IndexError otherwise). */
  function CloseFlatback(loc: seq<real>, stacks: seq<seq<Ply>>, flatback: bool, upper: CompositeSection): (r: Result<(seq<real>, seq<seq<Ply>>)>)
    ensures r.Err? <==> flatback && |upper.stacks| == 0
    ensures r.Err? ==> r.error == IndexError
    ensures r.Ok? && !flatback ==> r.value == (loc, stacks)
    ensures r.Ok? && flatback ==> r.value == (loc + [1.0], stacks + [upper.stacks[|upper.stacks| - 1]])
  {
    if !flatback then Ok((loc, stacks))
    else if |upper.stacks| == 0 then Err(IndexError)
    else Ok((loc + [1.0], stacks + [upper.stacks[|upper.stacks| - 1]]))
  }

  /** Every web layer's material has a position in `material_dict`. */
  predicate KnownMaterials(webs: Side, layers: seq<LayerAt>, materials: map<string, nat>)
    requires SideOf(webs, |layers|)
  {
    forall j :: 0 <= j < |webs.idx| ==> layers[webs.idx[j]].material in materials
  }

  /** `x` is the magnitude of some web layer's start. */
  predicate WebPosition(webs: Side, x: real) {
    exists j :: 0 <= j < |webs.start| && x == Abs(webs.start[j])
  }

  /** Grouping by keys every one of which is listed fails exactly on an unknown material. */
  lemma GroupsSucceed<K>(webs: Side, keys: seq<K>, vals: seq<K>, layers: seq<LayerAt>, materials: map<string, nat>)
    requires SideOf(webs, |layers|) && |keys| == |webs.idx|
    requires forall j :: 0 <= j < |keys| ==> keys[j] in vals
    ensures Groups(webs, keys, vals, layers, materials).Ok? <==> KnownMaterials(webs, layers, materials)
  {
    if !KnownMaterials(webs, layers, materials) {
      var j :| 0 <= j < |webs.idx| && layers[webs.idx[j]].material !in materials;
      var k :| 0 <= k < |vals| && vals[k] == keys[j];
      assert Group(webs, keys, vals[k], layers, materials).Err?;
    }
  }

  /** Web position `k` of a section belongs with stack `k`: every ply of the first `n`
      stacks comes from a web layer at that stack's position. */
  predicate Paired(sec: CompositeSection, webs: Side, n: nat)
    requires n <= |sec.loc| && n <= |sec.stacks| && |webs.start| == |webs.idx|
  {
    forall k, t :: 0 <= k < n && 0 <= t < |sec.stacks[k]| ==>
      exists j :: 0 <= j < |webs.idx| && webs.idx[j] == sec.stacks[k][t].layer && Abs(webs.start[j]) == sec.loc[k]
  }

  // ---------------------------------------------------------------------------------------
  // As written

  /** The `np.unique(..., axis=0)` row order: lexicographic. */
  predicate RowLess(p: (real, real), q: (real, real)) {
    p.0 < q.0 || (p.0 == q.0 && p.1 < q.1)
  }

  /** `np.unique(rows, axis=0)`: the distinct rows in increasing lexicographic order. */
  function UniqueRows(rows: seq<(real, real)>): (u: seq<(real, real)>)
    ensures forall i, j :: 0 <= i < j < |u| ==> RowLess(u[i], u[j])
    ensures forall x :: x in u <==> x in rows
  {
    if rows == [] then [] else InsertRow(rows[0], UniqueRows(rows[1..]))
  }

  function InsertRow(x: (real, real), t: seq<(real, real)>): (r: seq<(real, real)>)
    requires forall i, j :: 0 <= i < j < |t| ==> RowLess(t[i], t[j])
    ensures forall i, j :: 0 <= i < j < |r| ==> RowLess(r[i], r[j])
    ensures forall y :: y in r <==> y == x || y in t
  {
    if t == [] || RowLess(x, t[0]) then
      assert forall j :: 0 <= j < |t| ==> RowLess(x, t[j]) by {
        forall j | 0 < j < |t| ensures RowLess(x, t[j]) {
          assert RowLess(t[0], t[j]);
        }
      }
      [x] + t
    else if x == t[0] then t
    else
      var rest := InsertRow(x, t[1..]);
      assert forall y :: y in rest ==> RowLess(t[0], y);
      [t[0]] + rest
  }

  /** `dp_all`: each web layer's negated start and end. */
  function NegatedRows(webs: Side): (rows: seq<(real, real)>)
    requires |webs.start| == |webs.idx| && |webs.end| == |webs.idx|
    ensures |rows| == |webs.idx| && forall j :: 0 <= j < |rows| ==> rows[j] == (-webs.start[j], -webs.end[j])
  {
    seq(|webs.idx|, j requires 0 <= j < |webs.idx| => (-webs.start[j], -webs.end[j]))
  }

  /** `np.mean((np.abs(start), np.abs(start)), axis=0)`: each start's magnitude averaged with
      itself. */
  function MeanOfStarts(webs: Side): (dp: seq<real>)
    ensures |dp| == |webs.start| && forall j :: 0 <= j < |dp| ==> dp[j] == Abs(webs.start[j])
  {
    seq(|webs.start|, j requires 0 <= j < |webs.start| => (Abs(webs.start[j]) + Abs(webs.start[j])) / 2.0)
  }

  /** `web_stacking` as written: the positions are the sorted distinct start magnitudes, but
      the stacks follow the `np.unique` order of the negated (start, end) rows, so they run
      from the largest start to the smallest. */
  function WebStackingAsWritten(webs: Side, layers: seq<LayerAt>, materials: map<string, nat>, flatback: bool, upper: CompositeSection): (r: Result<CompositeSection>)
    requires SideOf(webs, |layers|)
    ensures r.Ok? <==> KnownMaterials(webs, layers, materials) && !(flatback && |upper.stacks| == 0)
    ensures r.Err? ==> r.error == KeyError || r.error == IndexError
    ensures r.Ok? ==> StrictlyIncreasing(r.value.loc)
    ensures r.Ok? ==> forall x :: x in r.value.loc <==> WebPosition(webs, x) || (flatback && x == 1.0)
    ensures r.Ok? ==> |r.value.stacks| == |UniqueRows(NegatedRows(webs))| + (if flatback then 1 else 0)
  {
    var rows := NegatedRows(webs);
    var dp := if |webs.idx| > 0 then MeanOfStarts(webs) else [];
    GroupsSucceed(webs, rows, UniqueRows(rows), layers, materials);
    var stacks :- Groups(webs, rows, UniqueRows(rows), layers, materials);
    var closed :- CloseFlatback(dp, stacks, flatback, upper);
    Ok(CompositeSection(SortedDistinct(closed.0), closed.1))
  }

  /** Two webs at 0.3 and 0.6 of the chord, of the same material. */
  function TwoWebs(): Side {
    Side([0, 1], [0.3, 0.6], [0.3, 0.6])
  }

  function TwoWebLayers(): seq<LayerAt> {
    [LayerAt("web0", Some("web0"), None, None, Some(0.01), None, "glass"),
     LayerAt("web1", Some("web1"), None, None, Some(0.02), None, "glass")]
  }

  lemma TwoWebsRows()
    ensures UniqueRows(NegatedRows(TwoWebs())) == [(-0.6, -0.6), (-0.3, -0.3)]
  {
    var rows := NegatedRows(TwoWebs());
    assert rows == [(-0.3, -0.3), (-0.6, -0.6)];
    assert rows[1..] == [(-0.6, -0.6)];
    assert UniqueRows(rows[1..]) == InsertRow((-0.6, -0.6), []) == [(-0.6, -0.6)];
    assert InsertRow((-0.3, -0.3), [(-0.6, -0.6)]) == [(-0.6, -0.6)] + InsertRow((-0.3, -0.3), []);
  }

  lemma TwoWebsFirstGroup()
    ensures var rows := NegatedRows(TwoWebs());
            Group(TwoWebs(), rows, (-0.6, -0.6), TwoWebLayers(), map["glass" := 0]) ==
              Ok([PlyOf(TwoWebLayers()[1], 1, map["glass" := 0])])
  {
    var rows := NegatedRows(TwoWebs());
    assert rows == [(-0.3, -0.3), (-0.6, -0.6)];
    assert Members(rows, (-0.6, -0.6), 1) == [];
    assert Members(rows, (-0.6, -0.6), 2) == [1];
    var g := Group(TwoWebs(), rows, (-0.6, -0.6), TwoWebLayers(), map["glass" := 0]);
    assert TwoWebLayers()[1].material in map["glass" := 0];
    assert g.Ok?;
    assert |g.value| == 1;
    assert Members(rows, (-0.6, -0.6), |rows|)[0] == 1 && TwoWebs().idx[1] == 1;
    assert g.value[0] == PlyOf(TwoWebLayers()[1], 1, map["glass" := 0]);
    assert g.value == [g.value[0]];
  }

  lemma TwoWebsStacks()
    ensures var rows := NegatedRows(TwoWebs());
            var g := Groups(TwoWebs(), rows, UniqueRows(rows), TwoWebLayers(), map["glass" := 0]);
            g.Ok? && |g.value| == 2 && |g.value[0]| == 1 && g.value[0][0].layer == 1
  {
    var rows := NegatedRows(TwoWebs());
    var m := map["glass" := 0];
    TwoWebsRows();
    TwoWebsFirstGroup();
    var u := UniqueRows(rows);
    assert forall k :: 0 <= k < 2 ==> Group(TwoWebs(), rows, u[k], TwoWebLayers(), m).Ok?;
  }

  lemma TwoWebsLoc()
    ensures SortedDistinct(MeanOfStarts(TwoWebs())) == [0.3, 0.6]
  {
    var dp := MeanOfStarts(TwoWebs());
    assert dp == [0.3, 0.6];
    assert dp[1..] == [0.6];
    assert SortedDistinct(dp[1..]) == [0.6];
  }

  /** With webs at 0.3 and 0.6, the first position, 0.3, is given the stack of the web at
      0.6, so the section does not pair positions with stacks. */
  lemma AsWrittenMispairsWebs()
    ensures var r := WebStackingAsWritten(TwoWebs(), TwoWebLayers(), map["glass" := 0], false, CompositeSection([], []));
            r.Ok? && r.value.loc == [0.3, 0.6] && |r.value.stacks| == 2 && |r.value.stacks[0]| == 1 &&
            r.value.stacks[0][0].layer == 1 && !Paired(r.value, TwoWebs(), 2)
  {
    TwoWebsStacks();
    TwoWebsLoc();
    var r := WebStackingAsWritten(TwoWebs(), TwoWebLayers(), map["glass" := 0], false, CompositeSection([], []));
    var webs := TwoWebs();
    assert r.value.stacks[0][0].layer == 1 && r.value.loc[0] == 0.3;
    assert forall j :: 0 <= j < 2 && webs.idx[j] == 1 ==> Abs(webs.start[j]) == 0.6;
  }

  // ---------------------------------------------------------------------------------------
  // Corrected

  /** `web_stacking` with each stack grouped by the same key as its position: one stack per
      distinct start magnitude, in increasing order, followed by the flatback web. */
  function WebStackingPaired(webs: Side, layers: seq<LayerAt>, materials: map<string, nat>, flatback: bool, upper: CompositeSection): (r: Result<CompositeSection>)
    requires SideOf(webs, |layers|)
    ensures r.Ok? <==> KnownMaterials(webs, layers, materials) && !(flatback && |upper.stacks| == 0)
    ensures r.Err? ==> r.error == KeyError || r.error == IndexError
    ensures r.Ok? ==> |r.value.loc| == |r.value.stacks| == |SortedDistinct(MeanOfStarts(webs))| + (if flatback then 1 else 0)
    ensures r.Ok? ==> forall x :: x in r.value.loc <==> WebPosition(webs, x) || (flatback && x == 1.0)
  {
    var keys := MeanOfStarts(webs);
    var dp := SortedDistinct(keys);
    GroupsSucceed(webs, keys, dp, layers, materials);
    var stacks :- Groups(webs, keys, dp, layers, materials);
    var closed :- CloseFlatback(dp, stacks, flatback, upper);
    Ok(CompositeSection(closed.0, closed.1))
  }

  /** The corrected stacks line up with the positions: as many of each, the web positions
      strictly increase, and every ply of stack `k` comes from a web at position `k`. */
  lemma WebStacksArePaired(webs: Side, layers: seq<LayerAt>, materials: map<string, nat>, flatback: bool, upper: CompositeSection,
                           sec: CompositeSection)
    requires SideOf(webs, |layers|)
    requires WebStackingPaired(webs, layers, materials, flatback, upper) == Ok(sec)
    ensures |sec.loc| == |sec.stacks| && |SortedDistinct(MeanOfStarts(webs))| <= |sec.loc|
    ensures StrictlyIncreasing(sec.loc[..|SortedDistinct(MeanOfStarts(webs))|])
    ensures Paired(sec, webs, |SortedDistinct(MeanOfStarts(webs))|)
  {
    var keys := MeanOfStarts(webs);
    var dp := SortedDistinct(keys);
    var n := |dp|;
    var stacks := Groups(webs, keys, dp, layers, materials).value;
    assert sec.loc[..n] == dp && sec.stacks[..n] == stacks;
    GroupsArePaired(webs, layers, materials, stacks);
    var prefix := CompositeSection(dp, stacks);
    forall k, t | 0 <= k < n && 0 <= t < |sec.stacks[k]|
      ensures exists j :: 0 <= j < |webs.idx| && webs.idx[j] == sec.stacks[k][t].layer && Abs(webs.start[j]) == sec.loc[k]
    {
      assert sec.stacks[k] == prefix.stacks[k] && sec.loc[k] == prefix.loc[k];
    }
  }

  /** Every web layer is in the corrected stack of its own position. */
  lemma EveryWebInItsStack(webs: Side, layers: seq<LayerAt>, materials: map<string, nat>, flatback: bool, upper: CompositeSection,
                           sec: CompositeSection, j: nat)
    requires SideOf(webs, |layers|) && j < |webs.idx|
    requires WebStackingPaired(webs, layers, materials, flatback, upper) == Ok(sec)
    ensures exists k, t :: 0 <= k < |SortedDistinct(MeanOfStarts(webs))| && 0 <= t < |sec.stacks[k]| &&
              sec.loc[k] == Abs(webs.start[j]) && sec.stacks[k][t].layer == webs.idx[j]
  {
    var keys := MeanOfStarts(webs);
    var dp := SortedDistinct(keys);
    var stacks := Groups(webs, keys, dp, layers, materials).value;
    GroupsHoldEveryWeb(webs, layers, materials, stacks);
    var k, t :| 0 <= k < |stacks| && 0 <= t < |stacks[k]| && dp[k] == Abs(webs.start[j]) && stacks[k][t].layer == webs.idx[j];
    assert sec.stacks[k] == stacks[k] && sec.loc[k] == dp[k];
  }

  /** A flatback section ends with the closing web at the trailing edge, `x = 1`, holding a
      copy of the last suction-side stack. */
  lemma FlatbackWebAtTrailingEdge(webs: Side, layers: seq<LayerAt>, materials: map<string, nat>, upper: CompositeSection,
                                  sec: CompositeSection)
    requires SideOf(webs, |layers|)
    requires WebStackingPaired(webs, layers, materials, true, upper) == Ok(sec)
    ensures |sec.loc| > 0 && sec.loc[|sec.loc| - 1] == 1.0
    ensures |upper.stacks| > 0 && |sec.stacks| > 0 && sec.stacks[|sec.stacks| - 1] == upper.stacks[|upper.stacks| - 1]
  {
    var keys := MeanOfStarts(webs);
    var dp := SortedDistinct(keys);
    var stacks := Groups(webs, keys, dp, layers, materials).value;
    var closed := CloseFlatback(dp, stacks, true, upper).value;
    assert sec == CompositeSection(closed.0, closed.1);
  }

  /** Ply `t` of the stack of key `v` comes from a web layer with that key. */
  lemma GroupPly<K>(webs: Side, keys: seq<K>, v: K, layers: seq<LayerAt>, materials: map<string, nat>, plies: seq<Ply>, t: nat)
    requires SideOf(webs, |layers|) && |keys| == |webs.idx|
    requires Group(webs, keys, v, layers, materials) == Ok(plies) && t < |plies|
    ensures exists j :: 0 <= j < |keys| && keys[j] == v && plies[t].layer == webs.idx[j]
  {
    var j := Members(keys, v, |keys|)[t];
    assert keys[j] == v && plies[t].layer == webs.idx[j];
  }

  /** Every web layer with key `v` has a ply in the stack of `v`. */
  lemma GroupHolds<K>(webs: Side, keys: seq<K>, v: K, layers: seq<LayerAt>, materials: map<string, nat>, plies: seq<Ply>, j: nat)
    requires SideOf(webs, |layers|) && |keys| == |webs.idx|
    requires Group(webs, keys, v, layers, materials) == Ok(plies) && j < |keys| && keys[j] == v
    ensures exists t :: 0 <= t < |plies| && plies[t].layer == webs.idx[j]
  {
    var c := Members(keys, v, |keys|);
    assert j in c;
    var t :| 0 <= t < |c| && c[t] == j;
    assert plies[t].layer == webs.idx[j];
  }

  /** The web stacks before the flatback web, grouped by position, are paired with the
      positions. */
  lemma GroupsArePaired(webs: Side, layers: seq<LayerAt>, materials: map<string, nat>, stacks: seq<seq<Ply>>)
    requires SideOf(webs, |layers|)
    requires Groups(webs, MeanOfStarts(webs), SortedDistinct(MeanOfStarts(webs)), layers, materials) == Ok(stacks)
    ensures Paired(CompositeSection(SortedDistinct(MeanOfStarts(webs)), stacks), webs, |SortedDistinct(MeanOfStarts(webs))|)
  {
    var keys := MeanOfStarts(webs);
    var dp := SortedDistinct(keys);
    var sec := CompositeSection(dp, stacks);
    forall k, t | 0 <= k < |dp| && 0 <= t < |sec.stacks[k]|
      ensures exists j :: 0 <= j < |webs.idx| && webs.idx[j] == sec.stacks[k][t].layer && Abs(webs.start[j]) == sec.loc[k]
    {
      GroupPly(webs, keys, dp[k], layers, materials, stacks[k], t);
    }
  }

  /** Every web layer has a ply in the stack of its own position. */
  lemma GroupsHoldEveryWeb(webs: Side, layers: seq<LayerAt>, materials: map<string, nat>, stacks: seq<seq<Ply>>)
    requires SideOf(webs, |layers|)
    requires Groups(webs, MeanOfStarts(webs), SortedDistinct(MeanOfStarts(webs)), layers, materials) == Ok(stacks)
    ensures forall j :: 0 <= j < |webs.idx| ==>
              exists k, t :: 0 <= k < |stacks| && 0 <= t < |stacks[k]| &&
                SortedDistinct(MeanOfStarts(webs))[k] == Abs(webs.start[j]) && stacks[k][t].layer == webs.idx[j]
  {
    var keys := MeanOfStarts(webs);
    var dp := SortedDistinct(keys);
    forall j | 0 <= j < |webs.idx|
      ensures exists k, t :: 0 <= k < |stacks| && 0 <= t < |stacks[k]| && dp[k] == Abs(webs.start[j]) && stacks[k][t].layer == webs.idx[j]
    {
      assert keys[j] in keys;
      var k := Position(dp, keys[j]);
      GroupHolds(webs, keys, dp[k], layers, materials, stacks[k], j);
    }
  }

  /** `web_stacking` with corrected pairing: a loop over the distinct web positions that
      appends each web's stack, then the flatback web. */
  method WebStacking(webs: Side, layers: seq<LayerAt>, materials: map<string, nat>, flatback: bool, upper: CompositeSection)
    returns (res: Result<CompositeSection>)
    requires SideOf(webs, |layers|)
    ensures res == WebStackingPaired(webs, layers, materials, flatback, upper)
  {
    var keys := MeanOfStarts(webs);
    var loc := SortedDistinct(keys);
    var stacks: seq<seq<Ply>> := [];
    for k := 0 to |loc|
      invariant |stacks| == k
      invariant forall q :: 0 <= q < k ==> Group(webs, keys, loc[q], layers, materials) == Ok(stacks[q])
    {
      var group := Group(webs, keys, loc[k], layers, materials);
      if group.Err? {
        return Err(KeyError);
      }
      stacks := stacks + [group.value];
    }
    assert Groups(webs, keys, loc, layers, materials).Ok?;
    assert Groups(webs, keys, loc, layers, materials).value == stacks;
    if flatback {
      if |upper.stacks| == 0 {
        return Err(IndexError);
      }
      loc := loc + [1.0];
      stacks := stacks + [upper.stacks[|upper.stacks| - 1]];
    }
    res := Ok(CompositeSection(loc, stacks));
  }
}
