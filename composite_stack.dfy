/** The chordwise composite stacks of one surface of one station (`region_stacking` inside
    `ReferenceBlade.convert_precomp`): the layer bounds are snapped onto 0 and 1, their
    distinct values become the division points, and each region between two consecutive
    division points holds one ply of every layer that spans the whole region. The regions
    a tracked layer lies in are recorded per station (`region_loc`), and the strain sector
    is the middle one of them. */
module CompositeStack {
  import opened Numerics

  /** One ply of a stack: the index of its layer in the layer list, the layer's name, its
      thickness at the station, its fiber orientation (`None` read as 0) and the index of
      its material. Every ply counts once (`n_plies` is 1 for each). */
  datatype Ply = Ply(layer: nat, name: string, thickness: Option<real>, theta: real, material: nat)

  /** A PreComp `CompositeSection`: the division points (or web positions) and one stack
      per region (or web). */
  datatype CompositeSection = CompositeSection(loc: seq<real>, stacks: seq<seq<Ply>>)

  /** What a layer of `blade['st']['layers']` holds at one station. */
  datatype LayerAt = LayerAt(
    name: string, web: Option<string>,
    start: Option<real>, end: Option<real>,
    thickness: Option<real>, fiber: Option<real>, material: string)

  /** The layers found on one surface (or on the webs) of a station: their indices and
      their chordwise start and end. */
  datatype Side = Side(idx: seq<nat>, start: seq<real>, end: seq<real>)

  /** `region_loc`: for every tracked layer name, per station, the regions it lies in. */
  type RegionLoc = map<string, seq<Option<seq<nat>>>>

  predicate SideOf(side: Side, n: nat) {
    |side.start| == |side.idx| && |side.end| == |side.idx| &&
    forall j :: 0 <= j < |side.idx| ==> side.idx[j] < n
  }

  predicate Ascending(s: seq<nat>) {
    forall i, j :: 0 <= i < j < |s| ==> s[i] <= s[j]
  }

  // ---------------------------------------------------------------------------------------
  // Division points

  /** A bound within `np.isclose` of 0 becomes exactly 0, then one within `np.isclose` of 1
      becomes exactly 1; any other bound is kept. */
  function Snap01(x: real): (r: real)
    ensures IsClose(x, 0.0) ==> r == 0.0
    ensures !IsClose(x, 0.0) && IsClose(x, 1.0) ==> r == 1.0
    ensures !IsClose(x, 0.0) && !IsClose(x, 1.0) ==> r == x
  {
    var a := if x != 0.0 && IsClose(x, 0.0) then 0.0 else x;
    if a != 1.0 && IsClose(a, 1.0) then 1.0 else a
  }

  function SnapAll(s: seq<real>): (r: seq<real>)
    ensures |r| == |s| && forall j :: 0 <= j < |s| ==> r[j] == Snap01(s[j])
  {
    seq(|s|, j requires 0 <= j < |s| => Snap01(s[j]))
  }

  function Snapped(side: Side): (r: Side)
    ensures r.idx == side.idx && |r.start| == |side.start| && |r.end| == |side.end|
  {
    Side(side.idx, SnapAll(side.start), SnapAll(side.end))
  }

  /** `dp = sorted(list(set(start + end)))`. */
  function DivisionPoints(side: Side): (dp: seq<real>)
    ensures StrictlyIncreasing(dp)
    ensures forall x :: x in dp <==> x in side.start || x in side.end
  {
    SortedDistinct(side.start + side.end)
  }

  /** The number of regions between consecutive division points. */
  function Regions(dp: seq<real>): nat {
    if |dp| == 0 then 0 else |dp| - 1
  }

  // ---------------------------------------------------------------------------------------
  // Stacks

  /** Layer `j` spans region `k` (`start <= dp[k] and end >= dp[k+1]`). */
  predicate Covers(side: Side, dp: seq<real>, j: nat, k: nat)
    requires j < |side.start| && j < |side.end| && k + 1 < |dp|
  {
    side.start[j] <= dp[k] && side.end[j] >= dp[k + 1]
  }

  /** The positions among the first `m` layers that span region `k`, in input order. */
  function Covering(side: Side, dp: seq<real>, k: nat, m: nat): (r: seq<nat>)
    requires |side.start| == |side.end| && m <= |side.start| && k + 1 < |dp|
    ensures forall t :: 0 <= t < |r| ==> r[t] < m && Covers(side, dp, r[t], k)
    ensures forall j :: 0 <= j < m && Covers(side, dp, j, k) ==> j in r
    ensures forall t, u :: 0 <= t < u < |r| ==> r[t] < r[u]
  {
    if m == 0 then []
    else
      var prev := Covering(side, dp, k, m - 1);
      if Covers(side, dp, m - 1, k) then prev + [m - 1] else prev
  }

  function PlyOf(layer: LayerAt, index: nat, materials: map<string, nat>): Ply
    requires layer.material in materials
  {
    Ply(index, layer.name, layer.thickness, if layer.fiber.None? then 0.0 else layer.fiber.value,
        materials[layer.material])
  }

  /** The stack of region `k` built from the first `m` layers: one ply per spanning layer,
      in input order; a spanning layer whose material is unknown raises KeyError. */
  function Stack(side: Side, dp: seq<real>, layers: seq<LayerAt>, materials: map<string, nat>, k: nat, m: nat): (r: Result<seq<Ply>>)
    requires SideOf(side, |layers|) && m <= |side.idx| && k + 1 < |dp|
    ensures r.Err? <==> exists j :: 0 <= j < m && Covers(side, dp, j, k) && layers[side.idx[j]].material !in materials
    ensures r.Err? ==> r.error == KeyError
  {
    var c := Covering(side, dp, k, m);
    if forall t :: 0 <= t < |c| ==> layers[side.idx[c[t]]].material in materials then
      Ok(seq(|c|, t requires 0 <= t < |c| => PlyOf(layers[side.idx[c[t]]], side.idx[c[t]], materials)))
    else
      Err(KeyError)
  }

  lemma StackEmpty(side: Side, dp: seq<real>, layers: seq<LayerAt>, materials: map<string, nat>, k: nat)
    requires SideOf(side, |layers|) && k + 1 < |dp|
    ensures Stack(side, dp, layers, materials, k, 0) == Ok([])
  {
    assert Covering(side, dp, k, 0) == [];
    assert Stack(side, dp, layers, materials, k, 0).Ok?;
    assert |Stack(side, dp, layers, materials, k, 0).value| == 0;
  }

  /** The stacks of all regions, or KeyError. */
  function Stacks(side: Side, dp: seq<real>, layers: seq<LayerAt>, materials: map<string, nat>): (r: Result<seq<seq<Ply>>>)
    requires SideOf(side, |layers|)
    ensures r.Ok? ==> |r.value| == Regions(dp)
    ensures r.Ok? ==> forall k :: 0 <= k < Regions(dp) ==> Stack(side, dp, layers, materials, k, |side.idx|) == Ok(r.value[k])
  {
    if forall k :: 0 <= k < Regions(dp) ==> Stack(side, dp, layers, materials, k, |side.idx|).Ok? then
      Ok(seq(Regions(dp), k requires 0 <= k < Regions(dp) => Stack(side, dp, layers, materials, k, |side.idx|).value))
    else
      Err(KeyError)
  }

  // ---------------------------------------------------------------------------------------
  // Region tracking

  /** How many plies of a stack belong to layers called `name`. */
  function Count(plies: seq<Ply>, name: string): nat {
    if plies == [] then 0
    else Count(plies[..|plies| - 1], name) + (if plies[|plies| - 1].name == name then 1 else 0)
  }

  function Repeat(k: nat, c: nat): (r: seq<nat>)
    ensures |r| == c && forall t :: 0 <= t < c ==> r[t] == k
  {
    seq(c, _ => k)
  }

  /** The region indices appended for `name`, region by region: one per ply of that name. */
  function Visits(stacks: seq<seq<Ply>>, name: string): (r: seq<nat>)
    ensures forall t :: 0 <= t < |r| ==> r[t] < |stacks|
  {
    if stacks == [] then []
    else Visits(stacks[..|stacks| - 1], name) + Repeat(|stacks| - 1, Count(stacks[|stacks| - 1], name))
  }

  /** `region_loc[name][i]`: set to `[k]` on the first visit, extended by `k` on later ones. */
  function Record(prior: Option<seq<nat>>, v: seq<nat>): (r: Option<seq<nat>>)
    ensures v == [] ==> r == prior
    ensures v != [] && prior.None? ==> r == Some(v)
    ensures v != [] && prior.Some? ==> r == Some(prior.value + v)
  {
    if v == [] then prior
    else if prior.None? then Some(v)
    else Some(prior.value + v)
  }

  predicate Tracks(loc: RegionLoc, i: nat) {
    forall n :: n in loc ==> i < |loc[n]|
  }

  /** `region_loc` after station `i` produced `stacks`: only the entry of station `i` of each
      tracked name changes. */
  function Track(loc: RegionLoc, i: nat, stacks: seq<seq<Ply>>): (r: RegionLoc)
    requires Tracks(loc, i)
    ensures r.Keys == loc.Keys && Tracks(r, i)
    ensures forall n :: n in loc ==> |r[n]| == |loc[n]| && r[n][i] == Record(loc[n][i], Visits(stacks, n))
    ensures forall n, q :: n in loc && 0 <= q < |loc[n]| && q != i ==> r[n][q] == loc[n][q]
  {
    map n | n in loc :: loc[n][i := Record(loc[n][i], Visits(stacks, n))]
  }

  /** What `region_stacking` returns for station `i`: the section and the updated
      `region_loc`. */
  function RegionStackingSpec(i: nat, side0: Side, layers: seq<LayerAt>, materials: map<string, nat>, loc: RegionLoc): (r: Result<(CompositeSection, RegionLoc)>)
    requires SideOf(side0, |layers|) && Tracks(loc, i)
  {
    var side := Snapped(side0);
    var dp := DivisionPoints(side);
    var stacks :- Stacks(side, dp, layers, materials);
    Ok((CompositeSection(dp, stacks), Track(loc, i, stacks)))
  }

  /** The section `region_stacking` builds, which does not depend on `region_loc`. */
  function RegionSection(side0: Side, layers: seq<LayerAt>, materials: map<string, nat>): (r: Result<CompositeSection>)
    requires SideOf(side0, |layers|)
  {
    var side := Snapped(side0);
    var dp := DivisionPoints(side);
    var stacks :- Stacks(side, dp, layers, materials);
    Ok(CompositeSection(dp, stacks))
  }

  /** `region_stacking` builds its section whatever `region_loc` holds, and records in
      `region_loc` the regions of that section only at station `i`. */
  lemma RegionStackingTracksSection(i: nat, side0: Side, layers: seq<LayerAt>, materials: map<string, nat>, loc: RegionLoc)
    requires SideOf(side0, |layers|) && Tracks(loc, i)
    ensures RegionStackingSpec(i, side0, layers, materials, loc).Ok? <==> RegionSection(side0, layers, materials).Ok?
    ensures RegionStackingSpec(i, side0, layers, materials, loc).Err? ==>
              RegionStackingSpec(i, side0, layers, materials, loc).error == RegionSection(side0, layers, materials).error
    ensures RegionStackingSpec(i, side0, layers, materials, loc).Ok? ==>
              RegionStackingSpec(i, side0, layers, materials, loc).value ==
              (RegionSection(side0, layers, materials).value, Track(loc, i, RegionSection(side0, layers, materials).value.stacks))
  {
  }

  lemma RecordAppend(prior: Option<seq<nat>>, v: seq<nat>, k: nat)
    ensures Record(Record(prior, v), [k]) == Record(prior, v + [k])
  {
    if v == [] {
      assert v + [k] == [k];
    } else if prior.Some? {
      assert prior.value + v + [k] == prior.value + (v + [k]);
    }
  }

  lemma VisitsAppend(stacks: seq<seq<Ply>>, acc: seq<Ply>, p: Ply, name: string)
    ensures Visits(stacks + [acc + [p]], name) ==
            Visits(stacks + [acc], name) + (if p.name == name then [|stacks|] else [])
  {
    var s1, s2 := stacks + [acc + [p]], stacks + [acc];
    assert s1[..|s1| - 1] == stacks && s2[..|s2| - 1] == stacks;
    assert (acc + [p])[..|acc|] == acc;
    var c := Count(acc, name);
    if p.name == name {
      assert Repeat(|stacks|, c + 1) == Repeat(|stacks|, c) + [|stacks|];
    }
  }

  lemma TrackAppend(loc: RegionLoc, i: nat, stacks: seq<seq<Ply>>, acc: seq<Ply>, p: Ply)
    requires Tracks(loc, i)
    ensures var before := Track(loc, i, stacks + [acc]);
            Track(loc, i, stacks + [acc + [p]]) ==
              if p.name in before then before[p.name := before[p.name][i := Record(before[p.name][i], [|stacks|])]]
              else before
  {
    var before := Track(loc, i, stacks + [acc]);
    var after := Track(loc, i, stacks + [acc + [p]]);
    var expected := if p.name in before then before[p.name := before[p.name][i := Record(before[p.name][i], [|stacks|])]] else before;
    forall n | n in loc ensures after[n] == expected[n] {
      VisitsAppend(stacks, acc, p, n);
      if n == p.name {
        RecordAppend(loc[n][i], Visits(stacks + [acc], n), |stacks|);
      }
    }
    assert after == expected;
  }

  lemma TrackNothing(loc: RegionLoc, i: nat)
    requires Tracks(loc, i)
    ensures Track(loc, i, []) == loc
  {
    forall n | n in loc ensures Track(loc, i, [])[n] == loc[n] {
      assert Visits([], n) == [];
    }
  }

  lemma TrackEmptyStack(loc: RegionLoc, i: nat, stacks: seq<seq<Ply>>)
    requires Tracks(loc, i)
    ensures Track(loc, i, stacks + [[]]) == Track(loc, i, stacks)
  {
    forall n | n in loc ensures Visits(stacks + [[]], n) == Visits(stacks, n) {
      assert (stacks + [[]])[..|stacks|] == stacks;
    }
  }

  /** A layer that spans region `k` extends the stack by its ply; one that does not leaves
      it as it is. */
  lemma StackStep(side: Side, dp: seq<real>, layers: seq<LayerAt>, materials: map<string, nat>, k: nat, j: nat, acc: seq<Ply>)
    requires SideOf(side, |layers|) && j < |side.idx| && k + 1 < |dp|
    requires Stack(side, dp, layers, materials, k, j) == Ok(acc)
    ensures !Covers(side, dp, j, k) ==> Stack(side, dp, layers, materials, k, j + 1) == Ok(acc)
    ensures Covers(side, dp, j, k) && layers[side.idx[j]].material in materials ==>
              Stack(side, dp, layers, materials, k, j + 1) == Ok(acc + [PlyOf(layers[side.idx[j]], side.idx[j], materials)])
  {
    var c := Covering(side, dp, k, j);
    if Covers(side, dp, j, k) {
      assert Covering(side, dp, k, j + 1) == c + [j];
      if layers[side.idx[j]].material in materials {
        assert forall t :: 0 <= t < |c| ==> layers[side.idx[c[t]]].material in materials;
        var r := Stack(side, dp, layers, materials, k, j + 1);
        assert r.Ok?;
        assert r.value == acc + [PlyOf(layers[side.idx[j]], side.idx[j], materials)];
      }
    } else {
      assert Covering(side, dp, k, j + 1) == c;
    }
  }

  /** `stacks` holds the stacks of the first `|stacks|` regions. */
  predicate StacksSoFar(side: Side, dp: seq<real>, layers: seq<LayerAt>, materials: map<string, nat>, stacks: seq<seq<Ply>>)
    requires SideOf(side, |layers|)
  {
    |stacks| <= Regions(dp) &&
    forall q :: 0 <= q < |stacks| ==> Stack(side, dp, layers, materials, q, |side.idx|) == Ok(stacks[q])
  }

  lemma StacksSoFarAppend(side: Side, dp: seq<real>, layers: seq<LayerAt>, materials: map<string, nat>,
                          stacks: seq<seq<Ply>>, next: seq<Ply>)
    requires SideOf(side, |layers|) && StacksSoFar(side, dp, layers, materials, stacks)
    requires |stacks| < Regions(dp) && Stack(side, dp, layers, materials, |stacks|, |side.idx|) == Ok(next)
    ensures StacksSoFar(side, dp, layers, materials, stacks + [next])
  {
    var s' := stacks + [next];
    forall q | 0 <= q < |s'| ensures Stack(side, dp, layers, materials, q, |side.idx|) == Ok(s'[q]) {
      if q < |stacks| {
        assert s'[q] == stacks[q];
      }
    }
  }

  lemma StacksOfRegions(side: Side, dp: seq<real>, layers: seq<LayerAt>, materials: map<string, nat>, stacks: seq<seq<Ply>>)
    requires SideOf(side, |layers|) && |stacks| == Regions(dp)
    requires StacksSoFar(side, dp, layers, materials, stacks)
    ensures Stacks(side, dp, layers, materials) == Ok(stacks)
  {
    var r := Stacks(side, dp, layers, materials);
    assert r.Ok?;
    assert r.value == stacks;
  }

  lemma SpecOfStacks(i: nat, side0: Side, layers: seq<LayerAt>, materials: map<string, nat>, loc0: RegionLoc, stacks: seq<seq<Ply>>)
    requires SideOf(side0, |layers|) && Tracks(loc0, i)
    requires SideOf(Snapped(side0), |layers|)
    requires |stacks| == Regions(DivisionPoints(Snapped(side0)))
    requires StacksSoFar(Snapped(side0), DivisionPoints(Snapped(side0)), layers, materials, stacks)
    ensures RegionStackingSpec(i, side0, layers, materials, loc0) ==
              Ok((CompositeSection(DivisionPoints(Snapped(side0)), stacks), Track(loc0, i, stacks)))
  {
    StacksOfRegions(Snapped(side0), DivisionPoints(Snapped(side0)), layers, materials, stacks);
  }

  /** A region whose stack fails (a material missing from the table) fails the station. */
  lemma SpecFailsAt(i: nat, side0: Side, layers: seq<LayerAt>, materials: map<string, nat>, loc0: RegionLoc, k: nat)
    requires SideOf(side0, |layers|) && Tracks(loc0, i) && SideOf(Snapped(side0), |layers|)
    requires k < Regions(DivisionPoints(Snapped(side0)))
    requires Stack(Snapped(side0), DivisionPoints(Snapped(side0)), layers, materials, k, |side0.idx|).Err?
    ensures RegionStackingSpec(i, side0, layers, materials, loc0) == Err(KeyError)
  {
    assert Stacks(Snapped(side0), DivisionPoints(Snapped(side0)), layers, materials).Err?;
  }

  /** The parts of a successful `region_stacking`. */
  lemma SpecParts(i: nat, side0: Side, layers: seq<LayerAt>, materials: map<string, nat>, loc: RegionLoc)
    requires SideOf(side0, |layers|) && Tracks(loc, i)
    requires RegionStackingSpec(i, side0, layers, materials, loc).Ok?
    ensures var side := Snapped(side0);
            var dp := DivisionPoints(side);
            var r := RegionStackingSpec(i, side0, layers, materials, loc).value;
            Stacks(side, dp, layers, materials).Ok? &&
            r.0 == CompositeSection(dp, Stacks(side, dp, layers, materials).value) &&
            r.1 == Track(loc, i, Stacks(side, dp, layers, materials).value)
  {}

  /** The inner loop of `region_stacking` for region `k`: the plies of the spanning layers,
      and `region_loc` extended by `k` once per tracked ply. */
  method StackRegion(i: nat, k: nat, side: Side, dp: seq<real>, layers: seq<LayerAt>, materials: map<string, nat>,
                     loc0: RegionLoc, stacks: seq<seq<Ply>>, loc: RegionLoc)
    returns (res: Result<(seq<Ply>, RegionLoc)>)
    requires SideOf(side, |layers|) && k + 1 < |dp| && |stacks| == k
    requires Tracks(loc0, i) && loc == Track(loc0, i, stacks)
    ensures res.Err? <==> Stack(side, dp, layers, materials, k, |side.idx|).Err?
    ensures res.Ok? ==> Stack(side, dp, layers, materials, k, |side.idx|) == Ok(res.value.0)
    ensures res.Ok? ==> res.value.1 == Track(loc0, i, stacks + [res.value.0])
  {
    var acc: seq<Ply> := [];
    var loc' := loc;
    TrackEmptyStack(loc0, i, stacks);
    StackEmpty(side, dp, layers, materials, k);
    for j := 0 to |side.idx|
      invariant Stack(side, dp, layers, materials, k, j) == Ok(acc)
      invariant loc' == Track(loc0, i, stacks + [acc])
    {
      StackStep(side, dp, layers, materials, k, j, acc);
      if side.start[j] <= dp[k] && side.end[j] >= dp[k + 1] {
        var layer := layers[side.idx[j]];
        if layer.material !in materials {
          return Err(KeyError);
        }
        var p := PlyOf(layer, side.idx[j], materials);
        TrackAppend(loc0, i, stacks, acc, p);
        if layer.name in loc' {
          var prior: Option<seq<nat>> := loc'[layer.name][i];
          loc' := loc'[layer.name := loc'[layer.name][i := if prior.None? then Some([k]) else Some(prior.value + [k])]];
        }
        acc := acc + [p];
      }
    }
    res := Ok((acc, loc'));
  }

  /** `region_stacking`: the loop over the regions, each filled by `StackRegion`. */
  method RegionStacking(i: nat, side0: Side, layers: seq<LayerAt>, materials: map<string, nat>, loc0: RegionLoc)
    returns (res: Result<(CompositeSection, RegionLoc)>)
    requires SideOf(side0, |layers|) && Tracks(loc0, i)
    ensures res == RegionStackingSpec(i, side0, layers, materials, loc0)
  {
    var side := Snapped(side0);
    var dp := DivisionPoints(side);
    var stacks: seq<seq<Ply>> := [];
    var loc := loc0;
    var k := 0;
    TrackNothing(loc0, i);
    while k < Regions(dp)
      invariant k <= Regions(dp) && |stacks| == k
      invariant StacksSoFar(side, dp, layers, materials, stacks)
      invariant loc == Track(loc0, i, stacks)
    {
      var region := StackRegion(i, k, side, dp, layers, materials, loc0, stacks, loc);
      if region.Err? {
        SpecFailsAt(i, side0, layers, materials, loc0, k);
        return Err(KeyError);
      }
      StacksSoFarAppend(side, dp, layers, materials, stacks, region.value.0);
      stacks := stacks + [region.value.0];
      loc := region.value.1;
      k := k + 1;
    }
    SpecOfStacks(i, side0, layers, materials, loc0, stacks);
    res := Ok((CompositeSection(dp, stacks), loc));
  }

  // ---------------------------------------------------------------------------------------
  // What the regions hold

  /** The index of a division point. */
  function Position(dp: seq<real>, x: real): (r: nat)
    requires x in dp
    ensures r < |dp| && dp[r] == x
  {
    if dp[0] == x then 0 else 1 + Position(dp[1..], x)
  }

  /** The first region of layer `j`: the index of its (snapped) start among the division
      points. */
  function RunStart(side0: Side, j: nat): (a: nat)
    requires |side0.start| == |side0.end| && j < |side0.start|
    ensures a < |DivisionPoints(Snapped(side0))|
  {
    var side := Snapped(side0);
    assert side.start[j] in side.start;
    Position(DivisionPoints(side), side.start[j])
  }

  /** The region after the last one of layer `j`: the index of its (snapped) end. */
  function RunEnd(side0: Side, j: nat): (b: nat)
    requires |side0.start| == |side0.end| && j < |side0.end|
    ensures b < |DivisionPoints(Snapped(side0))|
  {
    var side := Snapped(side0);
    assert side.end[j] in side.end;
    Position(DivisionPoints(side), side.end[j])
  }

  /** A layer occupies exactly the regions from its start's division point up to (not
      including) its end's: a contiguous run, empty when the layer ends where (or before) it
      starts. */
  lemma {:induction false} LayerOccupiesItsSpan(side0: Side, n: nat, j: nat)
    requires SideOf(side0, n) && j < |side0.idx|
    ensures forall k :: 0 <= k < Regions(DivisionPoints(Snapped(side0))) ==>
              (Covers(Snapped(side0), DivisionPoints(Snapped(side0)), j, k) <==> RunStart(side0, j) <= k < RunEnd(side0, j))
  {
    var side := Snapped(side0);
    var dp := DivisionPoints(side);
    var a, b := RunStart(side0, j), RunEnd(side0, j);
    forall k | 0 <= k < Regions(dp) ensures Covers(side, dp, j, k) <==> a <= k < b {
      if a <= k {
        assert dp[a] <= dp[k] by { if a < k { assert dp[a] < dp[k]; } }
      } else {
        assert dp[k] < dp[a];
      }
      if k + 1 <= b {
        assert dp[k + 1] <= dp[b] by { if k + 1 < b { assert dp[k + 1] < dp[b]; } }
      } else {
        assert dp[b] < dp[k + 1];
      }
    }
  }

  /** A layer found in two regions is found in every region between them. */
  lemma RegionsAreContiguous(side0: Side, n: nat, j: nat, k1: nat, k: nat, k2: nat)
    requires SideOf(side0, n) && j < |side0.idx|
    requires k1 <= k <= k2 < Regions(DivisionPoints(Snapped(side0)))
    requires Covers(Snapped(side0), DivisionPoints(Snapped(side0)), j, k1)
    requires Covers(Snapped(side0), DivisionPoints(Snapped(side0)), j, k2)
    ensures Covers(Snapped(side0), DivisionPoints(Snapped(side0)), j, k)
  {
    LayerOccupiesItsSpan(side0, n, j);
  }

  lemma {:induction false} CountNone(plies: seq<Ply>, name: string)
    requires forall t :: 0 <= t < |plies| ==> plies[t].name != name
    ensures Count(plies, name) == 0
  {
    if plies != [] {
      CountNone(plies[..|plies| - 1], name);
    }
  }

  lemma {:induction false} CountSingle(plies: seq<Ply>, name: string, t0: nat)
    requires t0 < |plies| && plies[t0].name == name
    requires forall t :: 0 <= t < |plies| && t != t0 ==> plies[t].name != name
    ensures Count(plies, name) == 1
  {
    var init := plies[..|plies| - 1];
    if t0 == |plies| - 1 {
      CountNone(init, name);
    } else {
      CountSingle(init, name, t0);
    }
  }

  /** The region indices recorded for a name are in ascending order, and a region is among
      them exactly when its stack holds a ply of that name. */
  lemma {:induction false} VisitsAscending(stacks: seq<seq<Ply>>, name: string)
    ensures Ascending(Visits(stacks, name))
    ensures forall k: nat :: k in Visits(stacks, name) <==> k < |stacks| && Count(stacks[k], name) > 0
  {
    if stacks != [] {
      var init := stacks[..|stacks| - 1];
      VisitsAscending(init, name);
      var v := Visits(init, name);
      var tail := Repeat(|stacks| - 1, Count(stacks[|stacks| - 1], name));
      assert Visits(stacks, name) == v + tail;
      var m := |stacks| - 1;
      forall k: nat ensures k in v + tail <==> k < |stacks| && Count(stacks[k], name) > 0 {
        assert k in v + tail <==> k in v || k in tail;
        if Count(stacks[m], name) > 0 {
          assert tail[0] == m;
        }
        assert k in tail <==> k == m && Count(stacks[m], name) > 0;
        if k < m {
          assert stacks[k] == init[k];
        }
      }
    }
  }

  /** The consecutive region indices `a, a + 1, ..., b - 1`. */
  function Span(a: nat, b: nat): (r: seq<nat>)
    ensures |r| == (if a < b then b - a else 0) && forall t :: 0 <= t < |r| ==> r[t] == a + t
  {
    seq(if a < b then b - a else 0, t => a + t)
  }

  lemma {:induction false} VisitsOfRun(stacks: seq<seq<Ply>>, name: string, a: nat, b: nat)
    requires forall k :: 0 <= k < |stacks| ==> Count(stacks[k], name) == (if a <= k < b then 1 else 0)
    ensures Visits(stacks, name) == Span(a, if b < |stacks| then b else |stacks|)
  {
    if stacks != [] {
      var m := |stacks| - 1;
      var init := stacks[..m];
      VisitsOfRun(init, name, a, b);
      if a <= m < b {
        assert Span(a, m) + [m] == Span(a, m + 1);
      }
    }
  }

  /** The layer at position `j` is the only one on its surface called `name`. */
  predicate OnlyLayerNamed(side: Side, layers: seq<LayerAt>, j: nat, name: string)
    requires SideOf(side, |layers|) && j < |side.idx|
  {
    layers[side.idx[j]].name == name &&
    forall q :: 0 <= q < |side.idx| && q != j ==> layers[side.idx[q]].name != name
  }

  lemma StackCountsLayer(side: Side, dp: seq<real>, layers: seq<LayerAt>, materials: map<string, nat>, k: nat, j: nat, name: string)
    requires SideOf(side, |layers|) && j < |side.idx| && k + 1 < |dp|
    requires OnlyLayerNamed(side, layers, j, name)
    requires Stack(side, dp, layers, materials, k, |side.idx|).Ok?
    ensures Count(Stack(side, dp, layers, materials, k, |side.idx|).value, name) == if Covers(side, dp, j, k) then 1 else 0
  {
    var c := Covering(side, dp, k, |side.idx|);
    var plies := Stack(side, dp, layers, materials, k, |side.idx|).value;
    assert forall t :: 0 <= t < |c| ==> plies[t].name == layers[side.idx[c[t]]].name;
    if Covers(side, dp, j, k) {
      var t0 :| 0 <= t0 < |c| && c[t0] == j;
      CountSingle(plies, name, t0);
    } else {
      CountNone(plies, name);
    }
  }

  /** The regions `region_stacking` records for a layer whose name no other layer on the
      surface shares: exactly its run of regions, in order. */
  lemma RecordedRegionsOfLayer(i: nat, side0: Side, layers: seq<LayerAt>, materials: map<string, nat>, loc: RegionLoc, j: nat)
    requires SideOf(side0, |layers|) && Tracks(loc, i) && j < |side0.idx|
    requires OnlyLayerNamed(side0, layers, j, layers[side0.idx[j]].name)
    requires RegionStackingSpec(i, side0, layers, materials, loc).Ok?
    ensures Visits(RegionStackingSpec(i, side0, layers, materials, loc).value.0.stacks, layers[side0.idx[j]].name) ==
              Span(RunStart(side0, j), RunEnd(side0, j))
  {
    var side := Snapped(side0);
    var dp := DivisionPoints(side);
    var name := layers[side0.idx[j]].name;
    var stacks := Stacks(side, dp, layers, materials).value;
    var a, b := RunStart(side0, j), RunEnd(side0, j);
    SpecParts(i, side0, layers, materials, loc);
    LayerOccupiesItsSpan(side0, |layers|, j);
    forall k | 0 <= k < |stacks| ensures Count(stacks[k], name) == (if a <= k < b then 1 else 0) {
      StackCountsLayer(side, dp, layers, materials, k, j, name);
    }
    VisitsOfRun(stacks, name, a, b);
    assert b < |dp|;
  }

  // ---------------------------------------------------------------------------------------
  // Strain sectors

  /** `None if regs == None else regs[int(len(regs)/2)]`: the middle recorded region (the
      upper middle one for an even count); an empty list would raise IndexError. */
  function SectorIndex(regs: Option<seq<nat>>): (r: Result<Option<nat>>)
    ensures regs.None? <==> r == Ok(None)
    ensures r.Err? <==> regs == Some([])
    ensures r.Ok? && r.value.Some? ==> r.value.value in regs.value
  {
    match regs
    case None => Ok(None)
    case Some(list) => if |list| == 0 then Err(IndexError) else Ok(Some(list[|list| / 2]))
  }

  /** The sector indices of one tracked layer along the span. */
  function SectorIndices(regs: seq<Option<seq<nat>>>): (r: Result<seq<Option<nat>>>)
    ensures r.Ok? <==> forall q :: 0 <= q < |regs| ==> SectorIndex(regs[q]).Ok?
    ensures r.Ok? ==> |r.value| == |regs| && forall q :: 0 <= q < |regs| ==> SectorIndex(regs[q]) == Ok(r.value[q])
  {
    if forall q :: 0 <= q < |regs| ==> SectorIndex(regs[q]).Ok? then
      Ok(seq(|regs|, q requires 0 <= q < |regs| => SectorIndex(regs[q]).value))
    else
      Err(IndexError)
  }

  /** For a tracked layer whose name is unique on its surface and whose entry was still
      `None` at station `i`, the entry recorded there is the layer's run of regions. */
  lemma EntryOfLayer(i: nat, side0: Side, layers: seq<LayerAt>, materials: map<string, nat>, loc: RegionLoc, j: nat,
                     r: (CompositeSection, RegionLoc), name: string) returns (entry: Option<seq<nat>>)
    requires SideOf(side0, |layers|) && Tracks(loc, i) && j < |side0.idx|
    requires name == layers[side0.idx[j]].name && OnlyLayerNamed(side0, layers, j, name)
    requires name in loc && loc[name][i] == None
    requires RegionStackingSpec(i, side0, layers, materials, loc) == Ok(r)
    ensures name in r.1 && i < |r.1[name]| && entry == r.1[name][i]
    ensures entry == Record(None, Span(RunStart(side0, j), RunEnd(side0, j)))
  {
    var side := Snapped(side0);
    var dp := DivisionPoints(side);
    SpecParts(i, side0, layers, materials, loc);
    RecordedRegionsOfLayer(i, side0, layers, materials, loc, j);
    var stacks := Stacks(side, dp, layers, materials).value;
    assert r.1 == Track(loc, i, stacks);
    entry := r.1[name][i];
  }

  /** The sector chosen from a freshly recorded run of regions `a .. b - 1` is its middle
      region; a layer that spans no region leaves the entry `None`. */
  lemma SectorIsMiddleOfRun(regs: Option<seq<nat>>, a: nat, b: nat)
    requires regs == Record(None, Span(a, b))
    ensures SectorIndex(regs) == if a < b then Ok(Some(a + (b - a) / 2)) else Ok(None)
  {
    var v := Span(a, b);
    if a < b {
      assert regs == Some(v);
      var n := b - a;
      HalfBelow(n);
      assert SectorIndex(regs) == Ok(Some(v[n / 2]));
    } else {
      assert v == [];
    }
  }

  /** The middle index of a non-empty list is one of its indices. */
  lemma HalfBelow(n: nat)
    requires n > 0
    ensures 0 <= n / 2 < n
  {
  }
}
