/** The reference-airfoil reduction of `ReferenceBlade.remap_profiles`: the airfoils placed
    along the span are reduced to one per distinct relative thickness (the first one placed
    with that thickness), in increasing order of thickness. */
module Profiles {
  import opened Numerics
  import opened Planform

  /** The reduced reference set: thicknesses and the airfoil chosen for each. */
  datatype ReferenceSet = ReferenceSet(thickness: seq<real>, labels: seq<string>)

  /** The label of the first airfoil placed with thickness `t`, given the thickness of each
      placed airfoil `ts` (the entry `af_thk_dict[t]` once the loop is done). */
  function FirstLabelOf(labels: seq<string>, ts: seq<real>, t: real): (r: Option<string>)
    requires |ts| == |labels|
    ensures r.None? <==> t !in ts
    ensures r.Some? ==> exists i :: 0 <= i < |ts| && ts[i] == t && labels[i] == r.value && forall j :: 0 <= j < i ==> ts[j] != t
  {
    match FirstEqual(ts, t)
    case None => None
    case Some(i) => Some(labels[i])
  }

  /** A thickness seen in a longer prefix keeps its first airfoil. */
  lemma FirstLabelExtends(labels: seq<string>, ts: seq<real>, k: nat, t: real)
    requires |ts| == |labels| && k < |ts|
    ensures FirstLabelOf(labels[..k + 1], ts[..k + 1], t) ==
            if t in ts[..k] then FirstLabelOf(labels[..k], ts[..k], t)
            else if ts[k] == t then Some(labels[k]) else None
  {
    FirstEqualPrefix(ts, k, t);
  }

  lemma {:induction false} FirstEqualPrefix(ts: seq<real>, k: nat, t: real)
    requires k < |ts|
    ensures FirstEqual(ts[..k + 1], t) ==
            if t in ts[..k] then FirstEqual(ts[..k], t)
            else if ts[k] == t then Some(k) else None
  {
    if k > 0 && ts[0] != t {
      assert ts[..k + 1][1..] == ts[1..][..k];
      assert ts[..k][1..] == ts[1..][..k - 1];
      FirstEqualPrefix(ts[1..], k - 1, t);
      assert t in ts[..k] <==> t in ts[1..][..k - 1];
    }
  }

  /** The reduction loop: the dictionary from each thickness to its first airfoil, then
      its keys sorted and the chosen label of each. A label without a reference airfoil
      raises KeyError. */
  method ReduceReferenceAirfoils(labels: seq<string>, thk: map<string, real>) returns (res: Result<ReferenceSet>)
    ensures res.Ok? <==> ThicknessOf(labels, thk).Ok?
    ensures res.Err? ==> res.error == KeyError
    ensures res.Ok? ==> res.value.thickness == SortedDistinct(ThicknessOf(labels, thk).value)
    ensures res.Ok? ==> |res.value.labels| == |res.value.thickness|
    ensures res.Ok? ==> forall k :: 0 <= k < |res.value.labels| ==>
              Some(res.value.labels[k]) == FirstLabelOf(labels, ThicknessOf(labels, thk).value, res.value.thickness[k])
  {
    var tr := ThicknessOf(labels, thk);
    if tr.Err? {
      return Err(KeyError);
    }
    var ts := tr.value;
    var first: map<real, string> := map[];
    for k := 0 to |labels|
      invariant forall t :: t in first <==> t in ts[..k]
      invariant forall t :: t in first ==> Some(first[t]) == FirstLabelOf(labels[..k], ts[..k], t)
    {
      var afThk := thk[labels[k]];
      assert afThk == ts[k];
      forall t ensures FirstLabelOf(labels[..k + 1], ts[..k + 1], t) ==
          if t in ts[..k] then FirstLabelOf(labels[..k], ts[..k], t)
          else if ts[k] == t then Some(labels[k]) else None {
        FirstLabelExtends(labels, ts, k, t);
      }
      assert forall t :: t in ts[..k + 1] <==> t in ts[..k] || t == ts[k] by {
        assert ts[..k + 1] == ts[..k] + [ts[k]];
      }
      if afThk !in first {
        first := first[afThk := labels[k]];
      }
    }
    assert labels[..|labels|] == labels && ts[..|ts|] == ts;
    var afThk := SortedDistinct(ts);
    assert forall k :: 0 <= k < |afThk| ==> afThk[k] in first by {
      forall k | 0 <= k < |afThk| ensures afThk[k] in first {
        assert afThk[k] in afThk;
      }
    }
    var afLabels := seq(|afThk|, k requires 0 <= k < |afThk| => first[afThk[k]]);
    return Ok(ReferenceSet(afThk, afLabels));
  }

  /** The reduced set is strictly increasing in thickness, holds every thickness that is
      placed, and each chosen airfoil really has the thickness it is filed under. */
  lemma ReferenceSetIsConsistent(labels: seq<string>, thk: map<string, real>, rs: ReferenceSet)
    requires ThicknessOf(labels, thk).Ok?
    requires rs.thickness == SortedDistinct(ThicknessOf(labels, thk).value)
    requires |rs.labels| == |rs.thickness|
    requires forall k :: 0 <= k < |rs.labels| ==>
               Some(rs.labels[k]) == FirstLabelOf(labels, ThicknessOf(labels, thk).value, rs.thickness[k])
    ensures StrictlyIncreasing(rs.thickness)
    ensures forall l :: l in labels ==> thk[l] in rs.thickness
    ensures forall k :: 0 <= k < |rs.labels| ==> rs.labels[k] in labels && rs.labels[k] in thk && thk[rs.labels[k]] == rs.thickness[k]
  {
    var ts := ThicknessOf(labels, thk).value;
    forall l | l in labels ensures thk[l] in rs.thickness {
      var i :| 0 <= i < |labels| && labels[i] == l;
      assert ts[i] == thk[l];
    }
    forall k | 0 <= k < |rs.labels|
      ensures rs.labels[k] in labels && rs.labels[k] in thk && thk[rs.labels[k]] == rs.thickness[k]
    {
      var i :| 0 <= i < |ts| && ts[i] == rs.thickness[k] && labels[i] == rs.labels[k] && forall j :: 0 <= j < i ==> ts[j] != rs.thickness[k];
    }
  }
}
