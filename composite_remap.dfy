/** `ReferenceBlade.remap_composites`: every spanwise distribution of every web and layer is
    interpolated onto the spanwise grid `s`. A distribution that covers only part of the span
    is interpolated on a window of stations and is `None` elsewhere. */
module CompositeRemap {
  import opened Numerics
  import opened Interpolation

  /** A spanwise distribution of a web or layer: its grid and its values, `None` where the
      distribution is not defined. */
  datatype Field = Field(grid: seq<real>, values: seq<Option<real>>)

  /** The values of a fully defined distribution; one `None` makes the interpolation raise
      TypeError. */
  function Defined(v: seq<Option<real>>): (r: Result<seq<real>>)
    ensures r.Ok? <==> forall i :: 0 <= i < |v| ==> v[i].Some?
    ensures r.Err? ==> r.error == TypeError
    ensures r.Ok? ==> |r.value| == |v| && forall i :: 0 <= i < |v| ==> v[i] == Some(r.value[i])
  {
    if forall i :: 0 <= i < |v| ==> v[i].Some? then Ok(seq(|v|, i requires 0 <= i < |v| => v[i].value))
    else Err(TypeError)
  }

  /** First station of the window: the first at or past the start of the grid when the
      grid starts past the root, else 0. */
  function WindowStart(s: seq<real>, g0: real): (k: nat)
    requires |s| > 0
    ensures k < |s|
  {
    if g0 > 0.0 then FirstTrue(seq(|s|, i requires 0 <= i < |s| => s[i] >= g0)) else 0
  }

  /** End of the window as the code holds it: the first station past the end of the grid
      when the grid ends before the tip, else -1 (`idx_e`). */
  function WindowEnd(s: seq<real>, gLast: real): (k: int)
    requires |s| > 0
    ensures -1 <= k < |s|
  {
    if gLast < 1.0 then FirstTrue(seq(|s|, i requires 0 <= i < |s| => s[i] > gLast)) else -1
  }

  /** The stop of the slice `[idx_s:idx_e]`: Python reads -1 as the last station. */
  function SliceStop(n: nat, e: int): (r: nat)
    requires n > 0 && -1 <= e < n
    ensures e == -1 ==> r == n - 1
    ensures e >= 0 ==> r == e
  {
    if e == -1 then n - 1 else e
  }

  /** The end (exclusive) of the stations that get a value: all of them when the grid
      covers the whole span, else the slice stop. */
  function WindowStop(s: seq<real>, g: seq<real>): (b: nat)
    requires |s| > 0 && g != []
    ensures b <= |s|
  {
    var a := WindowStart(s, g[0]);
    var e := WindowEnd(s, g[|g| - 1]);
    if a == 0 && e == -1 then |s| else SliceStop(|s|, e)
  }

  /** The remap of one distribution onto `s`. An empty grid is left alone. Otherwise, unless
      the grid covers the whole span (the window starts at 0 and `idx_e` is -1), the
      stations from `idx_s` up to the slice stop get the interpolated values and all other
      stations `None`; the grid becomes `s`. */
  function RemapField(f: Field, s: seq<real>, fit: Fit): (r: Result<Field>)
    requires |s| > 0
    ensures f.grid == [] ==> r == Ok(f)
    ensures r.Ok? && f.grid != [] ==> r.value.grid == s && |r.value.values| == |s|
    ensures r.Ok? && f.grid != [] ==>
              forall i :: 0 <= i < |s| ==> (r.value.values[i].Some? <==> WindowStart(s, f.grid[0]) <= i < WindowStop(s, f.grid))
    ensures r.Ok? && f.grid != [] ==> Defined(f.values).Ok?
    ensures f.grid != [] && Defined(f.values).Err? ==> r == Err(TypeError)
  {
    if f.grid == [] then Ok(f)
    else
      var ys :- Defined(f.values);
      var a := WindowStart(s, f.grid[0]);
      var b := WindowStop(s, f.grid);
      var window := if a <= b then s[a..b] else [];
      var vals :- Remap2Grid(f.grid, ys, window, fit);
      Ok(Field(s, seq(|s|, i requires 0 <= i < |s| => if a <= i < b then Some(vals[i - a]) else None)))
  }

  /** Every value a remap gives lies between the least and the greatest of the
      distribution's own values. */
  lemma RemapFieldWithinData(f: Field, s: seq<real>, fit: Fit, i: nat)
    requires |s| > 0 && f.grid != [] && i < |s|
    requires RemapField(f, s, fit).Ok? && RemapField(f, s, fit).value.values[i].Some?
    ensures Defined(f.values).Ok? && |f.values| > 0
    ensures SeqMin(Defined(f.values).value) <= RemapField(f, s, fit).value.values[i].value <= SeqMax(Defined(f.values).value)
  {
  }

  /** On a strictly increasing grid whose stations reach past both ends of a partial
      distribution, the stations a remap gives a value (its window, by `RemapField`'s
      contract) are exactly those within the distribution's own grid. */
  lemma WindowIsTheDefinedSpan(g: seq<real>, s: seq<real>, i: nat)
    requires |s| > 0 && StrictlyIncreasing(s) && g != [] && i < |s|
    requires 0.0 < g[0] <= g[|g| - 1] < 1.0
    requires exists j :: 0 <= j < |s| && s[j] > g[|g| - 1]
    ensures WindowStart(s, g[0]) <= i < WindowStop(s, g) <==> g[0] <= s[i] <= g[|g| - 1]
  {
    WindowBounds(s, g[0], g[|g| - 1], i);
    StopAtWindowEnd(s, g);
  }

  /** With a station past the end of the grid, the window stops at the first such one. */
  lemma StopAtWindowEnd(s: seq<real>, g: seq<real>)
    requires |s| > 0 && g != [] && WindowEnd(s, g[|g| - 1]) >= 0
    ensures WindowStop(s, g) == WindowEnd(s, g[|g| - 1])
  {
  }

  /** The window of a partial distribution, in terms of the station positions. */
  lemma WindowBounds(s: seq<real>, g0: real, gl: real, i: nat)
    requires |s| > 0 && StrictlyIncreasing(s) && i < |s|
    requires 0.0 < g0 <= gl < 1.0
    requires exists j :: 0 <= j < |s| && s[j] > gl
    ensures WindowEnd(s, gl) >= 0
    ensures WindowStart(s, g0) <= i < WindowEnd(s, gl) <==> g0 <= s[i] <= gl
  {
    var a := WindowStart(s, g0);
    var e := WindowEnd(s, gl);
    var above := seq(|s|, k requires 0 <= k < |s| => s[k] > gl);
    var j :| 0 <= j < |s| && s[j] > gl;
    assert above[j];
    assert e >= 0 && s[e] > gl;
    assert forall k :: 0 <= k < e ==> s[k] <= gl by {
      forall k | 0 <= k < e ensures s[k] <= gl {
        assert !above[k];
      }
    }
    var atLeast := seq(|s|, k requires 0 <= k < |s| => s[k] >= g0);
    assert atLeast[j];
    assert s[a] >= g0;
    assert forall k :: 0 <= k < a ==> s[k] < g0 by {
      forall k | 0 <= k < a ensures s[k] < g0 {
        assert !atLeast[k];
      }
    }
  }

  /** A distribution starting past the root and running to the tip leaves the tip station
      without a value: the slice `[idx_s:-1]` stops one station short. */
  lemma PartialToTipLeavesTipEmpty(f: Field, s: seq<real>, fit: Fit)
    requires |s| > 0 && f.grid != [] && f.grid[|f.grid| - 1] >= 1.0
    requires WindowStart(s, f.grid[0]) > 0
    requires RemapField(f, s, fit).Ok?
    ensures RemapField(f, s, fit).value.values[|s| - 1] == None
  {
  }

  /** A distribution given over the whole span gets a value at every station. */
  lemma FullSpanIsDefinedEverywhere(f: Field, s: seq<real>, fit: Fit)
    requires |s| > 0 && f.grid != [] && f.grid[0] <= 0.0 && f.grid[|f.grid| - 1] >= 1.0
    requires RemapField(f, s, fit).Ok?
    ensures forall i :: 0 <= i < |s| ==> RemapField(f, s, fit).value.values[i].Some?
  {
  }

  /** The loop over every web and layer distribution: each is replaced by its remap; the
      first one that raises stops the loop, leaving the later ones as they were. */
  method RemapComposites(fields: array<Field>, s: seq<real>, fit: Fit) returns (err: Option<Error>)
    requires |s| > 0
    modifies fields
    ensures err.None? ==> forall k :: 0 <= k < fields.Length ==> RemapField(old(fields[k]), s, fit) == Ok(fields[k])
    ensures err.Some? ==>
              exists k :: 0 <= k < fields.Length && RemapField(old(fields[k]), s, fit) == Err(err.value) &&
                (forall j :: 0 <= j < k ==> RemapField(old(fields[j]), s, fit) == Ok(fields[j])) &&
                (forall j :: k <= j < fields.Length ==> fields[j] == old(fields[j]))
  {
    for k := 0 to fields.Length
      invariant forall j :: 0 <= j < k ==> RemapField(old(fields[j]), s, fit) == Ok(fields[j])
      invariant forall j :: k <= j < fields.Length ==> fields[j] == old(fields[j])
    {
      var r := RemapField(fields[k], s, fit);
      if r.Err? {
        return Some(r.error);
      }
      fields[k] := r.value;
    }
    return None;
  }
}
