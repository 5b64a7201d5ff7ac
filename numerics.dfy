/** Shared vocabulary of the blade model: optional values, the Python exceptions the
    modelled code raises, numpy's closeness test, sums, extrema, sorting and `linspace`. */
module Numerics {

  /** Python's `None` (a sparse station, a missing key) or a value. */
  datatype Option<T> = None | Some(value: T)

  /** The exceptions the modelled code can raise. */
  datatype Error =
    | IndexError      // `[...][0]` on an empty list, indexing past the end
    | KeyError        // a dictionary key that is absent
    | ValueError      // `max([])`, `argmax([])`, a negative `linspace` count
    | TypeError       // comparing `None` with a number
    | NameError       // a local variable read before it was ever assigned
    | AttributeError  // a method called on a value whose type lacks it (`.tolist()` on a list)

  /** A value or the exception that replaced it; `:-` propagates the exception. */
  datatype Result<T> = Ok(value: T) | Err(error: Error) {
    predicate IsFailure() { Err? }

    function PropagateFailure<U>(): Result<U>
      requires Err?
    {
      Err(error)
    }

    function Extract(): T
      requires Ok?
    {
      value
    }
  }

  function Abs(x: real): real { if x < 0.0 then -x else x }

  function Min(a: real, b: real): real { if a <= b then a else b }

  function Max(a: real, b: real): real { if a <= b then b else a }

  /** Every value defined: a list of numbers as a list that may hold `None`. */
  function Lift(v: seq<real>): (r: seq<Option<real>>)
    ensures |r| == |v| && forall i :: 0 <= i < |v| ==> r[i] == Some(v[i])
  {
    seq(|v|, i requires 0 <= i < |v| => Some(v[i]))
  }

  /** `numpy.isclose(a, b)` with its default tolerances (rtol = 1e-5, atol = 1e-8).
      The test is not symmetric: the relative tolerance scales with `b`. */
  predicate IsClose(a: real, b: real) {
    Abs(a - b) <= 0.00000001 + 0.00001 * Abs(b)
  }

  predicate NonDecreasing(s: seq<real>) {
    forall i, j :: 0 <= i < j < |s| ==> s[i] <= s[j]
  }

  predicate StrictlyIncreasing(s: seq<real>) {
    forall i, j :: 0 <= i < j < |s| ==> s[i] < s[j]
  }

  predicate Distinct<T(==)>(s: seq<T>) {
    forall i, j :: 0 <= i < j < |s| ==> s[i] != s[j]
  }

  function Sum(s: seq<int>): int {
    if s == [] then 0 else s[0] + Sum(s[1..])
  }

  /** Changing one entry changes the sum by the difference. */
  lemma {:induction false} SumUpdate(s: seq<int>, i: nat, v: int)
    requires i < |s|
    ensures Sum(s[i := v]) == Sum(s) - s[i] + v
  {
    if i > 0 {
      assert s[i := v][1..] == s[1..][i - 1 := v];
      SumUpdate(s[1..], i - 1, v);
    }
  }

  /** The sum of a concatenation is the sum of its parts. */
  lemma {:induction false} SumAppend(a: seq<int>, b: seq<int>)
    ensures Sum(a + b) == Sum(a) + Sum(b)
  {
    if a == [] {
      assert a + b == b;
    } else {
      assert (a + b)[1..] == a[1..] + b;
      SumAppend(a[1..], b);
    }
  }

  /** A positive sum has a positive term. */
  lemma {:induction false} PositiveTerm(s: seq<int>)
    requires Sum(s) > 0
    ensures exists i :: 0 <= i < |s| && s[i] > 0
  {
    assert s != [];
    if s[0] <= 0 {
      PositiveTerm(s[1..]);
      var i :| 0 <= i < |s[1..]| && s[1..][i] > 0;
      assert s[i + 1] > 0;
    } else {
      assert s[0] > 0;
    }
  }

  /** First-occurrence deduplication: `if x not in r: r.append(x)`, and the order that stands
      in for the iteration order of `list(set(s))`. */
  function Dedup<T(==,!new)>(s: seq<T>): (r: seq<T>)
    ensures Distinct(r)
    ensures forall x :: x in r <==> x in s
  {
    if s == [] then []
    else
      var rest := Dedup(s[..|s| - 1]);
      var x := s[|s| - 1];
      assert forall y :: y in s <==> y in s[..|s| - 1] || y == x;
      if x in rest then rest else rest + [x]
  }

  /** Python's `min(s)`: raises ValueError on an empty list, so callers pass a non-empty one. */
  function SeqMin(s: seq<real>): (m: real)
    requires |s| > 0
    ensures m in s
    ensures forall x :: x in s ==> m <= x
  {
    if |s| == 1 then s[0]
    else
      var rest := SeqMin(s[1..]);
      assert forall x :: x in s ==> x == s[0] || x in s[1..];
      if s[0] <= rest then s[0] else rest
  }

  /** Python's `max(s)`. */
  function SeqMax(s: seq<real>): (m: real)
    requires |s| > 0
    ensures m in s
    ensures forall x :: x in s ==> x <= m
  {
    if |s| == 1 then s[0]
    else
      var rest := SeqMax(s[1..]);
      assert forall x :: x in s ==> x == s[0] || x in s[1..];
      if s[0] >= rest then s[0] else rest
  }

  /** Python's `sorted` on numbers: an insertion sort, sorted and a permutation. */
  function Sorted(s: seq<real>): (r: seq<real>)
    ensures NonDecreasing(r)
    ensures multiset(r) == multiset(s)
  {
    if s == [] then []
    else
      assert s == [s[0]] + s[1..];
      Insert(s[0], Sorted(s[1..]))
  }

  function Insert(x: real, t: seq<real>): (r: seq<real>)
    requires NonDecreasing(t)
    ensures NonDecreasing(r)
    ensures multiset(r) == multiset(t) + multiset{x}
    ensures forall y :: y in r ==> y == x || y in t
  {
    if t == [] || x <= t[0] then
      HeadAbove(x, t, false);
      PrependNonDecreasing(x, t);
      [x] + t
    else
      assert t == [t[0]] + t[1..];
      var rest := Insert(x, t[1..]);
      TailAbove(t[0], t[1..], false);
      PrependNonDecreasing(t[0], rest);
      [t[0]] + rest
  }

  /** Every value of `s` lies above `a` (strictly when `strict`). */
  predicate AllAbove(a: real, s: seq<real>, strict: bool) {
    forall y :: y in s ==> (if strict then a < y else a <= y)
  }

  /** The tail of a sorted list lies above its head. */
  lemma TailAbove(a: real, s: seq<real>, strict: bool)
    requires if strict then StrictlyIncreasing([a] + s) else NonDecreasing([a] + s)
    ensures AllAbove(a, s, strict)
  {
    forall y | y in s ensures if strict then a < y else a <= y {
      var i :| 0 <= i < |s| && s[i] == y;
      assert ([a] + s)[0] == a && ([a] + s)[i + 1] == y;
    }
  }

  /** A value below the head of a sorted list lies below all of it. */
  lemma HeadAbove(x: real, t: seq<real>, strict: bool)
    requires if strict then StrictlyIncreasing(t) else NonDecreasing(t)
    requires t == [] || (if strict then x < t[0] else x <= t[0])
    ensures AllAbove(x, t, strict)
  {
    forall y | y in t ensures if strict then x < y else x <= y {
      var i :| 0 <= i < |t| && t[i] == y;
      if i > 0 {
        assert t[0] <= t[i];
      }
    }
  }

  lemma PrependNonDecreasing(a: real, s: seq<real>)
    requires NonDecreasing(s)
    requires AllAbove(a, s, false)
    ensures NonDecreasing([a] + s)
  {
    forall i, j | 0 <= i < j < |[a] + s| ensures ([a] + s)[i] <= ([a] + s)[j] {
      if i == 0 {
        var y := s[j - 1];
        assert y in s;
      }
    }
  }

  lemma PrependIncreasing(a: real, s: seq<real>)
    requires StrictlyIncreasing(s)
    requires AllAbove(a, s, true)
    ensures StrictlyIncreasing([a] + s)
  {
    forall i, j | 0 <= i < j < |[a] + s| ensures ([a] + s)[i] < ([a] + s)[j] {
      if i == 0 {
        var y := s[j - 1];
        assert y in s;
      }
    }
  }

  /** A list without repeated elements holds each value at most once. */
  lemma {:induction false} DistinctCount(s: seq<real>, x: real)
    requires Distinct(s)
    ensures multiset(s)[x] <= 1
  {
    if s != [] {
      assert s == [s[0]] + s[1..];
      assert Distinct(s[1..]) by {
        forall i, j | 0 <= i < j < |s[1..]| ensures s[1..][i] != s[1..][j] {
          assert s[1..][i] == s[i + 1] && s[1..][j] == s[j + 1];
        }
      }
      DistinctCount(s[1..], x);
      if s[0] == x {
        assert x !in s[1..] by {
          forall k | 0 <= k < |s[1..]| ensures s[1..][k] != x {
            assert s[1..][k] == s[k + 1];
          }
        }
      }
    }
  }

  /** Sorting a list of distinct numbers (`sorted(list(set(...)))`) gives a strictly increasing list
      with the same elements. */
  lemma SortedDistinctIsIncreasing(s: seq<real>)
    requires Distinct(s)
    ensures StrictlyIncreasing(Sorted(s))
    ensures |Sorted(s)| == |s|
    ensures forall x :: x in Sorted(s) <==> x in s
  {
    var r := Sorted(s);
    assert |r| == |multiset(r)| == |multiset(s)| == |s|;
    forall x ensures x in r <==> x in s {
      assert x in r <==> x in multiset(r);
      assert x in s <==> x in multiset(s);
    }
    forall i, j | 0 <= i < j < |r| ensures r[i] < r[j] {
      if r[i] == r[j] {
        DistinctCount(s, r[i]);
        RepeatedCount(r, i, j);
      }
    }
  }

  /** A value found at two positions is counted twice. */
  lemma RepeatedCount(r: seq<real>, i: nat, j: nat)
    requires i < j < |r| && r[i] == r[j]
    ensures multiset(r)[r[i]] >= 2
  {
    var x := r[i];
    assert r == r[..i] + [x] + r[i + 1..j] + [x] + r[j + 1..];
    assert multiset(r) == multiset(r[..i]) + multiset{x} + multiset(r[i + 1..j]) + multiset{x} + multiset(r[j + 1..]);
  }

  /** `sorted(list(set(s)))`: the distinct values of `s` in increasing order. */
  function SortedDistinct(s: seq<real>): (r: seq<real>)
    ensures StrictlyIncreasing(r)
    ensures forall x :: x in r <==> x in s
  {
    if s == [] then [] else InsertNew(s[0], SortedDistinct(s[1..]))
  }

  function InsertNew(x: real, t: seq<real>): (r: seq<real>)
    requires StrictlyIncreasing(t)
    ensures StrictlyIncreasing(r)
    ensures forall y :: y in r <==> y == x || y in t
  {
    if t == [] || x < t[0] then
      HeadAbove(x, t, true);
      PrependIncreasing(x, t);
      [x] + t
    else if x == t[0] then t
    else
      assert t == [t[0]] + t[1..];
      var rest := InsertNew(x, t[1..]);
      TailAbove(t[0], t[1..], true);
      PrependIncreasing(t[0], rest);
      [t[0]] + rest
  }

  /** `numpy.linspace(a, b, k)`: `k` evenly spaced values from `a`, the last exactly `b`;
      a single value is `[a]`, a count of zero is empty (a negative count raises, so callers
      pass `k >= 0`). */
  function Linspace(a: real, b: real, k: int): (r: seq<real>)
    requires k >= 0
    ensures |r| == k
  {
    if k == 0 then []
    else if k == 1 then [a]
    else seq(k, j requires 0 <= j < k => if j == k - 1 then b else LinspaceValue(a, b, k, j))
  }

  /** Value `j` of a `k`-point linspace before numpy pins the last one to `b`. */
  function LinspaceValue(a: real, b: real, k: int, j: int): real
    requires k >= 2
  {
    a + (j as real) * ((b - a) / ((k - 1) as real))
  }

  /** For `a < b` the values run strictly upwards from `a` to `b`. */
  lemma LinspaceIncreasing(a: real, b: real, k: int)
    requires a < b && k >= 1
    ensures StrictlyIncreasing(Linspace(a, b, k))
    ensures Linspace(a, b, k)[0] == a
    ensures k >= 2 ==> Linspace(a, b, k)[k - 1] == b
    ensures forall j :: 0 <= j < k ==> a <= Linspace(a, b, k)[j] <= b
    ensures forall j :: 0 <= j < k - 1 ==> a <= Linspace(a, b, k)[j] < b
  {
    if k >= 2 {
      var l := Linspace(a, b, k);
      forall j | 0 <= j < k - 1 ensures a <= l[j] < b {
        LinspaceValueBounds(a, b, k, j);
      }
      forall i, j | 0 <= i < j < k ensures l[i] < l[j] {
        LinspaceValueBounds(a, b, k, i);
        if j < k - 1 {
          LinspaceValueMonotone(a, b, k, i, j);
        }
      }
    }
  }

  lemma LinspaceValueBounds(a: real, b: real, k: int, j: int)
    requires a < b && k >= 2 && 0 <= j < k - 1
    ensures a <= LinspaceValue(a, b, k, j) < b
  {
    var step := (b - a) / ((k - 1) as real);
    var n := (k - 1) as real;
    var jr := j as real;
    assert step > 0.0;
    assert n * step == b - a;
    assert jr + 1.0 <= n;
    assert (jr + 1.0) * step <= n * step;
    assert jr * step + step == (jr + 1.0) * step;
    assert 0.0 <= jr * step;
  }

  lemma LinspaceValueMonotone(a: real, b: real, k: int, i: int, j: int)
    requires a < b && k >= 2 && i < j
    ensures LinspaceValue(a, b, k, i) < LinspaceValue(a, b, k, j)
  {
    var step := (b - a) / ((k - 1) as real);
    assert step > 0.0;
    assert (j as real) * step - (i as real) * step == ((j - i) as real) * step;
  }

  /** `np.argmax` of a boolean array: the first `True`, or 0 when there is none (an empty
      array raises, so callers pass a non-empty one). */
  function FirstTrue(mask: seq<bool>): (k: nat)
    requires |mask| > 0
    ensures k < |mask|
    ensures forall j :: 0 <= j < k ==> !mask[j]
    ensures mask[k] || (k == 0 && forall j :: 0 <= j < |mask| ==> !mask[j])
  {
    if mask[0] || |mask| == 1 then 0
    else
      var k := FirstTrue(mask[1..]);
      if mask[1..][k] then k + 1
      else
        assert forall j :: 1 <= j < |mask| ==> mask[j] == mask[1..][j - 1];
        0
  }

  /** ASCII upper-to-lower case, standing in for Python's `str.lower()`. */
  function Lower(s: string): (r: string)
    ensures |r| == |s|
  {
    if s == [] then []
    else [if 'A' <= s[0] <= 'Z' then (s[0] as int + 32) as char else s[0]] + Lower(s[1..])
  }

  /** `Lower` shifts exactly the letters `A`..`Z` to their lower-case forms and keeps every
      other character. */
  lemma {:induction false} LowerEachCharacter(s: string)
    ensures forall i :: 0 <= i < |s| ==> ('A' <= s[i] <= 'Z' ==> Lower(s)[i] as int == s[i] as int + 32)
    ensures forall i :: 0 <= i < |s| ==> (!('A' <= s[i] <= 'Z') ==> Lower(s)[i] == s[i])
  {
    if s != [] {
      LowerEachCharacter(s[1..]);
      assert forall i :: 1 <= i < |s| ==> Lower(s)[i] == Lower(s[1..])[i - 1];
    }
  }
}
