/** Generic sequence helpers shared by the client store, the pages and the server:
    the `filter` and `map` shapes that the TypeScript code builds its lists with. */
module Seqs {

  datatype Option<+T> = None | Some(value: T) {
    function GetOr(default: T): T {
      match this
      case Some(v) => v
      case None => default
    }
  }

  /** `s.filter(p)`: the elements satisfying `p`, in their original order. */
  function Filter<T>(s: seq<T>, p: T -> bool): (r: seq<T>)
    ensures |r| <= |s|
    ensures forall i :: 0 <= i < |r| ==> r[i] in s && p(r[i])
    ensures forall i :: 0 <= i < |s| && p(s[i]) ==> s[i] in r
  {
    if s == [] then []
    else if p(s[0]) then [s[0]] + Filter(s[1..], p)
    else Filter(s[1..], p)
  }

  /** `s.find(p)`: the first element satisfying `p`, or none when no element does. */
  function Find<T>(s: seq<T>, p: T -> bool): (r: Option<T>)
    ensures r.None? <==> forall i :: 0 <= i < |s| ==> !p(s[i])
    ensures r.Some? ==> p(r.value)
    ensures r.Some? ==> exists i :: (0 <= i < |s| && s[i] == r.value
      && forall j :: 0 <= j < i ==> !p(s[j]))
  {
    if s == [] then None
    else if p(s[0]) then Some(s[0])
    else
      var r := Find(s[1..], p);
      r
  }

  /** Filtering distributes over concatenation: the kept elements stay in order. */
  lemma {:induction false} FilterConcat<T>(a: seq<T>, b: seq<T>, p: T -> bool)
    ensures Filter(a + b, p) == Filter(a, p) + Filter(b, p)
  {
    if a == [] {
      assert a + b == b;
    } else {
      assert (a + b)[1..] == a[1..] + b;
      FilterConcat(a[1..], b, p);
    }
  }

  /** When every element passes, the filter returns its input. */
  lemma {:induction false} FilterKeepsAll<T>(s: seq<T>, p: T -> bool)
    requires forall i :: 0 <= i < |s| ==> p(s[i])
    ensures Filter(s, p) == s
  {
    if s != [] {
      FilterKeepsAll(s[1..], p);
    }
  }

  /** `s.map(x => sel(x) ? f(x) : x)`: rewrite the selected elements, keep the others. */
  function MapWhere<T>(s: seq<T>, sel: T -> bool, f: T -> T): (r: seq<T>)
    ensures |r| == |s|
    ensures forall i :: 0 <= i < |s| ==> r[i] == if sel(s[i]) then f(s[i]) else s[i]
  {
    if s == [] then []
    else [if sel(s[0]) then f(s[0]) else s[0]] + MapWhere(s[1..], sel, f)
  }

  /** No element occurs twice. */
  predicate Distinct<T(==)>(s: seq<T>) {
    forall i, j :: 0 <= i < j < |s| ==> s[i] != s[j]
  }

  /** The least index at which `x` occurs in `s`. */
  function IndexOf<T(==)>(s: seq<T>, x: T): (i: nat)
    requires x in s
    ensures i < |s| && s[i] == x
    ensures forall j :: 0 <= j < i ==> s[j] != x
  {
    if s[0] == x then 0 else 1 + IndexOf(s[1..], x)
  }

  /** `[...new Set(s)]`: the elements of `s` without repetitions. A JavaScript `Set`
      remembers insertion order, so each element stands where it first occurred. */
  function Dedupe<T(==)>(s: seq<T>): (r: seq<T>)
    ensures Distinct(r)
    ensures |r| <= |s|
    ensures forall i :: 0 <= i < |r| ==> r[i] in s
    ensures forall i :: 0 <= i < |s| ==> s[i] in r
  {
    if s == [] then []
    else
      var d := Dedupe(s[..|s| - 1]);
      assert forall i :: 0 <= i < |s| - 1 ==> s[..|s| - 1][i] == s[i];
      if s[|s| - 1] in d then d else d + [s[|s| - 1]]
  }

  /** A new element goes to the end; one already present changes nothing. */
  lemma DedupeSnoc<T>(s: seq<T>, x: T)
    ensures Dedupe(s + [x]) == if x in s then Dedupe(s) else Dedupe(s) + [x]
  {
    assert (s + [x])[..|s + [x]| - 1] == s;
    if x in s {
      var i :| 0 <= i < |s| && s[i] == x;
      assert s[i] in Dedupe(s);
    } else {
      assert x !in Dedupe(s);
    }
  }

  /** First-occurrence order: earlier entries of the result first occur earlier in `s`. */
  lemma {:induction false} DedupeFirstOccurrenceOrder<T>(s: seq<T>, i: nat, j: nat)
    requires i < j < |Dedupe(s)|
    ensures Dedupe(s)[i] in s && Dedupe(s)[j] in s
    ensures IndexOf(s, Dedupe(s)[i]) < IndexOf(s, Dedupe(s)[j])
  {
    var n := |s|;
    var p := s[..n - 1];
    var d := Dedupe(p);
    assert s == p + [s[n - 1]];
    IndexOfPrefix(p, s[n - 1]);
    if s[n - 1] in d || j < |d| {
      assert Dedupe(s)[i] == d[i] && Dedupe(s)[j] == d[j];
      DedupeFirstOccurrenceOrder(p, i, j);
      IndexOfPrefixOf(p, s[n - 1], d[i]);
      IndexOfPrefixOf(p, s[n - 1], d[j]);
    } else {
      assert Dedupe(s)[j] == s[n - 1] && Dedupe(s)[i] == d[i];
      assert s[n - 1] !in p;
      IndexOfPrefixOf(p, s[n - 1], d[i]);
    }
  }

  /** Where an element of `p` first occurs does not change when something is appended. */
  lemma {:induction false} IndexOfPrefixOf<T>(p: seq<T>, x: T, y: T)
    requires y in p
    ensures y in p + [x] && IndexOf(p + [x], y) == IndexOf(p, y) < |p|
  {
    if p[0] != y {
      assert (p + [x])[1..] == p[1..] + [x];
      IndexOfPrefixOf(p[1..], x, y);
    }
  }

  /** An element new to `p` first occurs at the end of `p + [x]`. */
  lemma IndexOfPrefix<T>(p: seq<T>, x: T)
    ensures x !in p ==> IndexOf(p + [x], x) == |p|
  {
    if x !in p {
      var k := IndexOf(p + [x], x);
      assert (p + [x])[k] == x;
    }
  }
}
