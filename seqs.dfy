/**
 * Sequence operations that stand for the query-builder and array helpers the
 * source relies on: `->first()`, `->pluck()`, `array_unique` and `array_diff`.
 */
module Seqs {
  import opened Wrappers

  /** Position of the first element satisfying `p` (Eloquent's `->first()`). */
  function FirstIndex<T>(s: seq<T>, p: T -> bool): (r: Option<nat>)
    ensures r.Some? ==> r.value < |s| && p(s[r.value])
    ensures r.Some? ==> forall j :: 0 <= j < r.value ==> !p(s[j])
    ensures r.None? <==> forall j :: 0 <= j < |s| ==> !p(s[j])
  {
    if |s| == 0 then None
    else if p(s[0]) then Some(0)
    else match FirstIndex(s[1..], p)
      case None => None
      case Some(k) => Some(k + 1)
  }

  /** `f` of every element satisfying `p`, in order (a filtered `->pluck()`). */
  function Collect<T, U(!new)>(s: seq<T>, p: T -> bool, f: T -> U): (r: seq<U>)
    ensures |r| <= |s|
    ensures forall x :: x in r <==> exists i :: 0 <= i < |s| && p(s[i]) && f(s[i]) == x
  {
    if |s| == 0 then []
    else
      var rest := Collect(s[..|s| - 1], p, f);
      var last := s[|s| - 1];
      assert forall i :: 0 <= i < |s| - 1 ==> s[..|s| - 1][i] == s[i];
      if p(last) then rest + [f(last)] else rest
  }

  /** The elements satisfying `p`, in order (a `where` clause over fetched rows). */
  function Filter<T(!new)>(s: seq<T>, p: T -> bool): (r: seq<T>)
    ensures |r| <= |s|
    ensures forall x :: x in r <==> x in s && p(x)
  {
    if |s| == 0 then []
    else
      var rest := Filter(s[1..], p);
      assert forall x :: x in s <==> x == s[0] || x in s[1..];
      if p(s[0]) then [s[0]] + rest else rest
  }

  predicate NoDuplicates<T(==)>(s: seq<T>)
  {
    forall i, j :: 0 <= i < j < |s| ==> s[i] != s[j]
  }

  /**
   * PHP's `array_unique`: each value once, at the place of its first
   * occurrence.
   */
  function Dedup<T(==,!new)>(s: seq<T>): (r: seq<T>)
    ensures NoDuplicates(r)
    ensures forall x :: x in r <==> x in s
    ensures |r| <= |s|
  {
    if |s| == 0 then []
    else
      var rest := Dedup(s[..|s| - 1]);
      var last := s[|s| - 1];
      assert forall x :: x in s <==> x in s[..|s| - 1] || x == last;
      if last in rest then rest else rest + [last]
  }

  /** Array_unique keeps the first occurrences: a duplicate-free input comes back unchanged. */
  lemma {:induction false} DedupOfDistinct<T(!new)>(s: seq<T>)
    requires NoDuplicates(s)
    ensures Dedup(s) == s
  {
    if |s| > 0 {
      var init := s[..|s| - 1];
      assert NoDuplicates(init) by {
        forall i, j | 0 <= i < j < |init| ensures init[i] != init[j] {
          assert init[i] == s[i] && init[j] == s[j];
        }
      }
      DedupOfDistinct(init);
      assert s[|s| - 1] !in init by {
        forall i | 0 <= i < |init| ensures init[i] != s[|s| - 1] {
          assert init[i] == s[i];
        }
      }
      assert init + [s[|s| - 1]] == s;
    }
  }

  /** PHP's `array_diff`: the elements of `s` not in `remove`, order kept. */
  function ArrayDiff<T(==,!new)>(s: seq<T>, remove: seq<T>): (r: seq<T>)
    ensures |r| <= |s|
    ensures forall x :: x in r <==> x in s && x !in remove
  {
    if |s| == 0 then []
    else
      var rest := ArrayDiff(s[1..], remove);
      assert forall x :: x in s <==> x == s[0] || x in s[1..];
      if s[0] in remove then rest else [s[0]] + rest
  }
}
