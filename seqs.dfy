/** The `Array.prototype` operations the application uses to rebuild its
    lists: `filter`, `indexOf`, `find` and `splice(i, 1)`. */
module Seqs {
  import opened Wrappers

  /** `s.filter(keep)`: the elements that pass, each as often as in `s`. */
  function Filter<T(!new)>(s: seq<T>, keep: T -> bool): (r: seq<T>)
    ensures |r| <= |s|
  {
    if s == [] then []
    else
      var rest := Filter(s[1..], keep);
      assert s == [s[0]] + s[1..];
      if keep(s[0]) then [s[0]] + rest else rest
  }

  /** The elements of `s.filter(keep)` are exactly the elements of `s`
      that pass. */
  lemma {:induction false} FilterMembers<T(!new)>(s: seq<T>, keep: T -> bool)
    ensures forall x :: x in Filter(s, keep) <==> x in s && keep(x)
  {
    if s != [] {
      FilterMembers(s[1..], keep);
      assert s == [s[0]] + s[1..];
    }
  }

  /** One step of `filter`: the head is kept or dropped on its own. */
  lemma FilterCons<T(!new)>(s: seq<T>, keep: T -> bool)
    requires s != []
    ensures Filter(s, keep) == (if keep(s[0]) then [s[0]] else []) + Filter(s[1..], keep)
  {
  }

  /** The shape facts about `+` that `FilterConcat` needs. */
  lemma ConcatShape<T>(a: seq<T>, b: seq<T>, p: seq<T>, q: seq<T>)
    ensures a == [] ==> a + b == b
    ensures a != [] ==> (a + b)[0] == a[0] && (a + b)[1..] == a[1..] + b
    ensures p + q + b == p + (q + b)
  {
  }

  /** Filtering keeps the order: it distributes over concatenation. */
  lemma {:induction false} FilterConcat<T(!new)>(a: seq<T>, b: seq<T>, keep: T -> bool)
    ensures Filter(a + b, keep) == Filter(a, keep) + Filter(b, keep)
  {
    if a == [] {
      ConcatShape(a, b, [], []);
    } else {
      var head := if keep(a[0]) then [a[0]] else [];
      FilterConcat(a[1..], b, keep);
      ConcatShape(a, b, head, Filter(a[1..], keep));
      FilterCons(a, keep);
      FilterCons(a + b, keep);
    }
  }

  /** A list whose every element passes is left as it is. */
  lemma {:induction false} FilterAllKept<T(!new)>(s: seq<T>, keep: T -> bool)
    requires forall x :: x in s ==> keep(x)
    ensures Filter(s, keep) == s
  {
    if s != [] {
      FilterAllKept(s[1..], keep);
    }
  }

  /** Filtering keeps every passing value exactly as often as it occurs, and
      no other value. */
  lemma {:induction false} FilterCount<T(!new)>(s: seq<T>, keep: T -> bool, x: T)
    ensures multiset(Filter(s, keep))[x] == if keep(x) then multiset(s)[x] else 0
  {
    if s != [] {
      FilterCount(s[1..], keep, x);
      assert s == [s[0]] + s[1..];
    }
  }

  /** Replacing a dropped element by another dropped element does not change
      what the filter keeps. */
  lemma {:induction false} FilterDropsUpdated<T(!new)>(s: seq<T>, k: nat, v: T, keep: T -> bool)
    requires k < |s| && !keep(s[k]) && !keep(v)
    ensures Filter(s[k := v], keep) == Filter(s, keep)
  {
    if k == 0 {
      assert s[k := v][1..] == s[1..];
    } else {
      FilterDropsUpdated(s[1..], k - 1, v, keep);
      assert s[k := v][1..] == s[1..][k - 1 := v];
    }
  }

  /** `s.indexOf(x)`: the first position of `x`, or -1. */
  function IndexOf<T(==)>(s: seq<T>, x: T): (i: int)
    ensures -1 <= i < |s|
    ensures i == -1 <==> x !in s
    ensures 0 <= i ==> s[i] == x && x !in s[..i]
  {
    if s == [] then -1
    else if s[0] == x then 0
    else
      var j := IndexOf(s[1..], x);
      assert s[1..] == s[1..];
      if j == -1 then -1
      else
        assert s[..j + 1] == [s[0]] + s[1..][..j];
        j + 1
  }

  /** `s.find(p)`, as the position of the first element that satisfies `p`. */
  function FindIndex<T>(s: seq<T>, p: T -> bool): (r: Option<nat>)
    ensures r.Some? ==> r.value < |s| && p(s[r.value])
    ensures r.Some? ==> forall k :: 0 <= k < r.value ==> !p(s[k])
    ensures r.None? ==> forall k :: 0 <= k < |s| ==> !p(s[k])
  {
    if s == [] then None
    else if p(s[0]) then Some(0)
    else match FindIndex(s[1..], p)
      case None => None
      case Some(j) => Some(j + 1)
  }

  /** `s.splice(i, 1)`: the list without its element at `i`. */
  function RemoveAt<T>(s: seq<T>, i: nat): (r: seq<T>)
    requires i < |s|
    ensures |r| == |s| - 1
    ensures forall k :: 0 <= k < i ==> r[k] == s[k]
    ensures forall k :: i <= k < |r| ==> r[k] == s[k + 1]
    ensures multiset(r) == multiset(s) - multiset{s[i]}
  {
    assert s == s[..i] + [s[i]] + s[i + 1..];
    s[..i] + s[i + 1..]
  }

  /** No value occurs twice. */
  predicate Distinct<T(==)>(s: seq<T>) {
    forall i, j :: 0 <= i < j < |s| ==> s[i] != s[j]
  }
}
