/** Sequence helpers shared by the aggregation and slicing code: occurrence
    counts, pandas' `unique()` (distinct values in first-appearance order),
    sums of counts and order-preserving selection by position. */
module Seqs {

  datatype Option<T> = None | Some(value: T)

  /** Number of occurrences of `x` in `s`. */
  function Count<T(==)>(s: seq<T>, x: T): (n: nat)
    ensures n == multiset(s)[x]
  {
    if s == [] then 0
    else
      assert s == s[..|s| - 1] + [s[|s| - 1]];
      Count(s[..|s| - 1], x) + (if s[|s| - 1] == x then 1 else 0)
  }

  /** Appending one value adds one occurrence of it and none of anything else. */
  lemma CountSnoc<T>(s: seq<T>, x: T, y: T)
    ensures Count(s + [x], y) == Count(s, y) + (if x == y then 1 else 0)
  {
    assert (s + [x])[..|s|] == s;
  }

  /** No value occurs twice. */
  predicate NoDup<T(==)>(s: seq<T>) {
    forall i, j :: 0 <= i < j < |s| ==> s[i] != s[j]
  }

  /** In a sequence without duplicates, a member occurs exactly once. */
  lemma {:induction false} CountNoDup<T>(s: seq<T>, x: T)
    requires NoDup(s)
    ensures Count(s, x) == if x in s then 1 else 0
  {
    if s != [] {
      var t := s[..|s| - 1];
      assert s == t + [s[|s| - 1]];
      assert NoDup(t);
      assert s[|s| - 1] !in t;
      CountNoDup(t, x);
    }
  }

  /** The distinct values of `s`, each once, in order of first appearance
      (pandas' `Series.unique()`). */
  function Distinct<T(==,!new)>(s: seq<T>): (d: seq<T>)
    ensures NoDup(d)
    ensures forall x :: x in d <==> x in s
    ensures |d| <= |s|
  {
    if s == [] then []
    else
      var t := s[..|s| - 1];
      var d := Distinct(t);
      assert s == t + [s[|s| - 1]];
      if s[|s| - 1] in d then d else d + [s[|s| - 1]]
  }

  /** The position of the first occurrence of `x` in `s`. */
  function FirstIndex<T(==)>(s: seq<T>, x: T): (i: nat)
    requires x in s
    ensures i < |s| && s[i] == x
    ensures forall j :: 0 <= j < i ==> s[j] != x
  {
    if s[0] == x then 0 else 1 + FirstIndex(s[1..], x)
  }

  /** The first occurrence in a prefix is the first occurrence in the whole. */
  lemma FirstIndexPrefix<T>(t: seq<T>, u: seq<T>, x: T)
    requires x in t
    ensures x in t + u && FirstIndex(t + u, x) == FirstIndex(t, x)
  {
    var i, k := FirstIndex(t, x), FirstIndex(t + u, x);
    assert (t + u)[i] == x;
  }

  /** `Distinct` lists values in the order of their first appearance in `s`. */
  lemma {:induction false} DistinctOrder<T(!new)>(s: seq<T>, i: nat, j: nat)
    requires i < j < |Distinct(s)|
    ensures FirstIndex(s, Distinct(s)[i]) < FirstIndex(s, Distinct(s)[j])
  {
    var t := s[..|s| - 1];
    var last := s[|s| - 1];
    assert s == t + [last];
    var d := Distinct(t);
    if last in d {
      assert Distinct(s) == d;
      DistinctOrder(t, i, j);
      FirstIndexPrefix(t, [last], d[i]);
      FirstIndexPrefix(t, [last], d[j]);
    } else {
      assert Distinct(s) == d + [last];
      FirstIndexPrefix(t, [last], d[i]);
      if j < |d| {
        DistinctOrder(t, i, j);
        FirstIndexPrefix(t, [last], d[j]);
      } else {
        assert last !in t;
        assert FirstIndex(s, last) == |t|;
      }
    }
  }

  /** `Distinct` leaves a sequence without duplicates unchanged. */
  lemma {:induction false} DistinctOfNoDup<T(!new)>(s: seq<T>)
    requires NoDup(s)
    ensures Distinct(s) == s
  {
    if s != [] {
      var t := s[..|s| - 1];
      assert s == t + [s[|s| - 1]];
      assert NoDup(t);
      DistinctOfNoDup(t);
    }
  }

  /** The sum, over the keys `ks`, of the number of occurrences of each key in `s`. */
  function SumCounts<T(==)>(ks: seq<T>, s: seq<T>): nat {
    if ks == [] then 0 else SumCounts(ks[..|ks| - 1], s) + Count(s, ks[|ks| - 1])
  }

  /** Appending one value `x` to `s` adds, to the sum, the number of times `x` is a key. */
  lemma {:induction false} SumCountsSnoc<T>(ks: seq<T>, s: seq<T>, x: T)
    ensures SumCounts(ks, s + [x]) == SumCounts(ks, s) + Count(ks, x)
  {
    if ks != [] {
      var last := ks[|ks| - 1];
      assert Count(s + [x], last) == Count(s, last) + (if last == x then 1 else 0) by {
        assert (s + [x])[..|s + [x]| - 1] == s;
      }
      SumCountsSnoc(ks[..|ks| - 1], s, x);
    }
  }

  /** Conservation of mass: counting every value of `s` under a list of keys
      that names each value exactly once accounts for every element once. */
  lemma {:induction false} SumCountsCover<T>(ks: seq<T>, s: seq<T>)
    requires NoDup(ks)
    requires forall x :: x in s ==> x in ks
    ensures SumCounts(ks, s) == |s|
  {
    if s == [] {
      SumCountsEmpty(ks);
    } else {
      var t := s[..|s| - 1];
      var x := s[|s| - 1];
      assert s == t + [x];
      SumCountsCover(ks, t);
      SumCountsSnoc(ks, t, x);
      CountNoDup(ks, x);
    }
  }

  /** No value occurs in the empty sequence. */
  lemma {:induction false} SumCountsEmpty<T>(ks: seq<T>)
    ensures SumCounts(ks, []) == 0
  {
    if ks != [] { SumCountsEmpty(ks[..|ks| - 1]); }
  }

  /** Strictly increasing, hence free of duplicates. */
  predicate Increasing(r: seq<nat>) {
    forall a, b :: 0 <= a < b < |r| ==> r[a] < r[b]
  }

  /** The positions of the elements of `s` that satisfy `keep`, in increasing order
      (a pandas boolean mask turned into the index of the rows it keeps). */
  function Positions<T>(s: seq<T>, keep: T -> bool): (r: seq<nat>)
    ensures Increasing(r) && |r| <= |s|
    ensures forall k :: 0 <= k < |r| ==> r[k] < |s| && keep(s[r[k]])
    ensures forall i :: 0 <= i < |s| && keep(s[i]) ==> i in r
  {
    if s == [] then []
    else
      var n := |s| - 1;
      var r := Positions(s[..n], keep);
      assert forall k :: 0 <= k < |r| ==> s[r[k]] == s[..n][r[k]];
      if keep(s[n]) then r + [n] else r
  }

  /** The elements of `s` at the positions `ps`, in that order. */
  function Pick<T>(s: seq<T>, ps: seq<nat>): (r: seq<T>)
    requires forall k :: 0 <= k < |ps| ==> ps[k] < |s|
    ensures |r| == |ps|
    ensures forall k :: 0 <= k < |ps| ==> r[k] == s[ps[k]]
  {
    seq(|ps|, k requires 0 <= k < |ps| => s[ps[k]])
  }

  /** The elements of `s` that satisfy `keep`, in their original order. */
  function Filter<T>(s: seq<T>, keep: T -> bool): seq<T> {
    Pick(s, Positions(s, keep))
  }

  /** Filtering keeps exactly the elements that satisfy `keep`: every kept element
      satisfies it, every element that satisfies it is kept, and the kept
      elements appear in the order and at the places they had in `s`. */
  lemma FilterSpec<T>(s: seq<T>, keep: T -> bool)
    ensures forall x :: x in Filter(s, keep) <==> x in s && keep(x)
    ensures forall a, b :: 0 <= a < b < |Filter(s, keep)| ==>
      Positions(s, keep)[a] < Positions(s, keep)[b] && Filter(s, keep)[a] == s[Positions(s, keep)[a]]
  {
    var ps := Positions(s, keep);
    var r := Filter(s, keep);
    forall x | x in s && keep(x) ensures x in r {
      var i :| 0 <= i < |s| && s[i] == x;
      var k :| 0 <= k < |ps| && ps[k] == i;
      assert r[k] == x;
    }
  }

  /** The number of positions kept by equality with `x` is the number of occurrences of `x`. */
  lemma {:induction false} PositionsCount<T>(s: seq<T>, x: T)
    ensures |Positions(s, y => y == x)| == Count(s, x)
  {
    if s != [] {
      PositionsCount(s[..|s| - 1], x);
    }
  }

  /** Filtering a sequence extended by one element extends the filtered sequence
      by that element exactly when it is kept. */
  lemma FilterSnoc<T>(s: seq<T>, x: T, keep: T -> bool)
    ensures Filter(s + [x], keep) == Filter(s, keep) + (if keep(x) then [x] else [])
  {
    assert (s + [x])[..|s|] == s;
    var ps := Positions(s, keep);
    assert Positions(s + [x], keep) == ps + (if keep(x) then [|s|] else []);
  }

  /** Nothing is kept when no element satisfies `keep`. */
  lemma {:induction false} FilterNone<T>(s: seq<T>, keep: T -> bool)
    requires forall j :: 0 <= j < |s| ==> !keep(s[j])
    ensures Filter(s, keep) == []
  {
    if s != [] {
      var t := s[..|s| - 1];
      assert s == t + [s[|s| - 1]];
      FilterNone(t, keep);
      FilterSnoc(t, s[|s| - 1], keep);
    }
  }

  /** Exactly the element at `i` is kept when it is the only one satisfying `keep`. */
  lemma {:induction false} FilterOne<T>(s: seq<T>, keep: T -> bool, i: nat)
    requires i < |s| && keep(s[i])
    requires forall j :: 0 <= j < |s| && j != i ==> !keep(s[j])
    ensures Filter(s, keep) == [s[i]]
  {
    var t := s[..|s| - 1];
    assert s == t + [s[|s| - 1]];
    FilterSnoc(t, s[|s| - 1], keep);
    if i == |s| - 1 {
      FilterNone(t, keep);
    } else {
      FilterOne(t, keep, i);
    }
  }

  /** The first components of a sequence of pairs. */
  function Firsts<A, B>(pairs: seq<(A, B)>): (r: seq<A>)
    ensures |r| == |pairs| && forall i :: 0 <= i < |pairs| ==> r[i] == pairs[i].0
  {
    seq(|pairs|, i requires 0 <= i < |pairs| => pairs[i].0)
  }

  /** The second components of a sequence of pairs. */
  function Seconds<A, B>(pairs: seq<(A, B)>): (r: seq<B>)
    ensures |r| == |pairs| && forall i :: 0 <= i < |pairs| ==> r[i] == pairs[i].1
  {
    seq(|pairs|, i requires 0 <= i < |pairs| => pairs[i].1)
  }
}
