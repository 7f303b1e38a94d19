/** The slice builder: the rows selected by an effect, either by exact equality
    or by case-insensitive substring match, together with the per-slice value
    counts and the (position, original row number) pairs of the index scatter. */
module Slices {
  import opened Text
  import opened Seqs
  import opened Records
  import opened Aggregate

  /** How a slice selects on the effect cell. */
  datatype Matcher =
    | Equals(effect: string)                // df[df[col] == effect]
    | ContainsIgnoringCase(phrase: string)  // df[df[col].str.contains(phrase, case=False)]

  predicate Matches(m: Matcher, effect: string) {
    match m
    case Equals(e) => effect == e
    case ContainsIgnoringCase(p) => Text.ContainsIgnoringCase(effect, p)
  }

  /** The boolean mask of a matcher, as a function on rows. */
  function Keep(m: Matcher): Record -> bool {
    (r: Record) => Matches(m, r.effect)
  }

  /** The original row numbers of the selected rows (the slice's index). */
  function SliceIndex(rows: seq<Record>, m: Matcher): (idx: seq<nat>)
    ensures Increasing(idx)
    ensures forall k :: 0 <= k < |idx| ==> idx[k] < |rows| && Matches(m, rows[idx[k]].effect)
  {
    Positions(rows, Keep(m))
  }

  /** The selected rows, in their original order. */
  function Slice(rows: seq<Record>, m: Matcher): (sl: seq<Record>)
    ensures |sl| == |SliceIndex(rows, m)| <= |rows|
    ensures forall k :: 0 <= k < |sl| ==> Matches(m, sl[k].effect)
  {
    Filter(rows, Keep(m))
  }

  /** A slice keeps exactly the rows whose effect matches, in their original
      order: the k-th row of the slice is the row at the k-th original index,
      the indices increase, and a row is selected if and only if it matches. */
  lemma SliceSpec(rows: seq<Record>, m: Matcher)
    ensures var idx, sl := SliceIndex(rows, m), Slice(rows, m);
      && |sl| == |idx| && Increasing(idx)
      && (forall k :: 0 <= k < |idx| ==> idx[k] < |rows| && sl[k] == rows[idx[k]] && Matches(m, sl[k].effect))
      && (forall i :: 0 <= i < |rows| ==> (i in idx <==> Matches(m, rows[i].effect)))
  {
  }

  /** Adding one row at the end adds its row number to every slice it matches. */
  lemma SliceIndexSnoc(t: seq<Record>, x: Record, m: Matcher)
    ensures SliceIndex(t + [x], m) == SliceIndex(t, m) + (if Matches(m, x.effect) then [|t|] else [])
  {
    assert (t + [x])[..|t|] == t;
  }

  /** `(range(len(sub)), sub.index)`: each position of the slice paired with the
      original row number of the row at that position. The row numbers increase
      and are exactly those of the matching rows, so point k carries the k-th
      matching row number even when the sheet repeats a record. */
  function ScatterPoints(rows: seq<Record>, m: Matcher): (pts: seq<(nat, nat)>)
    ensures |pts| == |SliceIndex(rows, m)|
    ensures forall k :: 0 <= k < |pts| ==>
      pts[k].0 == k && pts[k].1 < |rows| && rows[pts[k].1] == Slice(rows, m)[k]
    ensures Increasing(Seconds(pts))
    ensures forall i :: 0 <= i < |rows| ==> (i in Seconds(pts) <==> Matches(m, rows[i].effect))
  {
    var idx := SliceIndex(rows, m);
    var pts := seq(|idx|, k requires 0 <= k < |idx| => (k, idx[k]));
    assert Seconds(pts) == idx;
    SliceSpec(rows, m);
    pts
  }

  /** The number of rows in an exact slice is the number of occurrences of the effect. */
  lemma {:induction false} SliceSize(rows: seq<Record>, e: string)
    ensures |SliceIndex(rows, Equals(e))| == Count(Effects(rows), e)
  {
    if rows != [] {
      var t := rows[..|rows| - 1];
      assert rows == t + [rows[|rows| - 1]];
      assert Effects(rows)[..|rows| - 1] == Effects(t);
      SliceIndexSnoc(t, rows[|rows| - 1], Equals(e));
      SliceSize(t, e);
    }
  }

  /** An exact slice on `e` is contained in the case-insensitive slice on `e`. */
  lemma ExactWithinContains(rows: seq<Record>, e: string)
    ensures forall i :: i in SliceIndex(rows, Equals(e)) ==> i in SliceIndex(rows, ContainsIgnoringCase(e))
  {
    forall i | i in SliceIndex(rows, Equals(e))
      ensures i in SliceIndex(rows, ContainsIgnoringCase(e))
    {
      ContainsIgnoringCaseReflexive(e);
    }
  }

  /** The row numbers of the exact slices over `es`, one slice after another. */
  function ConcatIndex(es: seq<string>, rows: seq<Record>): seq<nat> {
    if es == [] then [] else ConcatIndex(es[..|es| - 1], rows) + SliceIndex(rows, Equals(es[|es| - 1]))
  }

  /** The row numbers 0 .. n - 1. */
  function Range(n: nat): (r: seq<nat>)
    ensures |r| == n && forall i :: 0 <= i < n ==> r[i] == i
  {
    seq(n, i requires 0 <= i < n => i)
  }

  lemma {:induction false} ConcatIndexSnoc(es: seq<string>, t: seq<Record>, x: Record)
    requires NoDup(es)
    ensures multiset(ConcatIndex(es, t + [x]))
         == multiset(ConcatIndex(es, t)) + (if x.effect in es then multiset{|t| as nat} else multiset{})
  {
    if es != [] {
      var fs := es[..|es| - 1];
      var e := es[|es| - 1];
      assert es == fs + [e];
      assert NoDup(fs);
      assert e !in fs;
      ConcatIndexSnoc(fs, t, x);
      SliceIndexSnoc(t, x, Equals(e));
    }
  }

  lemma {:induction false} ConcatIndexEmpty(es: seq<string>)
    ensures ConcatIndex(es, []) == []
  {
    if es != [] { ConcatIndexEmpty(es[..|es| - 1]); }
  }

  /** Partition law: concatenating the exact slices over any list of effects that
      names every effect of the sheet exactly once yields every row number exactly
      once (a permutation of 0 .. |rows| - 1). */
  lemma {:induction false} SlicesPartition(es: seq<string>, rows: seq<Record>)
    requires NoDup(es)
    requires forall i :: 0 <= i < |rows| ==> rows[i].effect in es
    ensures multiset(ConcatIndex(es, rows)) == multiset(Range(|rows|))
  {
    if rows == [] {
      ConcatIndexEmpty(es);
    } else {
      var t := rows[..|rows| - 1];
      var x := rows[|rows| - 1];
      assert rows == t + [x];
      SlicesPartition(es, t);
      ConcatIndexSnoc(es, t, x);
      assert Range(|rows|) == Range(|t|) + [|t|];
    }
  }

  /** In particular for the distinct effects of the sheet, in first-appearance
      order: together the slices hold every row number exactly once. */
  lemma EffectSlicesPartition(rows: seq<Record>)
    ensures multiset(ConcatIndex(Distinct(Effects(rows)), rows)) == multiset(Range(|rows|))
    ensures |ConcatIndex(Distinct(Effects(rows)), rows)| == |rows|
  {
    var es := Distinct(Effects(rows));
    assert forall i :: 0 <= i < |rows| ==> rows[i].effect == Effects(rows)[i];
    SlicesPartition(es, rows);
    assert |multiset(ConcatIndex(es, rows))| == |multiset(Range(|rows|))|;
  }

  /** The exact slices of two different effects are disjoint, and each row lies
      in the slice of its own effect, which is one of the distinct effects. */
  lemma EffectSlicesDisjoint(rows: seq<Record>)
    ensures forall e1, e2, i :: e1 != e2 && i in SliceIndex(rows, Equals(e1)) ==> i !in SliceIndex(rows, Equals(e2))
    ensures forall i :: 0 <= i < |rows| ==>
      rows[i].effect in Distinct(Effects(rows)) && i in SliceIndex(rows, Equals(rows[i].effect))
  {
    assert forall i :: 0 <= i < |rows| ==> rows[i].effect == Effects(rows)[i];
  }

  /** The food counts of a slice (its bar or pie chart): one positive entry per
      distinct food of the slice, summing to the number of rows in the slice. */
  lemma SliceFoodCounts(rows: seq<Record>, m: Matcher)
    ensures forall f :: f in ValueCounts(Foods(Slice(rows, m))) <==> f in Foods(Slice(rows, m))
    ensures forall f :: f in ValueCounts(Foods(Slice(rows, m))) ==> ValueCounts(Foods(Slice(rows, m)))[f] > 0
    ensures Total(Distinct(Foods(Slice(rows, m))), ValueCounts(Foods(Slice(rows, m)))) == |Slice(rows, m)|
  {
    ValueCountsTotal(Foods(Slice(rows, m)));
  }
}
