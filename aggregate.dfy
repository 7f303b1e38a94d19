/** The aggregation engine: value counts (`Series.value_counts()`) and the dense,
    zero-filled pivot of a `groupby([row, effect]).size()`. */
module Aggregate {
  import opened Seqs

  /** Occurrences of each distinct value. */
  function ValueCounts<T(!new)>(s: seq<T>): (m: map<T, nat>)
    ensures forall x :: x in m <==> x in s
    ensures forall x :: x in m ==> m[x] == multiset(s)[x] && m[x] > 0
  {
    map x | x in s :: Count(s, x)
  }

  /** The sum of the entries of `m` under the keys `ks`. */
  function Total<T>(ks: seq<T>, m: map<T, nat>): nat
    requires forall k :: k in ks ==> k in m
  {
    if ks == [] then 0 else Total(ks[..|ks| - 1], m) + m[ks[|ks| - 1]]
  }

  /** A total under keys at which `m` agrees with the counts of `s`. */
  lemma {:induction false} TotalIsSumCounts<T(!new)>(ks: seq<T>, m: map<T, nat>, s: seq<T>)
    requires forall k :: k in ks ==> k in m && m[k] == Count(s, k)
    ensures Total(ks, m) == SumCounts(ks, s)
  {
    if ks != [] {
      TotalIsSumCounts(ks[..|ks| - 1], m, s);
    }
  }

  /** The value counts of `s` have one positive entry per distinct value, and the
      entries sum to the length of `s`. */
  lemma ValueCountsTotal<T(!new)>(s: seq<T>)
    ensures forall x :: x in ValueCounts(s) <==> x in Distinct(s)
    ensures forall x :: x in ValueCounts(s) ==> ValueCounts(s)[x] > 0
    ensures Total(Distinct(s), ValueCounts(s)) == |s|
  {
    TotalIsSumCounts(Distinct(s), ValueCounts(s), s);
    SumCountsCover(Distinct(s), s);
  }

  /** A dense count table: one row per distinct row key, one column per distinct
      effect, and a cell for every (row, column) pair. */
  datatype Pivot = Pivot(rows: seq<string>, cols: seq<string>, cells: map<(string, string), nat>)

  /** Every (row, column) pair has a cell and there are no others. */
  ghost predicate Dense(p: Pivot) {
    && NoDup(p.rows) && NoDup(p.cols)
    && forall rc :: rc in p.cells <==> rc.0 in p.rows && rc.1 in p.cols
  }

  /** Pairs each row key with the effect of the same record. */
  function Zip(keys: seq<string>, effects: seq<string>): (r: seq<(string, string)>)
    requires |keys| == |effects|
    ensures Firsts(r) == keys && Seconds(r) == effects
  {
    seq(|keys|, i requires 0 <= i < |keys| => (keys[i], effects[i]))
  }

  /** `groupby([row, effect]).size().unstack(fill_value=0)` over the (row key,
      effect) pair of each record. */
  function BuildPivot(pairs: seq<(string, string)>): (p: Pivot)
    ensures Dense(p)
    ensures forall r :: r in p.rows <==> r in Firsts(pairs)
    ensures forall c :: c in p.cols <==> c in Seconds(pairs)
    ensures forall rc :: rc in p.cells ==> p.cells[rc] == multiset(pairs)[rc]
  {
    var rows := Distinct(Firsts(pairs));
    var cols := Distinct(Seconds(pairs));
    var keys := set r, c | r in rows && c in cols :: (r, c);
    Pivot(rows, cols, map rc | rc in keys :: Count(pairs, rc))
  }

  /** `p` holds, for each of its (row, column) pairs, the count of that pair in
      `pairs`, and its rows and columns are the distinct values seen. */
  ghost predicate Tabulates(p: Pivot, pairs: seq<(string, string)>) {
    && NoDup(p.rows) && NoDup(p.cols)
    && (forall r :: r in p.rows <==> r in Firsts(pairs))
    && (forall c :: c in p.cols <==> c in Seconds(pairs))
    && forall r, c :: r in p.rows && c in p.cols ==>
         (r, c) in p.cells && p.cells[(r, c)] == Count(pairs, (r, c))
  }

  lemma BuildPivotTabulates(pairs: seq<(string, string)>)
    ensures Tabulates(BuildPivot(pairs), pairs)
  {
  }

  /** The sum of the cells of row `r` of `p`. */
  function RowTotal(p: Pivot, r: string, cols: seq<string>): nat
    requires forall c :: c in cols ==> (r, c) in p.cells
  {
    if cols == [] then 0 else RowTotal(p, r, cols[..|cols| - 1]) + p.cells[(r, cols[|cols| - 1])]
  }

  /** The sum of all cells of `p`, row by row. */
  function CellTotal(p: Pivot, rows: seq<string>): nat
    requires forall r, c :: r in rows && c in p.cols ==> (r, c) in p.cells
  {
    if rows == [] then 0
    else CellTotal(p, rows[..|rows| - 1]) + RowTotal(p, rows[|rows| - 1], p.cols)
  }

  /** The number of pairs with row `r` and a column among `cols`, summed column by column. */
  function RowCount(pairs: seq<(string, string)>, r: string, cols: seq<string>): nat {
    if cols == [] then 0 else RowCount(pairs, r, cols[..|cols| - 1]) + Count(pairs, (r, cols[|cols| - 1]))
  }

  lemma {:induction false} RowCountSnoc(pairs: seq<(string, string)>, x: (string, string), r: string, cols: seq<string>)
    ensures RowCount(pairs + [x], r, cols) == RowCount(pairs, r, cols) + (if x.0 == r then Count(cols, x.1) else 0)
  {
    if cols != [] {
      var c := cols[|cols| - 1];
      assert (pairs + [x])[..|pairs + [x]| - 1] == pairs;
      assert cols == cols[..|cols| - 1] + [c];
      RowCountSnoc(pairs, x, r, cols[..|cols| - 1]);
    }
  }

  /** Summed over every effect, the cells of a row count the records of that row. */
  lemma {:induction false} RowCountIsCount(pairs: seq<(string, string)>, r: string, cols: seq<string>)
    requires NoDup(cols)
    requires forall c :: c in Seconds(pairs) ==> c in cols
    ensures RowCount(pairs, r, cols) == Count(Firsts(pairs), r)
  {
    if pairs == [] {
      RowCountEmpty(r, cols);
    } else {
      var t := pairs[..|pairs| - 1];
      var x := pairs[|pairs| - 1];
      assert pairs == t + [x];
      FirstsSecondsSnoc(t, x);
      RowCountIsCount(t, r, cols);
      RowCountSnoc(t, x, r, cols);
      CountNoDup(cols, x.1);
      CountSnoc(Firsts(t), x.0, r);
    }
  }

  lemma FirstsSecondsSnoc(t: seq<(string, string)>, x: (string, string))
    ensures Firsts(t + [x]) == Firsts(t) + [x.0]
    ensures Seconds(t + [x]) == Seconds(t) + [x.1]
  {
  }

  lemma {:induction false} RowCountEmpty(r: string, cols: seq<string>)
    ensures RowCount([], r, cols) == 0
  {
    if cols != [] { RowCountEmpty(r, cols[..|cols| - 1]); }
  }

  lemma {:induction false} RowTotalIsRowCount(p: Pivot, pairs: seq<(string, string)>, r: string, cols: seq<string>)
    requires Tabulates(p, pairs)
    requires r in p.rows && forall c :: c in cols ==> c in p.cols
    ensures forall c :: c in cols ==> (r, c) in p.cells
    ensures RowTotal(p, r, cols) == RowCount(pairs, r, cols)
  {
    if cols != [] {
      RowTotalIsRowCount(p, pairs, r, cols[..|cols| - 1]);
    }
  }

  lemma {:induction false} CellTotalIsSumCounts(p: Pivot, pairs: seq<(string, string)>, rows: seq<string>)
    requires Tabulates(p, pairs)
    requires forall r :: r in rows ==> r in p.rows
    ensures forall r, c :: r in rows && c in p.cols ==> (r, c) in p.cells
    ensures CellTotal(p, rows) == SumCounts(rows, Firsts(pairs))
  {
    if rows != [] {
      var r := rows[|rows| - 1];
      CellTotalIsSumCounts(p, pairs, rows[..|rows| - 1]);
      RowTotalIsRowCount(p, pairs, r, p.cols);
      RowCountIsCount(pairs, r, p.cols);
    }
  }

  /** Mass conservation: the cells of the pivot sum to the number of records. */
  lemma PivotMass(pairs: seq<(string, string)>)
    ensures CellTotal(BuildPivot(pairs), BuildPivot(pairs).rows) == |pairs|
  {
    var p := BuildPivot(pairs);
    BuildPivotTabulates(pairs);
    CellTotalIsSumCounts(p, pairs, p.rows);
    SumCountsCover(p.rows, Firsts(pairs));
  }

  /** Zero-filling: a cell is zero exactly when no record has that row and that
      effect; otherwise it is the number of such records. */
  lemma PivotCells(pairs: seq<(string, string)>, r: string, c: string)
    requires r in Firsts(pairs) && c in Seconds(pairs)
    ensures (r, c) in BuildPivot(pairs).cells
    ensures BuildPivot(pairs).cells[(r, c)] == 0 <==> (r, c) !in pairs
  {
  }
}
