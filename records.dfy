/** One spreadsheet row of the aroma-agent catalogue, and the columns the
    dashboards read from a sequence of rows. */
module Records {
  import opened Text

  /** A row. `formula` is the `Chemical Formula` cell; it is only read when the
      sheet has that column. Every cell is a present (non-missing) string. */
  datatype Record = Record(
    effect: string,    // Causes/Effects
    flavour: string,   // Flavour of Aroma
    food: string,      // Food
    agent: string,     // Synthetic Aroma Agent Name
    natural: string,   // Natural Agents
    formula: string    // Chemical Formula
  )

  /** The `Causes/Effects` column. */
  function Effects(rows: seq<Record>): (r: seq<string>)
    ensures |r| == |rows| && forall i :: 0 <= i < |rows| ==> r[i] == rows[i].effect
  {
    seq(|rows|, i requires 0 <= i < |rows| => rows[i].effect)
  }

  /** The `Food` column. */
  function Foods(rows: seq<Record>): (r: seq<string>)
    ensures |r| == |rows| && forall i :: 0 <= i < |rows| ==> r[i] == rows[i].food
  {
    seq(|rows|, i requires 0 <= i < |rows| => rows[i].food)
  }

  /** The `Flavour of Aroma` column. */
  function Flavours(rows: seq<Record>): (r: seq<string>)
    ensures |r| == |rows| && forall i :: 0 <= i < |rows| ==> r[i] == rows[i].flavour
  {
    seq(|rows|, i requires 0 <= i < |rows| => rows[i].flavour)
  }

  /** The `Synthetic Aroma Agent Name` and `Natural Agents` columns side by side. */
  function Replacements(rows: seq<Record>): (r: seq<(string, string)>)
    ensures |r| == |rows| && forall i :: 0 <= i < |rows| ==> r[i] == (rows[i].agent, rows[i].natural)
  {
    seq(|rows|, i requires 0 <= i < |rows| => (rows[i].agent, rows[i].natural))
  }

  /** The composite label `"flavour (formula)"`. */
  function Composite(flavour: string, formula: string): string {
    flavour + " (" + formula + ")"
  }

  /** The flavour label a chart groups by: the composite label when the sheet has a
      `Chemical Formula` column, the plain flavour otherwise. */
  function FlavourLabel(r: Record, hasFormula: bool): string {
    if hasFormula then Composite(r.flavour, r.formula) else r.flavour
  }

  /** The flavour labels of all rows. */
  function FlavourLabels(rows: seq<Record>, hasFormula: bool): (r: seq<string>)
    ensures |r| == |rows| && forall i :: 0 <= i < |rows| ==> r[i] == FlavourLabel(rows[i], hasFormula)
  {
    seq(|rows|, i requires 0 <= i < |rows| => FlavourLabel(rows[i], hasFormula))
  }

  /** The composite label starts with the flavour, then ` (`, then the formula, and
      ends with `)`; in particular Limonene with formula C10H16 reads "Limonene (C10H16)". */
  lemma CompositeShape(flavour: string, formula: string)
    ensures var c := Composite(flavour, formula);
      && |c| == |flavour| + |formula| + 3
      && c[..|flavour|] == flavour
      && c[|flavour|..|flavour| + 2] == " ("
      && c[|flavour| + 2..|c| - 1] == formula
      && c[|c| - 1] == ')'
    ensures Composite("Limonene", "C10H16") == "Limonene (C10H16)"
  {
  }

  /** Because the composite label is built before grouping, two rows with the same
      flavour but different formulas get different labels (hence different rows
      of a pivot); with no formula column they get the same label. */
  lemma CompositeSeparatesFormulas(r1: Record, r2: Record, hasFormula: bool)
    requires r1.flavour == r2.flavour
    ensures FlavourLabel(r1, hasFormula) == FlavourLabel(r2, hasFormula)
        <==> (!hasFormula || r1.formula == r2.formula)
  {
    if hasFormula && FlavourLabel(r1, true) == FlavourLabel(r2, true) {
      var n := |r1.flavour| + 2;
      var c1, c2 := Composite(r1.flavour, r1.formula), Composite(r2.flavour, r2.formula);
      CompositeShape(r1.flavour, r1.formula);
      CompositeShape(r2.flavour, r2.formula);
      assert r1.formula == c1[n..|c1| - 1] == c2[n..|c2| - 1] == r2.formula;
    }
  }
}
