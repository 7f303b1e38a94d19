/** Dataset loading, reduced to what happens after the sheet is read: the
    required-column check, whitespace stripping of the header and the in-place
    normalization of the effect column. */
module Loader {
  import opened Text
  import opened Seqs
  import opened Records
  import opened Normalizer

  /** The five columns both dashboards read, in the order they are checked. */
  const Required: seq<string> := [
    "Causes/Effects", "Flavour of Aroma", "Food", "Synthetic Aroma Agent Name", "Natural Agents"
  ]

  /** The optional column that turns flavours into composite labels. */
  const FormulaColumn: string := "Chemical Formula"

  /** The first name of `required` that is not a column, if any. */
  function FirstMissing(required: seq<string>, columns: seq<string>): (r: Option<string>)
    ensures r.Some? ==> r.value in required && r.value !in columns
  {
    if required == [] then None
    else if required[0] !in columns then Some(required[0])
    else FirstMissing(required[1..], columns)
  }

  /** Loading fails exactly when a required column is absent, and it names the
      first absent one in list order. */
  lemma {:induction false} FirstMissingSpec(required: seq<string>, columns: seq<string>)
    ensures FirstMissing(required, columns).None? <==> forall c :: c in required ==> c in columns
    ensures FirstMissing(required, columns).Some? ==>
      exists k :: 0 <= k < |required| && required[k] == FirstMissing(required, columns).value
        && required[k] !in columns && forall j :: 0 <= j < k ==> required[j] in columns
  {
    if required != [] && required[0] in columns {
      FirstMissingSpec(required[1..], columns);
      var m := FirstMissing(required[1..], columns);
      if m.Some? {
        var k :| 0 <= k < |required[1..]| && required[1..][k] == m.value
          && required[1..][k] !in columns && forall j :: 0 <= j < k ==> required[1..][j] in columns;
        assert required[k + 1] == m.value;
      }
    }
  }

  /** The loop over the required columns that stops at the first missing one. */
  method CheckRequired(columns: seq<string>) returns (missing: Option<string>)
    ensures missing == FirstMissing(Required, columns)
    ensures missing.None? <==> forall c :: c in Required ==> c in columns
  {
    FirstMissingSpec(Required, columns);
    var i := 0;
    while i < |Required|
      invariant 0 <= i <= |Required|
      invariant FirstMissing(Required[i..], columns) == FirstMissing(Required, columns)
    {
      assert Required[i..][1..] == Required[i + 1..];
      if Required[i] !in columns {
        return Some(Required[i]);
      }
      i := i + 1;
    }
    return None;
  }

  /** A sheet without a `Food` column is rejected and `Food` is named. */
  lemma MissingFoodIsNamed()
    ensures FirstMissing(Required, ["Causes/Effects", "Flavour of Aroma",
      "Synthetic Aroma Agent Name", "Natural Agents", "Chemical Formula"]) == Some("Food")
  {
  }

  /** `df.columns.str.strip()`. */
  function StripAll(columns: seq<string>): (r: seq<string>)
    ensures |r| == |columns| && forall i :: 0 <= i < |columns| ==> r[i] == Strip(columns[i])
  {
    seq(|columns|, i requires 0 <= i < |columns| => Strip(columns[i]))
  }

  /** Stripping the header twice is stripping it once. */
  lemma StripAllIdempotent(columns: seq<string>)
    ensures StripAll(StripAll(columns)) == StripAll(columns)
  {
    forall i | 0 <= i < |columns| ensures Strip(Strip(columns[i])) == Strip(columns[i]) {
      StripIdempotent(columns[i]);
    }
  }

  /** A header that reads as the required columns once " Food" is stripped. */
  const PaddedHeader: seq<string> := [
    "Causes/Effects", "Flavour of Aroma", " Food", "Synthetic Aroma Agent Name", "Natural Agents"
  ]

  lemma StripPaddedHeader()
    ensures StripAll(PaddedHeader) == Required
  {
    assert " Food"[1..] == "Food";
    StripUnpadded("Food");
    StripUnpadded("Causes/Effects");
    StripUnpadded("Flavour of Aroma");
    StripUnpadded("Synthetic Aroma Agent Name");
    StripUnpadded("Natural Agents");
  }

  /** The required-column check of the first dashboard runs on the header as read,
      before stripping: a header cell " Food" is rejected there although the
      stripped header has every required column. */
  lemma CheckPrecedesStrip()
    ensures FirstMissing(Required, PaddedHeader) == Some("Food")
    ensures FirstMissing(Required, StripAll(PaddedHeader)) == None
  {
    PaddedHeaderRejected();
    StripPaddedHeader();
    RequiredAccepted();
  }

  lemma PaddedHeaderRejected()
    ensures FirstMissing(Required, PaddedHeader) == Some("Food")
  {
  }

  lemma RequiredAccepted()
    ensures FirstMissing(Required, Required) == None
  {
  }

  /** The loaded sheet: its header and its rows, both reassigned in place. */
  class DataFrame {
    var columns: seq<string>
    var rows: seq<Record>

    constructor (columns: seq<string>, rows: seq<Record>)
      ensures this.columns == columns && this.rows == rows
    {
      this.columns := columns;
      this.rows := rows;
    }

    /** Whether the composite flavour label applies. */
    predicate HasFormula()
      reads this
    {
      FormulaColumn in columns
    }

    /** `df['Causes/Effects'] = df['Causes/Effects'].str.lower().replace(table)`. */
    method NormalizeEffects()
      modifies this
      ensures rows == NormalizeRows(old(rows)) && columns == old(columns)
    {
      rows := NormalizeRows(rows);
    }

    /** `df.columns = df.columns.str.strip()`. */
    method StripColumns()
      modifies this
      ensures columns == StripAll(old(columns)) && rows == old(rows)
    {
      columns := StripAll(columns);
    }
  }

  /** Start-up of the first dashboard: check the required columns on the header as
      read, normalize the effect column, then strip the header. A missing column
      stops the program and leaves the sheet as read. */
  method LoadDashboard(df: DataFrame) returns (missing: Option<string>)
    modifies df
    ensures missing == FirstMissing(Required, old(df.columns))
    ensures missing.None? ==> df.rows == NormalizeRows(old(df.rows)) && df.columns == StripAll(old(df.columns))
    ensures missing.Some? ==> df.rows == old(df.rows) && df.columns == old(df.columns)
  {
    missing := CheckRequired(df.columns);
    if missing.None? {
      df.NormalizeEffects();
      df.StripColumns();
    }
  }

  /** Start-up of the second dashboard: strip the header first, then normalize the
      effect column. There is no required-column check; a missing effect column
      raises at the first access (reported as `false`) after the header was stripped.
      `hasFormula` tells the chart builders whether the stripped header has the
      formula column. */
  method LoadApp(df: DataFrame) returns (ok: bool, hasFormula: bool)
    modifies df
    ensures df.columns == StripAll(old(df.columns))
    ensures ok == (Required[0] in StripAll(old(df.columns)))
    ensures df.rows == if ok then NormalizeRows(old(df.rows)) else old(df.rows)
    ensures hasFormula == (FormulaColumn in StripAll(old(df.columns)))
  {
    df.StripColumns();
    ok := Required[0] in df.columns;
    if ok {
      df.NormalizeEffects();
    }
    hasFormula := df.HasFormula();
  }
}
