/** The chart selection of the second dashboard: the check-buttons rebuilt for the
    selected question (one per chart kind, all off), their toggling, and the Draw
    button, which renders the charts whose check-button is on, in builder order. */
module Selection {
  import opened Seqs
  import opened Records
  import opened Questions
  import Loader
  import Normalizer

  /** The check-button captions. */
  const LabelMap: map<string, string> := map[
    "heat" := "Heat\U{2011}map",
    "corr" := "Correlation",
    "pie" := "Pie chart",
    "bar" := "Bar chart",
    "scatter" := "Scatter plot",
    "box" := "Box plot"
  ]

  /** `label_map.get(key, key)`. */
  function LabelOf(k: string): (l: string)
    ensures k in LabelMap ==> l == LabelMap[k]
    ensures k !in LabelMap ==> l == k
  {
    if k in LabelMap then LabelMap[k] else k
  }

  /** The captions of the check-buttons for the kinds `ks`, in order. */
  function Labels(ks: seq<string>): (r: seq<string>)
    ensures |r| == |ks| && forall i :: 0 <= i < |ks| ==> r[i] == LabelOf(ks[i])
  {
    seq(|ks|, i requires 0 <= i < |ks| => LabelOf(ks[i]))
  }

  /** One toggle per kind, all off. */
  function Off(ks: seq<string>): (m: map<string, bool>)
    ensures forall k :: k in m <==> k in ks
    ensures forall k :: k in m ==> !m[k]
  {
    map k | k in ks :: false
  }

  lemma OffSnoc(ks: seq<string>, k: string)
    ensures Off(ks + [k]) == Off(ks)[k := false]
  {
  }

  lemma LabelsSnoc(ks: seq<string>, k: string)
    ensures Labels(ks + [k]) == Labels(ks) + [LabelOf(k)]
  {
  }

  /** Whether a chart's check-button exists and is on. */
  function On(toggles: map<string, bool>): ((string, Payload)) -> bool {
    (c: (string, Payload)) => c.0 in toggles && toggles[c.0]
  }

  /** How many kinds of `ks`, from the front, have a check-button: the loop of
      `draw` raises `KeyError` at the first kind without one. */
  function Reached(ks: seq<string>, toggles: map<string, bool>): (n: nat)
    ensures n <= |ks|
    ensures forall j :: 0 <= j < n ==> ks[j] in toggles
    ensures n < |ks| ==> ks[n] !in toggles
  {
    if ks == [] || ks[0] !in toggles then 0 else 1 + Reached(ks[1..], toggles)
  }

  /** The charts `draw` renders before it stops: those whose check-button is on,
      in builder order, up to the first kind without a check-button. */
  function Drawn(charts: seq<(string, Payload)>, toggles: map<string, bool>): (r: seq<(string, Payload)>)
    ensures forall c :: c in r ==> c in charts && c.0 in toggles && toggles[c.0]
  {
    FilterSpec(charts[..Reached(Kinds(charts), toggles)], On(toggles));
    Filter(charts[..Reached(Kinds(charts), toggles)], On(toggles))
  }

  /** The selection state: the registry and sheet the application was started
      with, the selected question, the check-buttons (kind to on/off, and their
      captions in order) and the rendered canvases. */
  class ChartSelection {
    const reg: seq<Entry>
    const rows: seq<Record>
    const hasFormula: bool
    var question: string
    var toggles: map<string, bool>
    var labels: seq<string>
    var canvases: seq<(string, Payload)>

    /** The check-buttons of the selected question: one per chart kind, all off,
        or none when the question is not a key of the registry. */
    ghost predicate Fresh()
      reads this
    {
      match Lookup(reg, question)
      case None => toggles == map[] && labels == []
      case Some(b) =>
        var ks := Kinds(Build(rows, hasFormula, b));
        toggles == Off(ks) && labels == Labels(ks)
    }

    /** Start-up: the first question of the registry is selected and its
        check-buttons are built. */
    constructor (reg: seq<Entry>, rows: seq<Record>, hasFormula: bool)
      requires reg != []
      ensures this.reg == reg && this.rows == rows && this.hasFormula == hasFormula
      ensures question == reg[0].name && Fresh() && canvases == []
    {
      this.reg := reg;
      this.rows := rows;
      this.hasFormula := hasFormula;
      question := reg[0].name;
      toggles := map[];
      labels := [];
      canvases := [];
      new;
      Rebuild();
    }

    /** `rebuild_checkbuttons`: drop the old check-buttons and add one per kind of
        the selected question's charts, all off, captioned through `LabelOf`. */
    method Rebuild()
      modifies this
      ensures Fresh()
      ensures question == old(question) && canvases == old(canvases)
    {
      toggles := map[];
      labels := [];
      var b := Lookup(reg, question);
      if b.None? {
        return;
      }
      AddButtons(Build(rows, hasFormula, b.value));
    }

    /** The loop of `rebuild_checkbuttons` over the kinds of `charts`. */
    method AddButtons(charts: seq<(string, Payload)>)
      requires toggles == map[] && labels == []
      modifies this
      ensures toggles == Off(Kinds(charts)) && labels == Labels(Kinds(charts))
      ensures question == old(question) && canvases == old(canvases)
    {
      var ks := Kinds(charts);
      for i := 0 to |charts|
        modifies this`toggles, this`labels
        invariant toggles == Off(ks[..i]) && labels == Labels(ks[..i])
      {
        assert ks[..i + 1] == ks[..i] + [ks[i]];
        OffSnoc(ks[..i], ks[i]);
        LabelsSnoc(ks[..i], ks[i]);
        toggles := toggles[charts[i].0 := false];
        labels := labels + [LabelOf(charts[i].0)];
      }
      assert ks[..|charts|] == ks;
    }

    /** Choosing a question in the drop-down rebuilds the check-buttons. */
    method Select(q: string)
      modifies this
      ensures question == q && Fresh() && canvases == old(canvases)
    {
      question := q;
      Rebuild();
    }

    /** Clicking a check-button flips its variable. */
    method Toggle(key: string)
      requires key in toggles
      modifies this
      ensures toggles == old(toggles)[key := !old(toggles)[key]]
      ensures question == old(question) && labels == old(labels) && canvases == old(canvases)
    {
      toggles := toggles[key := !toggles[key]];
    }

    /** `draw`: clear the canvases, rebuild the selected question's charts and
        render each whose check-button is on, in builder order. `ok` is false when
        the question is not a key of the registry or a kind has no check-button
        (a `KeyError`); the charts rendered before that stay on screen. */
    method Draw() returns (ok: bool)
      modifies this
      ensures Lookup(reg, question).None? ==> !ok && canvases == []
      ensures Lookup(reg, question).Some? ==>
        var charts := Build(rows, hasFormula, Lookup(reg, question).value);
        && ok == (forall k :: k in Kinds(charts) ==> k in toggles)
        && canvases == Drawn(charts, toggles)
      ensures question == old(question) && toggles == old(toggles) && labels == old(labels)
    {
      canvases := [];
      var b := Lookup(reg, question);
      if b.None? {
        return false;
      }
      ok := Render(Build(rows, hasFormula, b.value));
    }

    /** The loop of `draw` over `charts`, onto cleared canvases. */
    method Render(charts: seq<(string, Payload)>) returns (ok: bool)
      requires canvases == []
      modifies this`canvases
      ensures ok == (forall k :: k in Kinds(charts) ==> k in toggles)
      ensures canvases == Drawn(charts, toggles)
    {
      var ks := Kinds(charts);
      for i := 0 to |charts|
        invariant forall j :: 0 <= j < i ==> ks[j] in toggles
        invariant canvases == Filter(charts[..i], On(toggles))
      {
        if charts[i].0 !in toggles {
          assert Reached(ks, toggles) == i;
          return false;
        }
        assert charts[..i + 1] == charts[..i] + [charts[i]];
        FilterSnoc(charts[..i], charts[i], On(toggles));
        if toggles[charts[i].0] {
          canvases := canvases + [charts[i]];
        }
      }
      assert charts[..|charts|] == charts;
      assert Reached(ks, toggles) == |charts|;
      return true;
    }
  }

  /** Start-up of the second dashboard: load the sheet, register one question
      per distinct effect of the loaded rows, and open the window on the first
      question. A sheet without the effect column stops the program (`null`). */
  method Launch(df: Loader.DataFrame) returns (app: ChartSelection?)
    modifies df
    ensures df.columns == Loader.StripAll(old(df.columns))
    ensures app == null <==> Loader.Required[0] !in df.columns
    ensures app != null ==>
      && fresh(app) && df.rows == Normalizer.NormalizeRows(old(df.rows))
      && app.reg == Registry(Effects(df.rows)) && app.rows == df.rows
      && app.hasFormula == (Loader.FormulaColumn in df.columns)
      && app.question == app.reg[0].name && app.Fresh() && app.canvases == []
  {
    var ok, hasFormula := Loader.LoadApp(df);
    if !ok {
      return null;
    }
    app := new ChartSelection(Registry(Effects(df.rows)), df.rows, hasFormula);
  }

  /** Every chart kind a builder returns has a caption of its own. */
  lemma BuildLabels(rows: seq<Record>, hasFormula: bool, b: Builder)
    ensures forall k :: k in Kinds(Build(rows, hasFormula, b)) ==> k in LabelMap
    ensures b.Distribution? ==> Labels(Kinds(Build(rows, hasFormula, b))) == ["Bar chart", "Pie chart", "Box plot"]
    ensures b.ForEffect? ==> Labels(Kinds(Build(rows, hasFormula, b))) == ["Pie chart", "Bar chart", "Scatter plot"]
    ensures (b.ByFlavour? || b.ByFood?) ==> Labels(Kinds(Build(rows, hasFormula, b))) == ["Heat\U{2011}map", "Correlation"]
  {
    BuildKinds(rows, hasFormula, b);
    match b
    case Distribution => DistributionLabels();
    case ForEffect(_) => SliceLabels();
    case _ => PivotLabels();
  }

  lemma DistributionLabels()
    ensures Labels(["bar", "pie", "box"]) == ["Bar chart", "Pie chart", "Box plot"]
  {
  }

  lemma SliceLabels()
    ensures Labels(["pie", "bar", "scatter"]) == ["Pie chart", "Bar chart", "Scatter plot"]
  {
  }

  lemma PivotLabels()
    ensures Labels(["heat", "corr"]) == ["Heat\U{2011}map", "Correlation"]
  {
  }

  /** Drawing right after the check-buttons were rebuilt renders nothing. */
  lemma DrawnAfterRebuild(charts: seq<(string, Payload)>)
    ensures Drawn(charts, Off(Kinds(charts))) == []
  {
    var toggles := Off(Kinds(charts));
    var n := Reached(Kinds(charts), toggles);
    assert n == |charts|;
    assert charts[..n] == charts;
    FilterNone(charts, On(toggles));
  }

  /** When every kind has a check-button, `draw` renders exactly the charts whose
      check-button is on, in builder order, and reports success. */
  lemma DrawnAllPresent(charts: seq<(string, Payload)>, toggles: map<string, bool>)
    requires forall k :: k in Kinds(charts) ==> k in toggles
    ensures Drawn(charts, toggles) == Filter(charts, On(toggles))
    ensures forall c :: c in Drawn(charts, toggles) <==> c in charts && toggles[c.0]
  {
    var n := Reached(Kinds(charts), toggles);
    assert charts[..n] == charts;
    FilterSpec(charts, On(toggles));
    forall c | c in charts ensures c.0 in toggles {
      var i :| 0 <= i < |charts| && charts[i] == c;
      assert Kinds(charts)[i] in Kinds(charts);
    }
  }

  /** Turning on one check-button after a rebuild renders exactly that chart. */
  lemma DrawnOne(charts: seq<(string, Payload)>, i: nat)
    requires i < |charts| && NoDup(Kinds(charts))
    ensures Drawn(charts, Off(Kinds(charts))[charts[i].0 := true]) == [charts[i]]
  {
    var ks := Kinds(charts);
    var toggles := Off(ks)[charts[i].0 := true];
    assert forall k :: k in ks ==> k in toggles;
    DrawnAllPresent(charts, toggles);
    FilterOne(charts, On(toggles), i);
  }
}
