/** The first dashboard: its eight questions (`graph_funcs`), the analysis
    behind each, and `show_graph`, which renders two figures for the food
    question and one for every other. */
module Dashboard {
  import opened Text
  import opened Seqs
  import opened Records
  import opened Normalizer
  import opened Aggregate
  import opened Slices

  /** What a question computes. `FoodsFor` is one of the `analyze_*` /
      `plot_*_effects` functions: a case-insensitive effect filter on `phrase`
      followed by the food counts of the filtered rows. */
  datatype Analysis = EffectDistribution | FlavourTable | FoodTable | FoodsFor(phrase: string)

  datatype Question = Question(text: string, analysis: Analysis)

  const FoodQuestion: string := "What are the Effects by Food Type?"

  /** `graph_funcs`, in insertion order. */
  const GraphFuncs: seq<Question> := [
    Question("What is the Distribution of Effects of Synthetic Aromatic Agents?", EffectDistribution),
    Question("What are the Effects by Flavour of Aroma?", FlavourTable),
    Question(FoodQuestion, FoodTable),
    Question("What are the Foods using Synthetic Aroma Agents Causing Irritation?", FoodsFor("Irritation Effects")),
    Question("What are the Foods using Synthetic Aroma Agents Causing Specialized Effects?", FoodsFor("Specialized Effects")),
    Question("What are the Foods using Synthetic Aroma Agents Causing Allergic Reaction?", FoodsFor("Allergic Reaction")),
    Question("What are the Foods using Synthetic Aroma Agents Causing Systemic Toxicity?", FoodsFor("Systemic Toxicity")),
    Question("What are the Foods using Synthetic Aroma Agents with Safety Approvals?", FoodsFor("Safety Approval"))
  ]

  function Texts(qs: seq<Question>): (r: seq<string>)
    ensures |r| == |qs| && forall i :: 0 <= i < |qs| ==> r[i] == qs[i].text
  {
    seq(|qs|, i requires 0 <= i < |qs| => qs[i].text)
  }

  /** Dictionary lookup `graph_funcs[text]`; `None` stands for a `KeyError`. */
  function Find(qs: seq<Question>, text: string): (r: Option<Analysis>)
    ensures r.None? <==> text !in Texts(qs)
    ensures r.Some? ==> exists i :: 0 <= i < |qs| && qs[i] == Question(text, r.value)
  {
    if qs == [] then None
    else if qs[0].text == text then Some(qs[0].analysis)
    else
      assert Texts(qs) == [qs[0].text] + Texts(qs[1..]);
      var r := Find(qs[1..], text);
      if r.Some? then
        var i :| 0 <= i < |qs[1..]| && qs[1..][i] == Question(text, r.value);
        assert qs[i + 1] == Question(text, r.value);
        r
      else r
  }

  /** What is printed by an effect filter: the number of rows kept, their
      distinct flavours, their (synthetic agent, natural agent) pairs, and the
      food counts the pie chart is drawn from. */
  datatype Report = Report(
    count: nat,
    flavours: seq<string>,
    replacements: seq<(string, string)>,
    foodCounts: map<string, nat>)

  /** The body of an `analyze_*` / `plot_*_effects` function. */
  function Analyze(rows: seq<Record>, phrase: string): (r: Report)
    ensures r.count == |SliceIndex(rows, ContainsIgnoringCase(phrase))| <= |rows|
  {
    var sub := Slice(rows, ContainsIgnoringCase(phrase));
    Report(|sub|, Distinct(Flavours(sub)), Replacements(sub), ValueCounts(Foods(sub)))
  }

  /** A figure, by what it is drawn from. */
  datatype Figure =
    | EffectBar(counts: map<string, nat>)   // bar chart of the effect counts
    | Heatmap(pivot: Pivot)                 // annotated count table
    | CorrelationMap(pivot: Pivot)          // correlations of the table's columns
    | FoodPie(counts: map<string, nat>)     // pie chart of food counts

  /** A question's result: one figure, or the pair returned for the food table. */
  datatype Output = Single(fig: Figure) | Double(first: Figure, second: Figure)

  /** The raw-flavour table of `plot_flavor_effect_heatmap`. */
  function FlavourEffectPivot(rows: seq<Record>): Pivot {
    BuildPivot(Zip(Flavours(rows), Effects(rows)))
  }

  /** The food table of `plot_food_effect_heatmap`. */
  function FoodEffectPivot(rows: seq<Record>): Pivot {
    BuildPivot(Zip(Foods(rows), Effects(rows)))
  }

  /** Both heat-map tables are dense and hold every record exactly once. */
  lemma DashboardPivotMass(rows: seq<Record>)
    ensures Dense(FlavourEffectPivot(rows)) && Dense(FoodEffectPivot(rows))
    ensures CellTotal(FlavourEffectPivot(rows), FlavourEffectPivot(rows).rows) == |rows|
    ensures CellTotal(FoodEffectPivot(rows), FoodEffectPivot(rows).rows) == |rows|
  {
    PivotMass(Zip(Flavours(rows), Effects(rows)));
    PivotMass(Zip(Foods(rows), Effects(rows)));
  }

  /** Calling the function registered for an analysis: only the food table
      returns two figures. */
  function Plot(rows: seq<Record>, a: Analysis): (o: Output)
    ensures o.Double? <==> a == FoodTable
  {
    match a
    case EffectDistribution => Single(EffectBar(ValueCounts(Effects(rows))))
    case FlavourTable => Single(Heatmap(FlavourEffectPivot(rows)))
    case FoodTable => Double(Heatmap(FoodEffectPivot(rows)), CorrelationMap(FoodEffectPivot(rows)))
    case FoodsFor(p) => Single(FoodPie(Analyze(rows, p).foodCounts))
  }

  /** The figures of an output, in order. */
  function Figures(o: Output): (r: seq<Figure>)
    ensures |r| == if o.Double? then 2 else 1
  {
    match o
    case Single(f) => [f]
    case Double(f, g) => [f, g]
  }

  /** The figures `show_graph` puts on screen for `question`; none on a `KeyError`. */
  function Shown(rows: seq<Record>, question: string): (r: seq<Figure>)
    ensures r == [] <==> question !in Texts(GraphFuncs)
    ensures |r| <= 2
  {
    match Find(GraphFuncs, question)
    case None => []
    case Some(a) => Figures(Plot(rows, a))
  }

  /** The dashboard: the sheet it was started with, the selected question and
      the figures on screen. */
  class Board {
    const rows: seq<Record>
    var question: string
    var canvasWidgets: seq<Figure>

    /** Start-up selects the first question and shows it. */
    constructor (rows: seq<Record>)
      ensures this.rows == rows && question == GraphFuncs[0].text
      ensures canvasWidgets == Shown(rows, question)
    {
      this.rows := rows;
      question := GraphFuncs[0].text;
      canvasWidgets := [];
      new;
      var _ := ShowGraph();
    }

    /** Choosing a question in the drop-down shows it. */
    method Choose(q: string) returns (ok: bool)
      modifies this
      ensures question == q && ok == (q in Texts(GraphFuncs))
      ensures canvasWidgets == Shown(rows, q)
    {
      question := q;
      ok := ShowGraph();
    }

    /** `show_graph`: clear the canvases, then add one canvas per figure of the
        food question, or a single canvas for any other question. `ok` is false
        on a `KeyError`. */
    method ShowGraph() returns (ok: bool)
      modifies this
      ensures question == old(question)
      ensures ok == (question in Texts(GraphFuncs))
      ensures canvasWidgets == Shown(rows, question)
    {
      canvasWidgets := [];
      var a := Find(GraphFuncs, question);
      if a.None? {
        return false;
      }
      var out := Plot(rows, a.value);
      FindFoodOnly(question);
      Render(out, question == FoodQuestion);
      return true;
    }

    /** The two branches of `show_graph`, onto cleared canvases: a canvas per
        figure of the pair for the food question, a single canvas otherwise. */
    method Render(out: Output, food: bool)
      requires canvasWidgets == [] && (food <==> out.Double?)
      modifies this`canvasWidgets
      ensures canvasWidgets == Figures(out)
    {
      if food {
        match out
        case Double(f, g) =>
          var figs := [f, g];
          for i := 0 to |figs|
            invariant canvasWidgets == figs[..i]
          {
            assert figs[..i + 1] == figs[..i] + [figs[i]];
            canvasWidgets := canvasWidgets + [figs[i]];
          }
        case Single(_) =>
          assert false;
      } else {
        match out
        case Single(f) =>
          canvasWidgets := canvasWidgets + [f];
        case Double(_, _) =>
          assert false;
      }
    }
  }

  /** The eight question texts are pairwise different. */
  lemma GraphFuncsDistinct()
    ensures |GraphFuncs| == 8 && NoDup(Texts(GraphFuncs))
  {
  }

  /** The food question is the only one with two figures. */
  lemma FindFoodOnly(q: string)
    requires q in Texts(GraphFuncs)
    ensures Find(GraphFuncs, q).value == FoodTable <==> q == FoodQuestion
  {
    FoodEntry();
    FindFoodIn(GraphFuncs, q);
  }

  /** In `graph_funcs` the food table is registered under the food question and
      under no other. */
  lemma FoodEntry()
    ensures forall j :: 0 <= j < |GraphFuncs| ==>
      (GraphFuncs[j].analysis == FoodTable <==> GraphFuncs[j].text == FoodQuestion)
  {
    assert |FoodQuestion| == 34;
  }

  lemma FindFoodIn(qs: seq<Question>, q: string)
    requires q in Texts(qs)
    requires forall j :: 0 <= j < |qs| ==> (qs[j].analysis == FoodTable <==> qs[j].text == FoodQuestion)
    ensures Find(qs, q).value == FoodTable <==> q == FoodQuestion
  {
    var i :| 0 <= i < |qs| && qs[i] == Question(q, Find(qs, q).value);
  }

  /** `show_graph` shows two figures for the food question, one for each other
      question and none for a text that is not a question. */
  lemma ShownCount(rows: seq<Record>, q: string)
    ensures q == FoodQuestion ==> Shown(rows, q) == [Heatmap(FoodEffectPivot(rows)), CorrelationMap(FoodEffectPivot(rows))]
    ensures q != FoodQuestion && q in Texts(GraphFuncs) ==> |Shown(rows, q)| == 1
    ensures q !in Texts(GraphFuncs) ==> Shown(rows, q) == []
  {
    if q in Texts(GraphFuncs) {
      var a := Find(GraphFuncs, q).value;
      FindFoodOnly(q);
      assert Shown(rows, q) == Figures(Plot(rows, a));
    } else {
      FoodQuestionListed();
    }
  }

  lemma FoodQuestionListed()
    ensures FoodQuestion in Texts(GraphFuncs)
  {
    assert Texts(GraphFuncs)[2] == FoodQuestion;
  }

  /** An effect filter keeps exactly the rows whose effect contains the phrase,
      ignoring case, in their original order, and the printed count is the
      number of rows kept. */
  lemma AnalyzeCount(rows: seq<Record>, phrase: string)
    ensures var idx := SliceIndex(rows, ContainsIgnoringCase(phrase));
      && Analyze(rows, phrase).count == |idx| && Increasing(idx)
      && forall i :: 0 <= i < |rows| ==> (i in idx <==> Text.ContainsIgnoringCase(rows[i].effect, phrase))
  {
    SliceSpec(rows, ContainsIgnoringCase(phrase));
  }

  /** The replacement table lists the synthetic and natural agents of the kept
      rows, row by row. */
  lemma AnalyzeReplacements(rows: seq<Record>, phrase: string)
    ensures var idx, rep := SliceIndex(rows, ContainsIgnoringCase(phrase)), Analyze(rows, phrase).replacements;
      && |rep| == |idx|
      && forall k :: 0 <= k < |idx| ==> idx[k] < |rows| && rep[k] == (rows[idx[k]].agent, rows[idx[k]].natural)
  {
    SliceSpec(rows, ContainsIgnoringCase(phrase));
  }

  /** The printed flavours are the flavours of the kept rows, each once. */
  lemma AnalyzeFlavours(rows: seq<Record>, phrase: string)
    ensures var fl := Analyze(rows, phrase).flavours;
      && NoDup(fl)
      && forall f :: f in fl <==> exists i :: 0 <= i < |rows| && Text.ContainsIgnoringCase(rows[i].effect, phrase) && rows[i].flavour == f
  {
    var m := ContainsIgnoringCase(phrase);
    var idx, sub := SliceIndex(rows, m), Slice(rows, m);
    SliceSpec(rows, m);
    forall f
      ensures f in Flavours(sub) <==> exists i :: 0 <= i < |rows| && Matches(m, rows[i].effect) && rows[i].flavour == f
    {
      if f in Flavours(sub) {
        var k :| 0 <= k < |sub| && Flavours(sub)[k] == f;
        assert rows[idx[k]].flavour == f;
      }
      if i :| 0 <= i < |rows| && Matches(m, rows[i].effect) && rows[i].flavour == f {
        var k :| 0 <= k < |idx| && idx[k] == i;
        assert Flavours(sub)[k] == f;
      }
    }
  }

  /** The food counts of the pie chart are positive, one per distinct food of the
      kept rows, and sum to the printed count. */
  lemma AnalyzeFoods(rows: seq<Record>, phrase: string)
    ensures var rep, foods := Analyze(rows, phrase), Foods(Slice(rows, ContainsIgnoringCase(phrase)));
      && (forall f :: f in rep.foodCounts <==> f in foods)
      && (forall f :: f in rep.foodCounts ==> rep.foodCounts[f] > 0)
      && Total(Distinct(foods), rep.foodCounts) == rep.count
  {
    SliceFoodCounts(rows, ContainsIgnoringCase(phrase));
  }

  /** The filter phrase of each effect question and the canonical effect it is
      meant to select. */
  const PhraseTargets: seq<(string, string)> := [
    ("Irritation Effects", "Irritation Effects"),
    ("Specialized Effects", "Specialized Effects"),
    ("Allergic Reaction", "Allergic Reaction"),
    ("Systemic Toxicity", "Systemic Toxicity"),
    ("Safety Approval", "Safety Approvals")
  ]

  /** Each effect question's phrase is a prefix of its canonical effect, so after
      normalization every row with that canonical effect is kept by the filter. */
  lemma PhraseSelectsCanonical(rows: seq<Record>, j: nat, i: nat)
    requires j < |PhraseTargets| && i < |rows|
    requires NormalizeRows(rows)[i].effect == PhraseTargets[j].1
    ensures i in SliceIndex(NormalizeRows(rows), ContainsIgnoringCase(PhraseTargets[j].0))
  {
    var (p, c) := PhraseTargets[j];
    ContainsIgnoringCasePrefix(c, p);
    SliceSpec(NormalizeRows(rows), ContainsIgnoringCase(p));
  }

  /** The typo "specified effects" in the sheet is counted by the specialized
      effects question. */
  lemma SpecifiedIsSpecialized(rows: seq<Record>, i: nat)
    requires i < |rows| && rows[i].effect == "specified effects"
    ensures i in SliceIndex(NormalizeRows(rows), ContainsIgnoringCase("Specialized Effects"))
  {
    NormalizeTypo();
    PhraseSelectsCanonical(rows, 1, i);
  }
}
