/** The second dashboard's question registry (`question_map`) and its chart
    builders (`build_*`), each of which returns its charts keyed by chart kind. */
module Questions {
  import opened Seqs
  import opened Records
  import opened Aggregate
  import opened Slices

  /** What a registry entry computes when it is called. `ForEffect` holds the
      effect it was registered with (the `eff=eff` default argument). */
  datatype Builder = Distribution | ByFlavour | ByFood | ForEffect(effect: string)

  datatype Entry = Entry(name: string, builder: Builder)

  /** The three fixed questions, in registration order. */
  const StaticEntries: seq<Entry> := [
    Entry("Distribution of Effects", Distribution),
    Entry("Effects by Flavour of Aroma", ByFlavour),
    Entry("Effects by Food Type", ByFood)
  ]

  const SpecificSuffix: string := " (specific)"

  /** The question name of the slice for effect `e`. */
  function SpecificName(e: string): string {
    e + SpecificSuffix
  }

  function Names(reg: seq<Entry>): (r: seq<string>)
    ensures |r| == |reg| && forall i :: 0 <= i < |reg| ==> r[i] == reg[i].name
  {
    seq(|reg|, i requires 0 <= i < |reg| => reg[i].name)
  }

  /** Dictionary lookup `reg[name]`; `None` stands for a `KeyError`. */
  function Lookup(reg: seq<Entry>, name: string): (r: Option<Builder>)
    ensures r.None? <==> name !in Names(reg)
  {
    if reg == [] then None
    else if reg[0].name == name then Some(reg[0].builder)
    else
      assert Names(reg) == [reg[0].name] + Names(reg[1..]);
      Lookup(reg[1..], name)
  }

  /** Dictionary assignment `reg[name] = b`: the value of an existing key is
      replaced where it stands, a new key is appended. */
  function Put(reg: seq<Entry>, name: string, b: Builder): (r: seq<Entry>)
    ensures name !in Names(reg) ==> r == reg + [Entry(name, b)]
  {
    if reg == [] then [Entry(name, b)]
    else if reg[0].name == name then [Entry(name, b)] + reg[1..]
    else
      assert Names(reg) == [reg[0].name] + Names(reg[1..]);
      [reg[0]] + Put(reg[1..], name, b)
  }

  /** After `reg[name] = b` the key maps to `b`. */
  lemma {:induction false} PutFinds(reg: seq<Entry>, name: string, b: Builder)
    ensures Lookup(Put(reg, name, b), name) == Some(b)
  {
    if reg != [] && reg[0].name != name {
      PutFinds(reg[1..], name, b);
      var r := Put(reg, name, b);
      assert r[1..] == Put(reg[1..], name, b);
    }
  }

  /** Every other key maps to what it mapped to before. */
  lemma {:induction false} PutKeepsOthers(reg: seq<Entry>, name: string, b: Builder, n: string)
    requires n != name
    ensures Lookup(Put(reg, name, b), n) == Lookup(reg, n)
  {
    if reg != [] {
      var r := Put(reg, name, b);
      assert r[1..] == if reg[0].name == name then reg[1..] else Put(reg[1..], name, b);
      if reg[0].name != name {
        PutKeepsOthers(reg[1..], name, b, n);
      }
    }
  }

  /** Replacing the value of an existing key (here the one at index `k`) keeps
      every key in its place. */
  lemma {:induction false} PutKeepsNames(reg: seq<Entry>, name: string, b: Builder, k: nat)
    requires k < |reg| && reg[k].name == name
    ensures |Put(reg, name, b)| == |reg|
    ensures forall i :: 0 <= i < |reg| ==> Put(reg, name, b)[i].name == reg[i].name
  {
    var r := Put(reg, name, b);
    var tail := if reg[0].name == name then reg[1..] else Put(reg[1..], name, b);
    if reg[0].name != name {
      PutKeepsNames(reg[1..], name, b, k - 1);
    }
    assert r == [r[0]] + tail && r[0].name == reg[0].name;
    forall i | 0 < i < |reg| ensures r[i].name == reg[i].name {
      assert r[i] == tail[i - 1] && reg[i] == reg[1..][i - 1];
    }
  }

  /** The dynamic entries, one per distinct effect in first-appearance order. */
  function SpecificEntries(d: seq<string>): (r: seq<Entry>)
    ensures |r| == |d| && forall k :: 0 <= k < |d| ==> r[k] == Entry(SpecificName(d[k]), ForEffect(d[k]))
  {
    seq(|d|, k requires 0 <= k < |d| => Entry(SpecificName(d[k]), ForEffect(d[k])))
  }

  /** The registry after start-up, for the effect column `effects`. */
  function Registry(effects: seq<string>): (reg: seq<Entry>)
    ensures |reg| == |StaticEntries| + |Distinct(effects)|
  {
    StaticEntries + SpecificEntries(Distinct(effects))
  }

  /** No static question name ends in " (specific)". */
  lemma StaticNamesNotSpecific(e: string)
    ensures SpecificName(e) !in Names(StaticEntries)
  {
    var n := SpecificName(e);
    var k := |n| - |SpecificSuffix|;
    assert n[k..] == SpecificSuffix;
    if |n| == 23 { assert n[k..] != "Distribution of Effects"[k..]; }
    if |n| == 27 { assert n[k..] != "Effects by Flavour of Aroma"[k..]; }
    if |n| == 20 { assert n[k..] != "Effects by Food Type"[k..]; }
  }

  /** Distinct effects give distinct question names. */
  lemma SpecificNameInjective(e1: string, e2: string)
    requires SpecificName(e1) == SpecificName(e2)
    ensures e1 == e2
  {
    assert e1 == SpecificName(e1)[..|e1|];
  }

  /** `question_map` is filled by a loop over `unique()` of the effect column. */
  method BuildQuestionMap(effects: seq<string>) returns (reg: seq<Entry>)
    ensures reg == Registry(effects)
  {
    var d := Distinct(effects);
    reg := StaticEntries;
    for i := 0 to |d|
      invariant reg == StaticEntries + SpecificEntries(d[..i])
    {
      var name := SpecificName(d[i]);
      assert name !in Names(reg) by {
        StaticNamesNotSpecific(d[i]);
        forall k | 0 <= k < i ensures SpecificName(d[k]) != name {
          if SpecificName(d[k]) == name { SpecificNameInjective(d[k], d[i]); }
        }
        assert Names(reg) == Names(StaticEntries) + Names(SpecificEntries(d[..i]));
      }
      reg := Put(reg, name, ForEffect(d[i]));
      assert d[..i + 1] == d[..i] + [d[i]];
      assert SpecificEntries(d[..i + 1]) == SpecificEntries(d[..i]) + [Entry(name, ForEffect(d[i]))];
    }
    assert d[..|d|] == d;
  }

  /** The registry holds the three static questions first. */
  lemma RegistryStatic(effects: seq<string>)
    ensures |Registry(effects)| == 3 + |Distinct(effects)|
    ensures Lookup(Registry(effects), "Distribution of Effects") == Some(Distribution)
    ensures Lookup(Registry(effects), "Effects by Flavour of Aroma") == Some(ByFlavour)
    ensures Lookup(Registry(effects), "Effects by Food Type") == Some(ByFood)
  {
    var reg := Registry(effects);
    assert reg[..3] == StaticEntries;
    LookupFind(reg, 0, "Distribution of Effects");
    LookupFind(reg, 1, "Effects by Flavour of Aroma");
    LookupFind(reg, 2, "Effects by Food Type");
  }

  /** The slice question of effect `e` selects on `e` itself: each entry captured
      its own effect, not the last one of the loop. */
  lemma RegistrySpecific(effects: seq<string>, e: string)
    requires e in effects
    ensures Lookup(Registry(effects), SpecificName(e)) == Some(ForEffect(e))
  {
    var d := Distinct(effects);
    var reg := Registry(effects);
    var k :| 0 <= k < |d| && d[k] == e;
    forall j | 0 <= j < 3 + k ensures reg[j].name != SpecificName(e) {
      if j < 3 {
        StaticNamesNotSpecific(e);
        assert reg[j].name == Names(StaticEntries)[j];
      } else if reg[j].name == SpecificName(e) {
        SpecificNameInjective(d[j - 3], e);
      }
    }
    LookupFind(reg, 3 + k, SpecificName(e));
  }

  /** Looking up the name of the entry at index `k` finds that entry when no earlier
      entry has the name. */
  lemma {:induction false} LookupFind(reg: seq<Entry>, k: nat, name: string)
    requires k < |reg| && reg[k].name == name
    requires forall j :: 0 <= j < k ==> reg[j].name != name
    ensures Lookup(reg, name) == Some(reg[k].builder)
  {
    if k > 0 {
      LookupFind(reg[1..], k - 1, name);
    }
  }

  /** registry names are pairwise different. */
  lemma RegistryNamesDistinct(effects: seq<string>)
    ensures NoDup(Names(Registry(effects)))
  {
    var d := Distinct(effects);
    var reg := Registry(effects);
    forall i, j | 0 <= i < j < |reg| ensures reg[i].name != reg[j].name {
      if 3 <= i {
        if reg[i].name == reg[j].name { SpecificNameInjective(d[i - 3], d[j - 3]); }
      } else if 3 <= j {
        StaticNamesNotSpecific(d[j - 3]);
        assert reg[i].name in Names(StaticEntries);
      }
    }
  }
  /** What a chart is drawn from. */
  datatype Payload =
    | Counts(counts: map<string, nat>)       // bar or pie of value counts
    | Spread(counts: map<string, nat>)       // box plot of the value counts
    | Table(pivot: Pivot)                    // annotated heat-map
    | Correlation(pivot: Pivot)              // heat-map of the pivot's column correlations
    | Points(points: seq<(nat, nat)>)        // index scatter

  /** The table of `build_flavour`: composite flavour labels against effects. */
  function FlavourPivot(rows: seq<Record>, hasFormula: bool): Pivot {
    BuildPivot(Zip(FlavourLabels(rows, hasFormula), Effects(rows)))
  }

  /** The table of `build_food`: foods against effects. */
  function FoodPivot(rows: seq<Record>): Pivot {
    BuildPivot(Zip(Foods(rows), Effects(rows)))
  }

  /** The charts a builder returns, keyed by chart kind, in dictionary order. */
  function Build(rows: seq<Record>, hasFormula: bool, b: Builder): (charts: seq<(string, Payload)>)
    ensures |charts| == if b.ByFlavour? || b.ByFood? then 2 else 3
  {
    match b
    case Distribution =>
      var counts := ValueCounts(Effects(rows));
      [("bar", Counts(counts)), ("pie", Counts(counts)), ("box", Spread(counts))]
    case ByFlavour =>
      var p := FlavourPivot(rows, hasFormula);
      [("heat", Table(p)), ("corr", Correlation(p))]
    case ByFood =>
      var p := FoodPivot(rows);
      [("heat", Table(p)), ("corr", Correlation(p))]
    case ForEffect(e) =>
      var sub := Slice(rows, Equals(e));
      [("pie", Counts(ValueCounts(FlavourLabels(sub, hasFormula)))),
       ("bar", Counts(ValueCounts(Foods(sub)))),
       ("scatter", Points(ScatterPoints(rows, Equals(e))))]
  }

  /** The chart kinds of a builder's result, in order. */
  function Kinds(charts: seq<(string, Payload)>): seq<string> {
    Firsts(charts)
  }

  /** The chart kinds are fixed per builder, whatever the data, and never repeat. */
  lemma BuildKinds(rows: seq<Record>, hasFormula: bool, b: Builder)
    ensures b.Distribution? ==> Kinds(Build(rows, hasFormula, b)) == ["bar", "pie", "box"]
    ensures (b.ByFlavour? || b.ByFood?) ==> Kinds(Build(rows, hasFormula, b)) == ["heat", "corr"]
    ensures b.ForEffect? ==> Kinds(Build(rows, hasFormula, b)) == ["pie", "bar", "scatter"]
    ensures NoDup(Kinds(Build(rows, hasFormula, b)))
  {
    match b
    case Distribution =>
      var c := ValueCounts(Effects(rows));
      ThreeKinds("bar", "pie", "box", Counts(c), Counts(c), Spread(c));
    case ByFlavour =>
      var p := FlavourPivot(rows, hasFormula);
      TwoKinds(Table(p), Correlation(p));
    case ByFood =>
      var p := FoodPivot(rows);
      TwoKinds(Table(p), Correlation(p));
    case ForEffect(e) =>
      var sub := Slice(rows, Equals(e));
      ThreeKinds("pie", "bar", "scatter", Counts(ValueCounts(FlavourLabels(sub, hasFormula))),
        Counts(ValueCounts(Foods(sub))), Points(ScatterPoints(rows, Equals(e))));
  }

  lemma ThreeKinds(k1: string, k2: string, k3: string, p1: Payload, p2: Payload, p3: Payload)
    requires k1 != k2 && k1 != k3 && k2 != k3
    ensures Kinds([(k1, p1), (k2, p2), (k3, p3)]) == [k1, k2, k3] && NoDup([k1, k2, k3])
  {
  }

  lemma TwoKinds(p1: Payload, p2: Payload)
    ensures Kinds([("heat", p1), ("corr", p2)]) == ["heat", "corr"] && NoDup(["heat", "corr"])
  {
  }

  /** The tables of both pivot questions hold every record exactly once. */
  lemma BuilderPivotMass(rows: seq<Record>, hasFormula: bool)
    ensures CellTotal(FlavourPivot(rows, hasFormula), FlavourPivot(rows, hasFormula).rows) == |rows|
    ensures CellTotal(FoodPivot(rows), FoodPivot(rows).rows) == |rows|
  {
    PivotMass(Zip(FlavourLabels(rows, hasFormula), Effects(rows)));
    PivotMass(Zip(Foods(rows), Effects(rows)));
  }

  /** The counts of the distribution question: one positive entry per distinct
      effect, summing to the number of records. */
  lemma DistributionTotal(rows: seq<Record>)
    ensures forall e :: e in ValueCounts(Effects(rows)) <==> e in Distinct(Effects(rows))
    ensures forall e :: e in ValueCounts(Effects(rows)) ==> ValueCounts(Effects(rows))[e] > 0
    ensures Total(Distinct(Effects(rows)), ValueCounts(Effects(rows))) == |rows|
  {
    ValueCountsTotal(Effects(rows));
  }
}
