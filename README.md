# Perfume analytics dashboards — verified model of the data engine

Two Tkinter dashboards, `perfume_dashboard.py` and `app1.py`, read a spreadsheet
of synthetic aroma agents. Each row has an effect (`Causes/Effects`), a flavour
(`Flavour of Aroma`), a food, a synthetic agent, its natural replacement and,
optionally, a `Chemical Formula`. The dashboards answer questions about the sheet
with charts. Under the GUI they share a small data engine, and this project
models that engine in Dafny and proves its laws:

- **Schema check and header stripping** (`Loader`). `perfume_dashboard.py`
  checks five required columns on the header as read and stops at the first one
  missing. It then normalizes the effect column and strips the header.
  `app1.py` strips the header first and has no check. The sheet is a
  `DataFrame` class whose header and rows are reassigned in place.
- **Label normalizer** (`Normalizer`). An effect is lower-cased and looked up as
  a whole in a six-entry synonym table. A value that is not a key passes through
  in lower case.
- **Value counts and pivots** (`Aggregate`). Value counts are a map from each
  distinct value to its positive number of occurrences. A pivot is a dense,
  zero-filled count table over distinct row keys × distinct effects.
- **Composite flavour label** (`Records`). When the sheet has a
  `Chemical Formula` column, `app1.py` groups by `"flavour (formula)"`.
- **Slices** (`Slices`). Rows are selected by exact effect (`app1.py`) or by
  case-insensitive substring (`perfume_dashboard.py`). A slice comes with its
  original row numbers, used by the index scatter.
- **Question registries**. `app1.py` has three static questions plus one
  `"<effect> (specific)"` question per distinct effect, and chart builders keyed
  by chart kind (`Questions`). `perfume_dashboard.py` has eight fixed questions
  and `show_graph` (`Dashboard`).
- **Chart selection** (`Selection`). In `app1.py`, choosing a question rebuilds
  one check-button per chart kind, all off. Draw renders the checked kinds in
  builder order.

`Seqs` and `Text` hold the generic parts: occurrence counts, `unique()` in
first-appearance order, order-preserving filtering, `str.lower`, `str.strip` and
substring search. A missing question or check-button key (`KeyError`) is
modelled as `None` or as a `false` status, not as a precondition. A missing
column, other than the effect column of `app1.py`, is not modelled: every record
has every field (see "## Left out").

The model follows the code in these details:

- `perfume_dashboard.py` checks the required columns before stripping the
  header, so a header cell `" Food"` is rejected (`Loader.CheckPrecedesStrip`).
- The composite label is built whenever the formula column exists, even when the
  formula is empty.
- A normalized effect is not always one of the canonical values: an effect
  outside the table passes through lower-cased.
- `app1.py` has no required-column check. A missing effect column fails at its
  first use, during loading (`Loader.LoadApp` returns `false`). The other columns
  are first read inside the chart builders; see "## Left out".

## Model

| member | source | states |
|---|---|---|
| Loader.FirstMissing | perfume_dashboard.py:17-20 | a reported column is a required column that the header lacks |
| Loader.FirstMissingSpec | perfume_dashboard.py:16-20 | loading fails exactly when a required column is absent, and it names the first absent one in list order |
| Loader.CheckRequired | perfume_dashboard.py:17-20 | the early-exit loop over the required columns returns the first missing column, and none exactly when all five are present |
| Loader.MissingFoodIsNamed | perfume_dashboard.py:16-20 | a header without `Food` is rejected, naming `Food` |
| Loader.CheckPrecedesStrip | perfume_dashboard.py:17-37 | the required-column test sees the unstripped header: `" Food"` is rejected although the stripped header would pass |
| Loader.StripAll | app1.py:10 | the new header has one entry per column, each the whitespace-stripped name |
| Loader.StripAllIdempotent | app1.py:10 | stripping the header twice is stripping it once |
| Loader.DataFrame.NormalizeEffects | perfume_dashboard.py:33-34 | the effect column is replaced by its normalization; the header is unchanged |
| Loader.DataFrame.StripColumns | perfume_dashboard.py:37 | the header is replaced by its stripped form; the rows are unchanged |
| Loader.LoadDashboard | perfume_dashboard.py:16-37 | check the header as read, then normalize, then strip; on a missing column the sheet is left as read |
| Loader.LoadApp | app1.py:10-22 | strip the header first, then normalize the effect column when it exists; report whether the stripped header has the formula column |
| Text.StripSpec | app1.py:10 | a stripped name begins and ends with no whitespace and sits padded by whitespace inside the original |
| Text.StripIdempotent | app1.py:10 | stripping a stripped name changes nothing |
| Text.Contains | perfume_dashboard.py:42 | substring search is true exactly when the phrase occurs at some index |
| Normalizer.Normalize | perfume_dashboard.py:23-34 | a lower-cased table key maps to its canonical value; any other value passes through lower-cased |
| Normalizer.CanonicalIsFixed | perfume_dashboard.py:23-30 | each canonical value lower-cases to a table key that maps back to it |
| Normalizer.NormalizeIdempotent | perfume_dashboard.py:33-34 | normalizing a normalized effect returns it unchanged |
| Normalizer.NormalizeTypo | perfume_dashboard.py:26 | `"specified effects"` becomes `"Specialized Effects"` |
| Normalizer.NormalizeIgnoresCase | app1.py:12 | a value and its lower-cased spelling normalize to the same label |
| Normalizer.NormalizeUpperCase | app1.py:12 | lower-casing comes first, so `"SAFETY APPROVALS"` becomes `"Safety Approvals"` |
| Normalizer.NormalizePassThrough | app1.py:12-21 | example: `"Mild Effects"`, which is not a table key, becomes `"mild effects"` (the general law is the second `ensures` of `Normalizer.Normalize`) |
| Normalizer.NormalizeRows | perfume_dashboard.py:33-34 | every row keeps its other cells, and its effect is normalized |
| Normalizer.NormalizeRowsIdempotent | app1.py:11-22 | normalizing the sheet twice is normalizing it once; each effect is canonical or lower-case |
| Seqs.Count | app1.py:38 | the counting function agrees with the multiset count |
| Seqs.Distinct | app1.py:108 | `unique()` has no duplicates, contains exactly the values of the input, and is no longer than it |
| Seqs.DistinctOrder | app1.py:108 | `unique()` lists values in the order of their first appearance |
| Seqs.SumCountsCover | app1.py:38 | counting every distinct value and summing gives the length of the input |
| Seqs.Positions | app1.py:92 | the kept positions increase, each satisfies the mask, and every position that satisfies it is kept |
| Seqs.FilterSpec | app1.py:92 | a filter keeps exactly the elements satisfying the mask, in their original order |
| Seqs.FilterSnoc | app1.py:159-163 | filtering an extended sequence extends the result by the new element exactly when it is kept |
| Seqs.FilterOne | app1.py:159-163 | when only one element satisfies the mask, filtering yields exactly that element |
| Aggregate.ValueCounts | app1.py:47 | keys are exactly the values present, each mapped to its positive occurrence count |
| Aggregate.ValueCountsTotal | perfume_dashboard.py:106 | one positive entry per distinct value, summing to the number of values |
| Aggregate.BuildPivot | perfume_dashboard.py:118-119 | the table is dense over distinct rows × distinct effects, and each cell is the number of matching records |
| Aggregate.PivotCells | perfume_dashboard.py:119 | zero-filling: a cell is zero exactly when no record has that row and effect |
| Aggregate.PivotMass | perfume_dashboard.py:133-134 | all cells of the table sum to the number of records |
| Aggregate.RowCountIsCount | app1.py:85 | one row's cells, summed over every effect, count the records with that row key |
| Records.CompositeShape | app1.py:76-77 | the composite label is the flavour, `" ("`, the formula, then `")"` |
| Records.CompositeSeparatesFormulas | app1.py:75-78 | with the formula column, equal flavours get equal labels exactly when their formulas are equal; without it, always |
| Slices.SliceIndex | app1.py:92 | the slice's index increases and names only rows whose effect matches |
| Slices.Slice | app1.py:92 | a slice is no longer than the sheet, has one row per index entry, and holds only matching rows |
| Slices.SliceSpec | app1.py:92 | a slice keeps exactly the matching rows in original order, and its k-th row is the row at its k-th index |
| Slices.ScatterPoints | app1.py:92-100 | scatter point k pairs position k with the row number of the k-th sliced row; the row numbers increase and are exactly those of the matching rows, so duplicate records keep their own row numbers |
| Slices.SliceSize | app1.py:92 | an exact slice has as many rows as the effect has occurrences |
| Slices.ExactWithinContains | perfume_dashboard.py:42 | every row where the effect equals `e` is kept by the case-insensitive filter on `e` |
| Slices.SlicesPartition | app1.py:92 | concatenating the exact slices over a duplicate-free list covering all effects yields every row number exactly once |
| Slices.EffectSlicesPartition | app1.py:108-109 | the slices of the distinct effects together hold every row exactly once |
| Slices.EffectSlicesDisjoint | app1.py:92 | slices of different effects are disjoint, and each row lies in the slice of its own effect |
| Slices.SliceFoodCounts | app1.py:98 | the food counts of a slice are positive, key on the slice's foods, and sum to the slice's size |
| Questions.Lookup | app1.py:158 | lookup gives `None` (a `KeyError`) exactly when the name is not in the registry |
| Questions.Put | app1.py:109 | assigning a new key appends the entry at the end |
| Questions.PutFinds | app1.py:109 | after assignment the key maps to the new builder |
| Questions.PutKeepsOthers | app1.py:109 | assignment leaves every other key's builder unchanged |
| Questions.PutKeepsNames | app1.py:109 | assigning an existing key keeps every key in its place |
| Questions.Build | app1.py:65-101 | the distribution and slice builders return three charts, the two pivot builders two |
| Questions.Registry | app1.py:103-109 | the registry holds the three static questions plus one per distinct effect |
| Questions.BuildQuestionMap | app1.py:103-109 | the loop yields the three static entries, then one `"<e> (specific)"` entry per distinct effect in first-appearance order |
| Questions.RegistryStatic | app1.py:103-107 | the registry has 3 + (number of distinct effects) entries, and the static names find their builders |
| Questions.RegistrySpecific | app1.py:108-109 | the question of effect `e` slices on `e` itself, not on the last value of the loop |
| Questions.RegistryNamesDistinct | app1.py:103-109 | registry names are pairwise different |
| Questions.StaticNamesNotSpecific | app1.py:109 | no static question name ends in `" (specific)"` |
| Questions.SpecificNameInjective | app1.py:109 | different effects give different question names |
| Questions.BuildKinds | app1.py:67-101 | chart kinds per builder are bar/pie/box, heat/corr and pie/bar/scatter, whatever the data, and never repeat |
| Questions.BuilderPivotMass | app1.py:78-85 | the flavour and food tables each hold every record exactly once |
| Questions.DistributionTotal | app1.py:65-71 | the distribution counts have one positive entry per distinct effect, summing to the number of records |
| Selection.LabelOf | app1.py:133-139 | a caption comes from the label table, falling back to the key itself |
| Selection.Reached | app1.py:159-160 | names how far `draw` gets: every earlier kind has a check-button and the kind there has none |
| Selection.BuildLabels | app1.py:133-139 | every builder kind has a caption of its own, listed per builder |
| Selection.Drawn | app1.py:156-163 | every chart `draw` renders is one of the builder's charts and has a check-button that is on |
| Selection.Launch | app1.py:10-144 | start-up loads the sheet, registers the questions of its distinct effects, passes the stripped header's formula flag to the builders and opens on the first question; no window when the effect column is missing |
| Selection.ChartSelection.constructor | app1.py:119-144 | start-up selects the first question and builds its check-buttons |
| Selection.ChartSelection.Rebuild | app1.py:125-141 | the old check-buttons are dropped; there is one per kind of the chosen question, all off, and none on a `KeyError` |
| Selection.ChartSelection.Select | app1.py:143 | choosing a question rebuilds the check-buttons |
| Selection.ChartSelection.Toggle | app1.py:138-139 | clicking a check-button flips its variable and nothing else |
| Selection.ChartSelection.Draw | app1.py:156-163 | canvases are cleared, then the checked charts are rendered in builder order up to the first kind without a check-button; nothing is drawn on a `KeyError` |
| Selection.DrawnAfterRebuild | app1.py:125-163 | drawing right after a rebuild renders nothing |
| Selection.DrawnAllPresent | app1.py:159-163 | with every kind present, draw renders exactly the checked charts, in builder order |
| Selection.DrawnOne | app1.py:159-163 | checking one button after a rebuild renders exactly that chart |
| Dashboard.DashboardPivotMass | perfume_dashboard.py:118-134 | the flavour and food tables are dense and their cells sum to the number of records |
| Dashboard.Find | perfume_dashboard.py:282 | lookup gives `None` (a `KeyError`) exactly when the text is not a question; otherwise it gives the registered analysis |
| Dashboard.GraphFuncsDistinct | perfume_dashboard.py:246-255 | there are exactly eight questions, with pairwise different texts |
| Dashboard.FindFoodOnly | perfume_dashboard.py:249 | the food table is registered under the food question and no other |
| Dashboard.Analyze | perfume_dashboard.py:40-69 | the printed count is the number of rows the case-insensitive filter keeps, at most the number of rows |
| Dashboard.Plot | perfume_dashboard.py:104-156 | only the food table returns two figures |
| Dashboard.Shown | perfume_dashboard.py:273-294 | nothing is shown exactly when the text is not a question, and never more than two figures |
| Dashboard.ShownCount | perfume_dashboard.py:281-294 | `show_graph` shows the food heat-map and its correlation map for the food question, one figure for any other question, none for an unknown text |
| Dashboard.Board.ShowGraph | perfume_dashboard.py:273-294 | canvases are cleared, then exactly the shown figures are added; the status is false on a `KeyError` |
| Dashboard.Board.Choose | perfume_dashboard.py:296 | choosing a question shows its figures |
| Dashboard.Board.constructor | perfume_dashboard.py:299-300 | start-up selects the first question and shows it |
| Dashboard.AnalyzeCount | perfume_dashboard.py:42-45 | the filter keeps exactly the rows whose effect contains the phrase ignoring case, in order; the printed count is their number |
| Dashboard.AnalyzeReplacements | perfume_dashboard.py:56 | the replacement table lists the agents of the kept rows, row by row |
| Dashboard.AnalyzeFlavours | perfume_dashboard.py:49 | the printed flavours are those of the kept rows, each once |
| Dashboard.AnalyzeFoods | perfume_dashboard.py:60 | the pie's food counts are positive, key on the kept rows' foods, and sum to the printed count |
| Dashboard.PhraseSelectsCanonical | perfume_dashboard.py:161 | each filter phrase selects every row whose normalized effect is its canonical value |
| Dashboard.SpecifiedIsSpecialized | perfume_dashboard.py:192 | a `"specified effects"` row is counted by the specialized-effects question |

## Left out

- GUI widgets, event binding, window layout, and creating or destroying canvases as objects. The model keeps only the toggle map, the caption list and the list of charts or figures on screen.
- Plotting (matplotlib and seaborn): titles, sizes, colours, `autopct` formatting, `plt.clf`/`plt.gcf` figure state. A chart is modelled as the data it is drawn from.
- `pd.read_excel` and the file-not-found exit. I/O is not modelled; loading starts from a header list and rows.
- `print` output and its formatting. The printed report is modelled as a value (`Dashboard.Analyze`).
- Correlation maps (`DataFrame.corr()`): floating-point Pearson correlation with NaN semantics. A correlation chart carries the pivot it would be computed from.
- Missing cells (NaN) in `str.lower`, `str.contains` and `groupby`. Every cell is a present string.
- Text.Lower: lower-cases ASCII letters only, because Python's full Unicode case mapping is not modelled.
- Text.Contains: the `str.contains(..., case=False)` test is plain substring search on lower-cased text, not a regular expression with IGNORECASE. The five phrases hold no regex metacharacters.
- Aggregate.BuildPivot: rows and columns follow first appearance, while pandas sorts group keys. The cells are the same; only the order of rows and columns differs.
- Aggregate.ValueCounts: a map, so the count-descending order of `value_counts()` (the bar and slice order in the charts) is not modelled.
- The unused `natural_agents = ...unique()` values in the `analyze_*` and `plot_*_effects` functions are not modelled. They are computed and never used.
- Questions.Build: `app1.py` reads `Food` and `Flavour of Aroma` with no check, in the builders and slices. A sheet without one of them raises `KeyError` inside `rebuild_checkbuttons` or `draw`, after the check-buttons or canvases were cleared. That error is not modelled: every record has every field.
- The `"Chemical Formula"` test of `build_slice` runs on the slice's columns. These are the sheet's columns, so the model passes the sheet's flag.
