# Shift-share decomposition of a rate change

The page `analyze_app_multidim.py` takes an uploaded table with some
dimension columns (class, grade, channel, …) and four numeric columns: the
base-period population, the current-period population, and the base and
current sub-counts (refunds, say). It splits the change of the overall rate
`sub / population` between the two periods into a **structural effect** and a
**rate effect** per group, in percentage points:

- `structural = (s1 − s0) · (r0 − R0) · 100`
- `rate       = s1 · (r1 − r0) · 100`
- `total      = structural + rate`

Here `s0, s1` are the group's population shares, `r0, r1` its rates, and `R0` the
overall base rate. A total row is appended.

Before that the page can optionally regroup the values of one dimension
through a mapping text such as `A类=一二年级|三年级` (one group per line).

This project models that computation in Dafny. It is split into modules that follow the steps of the page:

| module | file | what it models |
|---|---|---|
| `Wrappers` | wrappers.dfy | `Option` (pandas' NaN) and `Result` (the error outcomes) |
| `Strings` | strings.dfy | Python's `str.strip()`, `str.split(sep)` and `str.split(sep, 1)` |
| `Table` | table.dfy | cells, rows, typed columns, the numeric-column check and the binding of the four measure roles |
| `Mapping` | mapping.dfy | the mapping-text parser (an imperative loop proved against a recursive definition) and the rewrite of the chosen column on the working copy (an in-place loop over an array) |
| `Aggregation` | aggregation.dfy | `groupby(selected_dims, dropna=False).agg(sum)`: a loop over the rows filling a key-to-sums dictionary, proved against a recursive definition |
| `Decomposition` | decomposition.dfy | shares, rates, overall rates, the three effect columns, the total row and the concatenation |
| `Pipeline` | pipeline.dfy | one press of "开始拆解": the specification function `Analyze` and the method `Run` that performs the steps |

Design choices:

- **Numbers.** Counts are `int`, and shares, rates and effects are `real`, so the decomposition identities hold exactly.
- **NaN.** A NaN result is `None`. A NaN cell in a dimension column is `Missing`. It is a key value of its own, as with `dropna=False`.
- **NaN-skipping sums.** pandas' `sum` skips NaN. So a NaN measure cell counts 0, and the total row's effects add up only the defined group effects.
- **Column kinds.** Which columns are numeric is an input: the list of `Column(name, kind)`.

## Model

| member | source | states |
|---|---|---|
| Strings.StripEnds | analyze_app_multidim.py:39-40 | a stripped text neither begins nor ends with whitespace, and is empty exactly when the text is all whitespace (the test `mapping_text.strip()`) |
| Strings.StripExact | analyze_app_multidim.py:46 | stripping removes exactly the surrounding whitespace of a body whose ends are not whitespace |
| Strings.Split | analyze_app_multidim.py:40 | `split(sep)` yields at least one piece, no piece contains the separator, and joining the pieces with the separator gives back the text |
| Strings.SplitJoin | analyze_app_multidim.py:40 | splitting a joined sequence of separator-free pieces recovers exactly those pieces |
| Strings.SplitOnce | analyze_app_multidim.py:44 | `split("=", 1)` yields a label free of `=` and the rest, which put back together with `=` give the line |
| Strings.SplitOnceExact | analyze_app_multidim.py:44 | only the first `=` splits: the text after it stays whole, further `=` included |
| Table.NumericIndices | analyze_app_multidim.py:19 | the numeric columns' positions are exactly the numeric columns, in increasing column order |
| Table.DimensionColumns | analyze_app_multidim.py:20 | a name is a dimension column exactly when some column has it and it is not a numeric column's name |
| Table.BindRoles | analyze_app_multidim.py:22-23 | the run is rejected with `TooFewNumericColumns` exactly when there are fewer than 4 numeric columns; otherwise the roles are the names at the first four numeric positions |
| Table.RolesAreFirstFourNumeric | analyze_app_multidim.py:33 | the four roles are at increasing numeric positions, and no other column before the fourth is numeric: they are the first four numeric columns in order |
| Mapping.MemberEntries | analyze_app_multidim.py:45-46 | every value the inner loop adds maps to the line's label |
| Mapping.MemberEntriesDomain | analyze_app_multidim.py:45-46 | the values added by a line are exactly its stripped bar-separated members |
| Mapping.ParseMappingText | analyze_app_multidim.py:40-46 | the parse loop yields exactly `ParseMapping(text)`: the lines' entries, each line overriding earlier ones |
| Mapping.AddLine | analyze_app_multidim.py:43-46 | one pass of the outer loop overrides the dictionary with that line's entries, and a line without `=` adds none |
| Mapping.AddMembers | analyze_app_multidim.py:45-46 | the inner loop overrides the dictionary with every stripped member mapped to the label |
| Mapping.LineWithoutEqualsIgnored | analyze_app_multidim.py:43 | a line with no `=` leaves the dictionary as it was |
| Mapping.LineEntriesExact | analyze_app_multidim.py:44-46 | for `label=members`, a value gets an entry exactly when it is a stripped bar-separated member, even if `members` holds more `=`, and the entry is the stripped label |
| Mapping.MappingDomain | analyze_app_multidim.py:42-46 | a value is in the dictionary exactly when some line lists it |
| Mapping.LastLineWins | analyze_app_multidim.py:42-46 | a value listed on several lines gets the label of the last line listing it |
| Mapping.RemapRow | analyze_app_multidim.py:47 | the chosen cell becomes `value_to_group.get(x, x)`; every other cell, and the set of columns, is unchanged |
| Mapping.RemapColumn | analyze_app_multidim.py:47 | the in-place loop leaves the working array equal to the remap of its old contents, row by row |
| Mapping.RemapUnmatchedIsIdentity | analyze_app_multidim.py:47 | when no cell of the column holds a text in the dictionary, the rows are unchanged |
| Mapping.RemapKeepsMeasures | analyze_app_multidim.py:47 | regrouping changes no row's four measures |
| Mapping.NoRegroupingKeepsData | analyze_app_multidim.py:36-39 | with "不归类" chosen or an all-whitespace mapping text, the working data equals the uploaded data |
| Mapping.RegroupingTouchesOnlyChosenColumn | analyze_app_multidim.py:36-47 | regrouping keeps the number of rows, each row's columns and every cell outside the chosen column |
| Aggregation.Keys | analyze_app_multidim.py:49 | the group keys are distinct, every row's key is among them, and each belongs to some row |
| Aggregation.GroupsFor | analyze_app_multidim.py:49-54 | one group per key, in key order, holding the sums of the rows with that key |
| Aggregation.SumByKey | analyze_app_multidim.py:49-54 | the loop over the rows yields the distinct keys in first-seen order and a dictionary whose domain is those keys and whose value for each is the sum over the rows with that key |
| Aggregation.TallyIsKeySums | analyze_app_multidim.py:49-54 | the dictionary fold over the rows yields exactly the distinct keys and their per-key sums |
| Aggregation.GroupSum | analyze_app_multidim.py:49-54 | the group-by method returns exactly `Aggregate` of the working rows |
| Aggregation.GroupByKeepsTotals | analyze_app_multidim.py:49-54 | the sums of the groups add up to the sums of all entries |
| Aggregation.AggregateKeepsTotals | analyze_app_multidim.py:49-54 | the group-by keeps the grand sums of the four measure columns (lines 62-65 sum the grouped columns) |
| Aggregation.OneGroupPerKey | analyze_app_multidim.py:49-54 | no two groups share a key, every row's key has a group, and every group belongs to a row and holds the sums for its key |
| Aggregation.MissingCellsGroupTogether | analyze_app_multidim.py:49 | with `dropna=False`, no row is dropped for a missing key cell, and two rows whose dimension cells agree (missing ones included) share a group |
| Aggregation.MissingKeyIsDistinct | analyze_app_multidim.py:49 | a missing dimension cell is its own key value and never groups with a present value |
| Decomposition.Rate | analyze_app_multidim.py:69-70 | the rate is NaN exactly when the population is 0, otherwise rate × population = sub-count |
| Decomposition.DecomposeGroup | analyze_app_multidim.py:67-75 | a group row keeps its key and sums; share × grand population = group population in each period; base rate and structural effect are NaN exactly when the base population is 0; current rate NaN exactly when the current population is 0; rate and total effect NaN exactly when either is; a defined rate times its population is its sub-count; a defined structural effect is (current share − base share) × (base rate − R0) × 100 and a defined rate effect is current share × (current rate − base rate) × 100, over the row's own columns; and where defined, total = structural + rate |
| Decomposition.ShareSumIsPopulationShare | analyze_app_multidim.py:67-68 | the shares of a period add up to the groups' population over the grand population |
| Decomposition.SharesSumToOne | analyze_app_multidim.py:67-68 | with nonzero grand populations, the base shares sum to 1 and so do the current shares |
| Decomposition.GroupTotalEffect | analyze_app_multidim.py:72-75 | a group with both populations nonzero has total effect `100·(sub1/T1 − sub0/T0 − R0·(s1 − s0))` |
| Decomposition.TotalEffectSum | analyze_app_multidim.py:72-75 | when all groups have both populations nonzero, their total effects add up to the contribution of their summed measures |
| Decomposition.ContributionOfTotal | analyze_app_multidim.py:72 | the grand sums contribute exactly `(R1 − R0)·100` |
| Decomposition.Reconciliation | analyze_app_multidim.py:67-75 | when every group has both populations nonzero, the group total effects sum to `(T_curr_sub/T_curr_pop − T_base_sub/T_base_pop)·100` |
| Decomposition.ResultTableShape | analyze_app_multidim.py:78-93 | the result is the group rows in order, then one total row: "总计" in every dimension, the grand sums, shares 1.0, rates `R0` and `R1`, and each effect the NaN-skipping sum of the group rows' effects |
| Decomposition.GroupRowsOf | analyze_app_multidim.py:93 | the result has one row more than there are groups, and each group row carries its group's key and sums |
| Decomposition.EffectSumAdditive | analyze_app_multidim.py:88-90 | when no group has a base population without a current one, the summed total effect is the summed structural plus the summed rate effect |
| Decomposition.TotalRowAddsUp | analyze_app_multidim.py:88-90 | under that condition the total row's total effect is its structural plus its rate effect |
| Decomposition.TotalRowReconciles | analyze_app_multidim.py:86-90 | with all group populations nonzero, the total row has both rates and its total effect is `(R1 − R0)·100` |
| Decomposition.TotalRowNeedNotAddUp | analyze_app_multidim.py:73-75 | a group with a base population and no current one has a structural effect but a NaN total effect; the total row then shows structural 50 and rate −100 beside total −75 |
| Decomposition.ClassRowA | analyze_app_multidim.py:67-75 | a worked group row: shares 0.5/0.4, rates 0.1/0.15, effects −0.25, 2.0 and 1.75 |
| Decomposition.ClassRowB | analyze_app_multidim.py:67-75 | a worked group row: shares 0.5/0.6, rates 0.05/0.05, effects −0.25, 0.0 and −0.25 |
| Decomposition.ClassExample | analyze_app_multidim.py:62-93 | the two-class table: total row rates 7.5% and 9% and total effect 1.5 points |
| Strings.Strip | analyze_app_multidim.py:39-40 | `str.strip()`; lines 39, 40 and 46 use it; stated by `Strings.StripEnds` and `Strings.StripExact`, which together fix its result on every text |
| Table.NumericColumns | analyze_app_multidim.py:19 | `numeric_cols`: the names at the positions `Table.NumericIndices` gives, in that order; `Table.BindRoles` and `Table.RolesAreFirstFourNumeric` state what is taken from it |
| Table.MeasuresOf | analyze_app_multidim.py:50-53 | a row's four role cells (line 33) as summed amounts; `Mapping.RemapKeepsMeasures` and `Aggregation.AggregateKeepsTotals` state its use |
| Mapping.MappingLines | analyze_app_multidim.py:40 | `mapping_text.strip().split("\n")`; `Strings.StripEnds` and `Strings.Split` state its pieces |
| Mapping.RemapRows | analyze_app_multidim.py:47 | the `.apply` over every row; stated by `Mapping.RemapColumn`, `Mapping.RemapUnmatchedIsIdentity`, `Mapping.RemapKeepsMeasures` and `Pipeline.RemapRowsTotal` |
| Aggregation.KeyOf | analyze_app_multidim.py:49 | the tuple of a row's selected dimension cells, NaN included; stated by `Aggregation.MissingCellsGroupTogether` and `Aggregation.MissingKeyIsDistinct` |
| Aggregation.Tally | analyze_app_multidim.py:49-54 | the key-to-sums fold over the rows; `Aggregation.SumByKey` computes it, and `Aggregation.TallyIsKeySums` shows it yields the distinct keys and their sums |
| Aggregation.Total | analyze_app_multidim.py:62-65 | `grouped[...].sum()` over the four measure columns; `Aggregation.AggregateKeepsTotals` shows it equals the uploaded table's grand sums |
| Decomposition.OverallBaseRate | analyze_app_multidim.py:72 | `R0 = sum_ref0 / sum_in0`, also the total row's base rate (line 86); stated by `Decomposition.Reconciliation` and `Decomposition.ResultTableShape` |
| Decomposition.OverallCurrentRate | analyze_app_multidim.py:87 | `sum_ref1 / sum_in1`, the total row's current rate; stated by `Decomposition.Reconciliation` and `Decomposition.ResultTableShape` |
| Decomposition.Decompose | analyze_app_multidim.py:67-75 | the share, rate and effect columns over all groups, one `Decomposition.DecomposeGroup` row per group in group order; stated by `Decomposition.SharesSumToOne` and `Decomposition.TotalEffectSum` |
| Decomposition.ShareSum | analyze_app_multidim.py:67-68 | the sum of a share column; `Decomposition.SharesSumToOne` shows each period's sums to 1 |
| Mapping.LineEntries | analyze_app_multidim.py:43-46 | what one line adds to `value_to_group`; its properties are stated by `Mapping.LineEntriesExact`, `Mapping.AddLine` and `Mapping.LineWithoutEqualsIgnored` |
| Mapping.MappingOf | analyze_app_multidim.py:42-46 | the dictionary after the loop over the lines, each line overriding earlier ones; stated by `Mapping.MappingDomain` and `Mapping.LastLineWins` |
| Mapping.ParseMapping | analyze_app_multidim.py:40-46 | `value_to_group` for a mapping text; `Mapping.ParseMappingText` is proved to compute it |
| Mapping.RemapValue | analyze_app_multidim.py:47 | `value_to_group.get(x, x)`; stated by `Mapping.RemapRow` and `Mapping.RemapUnmatchedIsIdentity` |
| Mapping.WorkingRows | analyze_app_multidim.py:36-39 | the rows the group-by sees; stated by `Mapping.NoRegroupingKeepsData`, `Mapping.RegroupingTouchesOnlyChosenColumn` and `Pipeline.RegroupingKeepsTotals` |
| Table.Amount | analyze_app_multidim.py:49-54 | what a cell adds to a column sum: pandas' `sum` skips NaN, so a non-number adds 0; used by `Aggregation.AggregateKeepsTotals` |
| Aggregation.KeySum | analyze_app_multidim.py:49-54 | the four sums over the rows of one key; `Aggregation.SumByKey` and `Aggregation.OneGroupPerKey` tie each group to it |
| Aggregation.Aggregate | analyze_app_multidim.py:49-54 | the group-by result for a table; stated by `Aggregation.OneGroupPerKey`, `Aggregation.AggregateKeepsTotals` and `Aggregation.GroupSum` |
| Decomposition.StructuralTerm | analyze_app_multidim.py:73 | the structural effect `(s1 − s0)·(r0 − R0)·100`, NaN with `r0`; stated by `Decomposition.DecomposeGroup` |
| Decomposition.RateTerm | analyze_app_multidim.py:74 | the rate effect `s1·(r1 − r0)·100`, NaN with either rate; stated by `Decomposition.DecomposeGroup` |
| Decomposition.Plus | analyze_app_multidim.py:75 | column addition, NaN when either operand is; stated by `Decomposition.DecomposeGroup` |
| Decomposition.EffectSum | analyze_app_multidim.py:88-90 | an effect column's NaN-skipping sum; stated by `Decomposition.Reconciliation`, `Decomposition.EffectSumAdditive` and `Decomposition.TotalRowNeedNotAddUp` |
| Decomposition.TotalRow | analyze_app_multidim.py:78-91 | the appended total row; stated field by field by `Decomposition.ResultTableShape` |
| Decomposition.ResultTable | analyze_app_multidim.py:93 | the group rows followed by the total row; stated by `Decomposition.ResultTableShape`, `Decomposition.GroupRowsOf` and `Decomposition.TotalRowReconciles` |
| Pipeline.Analyze | analyze_app_multidim.py:33-93 | the whole run as a function; stated by `Pipeline.AnalyzeOutcome`, `Pipeline.AnalyzeGroupRows`, `Pipeline.AnalyzeTotalRow` and `Pipeline.AnalyzeReconciles`, and computed by `Pipeline.Run` |
| Pipeline.Run | analyze_app_multidim.py:33-93 | the run returns exactly `Analyze` of the uploaded rows; it has no `modifies` clause, so the uploaded array is left unchanged and only the fresh copy is rewritten |
| Pipeline.CopyRows | analyze_app_multidim.py:36 | `df.copy()` is a new array with the same rows |
| Pipeline.RegroupingKeepsTotals | analyze_app_multidim.py:39-47 | regrouping leaves the grand sums of the four measures unchanged |
| Pipeline.RemapRowsTotal | analyze_app_multidim.py:47 | rewriting one column keeps the column sums of the measures |
| Pipeline.AnalyzeOutcome | analyze_app_multidim.py:22-23 | fewer than four numeric columns gives `TooFewNumericColumns`; then no dimension gives `NoGroupKeys`; otherwise the run fails exactly when a grand population of the uploaded table is 0, and then with `ZeroGrandPopulation` |
| Pipeline.AnalyzeIsResultTable | analyze_app_multidim.py:78-93 | a successful run is the decomposition of the groups of the working rows followed by the total row |
| Pipeline.AnalyzeGroupRows | analyze_app_multidim.py:49-54 | the result has one row per distinct key of the working rows plus the total row; no key appears twice; each group row holds its key and the sums of the rows with that key |
| Pipeline.AnalyzeTotalRow | analyze_app_multidim.py:78-93 | the uploaded table's grand populations are nonzero; the last row has "总计" in every dimension, the grand sums of the uploaded table, shares 1.0, as rates the uploaded table's overall base and current rates, and effects equal to the NaN-skipping sums of the group rows' effects; the group rows' shares sum to 1 in each period |
| Pipeline.AnalyzeReconciles | analyze_app_multidim.py:67-93 | with every group row's populations nonzero, the total row's total effect is its current rate minus its base rate, in points |

## Left out

- **Not modelled: I/O and display.**
  - The Streamlit page is not modelled: page setup, uploader, form, multiselect, select box, text area, table display and download button.
  - Reading and writing CSV files is not modelled either.
  - The table arrives as a sequence of rows, each a map from column name to cell, and the result is returned as a value.
- **Column kinds.** `select_dtypes(include=[np.number])` is pandas' own type inference. Each column's kind is an input instead.
- **Formatting.** `to_percent` and `.round(4)` (lines 95-104) only render the output. They are not modelled.
- **Column-name strings.** The derived names such as `in0.replace('人数','') + "占比"` (lines 57-60) are not modelled. `ResultRow` has one named field per output column instead.
  - The model therefore assumes the four derived names differ from each other and from the input columns.
  - On the page they can collide, and a later column assignment then overwrites an earlier one. For example, measures `基期人数` and `基期` both give `基期占比`. Line 68 then overwrites the base share with the current share, and every structural effect becomes 0, or NaN where the base rate is NaN.
  - Likewise `退费人数` and `退费` both give `退费率`. Line 70 then overwrites the base rate with the current rate, with these consequences:
    - Line 74 computes `s1·(r1 − r1)·100`, so every rate effect is 0, or NaN where the current population is 0.
    - Line 73 computes `(s1 − s0)·(r1 − R0)·100`. The structural effect uses the current rate, and it is defined even for a group with no base population.
    - The dict literal at lines 86-87 has the key twice, so the total row keeps only `R1`.
- **Float arithmetic.**
  - Measures are integers and ratios are exact reals.
  - The integers are unbounded. pandas' int64 measure columns wrap around when a sum overflows, and the model does not capture that.
  - Floating-point rounding is not modelled.
  - Fractional measure values are not modelled.
- **Form restrictions.** The model accepts any list of column names for the dimensions and any column for the regrouping. The page's multiselect and select box limit these choices, and the model does not enforce that.
- **Group order.** Groups come out in first-seen order; pandas sorts the keys, and NaN keys come last. Only "one row per distinct key" is claimed for the order.
- **Pipeline.Analyze: zero grand population.** When a grand population is 0, the page still produces a table, with inf/NaN shares and rates. The model returns `Err(ZeroGrandPopulation)` instead.
- **Pipeline.Analyze: no dimension selected.** An empty selection makes `groupby([])` raise. The model returns `Err(NoGroupKeys)`.
- **Pipeline.AnalyzeReconciles: when reconciliation holds.** The identity is proved when every group has both populations nonzero, as the decomposition promises.
  - Otherwise the NaN-skipping sums need not reconcile.
  - `Decomposition.TotalRowNeedNotAddUp` shows such a table.
