/**
 * One press of "开始拆解": bind the four measure roles, copy the uploaded table,
 * optionally regroup one dimension through the mapping text, group and sum,
 * then decompose and append the total row.
 */
module Pipeline {
  import opened Wrappers
  import opened Strings
  import opened Table
  import opened Mapping
  import opened Aggregation
  import opened Decomposition

  /**
   * The result table for the uploaded columns and rows, the selected
   * dimensions, the column chosen for regrouping and the mapping text.
   */
  function Analyze(cols: seq<Column>, df: seq<Row>, dims: seq<string>, mergeDim: string, mappingText: string)
    : (r: Result<seq<ResultRow>, Error>)
  {
    match BindRoles(cols)
    case Err(e) => Err(e)
    case Ok(roles) =>
      if dims == [] then Err(NoGroupKeys)
      else
        var groups := Aggregate(WorkingRows(df, mergeDim, mappingText), dims, roles);
        if !NonzeroGrandPopulations(Total(groups)) then Err(ZeroGrandPopulation)
        else Ok(ResultTable(|dims|, groups))
  }

  /** `df.copy()`: a new array with the same rows. */
  method CopyRows(df: array<Row>) returns (copy: array<Row>)
    ensures fresh(copy)
    ensures copy[..] == df[..]
  {
    copy := new Row[df.Length](i requires 0 <= i < df.Length reads df => df[i]);
  }

  /**
   * The analysis as the program runs it: the regrouping rewrites a copy, so the
   * uploaded rows are left as they were, and the outcome is `Analyze`.
   */
  method Run(cols: seq<Column>, df: array<Row>, dims: seq<string>, mergeDim: string, mappingText: string)
    returns (result: Result<seq<ResultRow>, Error>)
    ensures result == Analyze(cols, df[..], dims, mergeDim, mappingText)
  {
    var bound := BindRoles(cols);
    if bound.Err? {
      return Err(bound.error);
    }
    var roles := bound.value;
    if dims == [] {
      return Err(NoGroupKeys);
    }
    var working := CopyRows(df);
    if mergeDim != NoMerge && Strip(mappingText) != "" {
      var valueToGroup := ParseMappingText(mappingText);
      RemapColumn(working, mergeDim, valueToGroup);
    }
    assert working[..] == WorkingRows(df[..], mergeDim, mappingText);
    var groups := GroupSum(working, dims, roles);
    if !NonzeroGrandPopulations(Total(groups)) {
      return Err(ZeroGrandPopulation);
    }
    result := Ok(ResultTable(|dims|, groups));
  }

  /** Regrouping leaves the grand sums of the four measures as they were. */
  lemma {:induction false} RegroupingKeepsTotals(df: seq<Row>, mergeDim: string, mappingText: string, roles: Roles)
    ensures RowsTotal(WorkingRows(df, mergeDim, mappingText), roles) == RowsTotal(df, roles)
  {
    if mergeDim != NoMerge && Strip(mappingText) != "" {
      RemapRowsTotal(df, mergeDim, ParseMapping(mappingText), roles);
    }
  }

  lemma {:induction false} RemapRowsTotal(rows: seq<Row>, col: string, valueToGroup: map<string, string>, roles: Roles)
    ensures RowsTotal(RemapRows(rows, col, valueToGroup), roles) == RowsTotal(rows, roles)
  {
    if rows != [] {
      var n := |rows| - 1;
      var r := RemapRows(rows, col, valueToGroup);
      assert r[..n] == RemapRows(rows[..n], col, valueToGroup);
      RemapRowsTotal(rows[..n], col, valueToGroup, roles);
      RemapKeepsMeasures(rows, col, valueToGroup, roles);
    }
  }

  /**
   * The three errors and when each occurs: fewer than four numeric columns,
   * then no dimension selected, then a grand population of zero in either
   * period; otherwise there is a result table.
   */
  lemma {:induction false} AnalyzeOutcome(cols: seq<Column>, df: seq<Row>, dims: seq<string>, mergeDim: string, mappingText: string)
    ensures var r := Analyze(cols, df, dims, mergeDim, mappingText);
      && (|NumericIndices(cols)| < 4 ==> r == Err(TooFewNumericColumns))
      && (|NumericIndices(cols)| >= 4 && dims == [] ==> r == Err(NoGroupKeys))
      && (|NumericIndices(cols)| >= 4 && dims != [] ==>
            var t := RowsTotal(df, BindRoles(cols).value);
            && (r.Err? <==> t.basePop == 0 || t.currPop == 0)
            && (r.Err? ==> r.error == ZeroGrandPopulation))
  {
    if |NumericIndices(cols)| >= 4 && dims != [] {
      var roles := BindRoles(cols).value;
      var working := WorkingRows(df, mergeDim, mappingText);
      AggregateKeepsTotals(working, dims, roles);
      RegroupingKeepsTotals(df, mergeDim, mappingText, roles);
    }
  }

  /** The groups the group-by produces once the roles are bound. */
  function Groups(cols: seq<Column>, df: seq<Row>, dims: seq<string>, mergeDim: string, mappingText: string)
    : (gs: seq<Group<Key>>)
    requires BindRoles(cols).Ok?
  {
    Aggregate(WorkingRows(df, mergeDim, mappingText), dims, BindRoles(cols).value)
  }

  /** A successful analysis is the decomposition of the groups followed by the total row. */
  lemma {:induction false} AnalyzeIsResultTable(cols: seq<Column>, df: seq<Row>, dims: seq<string>, mergeDim: string, mappingText: string, rows: seq<ResultRow>)
    requires Analyze(cols, df, dims, mergeDim, mappingText) == Ok(rows)
    ensures BindRoles(cols).Ok? && dims != []
    ensures NonzeroGrandPopulations(Total(Groups(cols, df, dims, mergeDim, mappingText)))
    ensures rows == ResultTable(|dims|, Groups(cols, df, dims, mergeDim, mappingText))
  {
  }

  /**
   * The group rows of a result table: one row per distinct key of the
   * (regrouped) data, in first-seen order, no key twice, each row holding the
   * sums of the data rows with its key.
   */
  lemma {:induction false} AnalyzeGroupRows(cols: seq<Column>, df: seq<Row>, dims: seq<string>, mergeDim: string, mappingText: string, rows: seq<ResultRow>)
    requires Analyze(cols, df, dims, mergeDim, mappingText) == Ok(rows)
    ensures BindRoles(cols).Ok?
    ensures var es := Entries(WorkingRows(df, mergeDim, mappingText), dims, BindRoles(cols).value);
      && |rows| == |Keys(es)| + 1
      && (forall i, j :: 0 <= i < j < |rows| - 1 ==> rows[i].dims != rows[j].dims)
      && (forall i :: 0 <= i < |rows| - 1 ==> rows[i].dims == Keys(es)[i] && rows[i].sums == KeySum(es, Keys(es)[i]))
  {
    AnalyzeIsResultTable(cols, df, dims, mergeDim, mappingText, rows);
    var es := Entries(WorkingRows(df, mergeDim, mappingText), dims, BindRoles(cols).value);
    var gs := Groups(cols, df, dims, mergeDim, mappingText);
    var ks := Keys(es);
    assert gs == GroupsFor(ks, es);
    GroupRowsOf(|dims|, gs);
    forall i | 0 <= i < |gs| ensures rows[i].dims == ks[i] && rows[i].sums == KeySum(es, ks[i]) {
      assert gs[i] == Group(ks[i], KeySum(es, ks[i]));
    }
  }

  /**
   * The total row of a result table: "总计" in every selected dimension, the
   * grand sums of the uploaded table, shares of 1, the overall base and current
   * rates of the uploaded table, and as effects the sums of
   * the group rows' effects with NaN skipped; and the group rows' shares add up
   * to 1 in each period.
   */
  lemma {:induction false} AnalyzeTotalRow(cols: seq<Column>, df: seq<Row>, dims: seq<string>, mergeDim: string, mappingText: string, rows: seq<ResultRow>)
    requires Analyze(cols, df, dims, mergeDim, mappingText) == Ok(rows)
    ensures BindRoles(cols).Ok? && |rows| >= 1
    ensures NonzeroGrandPopulations(RowsTotal(df, BindRoles(cols).value))
    ensures var n, t := |rows| - 1, RowsTotal(df, BindRoles(cols).value);
      && rows[n].baseRate == Some(OverallBaseRate(t))
      && rows[n].currRate == Some(OverallCurrentRate(t))
    ensures var n := |rows| - 1;
      && rows[n].dims == seq(|dims|, _ => Str(TotalLabel))
      && rows[n].sums == RowsTotal(df, BindRoles(cols).value)
      && rows[n].baseShare == 1.0 && rows[n].currShare == 1.0
      && ShareSum(rows[..n], Base) == 1.0 && ShareSum(rows[..n], Current) == 1.0
      && rows[n].structural == Some(EffectSum(rows[..n], Structural))
      && rows[n].rateEffect == Some(EffectSum(rows[..n], RateChange))
      && rows[n].totalEffect == Some(EffectSum(rows[..n], Combined))
  {
    AnalyzeIsResultTable(cols, df, dims, mergeDim, mappingText, rows);
    var roles := BindRoles(cols).value;
    var working := WorkingRows(df, mergeDim, mappingText);
    var gs := Groups(cols, df, dims, mergeDim, mappingText);
    ResultTableShape(|dims|, gs);
    SharesSumToOne(gs);
    AggregateKeepsTotals(working, dims, roles);
    RegroupingKeepsTotals(df, mergeDim, mappingText, roles);
    assert rows[..|gs|] == Decompose(gs, Total(gs));
  }

  /**
   * Reconciliation on the result table: when every group row has both
   * populations nonzero, the total row's total effect is the change of the
   * overall rate in percentage points.
   */
  lemma {:induction false} AnalyzeReconciles(cols: seq<Column>, df: seq<Row>, dims: seq<string>, mergeDim: string, mappingText: string, rows: seq<ResultRow>)
    requires Analyze(cols, df, dims, mergeDim, mappingText) == Ok(rows)
    requires forall i :: 0 <= i < |rows| - 1 ==> rows[i].sums.basePop != 0 && rows[i].sums.currPop != 0
    ensures |rows| >= 1 && Reconciles(rows[|rows| - 1])
  {
    AnalyzeIsResultTable(cols, df, dims, mergeDim, mappingText, rows);
    var gs := Groups(cols, df, dims, mergeDim, mappingText);
    GroupRowsOf(|dims|, gs);
    assert forall i :: 0 <= i < |gs| ==> rows[i].sums == gs[i].sums;
    TotalRowReconciles(|dims|, gs);
    var total := ResultTable(|dims|, gs)[|gs|];
    assert rows[|rows| - 1] == total;
  }
}
