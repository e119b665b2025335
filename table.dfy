/**
 * The uploaded table as the page sees it after `pd.read_csv`: named, typed
 * columns and rows of cells, and the input check that binds the four measure
 * roles to the first four numeric columns.
 */
module Table {
  import opened Wrappers

  /** One cell: a number in a numeric column, text in a dimension column, or NaN. */
  datatype Value = Num(n: int) | Str(s: string) | Missing

  /** A row maps column names to cells. */
  type Row = map<string, Value>

  /** What `select_dtypes(include=[np.number])` decides about a column. */
  datatype Kind = Numeric | Categorical

  datatype Column = Column(name: string, kind: Kind)

  /** The cell of `row` in column `col`; a column the row lacks reads as NaN. */
  function CellOf(row: Row, col: string): Value {
    if col in row then row[col] else Missing
  }

  /** Why a run produces no result table. */
  datatype Error =
    | TooFewNumericColumns   // fewer than four numeric columns: the page shows an error instead
    | NoGroupKeys            // no dimension selected: `groupby([])` raises
    | ZeroGrandPopulation    // a grand population is 0: the source's ratios are not finite

  /** The four measure roles: base and current population, base and current sub-count. */
  datatype Roles = Roles(basePop: string, currPop: string, baseSub: string, currSub: string)

  /** The positions of the numeric columns, in column order. */
  function NumericIndices(cols: seq<Column>): (ix: seq<nat>)
    ensures forall i :: 0 <= i < |ix| ==> ix[i] < |cols| && cols[ix[i]].kind == Numeric
    ensures forall i, j :: 0 <= i < j < |ix| ==> ix[i] < ix[j]
    ensures forall j :: 0 <= j < |cols| && cols[j].kind == Numeric ==> j in ix
  {
    if cols == [] then []
    else
      var ix := NumericIndices(cols[..|cols| - 1]);
      if cols[|cols| - 1].kind == Numeric then ix + [|cols| - 1] else ix
  }

  /** `numeric_cols`: the names of the numeric columns, in column order. */
  function NumericColumns(cols: seq<Column>): (names: seq<string>) {
    var ix := NumericIndices(cols);
    seq(|ix|, i requires 0 <= i < |ix| => cols[ix[i]].name)
  }

  /** `dimension_cols`: the names of the columns whose name is not a numeric column's. */
  function DimensionColumns(cols: seq<Column>): (names: seq<string>)
    ensures forall n :: n in names <==> exists j :: 0 <= j < |cols| && cols[j].name == n && n !in NumericColumns(cols)
  {
    NamesNotIn(cols, NumericColumns(cols))
  }

  /** The names of the columns in `cols` that are not in `excluded`. */
  function NamesNotIn(cols: seq<Column>, excluded: seq<string>): (names: seq<string>)
    ensures forall n :: n in names <==> exists j :: 0 <= j < |cols| && cols[j].name == n && n !in excluded
  {
    if cols == [] then []
    else
      var names := NamesNotIn(cols[..|cols| - 1], excluded);
      var c := cols[|cols| - 1];
      assert forall j :: 0 <= j < |cols| - 1 ==> cols[..|cols| - 1][j] == cols[j];
      if c.name in excluded then names else names + [c.name]
  }

  /**
   * The input check and `in0, in1, ref0, ref1 = numeric_cols[:4]`: a table with
   * fewer than four numeric columns is rejected, otherwise the roles are the first
   * four numeric columns in column order.
   */
  function BindRoles(cols: seq<Column>): (r: Result<Roles, Error>)
    ensures r.Err? <==> |NumericIndices(cols)| < 4
    ensures r.Err? ==> r.error == TooFewNumericColumns
    ensures r.Ok? ==> var ix := NumericIndices(cols);
      r.value == Roles(cols[ix[0]].name, cols[ix[1]].name, cols[ix[2]].name, cols[ix[3]].name)
  {
    var names := NumericColumns(cols);
    if |names| < 4 then Err(TooFewNumericColumns)
    else Ok(Roles(names[0], names[1], names[2], names[3]))
  }

  /**
   * Positions `i0 < i1 < i2 < i3` are numeric columns, and no other column
   * before `i3` is numeric: they are the first four numeric columns.
   */
  predicate FirstFourNumericAt(cols: seq<Column>, i0: nat, i1: nat, i2: nat, i3: nat) {
    && i0 < i1 < i2 < i3 < |cols|
    && cols[i0].kind == Numeric && cols[i1].kind == Numeric
    && cols[i2].kind == Numeric && cols[i3].kind == Numeric
    && (forall j :: 0 <= j < i3 && j != i0 && j != i1 && j != i2 ==> cols[j].kind != Numeric)
  }

  /** The roles are the names of the first four numeric columns, in column order. */
  lemma {:induction false} RolesAreFirstFourNumeric(cols: seq<Column>)
    requires BindRoles(cols).Ok?
    ensures exists i0: nat, i1: nat, i2: nat, i3: nat ::
      && FirstFourNumericAt(cols, i0, i1, i2, i3)
      && BindRoles(cols).value == Roles(cols[i0].name, cols[i1].name, cols[i2].name, cols[i3].name)
  {
    var ix := NumericIndices(cols);
    var i0, i1, i2, i3 := ix[0], ix[1], ix[2], ix[3];
    assert i0 < i1 < i2 < i3 < |cols|;
    forall j | 0 <= j < i3 && j != i0 && j != i1 && j != i2
      ensures cols[j].kind != Numeric
    {
      NotNumericIndex(cols, j);
    }
    assert FirstFourNumericAt(cols, i0, i1, i2, i3);
  }

  /** A position below the fourth numeric one that is not among the first three is not numeric. */
  lemma NotNumericIndex(cols: seq<Column>, j: nat)
    requires |NumericIndices(cols)| >= 4
    requires var ix := NumericIndices(cols);
      j < ix[3] && j != ix[0] && j != ix[1] && j != ix[2]
    ensures j < |cols| && cols[j].kind != Numeric
  {
    var ix := NumericIndices(cols);
    forall k | 0 <= k < |ix| ensures ix[k] != j {
      if k > 3 { assert ix[3] < ix[k]; }
    }
  }

  /** The four summed quantities of a row or of a group. */
  datatype Measures = Measures(basePop: int, currPop: int, baseSub: int, currSub: int)

  const Zero := Measures(0, 0, 0, 0)

  function Add(a: Measures, b: Measures): Measures {
    Measures(a.basePop + b.basePop, a.currPop + b.currPop, a.baseSub + b.baseSub, a.currSub + b.currSub)
  }

  /** What a cell adds to a column sum: pandas' `sum` skips NaN. */
  function Amount(v: Value): int {
    if v.Num? then v.n else 0
  }

  /** The four measures of one row under the bound roles. */
  function MeasuresOf(row: Row, roles: Roles): Measures {
    Measures(Amount(CellOf(row, roles.basePop)), Amount(CellOf(row, roles.currPop)),
             Amount(CellOf(row, roles.baseSub)), Amount(CellOf(row, roles.currSub)))
  }
}
