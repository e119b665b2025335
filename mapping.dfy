/**
 * The manual regrouping of one dimension: the mapping text `A类=一二年级|三年级`
 * (one group per line) is parsed into a value-to-label dictionary, and the
 * chosen column of a copy of the table is rewritten through it.
 */
module Mapping {
  import opened Strings
  import opened Table

  /** The select-box choice that switches regrouping off. */
  const NoMerge := "不归类"

  /** What the inner loop adds: each stripped member in turn is mapped to the group label. */
  function MemberEntries(vals: seq<string>, groupLabel: string): (m: map<string, string>)
    ensures forall v :: v in m ==> m[v] == groupLabel
  {
    if vals == [] then map[]
    else MemberEntries(vals[..|vals| - 1], groupLabel)[Strip(vals[|vals| - 1]) := groupLabel]
  }

  /** The dictionary's keys are exactly the stripped members. */
  lemma {:induction false} MemberEntriesDomain(vals: seq<string>, groupLabel: string, v: string)
    ensures v in MemberEntries(vals, groupLabel) <==> exists k :: 0 <= k < |vals| && Strip(vals[k]) == v
  {
    if vals != [] {
      var init := vals[..|vals| - 1];
      MemberEntriesDomain(init, groupLabel, v);
      assert forall k :: 0 <= k < |init| ==> init[k] == vals[k];
    }
  }

  /**
   * What one line contributes: nothing without an `=`; otherwise the text after the
   * first `=`, split on `|`, each piece stripped and mapped to the stripped text before it.
   */
  function LineEntries(line: string): (m: map<string, string>) {
    if '=' in line then
      var (group, members) := SplitOnce(line, '=');
      MemberEntries(Split(members, '|'), Strip(group))
    else map[]
  }

  /** The dictionary after the loop over `lines`: each line's entries override the earlier ones. */
  function MappingOf(lines: seq<string>): (m: map<string, string>) {
    if lines == [] then map[]
    else MappingOf(lines[..|lines| - 1]) + LineEntries(lines[|lines| - 1])
  }

  /** The lines of the mapping text: `mapping_text.strip().split("\n")`. */
  function MappingLines(text: string): (lines: seq<string>) {
    Split(Strip(text), '\n')
  }

  /** `value_to_group` for a mapping text. */
  function ParseMapping(text: string): (m: map<string, string>) {
    MappingOf(MappingLines(text))
  }

  /** The parse loop of the page: fills `value_to_group` line by line. */
  method ParseMappingText(text: string) returns (valueToGroup: map<string, string>)
    ensures valueToGroup == ParseMapping(text)
  {
    var mappingLines := Split(Strip(text), '\n');
    valueToGroup := map[];
    for i := 0 to |mappingLines|
      invariant valueToGroup == MappingOf(mappingLines[..i])
    {
      assert mappingLines[..i + 1] == mappingLines[..i] + [mappingLines[i]];
      valueToGroup := AddLine(valueToGroup, mappingLines[i]);
    }
    assert mappingLines[..|mappingLines|] == mappingLines;
  }

  /** The body of the parse loop for one line: a line with an `=` adds its members. */
  method AddLine(valueToGroup: map<string, string>, line: string) returns (m: map<string, string>)
    ensures m == valueToGroup + LineEntries(line)
  {
    m := valueToGroup;
    if '=' in line {
      var (group, members) := SplitOnce(line, '=');
      m := AddMembers(m, Split(members, '|'), Strip(group));
    }
  }

  /** The inner loop: each member of one line, stripped, is assigned the line's label. */
  method AddMembers(valueToGroup: map<string, string>, vals: seq<string>, groupLabel: string)
    returns (m: map<string, string>)
    ensures m == valueToGroup + MemberEntries(vals, groupLabel)
  {
    m := valueToGroup;
    for j := 0 to |vals|
      invariant m == valueToGroup + MemberEntries(vals[..j], groupLabel)
    {
      assert vals[..j + 1][..j] == vals[..j];
      OverrideUpdate(valueToGroup, MemberEntries(vals[..j], groupLabel), Strip(vals[j]), groupLabel);
      m := m[Strip(vals[j]) := groupLabel];
    }
    assert vals[..|vals|] == vals;
  }

  lemma OverrideUpdate(a: map<string, string>, b: map<string, string>, k: string, v: string)
    ensures a + b[k := v] == (a + b)[k := v]
  {
  }

  /** A line without `=` contributes nothing. */
  lemma {:induction false} LineWithoutEqualsIgnored(lines: seq<string>, line: string)
    requires '=' !in line
    ensures MappingOf(lines + [line]) == MappingOf(lines)
  {
    assert (lines + [line])[..|lines|] == lines;
  }

  /**
   * Only the first `=` separates the label from the members, so the members may
   * contain `=`; every `|`-separated member, stripped, is mapped to the stripped label.
   */
  lemma {:induction false} LineEntriesExact(group: string, members: string, v: string)
    requires '=' !in group
    ensures var line := group + "=" + members;
      && (v in LineEntries(line) <==>
            exists k :: 0 <= k < |Split(members, '|')| && Strip(Split(members, '|')[k]) == v)
      && (v in LineEntries(line) ==> LineEntries(line)[v] == Strip(group))
  {
    SplitOnceExact(group, members, '=');
    assert group + "=" + members == group + ['='] + members;
    assert LineEntries(group + "=" + members) == MemberEntries(Split(members, '|'), Strip(group));
    MemberEntriesDomain(Split(members, '|'), Strip(group), v);
  }

  /** A value is in the dictionary exactly when some line lists it. */
  lemma {:induction false} MappingDomain(lines: seq<string>, v: string)
    ensures v in MappingOf(lines) <==> exists i :: 0 <= i < |lines| && v in LineEntries(lines[i])
  {
    if lines != [] {
      var n := |lines| - 1;
      var init, last := lines[..n], LineEntries(lines[n]);
      MappingDomain(init, v);
      assert MappingOf(lines) == MappingOf(init) + last;
      if v in last {
        assert 0 <= n < |lines| && v in LineEntries(lines[n]);
      } else {
        assert forall i :: 0 <= i < n ==> init[i] == lines[i];
      }
    }
  }

  /** A value listed on several lines gets the label of the last line that lists it. */
  lemma {:induction false} LastLineWins(lines: seq<string>, i: nat, v: string)
    requires i < |lines| && v in LineEntries(lines[i])
    requires forall j :: i < j < |lines| ==> v !in LineEntries(lines[j])
    ensures v in MappingOf(lines) && MappingOf(lines)[v] == LineEntries(lines[i])[v]
  {
    var init := lines[..|lines| - 1];
    if i < |lines| - 1 {
      assert init[i] == lines[i];
      LastLineWins(init, i, v);
    }
  }

  /** `value_to_group.get(x, x)`: text found in the dictionary is relabelled, anything else kept. */
  function RemapValue(x: Value, valueToGroup: map<string, string>): Value {
    if x.Str? && x.s in valueToGroup then Str(valueToGroup[x.s]) else x
  }

  /** One row with its `col` cell passed through the dictionary; every other cell is kept. */
  function RemapRow(row: Row, col: string, valueToGroup: map<string, string>): (r: Row)
    ensures r.Keys == row.Keys
    ensures CellOf(r, col) == RemapValue(CellOf(row, col), valueToGroup)
    ensures forall c :: c != col ==> CellOf(r, c) == CellOf(row, c)
  {
    if col in row then row[col := RemapValue(row[col], valueToGroup)] else row
  }

  /** The table after `working_df[merge_dim] = working_df[merge_dim].apply(...)`. */
  function RemapRows(rows: seq<Row>, col: string, valueToGroup: map<string, string>): (r: seq<Row>) {
    seq(|rows|, i requires 0 <= i < |rows| => RemapRow(rows[i], col, valueToGroup))
  }

  /** The column rewrite, in place on the working copy. */
  method RemapColumn(working: array<Row>, col: string, valueToGroup: map<string, string>)
    modifies working
    ensures working[..] == RemapRows(old(working[..]), col, valueToGroup)
  {
    for i := 0 to working.Length
      invariant forall k :: 0 <= k < i ==> working[k] == RemapRow(old(working[k]), col, valueToGroup)
      invariant forall k :: i <= k < working.Length ==> working[k] == old(working[k])
    {
      working[i] := RemapRow(working[i], col, valueToGroup);
    }
  }

  /** When no cell of `col` holds text the dictionary knows (an empty dictionary, say), nothing changes. */
  lemma {:induction false} RemapUnmatchedIsIdentity(rows: seq<Row>, col: string, valueToGroup: map<string, string>)
    requires forall i :: 0 <= i < |rows| ==> !(CellOf(rows[i], col).Str? && CellOf(rows[i], col).s in valueToGroup)
    ensures RemapRows(rows, col, valueToGroup) == rows
  {
    forall i | 0 <= i < |rows| ensures RemapRow(rows[i], col, valueToGroup) == rows[i] {
      var row := rows[i];
      if col in row {
        assert row[col := row[col]] == row;
      }
    }
  }

  /** Regrouping rewrites only text, so no row's measures change. */
  lemma {:induction false} RemapKeepsMeasures(rows: seq<Row>, col: string, valueToGroup: map<string, string>, roles: Roles)
    ensures var r := RemapRows(rows, col, valueToGroup);
      |r| == |rows| && forall i :: 0 <= i < |rows| ==> MeasuresOf(r[i], roles) == MeasuresOf(rows[i], roles)
  {
  }

  /** The rows the group-by sees: regrouped only when a column is chosen and the text is not blank. */
  function WorkingRows(df: seq<Row>, mergeDim: string, text: string): (r: seq<Row>) {
    if mergeDim != NoMerge && Strip(text) != "" then RemapRows(df, mergeDim, ParseMapping(text)) else df
  }

  /** With "不归类" chosen or a blank mapping text, the working data is the original data. */
  lemma {:induction false} NoRegroupingKeepsData(df: seq<Row>, mergeDim: string, text: string)
    requires mergeDim == NoMerge || AllSpace(text)
    ensures WorkingRows(df, mergeDim, text) == df
  {
    StripEnds(text);
  }

  /** Regrouping changes at most the chosen column: every other cell of every row is kept. */
  lemma {:induction false} RegroupingTouchesOnlyChosenColumn(df: seq<Row>, mergeDim: string, text: string, c: string)
    requires c != mergeDim
    ensures var w := WorkingRows(df, mergeDim, text);
      |w| == |df| && forall i :: 0 <= i < |df| ==> w[i].Keys == df[i].Keys && CellOf(w[i], c) == CellOf(df[i], c)
  {
  }
}
