/**
 * The run-analysis pipeline of the tool's main page (src/app.py:63-242):
 * preprocessing of both tables, the list of selectable fields, the guard on
 * an empty selection, then reshape, join, verdicts, reconciliation, cleanup,
 * annotation and the accuracy totals.
 */
module Pipeline {
  import opened Config
  import opened Strings
  import opened Cells
  import opened Fields
  import opened Seqs
  import opened Normalize
  import opened Reshape
  import opened Align
  import opened Validity
  import opened Reconcile
  import opened Aggregate

  // ---------------------------------------------------------------------
  // Preprocessing and the field list (src/app.py:63-73, 94-98)

  /** The cells of a table after lower-casing, filling and stripping. */
  function PreprocessRows(rows: Rows): Rows {
    StripValues(FillEmptyWithBlank(NormalizeDf(rows)))
  }

  /** Preprocessing works cell by cell and keeps the shape of the table. */
  lemma PreprocessRowsSpec(rows: Rows)
    ensures |PreprocessRows(rows)| == |rows|
    ensures forall i :: 0 <= i < |rows| ==> |PreprocessRows(rows)[i]| == |rows[i]|
    ensures forall i, j :: 0 <= i < |rows| && 0 <= j < |rows[i]| ==> PreprocessRows(rows)[i][j] == PreprocessCell(rows[i][j])
  {
  }

  /** Preprocesses one table: each cell-wise step builds a new frame, and the
      column names are trimmed in place on the filled frame. The input frame
      is not changed. */
  method Preprocess(df: WideFrame) returns (r: WideFrame)
    ensures fresh(r)
    ensures r.columns == StripColumns(df.columns)
    ensures r.rows == PreprocessRows(df.rows)
  {
    var lowered := new WideFrame(df.columns, NormalizeDf(df.rows));
    var filled := new WideFrame(lowered.columns, FillEmptyWithBlank(lowered.rows));
    filled.NormalizeColumns();
    r := new WideFrame(filled.columns, StripValues(filled.rows));
  }

  /** `base_fields`: the sorted set of base names of the non-identifier columns. */
  function SelectableFields(columns: seq<string>): (r: seq<string>)
    ensures Increasing(r)
    ensures forall f :: f in r <==>
              exists c :: c in columns && c != ID_COLUMN && c != JOB_NAME_COLUMN && BaseName(c) == f
  {
    var valueColumns := Filter(columns, (c: string) => c != ID_COLUMN && c != JOB_NAME_COLUMN);
    var names := seq(|valueColumns|, i requires 0 <= i < |valueColumns| => BaseName(valueColumns[i]));
    forall f | f in names
      ensures exists c :: c in columns && c != ID_COLUMN && c != JOB_NAME_COLUMN && BaseName(c) == f
    {
      var i :| 0 <= i < |names| && names[i] == f;
      assert valueColumns[i] in valueColumns;
    }
    forall c | c in columns && c != ID_COLUMN && c != JOB_NAME_COLUMN ensures BaseName(c) in names {
      assert c in valueColumns;
      var i :| 0 <= i < |valueColumns| && valueColumns[i] == c;
      assert names[i] == BaseName(c);
    }
    SortedSet(names)
  }

  // ---------------------------------------------------------------------
  // The stages after the join, on the rows of the joined table

  /** The `validity` column: every row judged against the whole table. */
  function Validated(rows: seq<Row>, fields: seq<string>, similar: (string, string) -> bool): (r: seq<Row>)
    ensures |r| == |rows|
    ensures forall i :: 0 <= i < |rows| ==>
              r[i] == rows[i].(validity := Some(ComputeValidity(rows[i], rows, fields, similar)))
  {
    seq(|rows|, i requires 0 <= i < |rows| => rows[i].(validity := Some(ComputeValidity(rows[i], rows, fields, similar))))
  }

  /** The first cleanup mask: the output attribute is present. */
  predicate HasOutputAttribute(x: Row) {
    !x.attributeOutput.Missing?
  }

  /** The second cleanup mask: not a "No ID" row with a missing gold value. */
  predicate NotOrphanNoId(x: Row) {
    !(x.jobIdOutput == Str(NO_ID_PLACEHOLDER) && x.valueGold.Missing?)
  }

  /** A row both cleanup filters keep. */
  predicate SurvivesCleanup(x: Row) {
    HasOutputAttribute(x) && NotOrphanNoId(x)
  }

  /** The two cleanup filters of src/app.py:195-201: rows with a missing
      output attribute go, then "No ID" rows with a missing gold value.  The
      result is the one-pass selection by both masks: every copy of a kept row
      stays, in order, and nothing else. */
  function Cleanup(rows: seq<Row>): (r: seq<Row>)
    ensures r == Filter(rows, SurvivesCleanup)
    ensures |r| == Count(rows, SurvivesCleanup)
    ensures forall x :: x in r <==> x in rows && SurvivesCleanup(x)
    ensures forall x :: multiset(r)[x] == if SurvivesCleanup(x) then multiset(rows)[x] else 0
  {
    FilterFilter(rows, HasOutputAttribute, NotOrphanNoId, SurvivesCleanup);
    FilterMultiset(rows, SurvivesCleanup);
    Filter(Filter(rows, HasOutputAttribute), NotOrphanNoId)
  }

  /** The mask of src/app.py:204-207: a No Valid row that is not an appended
      "No ID" row (a missing job id is not "No ID"). */
  predicate MarkedRow(x: Row) {
    x.validity == Some(NoValid) && x.jobIdOutput != Str(NO_ID_PLACEHOLDER)
  }

  /** The masked write of src/app.py:208. */
  function MarkTestNotGold(rows: seq<Row>): (r: seq<Row>)
    ensures |r| == |rows|
    ensures forall i :: 0 <= i < |rows| ==> r[i].(valueGold := rows[i].valueGold) == rows[i]
    ensures forall i :: 0 <= i < |rows| ==> MarkedRow(rows[i]) ==> r[i].valueGold == Str(FIELD_IN_TEST_NOT_GOLD)
    ensures forall i :: 0 <= i < |rows| ==> !MarkedRow(rows[i]) ==> r[i] == rows[i]
  {
    seq(|rows|, i requires 0 <= i < |rows| =>
      if MarkedRow(rows[i]) then rows[i].(valueGold := Str(FIELD_IN_TEST_NOT_GOLD)) else rows[i])
  }

  /** `astype("string")` on one cell: strings stay, other values become their
      text, missing stays missing. */
  function CastCell(c: Cell): (r: Cell)
    ensures !r.Other?
    ensures r.Missing? <==> c.Missing?
    ensures Text(r) == Text(c)
    ensures c.Str? ==> r == c
  {
    if c.Other? then Str(c.repr) else c
  }

  /** The two value columns the loop of src/app.py:211-213 converts. */
  datatype ValueColumn = ValueOutput | ValueGold

  function CastColumn(rows: seq<Row>, column: ValueColumn): (r: seq<Row>)
    ensures |r| == |rows|
    ensures forall i :: 0 <= i < |rows| ==>
              r[i] == (match column
                       case ValueOutput => rows[i].(valueOutput := CastCell(rows[i].valueOutput))
                       case ValueGold => rows[i].(valueGold := CastCell(rows[i].valueGold)))
  {
    seq(|rows|, i requires 0 <= i < |rows| =>
      match column
      case ValueOutput => rows[i].(valueOutput := CastCell(rows[i].valueOutput))
      case ValueGold => rows[i].(valueGold := CastCell(rows[i].valueGold)))
  }

  /** The columns `columns` converted in turn. */
  function CastColumns(rows: seq<Row>, columns: seq<ValueColumn>): seq<Row> {
    if columns == [] then rows else CastColumn(CastColumns(rows, columns[..|columns| - 1]), columns[|columns| - 1])
  }

  const VALUE_COLUMNS: seq<ValueColumn> := [ValueOutput, ValueGold]

  /** After the conversion no value is a non-string scalar, every value keeps
      its text and its missingness, and the other columns are unchanged. */
  lemma CastValuesSpec(rows: seq<Row>)
    ensures var r := CastColumns(rows, VALUE_COLUMNS);
            |r| == |rows|
            && forall i :: 0 <= i < |rows| ==>
                 !r[i].valueOutput.Other? && !r[i].valueGold.Other?
                 && Text(r[i].valueOutput) == Text(rows[i].valueOutput) && Text(r[i].valueGold) == Text(rows[i].valueGold)
                 && (r[i].valueOutput.Missing? <==> rows[i].valueOutput.Missing?)
                 && (r[i].valueGold.Missing? <==> rows[i].valueGold.Missing?)
                 && r[i].(valueOutput := rows[i].valueOutput, valueGold := rows[i].valueGold) == rows[i]
  {
    var once := CastColumn(rows, ValueOutput);
    assert VALUE_COLUMNS[..1] == [ValueOutput] && VALUE_COLUMNS[..1][..0] == [];
    assert CastColumns(rows, VALUE_COLUMNS[..1]) == once;
    assert CastColumns(rows, VALUE_COLUMNS) == CastColumn(once, ValueGold);
  }

  /** Cleanup, the masked write and the conversion. */
  function Finish(rows: seq<Row>): seq<Row> {
    CastColumns(MarkTestNotGold(Cleanup(rows)), VALUE_COLUMNS)
  }

  // ---------------------------------------------------------------------
  // The in-place stages, on the pipeline's table

  /** `merged_df['validity'] = merged_df.apply(compute_validity, axis=1)`. */
  method AssignValidity(df: MergedFrame, fields: seq<string>, similar: (string, string) -> bool)
    modifies df
    ensures df.rows == Validated(old(df.rows), fields, similar)
  {
    df.rows := Validated(df.rows, fields, similar);
  }

  /** `merged_df.loc[mask, 'Value_gold'] = FIELD_IN_TEST_NOT_GOLD`. */
  method MarkFieldsInTestNotGold(df: MergedFrame)
    modifies df
    ensures df.rows == MarkTestNotGold(old(df.rows))
  {
    df.rows := MarkTestNotGold(df.rows);
  }

  /** The loop converting the two value columns. */
  method CastValuesToString(df: MergedFrame)
    modifies df
    ensures df.rows == CastColumns(old(df.rows), VALUE_COLUMNS)
  {
    var columns := VALUE_COLUMNS;
    for k := 0 to |columns|
      invariant df.rows == CastColumns(old(df.rows), columns[..k])
    {
      assert columns[..k + 1][..k] == columns[..k];
      df.rows := CastColumn(df.rows, columns[k]);
    }
    assert columns[..|columns|] == columns;
  }

  // ---------------------------------------------------------------------
  // The whole run

  /** How the run ended. `NothingSelected` is the guard of src/app.py:130-132;
      `Failed` is an exception caught by the handler around the run (a job
      name that is not a string, when the key is built). */
  datatype Run =
    | NothingSelected
    | Failed
    | Completed(results: seq<Row>, metrics: seq<Metric>, totalValid: nat, totalCount: nat, overallAccuracy: real)

  /** The field list offered to the user and the outcome of the run. */
  datatype Analysis = Analysis(fields: seq<string>, run: Run)

  /** Overall accuracy in percent, 0 when nothing was compared. */
  function OverallAccuracy(totalValid: nat, totalCount: nat): (a: real)
    ensures totalCount == 0 ==> a == 0.0
    ensures totalCount > 0 ==> IsPercent(a, totalValid, totalCount)
    ensures totalValid <= totalCount ==> 0.0 <= a <= 100.0
  {
    if totalCount > 0 then Percent(totalValid, totalCount) else 0.0
  }

  /** The long rows of one preprocessed table for the selected fields. */
  function LongSide(columns: seq<string>, rows: Rows, selected: seq<string>): seq<LongRow>
    requires Rectangular(columns, rows) && ID_COLUMN in columns && JOB_NAME_COLUMN in columns
  {
    FilterSelected(Melt(columns, rows, ID_COLUMN, JOB_NAME_COLUMN), selected)
  }

  /** The joined table before any verdict, or None when building a key raises. */
  function JoinedTable(outLong: seq<LongRow>, goldLong: seq<LongRow>): Option<seq<Row>> {
    var outIds, goldIds := UniqueIds(outLong), UniqueIds(goldLong);
    if outIds.None? || goldIds.None? then None
    else Some(RemoveEmptyRows(Merge(WithKeys(outLong, outIds.value), WithKeys(goldLong, goldIds.value))))
  }

  /** The run from the joined table on. */
  function CompletedRun(merged: seq<Row>, selected: seq<string>, similar: (string, string) -> bool): Run {
    var results := Finish(Reconciled(Validated(merged, selected, similar), selected, similar));
    var metrics := AggregateBaseAttributes(results);
    var totalValid, totalCount := SumValid(metrics), SumTotal(metrics);
    Completed(results, metrics, totalValid, totalCount, OverallAccuracy(totalValid, totalCount))
  }

  /** The run after the guard, from the two long sides. */
  function RunSpec(outLong: seq<LongRow>, goldLong: seq<LongRow>, selected: seq<string>,
                   similar: (string, string) -> bool): Run
  {
    match JoinedTable(outLong, goldLong)
    case None => Failed
    case Some(merged) => CompletedRun(merged, selected, similar)
  }

  /** The tables are well formed for the run: rectangular, and both identifier
      columns are present once the column names are trimmed. */
  predicate Runnable(columns: seq<string>, rows: Rows) {
    Rectangular(columns, rows) && ID_COLUMN in StripColumns(columns) && JOB_NAME_COLUMN in StripColumns(columns)
  }

  /** Preprocessing keeps a table runnable: same shape, trimmed identifier columns. */
  lemma PreprocessKeepsShape(columns: seq<string>, rows: Rows)
    requires Runnable(columns, rows)
    ensures Rectangular(StripColumns(columns), PreprocessRows(rows))
  {
    PreprocessRowsSpec(rows);
  }

  /** The run once a field is selected, on the two preprocessed tables. */
  function RunSelected(testColumns: seq<string>, testRows: Rows, goldColumns: seq<string>, goldRows: Rows,
                       selected: seq<string>, similar: (string, string) -> bool): Run
    requires Rectangular(testColumns, testRows) && ID_COLUMN in testColumns && JOB_NAME_COLUMN in testColumns
    requires Rectangular(goldColumns, goldRows) && ID_COLUMN in goldColumns && JOB_NAME_COLUMN in goldColumns
  {
    RunSpec(LongSide(testColumns, testRows, selected), LongSide(goldColumns, goldRows, selected), selected, similar)
  }

  /** What the page computes from the two tables as read and the user's selection. */
  function AnalysisSpec(testColumns: seq<string>, testRows: Rows, goldColumns: seq<string>, goldRows: Rows,
                        selected: seq<string>, similar: (string, string) -> bool): Analysis
    requires Runnable(testColumns, testRows) && Runnable(goldColumns, goldRows)
  {
    PreprocessKeepsShape(testColumns, testRows);
    PreprocessKeepsShape(goldColumns, goldRows);
    var testCols, goldCols := StripColumns(testColumns), StripColumns(goldColumns);
    var fields := SelectableFields(testCols);
    if selected == [] then Analysis(fields, NothingSelected)
    else Analysis(fields, RunSelected(testCols, PreprocessRows(testRows), goldCols, PreprocessRows(goldRows), selected, similar))
  }

  /** Renames the job-name columns, builds both keys and joins: None when a
      key cannot be built (src/app.py:159-179). */
  method JoinSides(outLong: seq<LongRow>, goldLong: seq<LongRow>) returns (merged: MergedFrame?)
    ensures merged == null <==> JoinedTable(outLong, goldLong).None?
    ensures merged != null ==> fresh(merged) && merged.rows == JoinedTable(outLong, goldLong).value
  {
    var outputMelted := new LongFrame(outLong);
    var goldMelted := new LongFrame(goldLong);
    goldMelted.Rename(JOB_NAME_COLUMN, GOLD_JOB_NAME_COLUMN);
    outputMelted.Rename(JOB_NAME_COLUMN, OUTPUT_JOB_NAME_COLUMN);
    var raised := outputMelted.CreateUniqueId(OUTPUT_JOB_NAME_COLUMN);
    if raised {
      return null;
    }
    raised := goldMelted.CreateUniqueId(GOLD_JOB_NAME_COLUMN);
    if raised {
      return null;
    }
    var outKeyed := WithKeys(outputMelted.rows, outputMelted.uniqueIds.value);
    var goldKeyed := WithKeys(goldMelted.rows, goldMelted.uniqueIds.value);
    merged := new MergedFrame(RemoveEmptyRows(Merge(outKeyed, goldKeyed)));
  }

  /** Verdicts, reconciliation, cleanup, annotation and totals on the joined
      table (src/app.py:181-242). */
  method Complete(merged: MergedFrame, selected: seq<string>, similar: (string, string) -> bool) returns (run: Run)
    modifies merged
    ensures run == CompletedRun(old(merged.rows), selected, similar)
  {
    AssignValidity(merged, selected, similar);
    var df := AddMissingGoldArrayRows(merged, selected, similar);
    df := new MergedFrame(Cleanup(df.rows));
    MarkFieldsInTestNotGold(df);
    CastValuesToString(df);
    var metrics := AggregateBaseAttributes(df.rows);
    var totalValid, totalCount := SumValid(metrics), SumTotal(metrics);
    run := Completed(df.rows, metrics, totalValid, totalCount, OverallAccuracy(totalValid, totalCount));
  }

  /** The run once a field is selected (src/app.py:143-242). */
  method RunAnalysis(testDf: WideFrame, goldDf: WideFrame, selected: seq<string>, similar: (string, string) -> bool)
    returns (run: Run)
    requires Rectangular(testDf.columns, testDf.rows) && ID_COLUMN in testDf.columns && JOB_NAME_COLUMN in testDf.columns
    requires Rectangular(goldDf.columns, goldDf.rows) && ID_COLUMN in goldDf.columns && JOB_NAME_COLUMN in goldDf.columns
    ensures run == RunSelected(testDf.columns, testDf.rows, goldDf.columns, goldDf.rows, selected, similar)
  {
    var outLong := LongSide(testDf.columns, testDf.rows, selected);
    var goldLong := LongSide(goldDf.columns, goldDf.rows, selected);
    var merged := JoinSides(outLong, goldLong);
    if merged == null {
      return Failed;
    }
    run := Complete(merged, selected, similar);
  }

  /** The pipeline of src/app.py:63-242 on the two tables as read. */
  method Analyze(test: WideFrame, gold: WideFrame, selected: seq<string>, similar: (string, string) -> bool)
    returns (a: Analysis)
    requires Runnable(test.columns, test.rows) && Runnable(gold.columns, gold.rows)
    ensures a == AnalysisSpec(test.columns, test.rows, gold.columns, gold.rows, selected, similar)
  {
    var testDf := Preprocess(test);
    var goldDf := Preprocess(gold);
    PreprocessKeepsShape(test.columns, test.rows);
    PreprocessKeepsShape(gold.columns, gold.rows);
    var fields := SelectableFields(testDf.columns);
    if selected == [] {
      return Analysis(fields, NothingSelected);
    }
    var run := RunAnalysis(testDf, goldDf, selected, similar);
    a := Analysis(fields, run);
  }
}
