/**
 * What a completed run promises about its result table and its totals, traced
 * through the stages of the pipeline (src/app.py:143-242).
 */
module Properties {
  import opened Config
  import opened Cells
  import opened Fields
  import opened Seqs
  import opened Normalize
  import opened Reshape
  import opened Align
  import opened Validity
  import opened Reconcile
  import opened Aggregate
  import opened Pipeline

  /** An attribute cell of the joined table that is missing or names a selected field. */
  predicate AttrSelected(c: Cell, selected: seq<string>) {
    c.Missing? || (c.Str? && BaseName(c.s) in selected)
  }

  predicate SelectedRow(r: Row, selected: seq<string>) {
    AttrSelected(r.attributeOutput, selected) && AttrSelected(r.attributeGold, selected)
  }

  /** Every row of `rows` names only selected fields and, when `judged`, has a verdict. */
  predicate AllSelected(rows: seq<Row>, selected: seq<string>, judged: bool) {
    forall r :: r in rows ==> SelectedRow(r, selected) && (judged ==> r.validity.Some?)
  }

  // ---------------------------------------------------------------------
  // Stage by stage

  /** After the filter of src/app.py:148-157 every long row of either side
      names a selected field, so every row of the join does too. */
  lemma JoinedSelected(outLong: seq<LongRow>, goldLong: seq<LongRow>, selected: seq<string>)
    requires forall x :: x in outLong ==> BaseName(x.attribute) in selected
    requires forall x :: x in goldLong ==> BaseName(x.attribute) in selected
    requires JoinedTable(outLong, goldLong).Some?
    ensures AllSelected(JoinedTable(outLong, goldLong).value, selected, false)
  {
    var outKeyed := WithKeys(outLong, UniqueIds(outLong).value);
    var goldKeyed := WithKeys(goldLong, UniqueIds(goldLong).value);
    KeyedFromLong(outLong, UniqueIds(outLong).value);
    KeyedFromLong(goldLong, UniqueIds(goldLong).value);
    forall r | r in JoinedTable(outLong, goldLong).value ensures SelectedRow(r, selected) {
      MergeMembers(outKeyed, goldKeyed, r);
    }
  }

  lemma KeyedFromLong(long: seq<LongRow>, ids: seq<Cell>)
    requires |ids| == |long|
    ensures forall o :: o in WithKeys(long, ids) ==> o.row in long
  {
    var keyed := WithKeys(long, ids);
    forall o | o in keyed ensures o.row in long {
      var i :| 0 <= i < |keyed| && keyed[i] == o;
    }
  }

  /** Assigning verdicts keeps the attributes and gives every row a verdict. */
  lemma ValidatedSelected(rows: seq<Row>, selected: seq<string>, similar: (string, string) -> bool)
    requires AllSelected(rows, selected, false)
    ensures AllSelected(Validated(rows, selected, similar), selected, true)
  {
    var v := Validated(rows, selected, similar);
    forall r | r in v ensures SelectedRow(r, selected) && r.validity.Some? {
      var i :| 0 <= i < |v| && v[i] == r;
      assert rows[i] in rows;
    }
  }

  /** The reconciler's appended rows copy a gold attribute into the output
      attribute, so they name selected fields too, and carry a verdict. */
  lemma ReconciledSelected(rows: seq<Row>, selected: seq<string>, similar: (string, string) -> bool)
    requires AllSelected(rows, selected, true)
    ensures AllSelected(Reconciled(rows, selected, similar), selected, true)
  {
    if exists x :: x in rows && HasIndex(x.attributeGold) {
      var r := Reconciled(rows, selected, similar);
      ReconciledKeepsRows(rows, selected, similar);
      ReconciledAppends(rows, selected, similar);
      forall i | 0 <= i < |r| ensures SelectedRow(r[i], selected) && r[i].validity.Some? {
        if i < |rows| {
          assert rows[i] in rows;
        } else {
          assert r[i] in r[|rows|..];
          AppendedSelected(rows, selected, similar, r[i]);
        }
      }
    } else {
      ReconciledNoGoldArrays(rows, selected, similar);
    }
  }

  lemma AppendedSelected(rows: seq<Row>, selected: seq<string>, similar: (string, string) -> bool, x: Row)
    requires AllSelected(rows, selected, true)
    requires exists g :: g in rows && HasIndex(g.attributeGold) && UnmatchedIn(g, rows, selected, similar)
                         && x == MissingGoldRow(g)
    ensures SelectedRow(x, selected) && x.validity.Some?
  {
    var g :| g in rows && HasIndex(g.attributeGold) && UnmatchedIn(g, rows, selected, similar) && x == MissingGoldRow(g);
  }

  /** A row of the finished table and the row of the reconciled table it
      comes from: the cleanup kept it, every column but the two value columns
      is unchanged, the output value keeps its text and missingness, and the
      gold value does too unless the annotation replaced it. */
  lemma FinishRow(rows: seq<Row>, i: nat)
    requires i < |Finish(rows)|
    ensures |Finish(rows)| == |Cleanup(rows)|
    ensures var c, x := Cleanup(rows)[i], Finish(rows)[i];
            c in rows && !c.attributeOutput.Missing?
            && !(c.jobIdOutput == Str(NO_ID_PLACEHOLDER) && c.valueGold.Missing?)
            && x.(valueOutput := c.valueOutput, valueGold := c.valueGold) == c
            && !x.valueOutput.Other? && !x.valueGold.Other?
            && Text(x.valueOutput) == Text(c.valueOutput) && (x.valueOutput.Missing? <==> c.valueOutput.Missing?)
            && (MarkedRow(c) ==> x.valueGold == Str(FIELD_IN_TEST_NOT_GOLD))
            && (!MarkedRow(c) ==> Text(x.valueGold) == Text(c.valueGold) && (x.valueGold.Missing? <==> c.valueGold.Missing?))
  {
    var cleaned := Cleanup(rows);
    var marked := MarkTestNotGold(cleaned);
    CastValuesSpec(marked);
    assert cleaned[i] in cleaned;
  }

  // ---------------------------------------------------------------------
  // The completed run

  /** The rows of the run from a joined table whose rows name selected fields:
      every one has an output attribute that names a selected field, and a
      verdict. */
  lemma CompletedRunSelected(merged: seq<Row>, selected: seq<string>, similar: (string, string) -> bool)
    requires AllSelected(merged, selected, false)
    ensures forall r :: r in CompletedRun(merged, selected, similar).results ==>
              r.attributeOutput.Str? && BaseName(r.attributeOutput.s) in selected && r.validity.Some?
              && AttrSelected(r.attributeGold, selected)
  {
    ValidatedSelected(merged, selected, similar);
    var reconciled := Reconciled(Validated(merged, selected, similar), selected, similar);
    ReconciledSelected(Validated(merged, selected, similar), selected, similar);
    var results := Finish(reconciled);
    forall i | 0 <= i < |results|
      ensures results[i].attributeOutput.Str? && BaseName(results[i].attributeOutput.s) in selected
      ensures results[i].validity.Some? && AttrSelected(results[i].attributeGold, selected)
    {
      FinishRow(reconciled, i);
    }
  }

  /** A completed analysis is the run from a joined table of selected rows. */
  lemma CompletedFromJoin(testColumns: seq<string>, testRows: Rows, goldColumns: seq<string>, goldRows: Rows,
                          selected: seq<string>, similar: (string, string) -> bool)
      returns (merged: seq<Row>)
    requires Runnable(testColumns, testRows) && Runnable(goldColumns, goldRows)
    requires AnalysisSpec(testColumns, testRows, goldColumns, goldRows, selected, similar).run.Completed?
    ensures AllSelected(merged, selected, false)
    ensures AnalysisSpec(testColumns, testRows, goldColumns, goldRows, selected, similar).run
            == CompletedRun(merged, selected, similar)
  {
    PreprocessKeepsShape(testColumns, testRows);
    PreprocessKeepsShape(goldColumns, goldRows);
    var outLong := LongSide(StripColumns(testColumns), PreprocessRows(testRows), selected);
    var goldLong := LongSide(StripColumns(goldColumns), PreprocessRows(goldRows), selected);
    merged := JoinedTable(outLong, goldLong).value;
    JoinedSelected(outLong, goldLong, selected);
  }

  /** The rows of a completed run: every one has an output attribute that names
      a selected field, and a verdict. */
  lemma ResultsSelected(testColumns: seq<string>, testRows: Rows, goldColumns: seq<string>, goldRows: Rows,
                        selected: seq<string>, similar: (string, string) -> bool)
    requires Runnable(testColumns, testRows) && Runnable(goldColumns, goldRows)
    requires AnalysisSpec(testColumns, testRows, goldColumns, goldRows, selected, similar).run.Completed?
    ensures var results := AnalysisSpec(testColumns, testRows, goldColumns, goldRows, selected, similar).run.results;
            forall r :: r in results ==>
              r.attributeOutput.Str? && BaseName(r.attributeOutput.s) in selected && r.validity.Some?
              && AttrSelected(r.attributeGold, selected)
  {
    var merged := CompletedFromJoin(testColumns, testRows, goldColumns, goldRows, selected, similar);
    CompletedRunSelected(merged, selected, similar);
  }

  /** A completed run's table after annotation: a No Valid row from the join
      reports its gold value as "exists in TEST but not in gold", and an
      appended "No ID" row always carries its gold value. */
  lemma ResultsMarked(rows: seq<Row>, x: Row)
    requires x in Finish(rows)
    ensures (x.validity == Some(NoValid) && x.jobIdOutput != Str(NO_ID_PLACEHOLDER))
              ==> x.valueGold == Str(FIELD_IN_TEST_NOT_GOLD)
    ensures x.jobIdOutput == Str(NO_ID_PLACEHOLDER) ==> !x.valueGold.Missing?
  {
    var i :| 0 <= i < |Finish(rows)| && Finish(rows)[i] == x;
    FinishRow(rows, i);
  }

  /** When every row has a key and a verdict, the totals over the attributes
      count every row once, and the valid total never exceeds it. */
  lemma KeyedTotals(results: seq<Row>)
    requires forall r :: r in results ==> HasKey(false)(r)
    ensures SumTotal(AggregateBaseAttributes(results)) == |results|
    ensures SumValid(AggregateBaseAttributes(results)) <= |results|
  {
    AggregateSums(results);
    SumValidAtMostTotal(results);
    forall i | 0 <= i < |results| ensures HasKey(false)(results[i]) {
      assert results[i] in results;
    }
    CountAll(results, HasKey(false));
  }

  /** The summary of a completed run: the total count is the number of result
      rows, the valid total never exceeds it, and the overall accuracy is the
      valid total as a percentage of the total count, 0 when nothing was compared. */
  lemma TotalsConsistent(testColumns: seq<string>, testRows: Rows, goldColumns: seq<string>, goldRows: Rows,
                         selected: seq<string>, similar: (string, string) -> bool)
    requires Runnable(testColumns, testRows) && Runnable(goldColumns, goldRows)
    requires AnalysisSpec(testColumns, testRows, goldColumns, goldRows, selected, similar).run.Completed?
    ensures var run := AnalysisSpec(testColumns, testRows, goldColumns, goldRows, selected, similar).run;
            run.totalCount == |run.results|
            && run.totalValid <= run.totalCount
            && 0.0 <= run.overallAccuracy <= 100.0
            && (run.totalCount == 0 ==> run.overallAccuracy == 0.0)
            && (run.totalCount > 0 ==> IsPercent(run.overallAccuracy, run.totalValid, run.totalCount))
  {
    var merged := CompletedFromJoin(testColumns, testRows, goldColumns, goldRows, selected, similar);
    CompletedRunTotals(merged, selected, similar);
  }

  lemma CompletedRunTotals(merged: seq<Row>, selected: seq<string>, similar: (string, string) -> bool)
    requires AllSelected(merged, selected, false)
    ensures var run := CompletedRun(merged, selected, similar);
            run.totalCount == |run.results|
            && run.totalValid <= run.totalCount
            && 0.0 <= run.overallAccuracy <= 100.0
            && (run.totalCount == 0 ==> run.overallAccuracy == 0.0)
            && (run.totalCount > 0 ==> IsPercent(run.overallAccuracy, run.totalValid, run.totalCount))
  {
    CompletedRunSelected(merged, selected, similar);
    var run := CompletedRun(merged, selected, similar);
    forall r | r in run.results ensures HasKey(false)(r) {
    }
    KeyedTotals(run.results);
  }

  /** With no field selected nothing is computed; otherwise the run happens. */
  lemma GuardOnSelection(testColumns: seq<string>, testRows: Rows, goldColumns: seq<string>, goldRows: Rows,
                         selected: seq<string>, similar: (string, string) -> bool)
    requires Runnable(testColumns, testRows) && Runnable(goldColumns, goldRows)
    ensures selected == [] <==> AnalysisSpec(testColumns, testRows, goldColumns, goldRows, selected, similar).run.NothingSelected?
  {
  }

  /** The selected fields are the similarity set: every joined row with an
      output attribute is judged by a similarity policy, scalar or array. */
  lemma SelectedFieldsUseSimilarity(outLong: seq<LongRow>, goldLong: seq<LongRow>, selected: seq<string>,
                                    similar: (string, string) -> bool, r: Row)
    requires forall x :: x in outLong ==> BaseName(x.attribute) in selected
    requires forall x :: x in goldLong ==> BaseName(x.attribute) in selected
    requires JoinedTable(outLong, goldLong).Some?
    requires r in JoinedTable(outLong, goldLong).value && !r.attributeOutput.Missing?
    ensures GetBaseField(r.attributeOutput) in selected
    ensures var table := JoinedTable(outLong, goldLong).value;
            ComputeValidity(r, table, selected, similar)
              == if LooksLikeArray(r.attributeOutput)
                 then ValidateArraySimilarity(r.valueOutput, r.jobNameOutput, r.attributeOutput, table, similar)
                 else ValidateSingleSimilarity(r.valueOutput, r.valueGold, similar)
  {
    JoinedSelected(outLong, goldLong, selected);
  }
}
