/**
 * The Reconciler: add_missing_gold_array_rows (src/utils.py:201-263) appends
 * a "field in GOLD but not in output" row for each gold array value that no
 * output value of the same job and base field matches.
 */
module Reconcile {
  import opened Config
  import opened Cells
  import opened Fields
  import opened Seqs
  import opened Align

  /** `gold_array_rows`: the rows whose gold attribute holds `[digits]`. */
  function GoldArrayRows(rows: seq<Row>): (r: seq<Row>)
    ensures |r| == Count(rows, IsGoldArrayRow)
    ensures forall x :: x in r <==> x in rows && HasIndex(x.attributeGold)
    ensures forall x :: multiset(r)[x] == if HasIndex(x.attributeGold) then multiset(rows)[x] else 0
  {
    FilterMultiset(rows, IsGoldArrayRow);
    Filter(rows, IsGoldArrayRow)
  }

  /** The mask of gold_array_rows. */
  predicate IsGoldArrayRow(x: Row) {
    HasIndex(x.attributeGold)
  }

  /** The `attr_prefix_output` column written into the caller's table. */
  function WithPrefix(rows: seq<Row>): (r: seq<Row>)
    ensures |r| == |rows|
    ensures forall i :: 0 <= i < |rows| ==> r[i] == rows[i].(attrPrefixOutput := Some(GetBaseField(rows[i].attributeOutput)))
  {
    seq(|rows|, i requires 0 <= i < |rows| => rows[i].(attrPrefixOutput := Some(GetBaseField(rows[i].attributeOutput))))
  }

  /** The key `(job_name_output, attr_prefix_output)` of a row, None when
      either is missing (the rows `dropna` discards). */
  function LookupKey(r: Row): Option<(Cell, string)> {
    if r.jobNameOutput.Missing? || r.attrPrefixOutput.None? then None
    else Some((r.jobNameOutput, r.attrPrefixOutput.value))
  }

  /** `output_lookup`: for each key, the set of present output values of the
      rows with that key. */
  function OutputLookup(rows: seq<Row>): map<(Cell, string), set<Cell>> {
    if rows == [] then map[]
    else
      var m, last := OutputLookup(rows[..|rows| - 1]), rows[|rows| - 1];
      match LookupKey(last)
      case None => m
      case Some(k) =>
        var seen := if k in m then m[k] else {};
        m[k := seen + (if last.valueOutput.Missing? then {} else {last.valueOutput})]
  }

  /** `output_lookup.get((job_name, attr_prefix), set())`. */
  function Lookup(m: map<(Cell, string), set<Cell>>, jobName: Cell, prefix: string): set<Cell> {
    if (jobName, prefix) in m then m[(jobName, prefix)] else {}
  }

  /** The present output values of the rows with job name `jobName` (a
      missing name matches nothing) and prefix `prefix`. */
  function OutputValues(rows: seq<Row>, jobName: Cell, prefix: string): set<Cell> {
    set x | x in rows && Equal(x.jobNameOutput, jobName) && x.attrPrefixOutput == Some(prefix)
                      && !x.valueOutput.Missing? :: x.valueOutput
  }

  /** The lookup built by grouping holds, for every job name and prefix, the
      present output values of exactly the rows of that group. */
  lemma {:induction false} LookupAgrees(rows: seq<Row>, jobName: Cell, prefix: string)
    ensures Lookup(OutputLookup(rows), jobName, prefix) == OutputValues(rows, jobName, prefix)
    decreases |rows|
  {
    if rows == [] {
    } else {
      var init, last := rows[..|rows| - 1], rows[|rows| - 1];
      LookupAgrees(init, jobName, prefix);
      assert rows == init + [last];
      var inGroup := Equal(last.jobNameOutput, jobName) && last.attrPrefixOutput == Some(prefix);
      var add := if inGroup && !last.valueOutput.Missing? then {last.valueOutput} else {};
      assert OutputValues(rows, jobName, prefix) == OutputValues(init, jobName, prefix) + add;
      if LookupKey(last).Some? && !jobName.Missing? && LookupKey(last).value == (jobName, prefix) {
        assert inGroup;
      }
    }
  }

  /** `is_found`: a gold value matches one of the output values, by similarity
      (gold first) for similarity fields, by `str()` otherwise. */
  predicate IsFound(gold: Row, outs: set<Cell>, fields: seq<string>, similar: (string, string) -> bool)
    ensures IsFound(gold, outs, fields, similar) ==> outs != {}
    ensures GetBaseField(gold.attributeGold) !in fields ==>
              (IsFound(gold, outs, fields, similar) <==> exists o :: o in outs && Text(o) == Text(gold.valueGold))
  {
    if GetBaseField(gold.attributeGold) in fields then
      exists o :: o in outs && similar(Text(gold.valueGold), Text(o))
    else
      Text(gold.valueGold) in (set o | o in outs :: Text(o))
  }

  /** The row appended for an unmatched gold row. */
  function MissingGoldRow(g: Row): Row {
    Row(Str(NO_ID_PLACEHOLDER), g.jobNameGold, g.attributeGold, Str(FIELD_IN_GOLD_NOT_TEST), g.uniqueId,
        g.jobIdGold, g.jobNameGold, g.attributeGold, g.valueGold, Some(NoValid), None)
  }

  /** Whether the gold row `g` is left unmatched by `lookup`. */
  predicate Unmatched(g: Row, lookup: map<(Cell, string), set<Cell>>, fields: seq<string>, similar: (string, string) -> bool) {
    !IsFound(g, Lookup(lookup, g.jobNameGold, GetBaseField(g.attributeGold)), fields, similar)
  }

  /** `Unmatched` as a mask over gold rows. */
  function UnmatchedBy(lookup: map<(Cell, string), set<Cell>>, fields: seq<string>, similar: (string, string) -> bool): Row -> bool {
    (g: Row) => Unmatched(g, lookup, fields, similar)
  }

  /** `new_rows` after visiting the gold rows `golds`: one appended row per
      unmatched gold row, every duplicate included, in the order of the gold rows. */
  function NewRows(golds: seq<Row>, lookup: map<(Cell, string), set<Cell>>, fields: seq<string>,
                   similar: (string, string) -> bool): (r: seq<Row>)
    ensures |r| == Count(golds, UnmatchedBy(lookup, fields, similar))
    ensures forall i :: 0 <= i < |r| ==> r[i] == MissingGoldRow(Filter(golds, UnmatchedBy(lookup, fields, similar))[i])
    ensures forall x :: x in r <==> exists g :: g in golds && Unmatched(g, lookup, fields, similar) && x == MissingGoldRow(g)
  {
    if golds == [] then []
    else
      var init, last := golds[..|golds| - 1], golds[|golds| - 1];
      assert golds == init + [last];
      NewRows(init, lookup, fields, similar) + (if Unmatched(last, lookup, fields, similar) then [MissingGoldRow(last)] else [])
  }

  /** The table add_missing_gold_array_rows returns. */
  function Reconciled(rows: seq<Row>, fields: seq<string>, similar: (string, string) -> bool): seq<Row> {
    var golds := GoldArrayRows(rows);
    if golds == [] then rows
    else
      var prefixed := WithPrefix(rows);
      prefixed + NewRows(golds, OutputLookup(prefixed), fields, similar)
  }

  /** The gold row `g` has no matching output value in its (gold job name,
      base field) group of `rows`. */
  predicate UnmatchedIn(g: Row, rows: seq<Row>, fields: seq<string>, similar: (string, string) -> bool) {
    !IsFound(g, OutputValues(WithPrefix(rows), g.jobNameGold, GetBaseField(g.attributeGold)), fields, similar)
  }

  /** Without gold array rows the table comes back unchanged. */
  lemma ReconciledNoGoldArrays(rows: seq<Row>, fields: seq<string>, similar: (string, string) -> bool)
    requires forall x :: x in rows ==> !HasIndex(x.attributeGold)
    ensures Reconciled(rows, fields, similar) == rows
  {
    forall i | 0 <= i < |rows| ensures !HasIndex(rows[i].attributeGold) {
      assert rows[i] in rows;
    }
    FilterNone(rows, IsGoldArrayRow);
  }

  /** With gold array rows, the original rows come first, in order, each with
      its prefix column. */
  lemma ReconciledKeepsRows(rows: seq<Row>, fields: seq<string>, similar: (string, string) -> bool)
    requires exists x :: x in rows && HasIndex(x.attributeGold)
    ensures |rows| <= |Reconciled(rows, fields, similar)|
    ensures forall i :: 0 <= i < |rows| ==>
              Reconciled(rows, fields, similar)[i] == rows[i].(attrPrefixOutput := Some(GetBaseField(rows[i].attributeOutput)))
  {
    var w :| w in rows && HasIndex(w.attributeGold);
    assert w in GoldArrayRows(rows);
  }

  /** `UnmatchedIn` as a mask over gold rows. */
  function UnmatchedInBy(rows: seq<Row>, fields: seq<string>, similar: (string, string) -> bool): Row -> bool {
    (g: Row) => UnmatchedIn(g, rows, fields, similar)
  }

  /** ... followed by one row per gold array row whose value no output value
      of its (gold job name, base field) group matches (a repeated gold row is
      appended as often as it occurs), in the order of the gold rows. */
  lemma ReconciledAppends(rows: seq<Row>, fields: seq<string>, similar: (string, string) -> bool)
    requires exists x :: x in rows && HasIndex(x.attributeGold)
    ensures |Reconciled(rows, fields, similar)| == |rows| + Count(GoldArrayRows(rows), UnmatchedInBy(rows, fields, similar))
    ensures forall i :: |rows| <= i < |Reconciled(rows, fields, similar)| ==>
              Reconciled(rows, fields, similar)[i]
              == MissingGoldRow(Filter(GoldArrayRows(rows), UnmatchedInBy(rows, fields, similar))[i - |rows|])
    ensures forall x :: x in Reconciled(rows, fields, similar)[|rows|..] <==>
              exists g :: g in rows && HasIndex(g.attributeGold) && UnmatchedIn(g, rows, fields, similar)
                          && x == MissingGoldRow(g)
  {
    var golds := GoldArrayRows(rows);
    var w :| w in rows && HasIndex(w.attributeGold);
    assert w in golds;
    var prefixed := WithPrefix(rows);
    var lookup := OutputLookup(prefixed);
    var added := NewRows(golds, lookup, fields, similar);
    var r := Reconciled(rows, fields, similar);
    assert r == prefixed + added;
    forall g ensures Unmatched(g, lookup, fields, similar) <==> UnmatchedIn(g, rows, fields, similar) {
      LookupAgrees(prefixed, g.jobNameGold, GetBaseField(g.attributeGold));
    }
    var q := UnmatchedInBy(rows, fields, similar);
    NewRowsByMask(golds, lookup, fields, similar, q);
    forall i | |rows| <= i < |r| ensures r[i] == MissingGoldRow(Filter(golds, q)[i - |rows|]) {
      assert r[i] == added[i - |rows|];
    }
  }

  /** `new_rows` described through any mask that agrees with `Unmatched`. */
  lemma NewRowsByMask(golds: seq<Row>, lookup: map<(Cell, string), set<Cell>>, fields: seq<string>,
                      similar: (string, string) -> bool, q: Row -> bool)
    requires forall g :: Unmatched(g, lookup, fields, similar) <==> q(g)
    ensures |NewRows(golds, lookup, fields, similar)| == Count(golds, q)
    ensures forall i :: 0 <= i < |NewRows(golds, lookup, fields, similar)| ==>
              NewRows(golds, lookup, fields, similar)[i] == MissingGoldRow(Filter(golds, q)[i])
  {
    FilterSame(golds, UnmatchedBy(lookup, fields, similar), q);
  }

  /** Each appended row reports its gold value as missing from the output: it
      is No Valid, has the "No ID" job id and the gold-not-test message, its
      output attribute is the gold attribute, and its gold columns are copied. */
  lemma MissingGoldRowSpec(g: Row)
    ensures var x := MissingGoldRow(g);
            x.validity == Some(NoValid) && x.jobIdOutput == Str(NO_ID_PLACEHOLDER)
            && x.valueOutput == Str(FIELD_IN_GOLD_NOT_TEST) && x.attributeOutput == g.attributeGold
            && x.jobNameOutput == g.jobNameGold && x.uniqueId == g.uniqueId
            && x.jobIdGold == g.jobIdGold && x.jobNameGold == g.jobNameGold
            && x.attributeGold == g.attributeGold && x.valueGold == g.valueGold
  {
  }

  /** Visiting one more gold row appends at most its own new row. */
  lemma NewRowsStep(golds: seq<Row>, i: nat, lookup: map<(Cell, string), set<Cell>>, fields: seq<string>,
                    similar: (string, string) -> bool)
    requires i < |golds|
    ensures NewRows(golds[..i + 1], lookup, fields, similar)
            == NewRows(golds[..i], lookup, fields, similar)
               + (if Unmatched(golds[i], lookup, fields, similar) then [MissingGoldRow(golds[i])] else [])
  {
    assert golds[..i + 1][..i] == golds[..i];
  }

  /** The loop of src/utils.py:227-258: one new row per gold array row the
      output side does not cover, in the order of the gold rows. */
  method CollectNewRows(golds: seq<Row>, lookup: map<(Cell, string), set<Cell>>, fields: seq<string>,
                        similar: (string, string) -> bool)
    returns (newRows: seq<Row>)
    ensures newRows == NewRows(golds, lookup, fields, similar)
  {
    newRows := [];
    var i := 0;
    while i < |golds|
      invariant 0 <= i <= |golds|
      invariant newRows == NewRows(golds[..i], lookup, fields, similar)
    {
      var g := golds[i];
      var outs := Lookup(lookup, g.jobNameGold, GetBaseField(g.attributeGold));
      if !IsFound(g, outs, fields, similar) {
        newRows := newRows + [MissingGoldRow(g)];
      }
      NewRowsStep(golds, i, lookup, fields, similar);
      i := i + 1;
    }
    assert golds[..i] == golds;
  }

  /** add_missing_gold_array_rows on the caller's table: writes the prefix
      column into `merged` when there are gold array rows, and returns `merged`
      itself unless rows were appended, in which case it returns a new table. */
  method AddMissingGoldArrayRows(merged: MergedFrame, fields: seq<string>, similar: (string, string) -> bool)
    returns (result: MergedFrame)
    modifies merged
    ensures result.rows == Reconciled(old(merged.rows), fields, similar)
    ensures GoldArrayRows(old(merged.rows)) == [] ==> result == merged && merged.rows == old(merged.rows)
    ensures GoldArrayRows(old(merged.rows)) != [] ==> merged.rows == WithPrefix(old(merged.rows))
    ensures result == merged || fresh(result)
  {
    var golds := GoldArrayRows(merged.rows);
    if golds == [] {
      return merged;
    }
    merged.rows := WithPrefix(merged.rows);
    var lookup := OutputLookup(merged.rows);
    var newRows := CollectNewRows(golds, lookup, fields, similar);
    if newRows != [] {
      result := new MergedFrame(merged.rows + newRows);
    } else {
      result := merged;
    }
  }
}
