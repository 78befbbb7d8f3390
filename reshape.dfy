/**
 * The Reshaper: wide tables to long rows (melt_dataframe), the filter to the
 * selected fields (src/app.py:148-157), the in-place rename of the job-name
 * column and the join key `unique_id` (create_unique_id).
 */
module Reshape {
  import opened Config
  import opened Cells
  import opened Fields
  import opened Seqs

  /** One long-form row: the two identifier cells, the column name and its cell. */
  datatype LongRow = LongRow(jobId: Cell, jobName: Cell, attribute: string, value: Cell)

  /** Every row has one cell per column. */
  predicate Rectangular(columns: seq<string>, rows: seq<seq<Cell>>) {
    forall i :: 0 <= i < |rows| ==> |rows[i]| == |columns|
  }

  /** Position of the first column called `name`. */
  function IndexOf(columns: seq<string>, name: string): (k: nat)
    requires name in columns
    ensures k < |columns| && columns[k] == name
    ensures forall j :: 0 <= j < k ==> columns[j] != name
  {
    if columns[0] == name then 0 else 1 + IndexOf(columns[1..], name)
  }

  /** The long row melt produces for row `i` and column `j`. */
  function At(columns: seq<string>, rows: seq<seq<Cell>>, idIdx: nat, nameIdx: nat, i: nat, j: nat): LongRow
    requires Rectangular(columns, rows)
    requires idIdx < |columns| && nameIdx < |columns| && i < |rows| && j < |columns|
  {
    LongRow(rows[i][idIdx], rows[i][nameIdx], columns[j], rows[i][j])
  }

  /** A column melt turns into rows, i.e. one that is not an identifier. */
  predicate IsValueColumn(name: string, idColumn: string, nameColumn: string) {
    name != idColumn && name != nameColumn
  }

  /** Number of value columns among `columns[j..]`. */
  function ValueColumnCount(columns: seq<string>, idColumn: string, nameColumn: string, j: nat): nat
    requires j <= |columns|
    decreases |columns| - j
  {
    if j == |columns| then 0
    else (if IsValueColumn(columns[j], idColumn, nameColumn) then 1 else 0)
         + ValueColumnCount(columns, idColumn, nameColumn, j + 1)
  }

  /** The identifier columns are at `idIdx` and `nameIdx`. */
  predicate Identifiers(columns: seq<string>, idColumn: string, nameColumn: string, idIdx: nat, nameIdx: nat) {
    idIdx < |columns| && nameIdx < |columns| && columns[idIdx] == idColumn && columns[nameIdx] == nameColumn
  }

  /** `x` is the long row of some input row and some value column among `columns[j..]`. */
  ghost predicate MeltedFrom(x: LongRow, columns: seq<string>, rows: seq<seq<Cell>>, idColumn: string, nameColumn: string,
                             idIdx: nat, nameIdx: nat, j: nat)
    requires Rectangular(columns, rows) && Identifiers(columns, idColumn, nameColumn, idIdx, nameIdx)
  {
    exists i, k :: (0 <= i < |rows| && j <= k < |columns| && IsValueColumn(columns[k], idColumn, nameColumn)
                    && x == At(columns, rows, idIdx, nameIdx, i, k))
  }

  /** The long rows of column `j`, one per input row, in row order. */
  function ColumnRows(columns: seq<string>, rows: seq<seq<Cell>>, idIdx: nat, nameIdx: nat, j: nat): (r: seq<LongRow>)
    requires Rectangular(columns, rows) && idIdx < |columns| && nameIdx < |columns| && j < |columns|
    ensures |r| == |rows|
    ensures forall i :: 0 <= i < |rows| ==> r[i] == At(columns, rows, idIdx, nameIdx, i, j)
  {
    seq(|rows|, i requires 0 <= i < |rows| => At(columns, rows, idIdx, nameIdx, i, j))
  }

  /** Melts the columns `j..` column by column (pandas' order): one row per
      (input row, value column), carrying that column's name and cell. */
  function MeltFrom(columns: seq<string>, rows: seq<seq<Cell>>, idColumn: string, nameColumn: string,
                    idIdx: nat, nameIdx: nat, j: nat): (r: seq<LongRow>)
    requires Rectangular(columns, rows) && Identifiers(columns, idColumn, nameColumn, idIdx, nameIdx) && j <= |columns|
    ensures |r| == |rows| * ValueColumnCount(columns, idColumn, nameColumn, j)
    decreases |columns| - j
  {
    if j == |columns| then []
    else
      var rest := MeltFrom(columns, rows, idColumn, nameColumn, idIdx, nameIdx, j + 1);
      if IsValueColumn(columns[j], idColumn, nameColumn) then ColumnRows(columns, rows, idIdx, nameIdx, j) + rest
      else rest
  }

  /** Every (row, value column) pair is melted. */
  lemma {:induction false} MeltFromComplete(columns: seq<string>, rows: seq<seq<Cell>>, idColumn: string, nameColumn: string,
                                            idIdx: nat, nameIdx: nat, j: nat, i: nat, k: nat)
    requires Rectangular(columns, rows) && Identifiers(columns, idColumn, nameColumn, idIdx, nameIdx) && j <= |columns|
    requires i < |rows| && j <= k < |columns| && IsValueColumn(columns[k], idColumn, nameColumn)
    ensures At(columns, rows, idIdx, nameIdx, i, k) in MeltFrom(columns, rows, idColumn, nameColumn, idIdx, nameIdx, j)
    decreases |columns| - j
  {
    var here := if IsValueColumn(columns[j], idColumn, nameColumn) then ColumnRows(columns, rows, idIdx, nameIdx, j) else [];
    var rest := MeltFrom(columns, rows, idColumn, nameColumn, idIdx, nameIdx, j + 1);
    assert MeltFrom(columns, rows, idColumn, nameColumn, idIdx, nameIdx, j) == here + rest;
    if k == j {
      assert here[i] == At(columns, rows, idIdx, nameIdx, i, k);
    } else {
      MeltFromComplete(columns, rows, idColumn, nameColumn, idIdx, nameIdx, j + 1, i, k);
    }
  }

  /** Every melted row comes from a (row, value column) pair. */
  lemma {:induction false} MeltFromSound(columns: seq<string>, rows: seq<seq<Cell>>, idColumn: string, nameColumn: string,
                                         idIdx: nat, nameIdx: nat, j: nat, x: LongRow)
    requires Rectangular(columns, rows) && Identifiers(columns, idColumn, nameColumn, idIdx, nameIdx) && j <= |columns|
    requires x in MeltFrom(columns, rows, idColumn, nameColumn, idIdx, nameIdx, j)
    ensures MeltedFrom(x, columns, rows, idColumn, nameColumn, idIdx, nameIdx, j)
    decreases |columns| - j
  {
    var here := if IsValueColumn(columns[j], idColumn, nameColumn) then ColumnRows(columns, rows, idIdx, nameIdx, j) else [];
    var rest := MeltFrom(columns, rows, idColumn, nameColumn, idIdx, nameIdx, j + 1);
    assert MeltFrom(columns, rows, idColumn, nameColumn, idIdx, nameIdx, j) == here + rest;
    if x in here {
      var i :| 0 <= i < |here| && here[i] == x;
      assert x == At(columns, rows, idIdx, nameIdx, i, j);
    } else {
      MeltFromSound(columns, rows, idColumn, nameColumn, idIdx, nameIdx, j + 1, x);
    }
  }

  /** melt_dataframe with `id_vars = [idColumn, nameColumn]`: every (row, value
      column) pair gives one long row, and nothing else does. */
  function Melt(columns: seq<string>, rows: seq<seq<Cell>>, idColumn: string, nameColumn: string): (r: seq<LongRow>)
    requires Rectangular(columns, rows) && idColumn in columns && nameColumn in columns
    ensures |r| == |rows| * ValueColumnCount(columns, idColumn, nameColumn, 0)
    ensures forall i, k :: 0 <= i < |rows| && 0 <= k < |columns| && IsValueColumn(columns[k], idColumn, nameColumn)
              ==> At(columns, rows, IndexOf(columns, idColumn), IndexOf(columns, nameColumn), i, k) in r
    ensures forall x :: x in r ==>
              MeltedFrom(x, columns, rows, idColumn, nameColumn, IndexOf(columns, idColumn), IndexOf(columns, nameColumn), 0)
  {
    var idIdx, nameIdx := IndexOf(columns, idColumn), IndexOf(columns, nameColumn);
    var r := MeltFrom(columns, rows, idColumn, nameColumn, idIdx, nameIdx, 0);
    forall i, k | 0 <= i < |rows| && 0 <= k < |columns| && IsValueColumn(columns[k], idColumn, nameColumn)
      ensures At(columns, rows, idIdx, nameIdx, i, k) in r
    {
      MeltFromComplete(columns, rows, idColumn, nameColumn, idIdx, nameIdx, 0, i, k);
    }
    forall x | x in r ensures MeltedFrom(x, columns, rows, idColumn, nameColumn, idIdx, nameIdx, 0) {
      MeltFromSound(columns, rows, idColumn, nameColumn, idIdx, nameIdx, 0, x);
    }
    r
  }

  /** The filter of src/app.py:148-157: keeps the long rows whose base field is selected. */
  function FilterSelected(long: seq<LongRow>, selected: seq<string>): (r: seq<LongRow>)
    ensures |r| == Count(long, Selects(selected))
    ensures forall x :: x in r <==> x in long && BaseName(x.attribute) in selected
    ensures forall x :: multiset(r)[x] == if BaseName(x.attribute) in selected then multiset(long)[x] else 0
  {
    FilterMultiset(long, Selects(selected));
    Filter(long, Selects(selected))
  }

  /** The mask of the selection filter. */
  function Selects(selected: seq<string>): LongRow -> bool {
    (x: LongRow) => BaseName(x.attribute) in selected
  }

  /** `job_name + '_' + Attribute` for one row: a missing job name stays missing,
      a job name that is not a string makes pandas raise a TypeError (None). */
  function UniqueIdOf(jobName: Cell, attribute: string): (r: Option<Cell>)
    ensures r == None <==> jobName.Other?
    ensures jobName.Str? ==> r == Some(Str(jobName.s + "_" + attribute))
    ensures jobName.Missing? ==> r == Some(Missing)
  {
    match jobName
    case Missing => Some(Missing)
    case Str(n) => Some(Str(n + "_" + attribute))
    case Other(_) => None
  }

  /** The `unique_id` column, or None when computing it raises. */
  function UniqueIds(rows: seq<LongRow>): (r: Option<seq<Cell>>)
    ensures r.None? <==> exists x :: x in rows && x.jobName.Other?
    ensures r.Some? ==> |r.value| == |rows|
                        && forall i :: 0 <= i < |rows| ==> Some(r.value[i]) == UniqueIdOf(rows[i].jobName, rows[i].attribute)
  {
    if exists x :: x in rows && x.jobName.Other? then None
    else Some(seq(|rows|, i requires 0 <= i < |rows| => UniqueIdOf(rows[i].jobName, rows[i].attribute).value))
  }

  /** A long row together with its join key. */
  datatype KeyedRow = KeyedRow(row: LongRow, key: Cell)

  /** The rows of a long table with their `unique_id` column alongside. */
  function WithKeys(rows: seq<LongRow>, ids: seq<Cell>): (r: seq<KeyedRow>)
    requires |ids| == |rows|
    ensures |r| == |rows|
    ensures forall i :: 0 <= i < |rows| ==> r[i] == KeyedRow(rows[i], ids[i])
  {
    seq(|rows|, i requires 0 <= i < |rows| => KeyedRow(rows[i], ids[i]))
  }

  /** A long-form table; the tool renames its job-name column and adds the
      `unique_id` column in place. */
  class LongFrame {
    var jobNameColumn: string
    var rows: seq<LongRow>
    var uniqueIds: Option<seq<Cell>>

    constructor (rows: seq<LongRow>)
      ensures this.rows == rows && jobNameColumn == JOB_NAME_COLUMN && uniqueIds == None
    {
      this.rows := rows;
      jobNameColumn := JOB_NAME_COLUMN;
      uniqueIds := None;
    }

    /** `rename(columns={from: to}, inplace=True)`, as it affects the job-name column. */
    method Rename(from: string, to: string)
      modifies this
      ensures jobNameColumn == if old(jobNameColumn) == from then to else old(jobNameColumn)
      ensures rows == old(rows) && uniqueIds == old(uniqueIds)
    {
      if jobNameColumn == from {
        jobNameColumn := to;
      }
    }

    /** create_unique_id: adds the `unique_id` column to this frame; `raised`
        reports the TypeError pandas raises on a non-string job name, in which
        case the frame is unchanged. */
    method CreateUniqueId(column: string) returns (raised: bool)
      requires column == jobNameColumn
      modifies this
      ensures raised <==> UniqueIds(old(rows)).None?
      ensures uniqueIds == if raised then old(uniqueIds) else UniqueIds(old(rows))
      ensures rows == old(rows) && jobNameColumn == old(jobNameColumn)
    {
      var ids := UniqueIds(rows);
      raised := ids.None?;
      if !raised {
        uniqueIds := ids;
      }
    }
  }
}
