/**
 * The Normalizer: cell-wise lower-casing, filling of missing cells, trimming
 * of cells and of column names (normalize_df, fill_empty_with_blank,
 * normalize_columns and strip_values in src/utils.py).
 */
module Normalize {
  import opened Config
  import opened Strings
  import opened Cells

  /** The body of a table: one list of cells per row. */
  type Rows = seq<seq<Cell>>

  /** Applies `f` to every cell (`DataFrame.applymap`). */
  function MapCells(rows: Rows, f: Cell -> Cell): (r: Rows)
    ensures |r| == |rows|
    ensures forall i :: 0 <= i < |rows| ==> |r[i]| == |rows[i]|
    ensures forall i, j :: 0 <= i < |rows| && 0 <= j < |rows[i]| ==> r[i][j] == f(rows[i][j])
  {
    seq(|rows|, i requires 0 <= i < |rows| => seq(|rows[i]|, j requires 0 <= j < |rows[i]| => f(rows[i][j])))
  }

  /** normalize_df's per-cell step: strings are lower-cased, nothing else changes. */
  function LowerCell(c: Cell): (r: Cell)
    ensures r.Missing? <==> c.Missing?
    ensures !c.Str? ==> r == c
    ensures c.Str? ==> r == Str(Lower(c.s))
    ensures c.Str? ==> forall k :: 0 <= k < |r.s| ==> !('A' <= r.s[k] <= 'Z')
  {
    if c.Str? then Str(Lower(c.s)) else c
  }

  /** normalize_df: every string cell is lower-cased, in a table of the same shape. */
  function NormalizeDf(rows: Rows): (r: Rows)
    ensures |r| == |rows| && forall i :: 0 <= i < |rows| ==> |r[i]| == |rows[i]|
    ensures forall i, j :: 0 <= i < |rows| && 0 <= j < |rows[i]| ==> r[i][j] == LowerCell(rows[i][j])
    ensures forall i, j, k :: 0 <= i < |r| && 0 <= j < |r[i]| && r[i][j].Str? && 0 <= k < |r[i][j].s|
              ==> !('A' <= r[i][j].s[k] <= 'Z')
  {
    MapCells(rows, LowerCell)
  }

  function FillBlankCell(c: Cell): Cell {
    FillMissing(c, EMPTY_CELL_PLACEHOLDER)
  }

  /** fill_empty_with_blank: missing cells become "false", all others stay. */
  function FillEmptyWithBlank(rows: Rows): (r: Rows)
    ensures |r| == |rows| && forall i :: 0 <= i < |rows| ==> |r[i]| == |rows[i]|
    ensures forall i, j :: 0 <= i < |rows| && 0 <= j < |rows[i]| ==>
              !r[i][j].Missing?
              && (rows[i][j].Missing? ==> r[i][j] == Str(EMPTY_CELL_PLACEHOLDER))
              && (!rows[i][j].Missing? ==> r[i][j] == rows[i][j])
  {
    MapCells(rows, FillBlankCell)
  }

  /** A cell as strip_values leaves it: present, and if a string then non-empty
      and without surrounding whitespace. */
  predicate Clean(c: Cell) {
    !c.Missing? && (c.Str? ==> c.s != "" && Strip(c.s) == c.s)
  }

  /** strip_values' per-cell step. */
  function CleanCell(c: Cell): (r: Cell)
    ensures Clean(r)
    ensures c.Missing? ==> r == Str(NO_VALUE_PLACEHOLDER)
    ensures c.Str? && Strip(c.s) == "" ==> r == Str(NO_VALUE_PLACEHOLDER)
    ensures c.Str? && Strip(c.s) != "" ==> r == Str(Strip(c.s))
    ensures c.Other? ==> r == c
  {
    NoValueIsClean();
    if c.Missing? then Str(NO_VALUE_PLACEHOLDER)
    else if c.Str? then
      var stripped := Strip(c.s);
      StripIdempotent(c.s);
      if stripped != "" then Str(stripped) else Str(NO_VALUE_PLACEHOLDER)
    else c
  }

  lemma NoValueIsClean()
    ensures Clean(Str(NO_VALUE_PLACEHOLDER))
  {
    var s := NO_VALUE_PLACEHOLDER;
    TrimLeftFixed(s);
    TrimRightFixed(s);
  }

  /** strip_values: `clean_cell` on every cell, leaving every cell clean. */
  function StripValues(rows: Rows): (r: Rows)
    ensures |r| == |rows| && forall i :: 0 <= i < |rows| ==> |r[i]| == |rows[i]|
    ensures forall i, j :: 0 <= i < |rows| && 0 <= j < |rows[i]| ==> r[i][j] == CleanCell(rows[i][j]) && Clean(r[i][j])
  {
    MapCells(rows, CleanCell)
  }

  /** `df.columns.str.strip()`. */
  function StripColumns(columns: seq<string>): (r: seq<string>)
    ensures |r| == |columns|
    ensures forall i :: 0 <= i < |columns| ==> r[i] == Strip(columns[i])
  {
    seq(|columns|, i requires 0 <= i < |columns| => Strip(columns[i]))
  }

  /** A clean cell is a fixed point of strip_values' step. */
  lemma CleanCellFixed(c: Cell)
    requires Clean(c)
    ensures CleanCell(c) == c
  {
  }

  /** After strip_values no cell is missing or blank, and running it again
      changes nothing. */
  lemma StripValuesIdempotent(rows: Rows)
    ensures forall i, j :: 0 <= i < |rows| && 0 <= j < |rows[i]| ==> Clean(StripValues(rows)[i][j])
    ensures StripValues(StripValues(rows)) == StripValues(rows)
  {
    var once := StripValues(rows);
    forall i, j | 0 <= i < |once| && 0 <= j < |once[i]|
      ensures CleanCell(once[i][j]) == once[i][j]
    {
      CleanCellFixed(once[i][j]);
    }
    var twice := StripValues(once);
    forall i | 0 <= i < |once| ensures twice[i] == once[i] {
      assert |twice[i]| == |once[i]|;
    }
  }

  // ---------------------------------------------------------------------
  // The preprocessing sequence of src/app.py:63-73, one cell at a time

  /** A cell after lower-casing, filling and stripping, in the pipeline's order. */
  function PreprocessCell(c: Cell): Cell {
    CleanCell(FillBlankCell(LowerCell(c)))
  }

  /** An originally missing cell ends as "false"; a blank string ends as the
      capitalised "No Value"; any other string is trimmed and lower-cased; other
      values are untouched; nothing is missing afterwards. */
  lemma PreprocessCellSpec(c: Cell)
    ensures Clean(PreprocessCell(c))
    ensures c.Missing? ==> PreprocessCell(c) == Str(EMPTY_CELL_PLACEHOLDER)
    ensures c.Str? && Strip(c.s) == "" ==> PreprocessCell(c) == Str(NO_VALUE_PLACEHOLDER)
    ensures c.Str? && Strip(c.s) != "" ==> PreprocessCell(c) == Str(Lower(Strip(c.s)))
    ensures c.Other? ==> PreprocessCell(c) == c
  {
    if c.Missing? {
      var s := EMPTY_CELL_PLACEHOLDER;
      TrimLeftFixed(s);
      TrimRightFixed(s);
    } else if c.Str? {
      StripLower(c.s);
    }
  }

  /** Preprocessing is not idempotent: a second pass lower-cases the
      "No Value" placeholder that the first pass wrote. */
  lemma PreprocessNotIdempotent()
    ensures PreprocessCell(Str(" ")) == Str(NO_VALUE_PLACEHOLDER)
    ensures PreprocessCell(PreprocessCell(Str(" "))) == Str("no value")
  {
    assert Strip(" ") == "" by {
      assert IsSpace(" "[0]);
      assert TrimLeft(" ") == TrimLeft(" "[1..]);
    }
    PreprocessCellSpec(Str(" "));
    var nv := NO_VALUE_PLACEHOLDER;
    var lower := "no value";
    assert Lower(nv) == lower;
    TrimLeftFixed(nv);
    TrimRightFixed(nv);
    PreprocessCellSpec(Str(nv));
  }

  /** A table as read from a file, after preprocessing: the tool replaces the
      frame by a new one at each cell-wise step and renames the columns in place. */
  class WideFrame {
    var columns: seq<string>
    var rows: Rows

    constructor (columns: seq<string>, rows: Rows)
      ensures this.columns == columns && this.rows == rows
    {
      this.columns := columns;
      this.rows := rows;
    }

    /** normalize_columns: trims every column name in place. */
    method NormalizeColumns()
      modifies this
      ensures columns == StripColumns(old(columns))
      ensures rows == old(rows)
    {
      columns := StripColumns(columns);
    }
  }
}
