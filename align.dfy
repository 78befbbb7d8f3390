/**
 * The Aligner: the outer join of the TEST and GOLD long rows on `unique_id`
 * (merge_dataframes, src/utils.py:50-55) and the removal of rows that carry
 * neither a gold job id nor an output value (remove_empty_rows, 58-60).
 */
module Align {
  import opened Cells
  import opened Reshape
  import opened Seqs

  /** One row of the joined table. The columns TEST and GOLD share get the
      suffixes `_output` and `_gold`; the side a row lacks is missing.
      `validity` and `attrPrefixOutput` are the columns added later (None
      while a row has no value there). */
  datatype Row = Row(
    jobIdOutput: Cell, jobNameOutput: Cell, attributeOutput: Cell, valueOutput: Cell,
    uniqueId: Cell,
    jobIdGold: Cell, jobNameGold: Cell, attributeGold: Cell, valueGold: Cell,
    validity: Option<Status>, attrPrefixOutput: Option<string>)

  /** A TEST row paired with a GOLD row of the same key. */
  function Joined(o: KeyedRow, g: KeyedRow): Row {
    Row(o.row.jobId, o.row.jobName, Str(o.row.attribute), o.row.value, o.key,
        g.row.jobId, g.row.jobName, Str(g.row.attribute), g.row.value, None, None)
  }

  /** A TEST row no GOLD row pairs with. */
  function OutputOnly(o: KeyedRow): Row {
    Row(o.row.jobId, o.row.jobName, Str(o.row.attribute), o.row.value, o.key,
        Missing, Missing, Missing, Missing, None, None)
  }

  /** A GOLD row no TEST row pairs with. */
  function GoldOnly(g: KeyedRow): Row {
    Row(Missing, Missing, Missing, Missing, g.key,
        g.row.jobId, g.row.jobName, Str(g.row.attribute), g.row.value, None, None)
  }

  /** Some row of `rows` has join key `key`. pandas pairs missing keys with each
      other, so the comparison is plain equality. */
  predicate KeyIn(key: Cell, rows: seq<KeyedRow>) {
    exists g :: g in rows && g.key == key
  }

  /** GOLD rows whose join key is `key`. */
  function SameKey(key: Cell): KeyedRow -> bool {
    (g: KeyedRow) => g.key == key
  }

  /** GOLD rows whose key no TEST row has. */
  function Unpaired(out: seq<KeyedRow>): KeyedRow -> bool {
    (g: KeyedRow) => !KeyIn(g.key, out)
  }

  /** The joined rows one TEST row gives: one per GOLD row with its key
      (cartesian for duplicates), or the row alone if there is none. */
  function RowsFor(o: KeyedRow, gold: seq<KeyedRow>): (r: seq<Row>)
    ensures KeyIn(o.key, gold) ==> forall x :: x in r <==> exists g :: g in gold && g.key == o.key && x == Joined(o, g)
    ensures KeyIn(o.key, gold) ==> |r| == Count(gold, SameKey(o.key))
    ensures KeyIn(o.key, gold) ==> forall i :: 0 <= i < |r| ==> r[i] == Joined(o, Filter(gold, SameKey(o.key))[i])
    ensures !KeyIn(o.key, gold) ==> r == [OutputOnly(o)]
  {
    var partners := Filter(gold, SameKey(o.key));
    if partners == [] then
      assert forall g :: g in gold && g.key == o.key ==> SameKey(o.key)(g) && g in partners;
      [OutputOnly(o)]
    else
      assert partners[0] in partners;
      var r := seq(|partners|, i requires 0 <= i < |partners| => Joined(o, partners[i]));
      forall x | x in r ensures exists g :: g in gold && g.key == o.key && x == Joined(o, g) {
        var i :| 0 <= i < |r| && r[i] == x;
        assert partners[i] in partners;
      }
      forall g | g in gold && g.key == o.key ensures Joined(o, g) in r {
        assert SameKey(o.key)(g);
        assert g in partners;
        var i :| 0 <= i < |partners| && partners[i] == g;
        assert r[i] == Joined(o, g);
      }
      r
  }

  /** The part of the join led by TEST rows, in TEST order. */
  function LeftPart(out: seq<KeyedRow>, gold: seq<KeyedRow>): (r: seq<Row>)
    ensures forall x :: x in r <==> exists o :: o in out && x in RowsFor(o, gold)
  {
    if out == [] then []
    else
      var init, last := out[..|out| - 1], out[|out| - 1];
      var r := LeftPart(init, gold) + RowsFor(last, gold);
      assert out == init + [last];
      r
  }

  /** The GOLD rows no TEST row pairs with, in GOLD order. */
  function RightPart(out: seq<KeyedRow>, gold: seq<KeyedRow>): (r: seq<Row>)
    ensures forall x :: x in r <==> exists g :: g in gold && !KeyIn(g.key, out) && x == GoldOnly(g)
    ensures |r| == Count(gold, Unpaired(out))
    ensures forall i :: 0 <= i < |r| ==> r[i] == GoldOnly(Filter(gold, Unpaired(out))[i])
  {
    var unmatched := Filter(gold, Unpaired(out));
    var r := seq(|unmatched|, i requires 0 <= i < |unmatched| => GoldOnly(unmatched[i]));
    forall x | x in r ensures exists g :: g in gold && !KeyIn(g.key, out) && x == GoldOnly(g) {
      var i :| 0 <= i < |r| && r[i] == x;
      assert unmatched[i] in unmatched;
    }
    forall g | g in gold && !KeyIn(g.key, out) ensures GoldOnly(g) in r {
      assert Unpaired(out)(g);
      assert g in unmatched;
      var i :| 0 <= i < |unmatched| && unmatched[i] == g;
      assert r[i] == GoldOnly(g);
    }
    r
  }

  /** The number of rows the TEST rows lead in the join, counted row by row:
      as many as GOLD rows share the key, or one for a row GOLD lacks. */
  function Pairings(out: seq<KeyedRow>, gold: seq<KeyedRow>): nat {
    if out == [] then 0
    else
      var o := out[|out| - 1];
      Pairings(out[..|out| - 1], gold) + (if KeyIn(o.key, gold) then Count(gold, SameKey(o.key)) else 1)
  }

  /** merge_dataframes: the outer join on `unique_id`. */
  function Merge(out: seq<KeyedRow>, gold: seq<KeyedRow>): seq<Row> {
    LeftPart(out, gold) + RightPart(out, gold)
  }

  /** The rows of the outer join are exactly: every pair of a TEST and a GOLD
      row with equal keys, every TEST row whose key GOLD lacks, and every
      GOLD row whose key TEST lacks. */
  lemma MergeMembers(out: seq<KeyedRow>, gold: seq<KeyedRow>, x: Row)
    ensures x in Merge(out, gold) <==>
              (exists o, g :: o in out && g in gold && o.key == g.key && x == Joined(o, g))
              || (exists o :: o in out && !KeyIn(o.key, gold) && x == OutputOnly(o))
              || (exists g :: g in gold && !KeyIn(g.key, out) && x == GoldOnly(g))
  {
    LeftPartMembers(out, gold, x);
  }

  /** The rows of the left part are the pairs with equal keys and the TEST
      rows whose key GOLD lacks. */
  lemma LeftPartMembers(out: seq<KeyedRow>, gold: seq<KeyedRow>, x: Row)
    ensures x in LeftPart(out, gold) <==>
              (exists o, g :: o in out && g in gold && o.key == g.key && x == Joined(o, g))
              || (exists o :: o in out && !KeyIn(o.key, gold) && x == OutputOnly(o))
  {
    if x in LeftPart(out, gold) {
      var o :| o in out && x in RowsFor(o, gold);
      if KeyIn(o.key, gold) {
        var g :| g in gold && g.key == o.key && x == Joined(o, g);
      }
    }
    if exists o, g :: o in out && g in gold && o.key == g.key && x == Joined(o, g) {
      var o, g :| o in out && g in gold && o.key == g.key && x == Joined(o, g);
      assert KeyIn(o.key, gold);
      assert x in RowsFor(o, gold);
    }
    if exists o :: o in out && !KeyIn(o.key, gold) && x == OutputOnly(o) {
      var o :| o in out && !KeyIn(o.key, gold) && x == OutputOnly(o);
      assert x in RowsFor(o, gold);
    }
  }

  /** Every key of either side survives the join. */
  lemma MergeKeepsKeys(out: seq<KeyedRow>, gold: seq<KeyedRow>, key: Cell)
    requires KeyIn(key, out) || KeyIn(key, gold)
    ensures exists x :: x in Merge(out, gold) && x.uniqueId == key
  {
    if KeyIn(key, out) {
      var o :| o in out && o.key == key;
      if KeyIn(key, gold) {
        var g :| g in gold && g.key == key;
        MergeMembers(out, gold, Joined(o, g));
      } else {
        MergeMembers(out, gold, OutputOnly(o));
      }
    } else {
      var g :| g in gold && g.key == key;
      MergeMembers(out, gold, GoldOnly(g));
    }
  }

  /** With no key in common nothing is paired: one row per input row. */
  lemma {:induction false} MergeDisjointSize(out: seq<KeyedRow>, gold: seq<KeyedRow>)
    requires forall o :: o in out ==> !KeyIn(o.key, gold)
    ensures |Merge(out, gold)| == |out| + |gold|
  {
    LeftPartDisjointSize(out, gold);
    forall i | 0 <= i < |gold| ensures Unpaired(out)(gold[i]) {
      assert gold[i] in gold;
    }
    FilterAll(gold, Unpaired(out));
  }

  lemma {:induction false} LeftPartDisjointSize(out: seq<KeyedRow>, gold: seq<KeyedRow>)
    requires forall o :: o in out ==> !KeyIn(o.key, gold)
    ensures |LeftPart(out, gold)| == |out|
    decreases |out|
  {
    if out != [] {
      var init := out[..|out| - 1];
      assert forall o :: o in init ==> o in out;
      assert out[|out| - 1] in out;
      LeftPartDisjointSize(init, gold);
    }
  }

  /** Duplicate keys multiply: the left part has, for every TEST row, one row
      per GOLD row of its key, and one row for a TEST row GOLD lacks. */
  lemma {:induction false} LeftPartSize(out: seq<KeyedRow>, gold: seq<KeyedRow>)
    ensures |LeftPart(out, gold)| == Pairings(out, gold)
    decreases |out|
  {
    if out != [] {
      LeftPartSize(out[..|out| - 1], gold);
    }
  }

  /** The size of the outer join: the pairings of the TEST rows plus one row
      per GOLD row whose key TEST lacks. */
  lemma MergeSize(out: seq<KeyedRow>, gold: seq<KeyedRow>)
    ensures |Merge(out, gold)| == Pairings(out, gold) + Count(gold, Unpaired(out))
  {
    LeftPartSize(out, gold);
  }

  /** remove_empty_rows: drops the rows where both `job_id_gold` and
      `Value_output` are missing. */
  function RemoveEmptyRows(rows: seq<Row>): (r: seq<Row>)
    ensures |r| == Count(rows, NotEmpty)
    ensures forall x :: x in r <==> x in rows && (!x.jobIdGold.Missing? || !x.valueOutput.Missing?)
    ensures forall x :: multiset(r)[x] == if NotEmpty(x) then multiset(rows)[x] else 0
  {
    FilterMultiset(rows, NotEmpty);
    Filter(rows, NotEmpty)
  }

  /** The mask of remove_empty_rows. */
  predicate NotEmpty(x: Row) {
    !(x.jobIdGold.Missing? && x.valueOutput.Missing?)
  }

  /** The joined table the pipeline annotates in place. */
  class MergedFrame {
    var rows: seq<Row>

    constructor (rows: seq<Row>)
      ensures this.rows == rows
    {
      this.rows := rows;
    }
  }
}
