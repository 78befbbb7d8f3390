/**
 * The Aggregator: per base attribute, the number of Valid rows and the number
 * of rows with a verdict (aggregate_base_attributes, src/utils.py:266-288).
 */
module Aggregate {
  import opened Strings
  import opened Cells
  import opened Fields
  import opened Seqs
  import opened Align

  /** The `base_attribute` of a row: the output attribute, or the gold one
      when the output one is missing or empty, with every `[digits]` deleted
      and surrounding whitespace trimmed. None (NaN, a key groupby drops) when
      the chosen attribute is not a string. */
  function BaseAttribute(r: Row): (k: Option<string>)
    ensures r.attributeOutput.Str? && r.attributeOutput.s != "" ==> k == Some(Strip(RemoveTokens(r.attributeOutput.s, false)))
    ensures ((r.attributeOutput.Missing? || r.attributeOutput == Str("")) && r.attributeGold.Str?)
              ==> k == Some(Strip(RemoveTokens(r.attributeGold.s, false)))
    ensures r.attributeOutput.Other? ==> k == None
    ensures ((r.attributeOutput.Missing? || r.attributeOutput == Str("")) && r.attributeGold.Other?) ==> k == None
    ensures ((r.attributeOutput.Missing? || r.attributeOutput == Str("")) && r.attributeGold.Missing?) ==> k == Some("")
  {
    var attrOutput := FillMissing(r.attributeOutput, "");
    var attrGold := FillMissing(r.attributeGold, "");
    var chosen := if attrOutput != Str("") then attrOutput else attrGold;
    if chosen.Str? then Some(Strip(RemoveTokens(chosen.s, false))) else None
  }

  /** The row has a verdict, and it is Valid when `onlyValid`. */
  predicate Tallied(r: Row, onlyValid: bool) {
    r.validity.Some? && (onlyValid ==> r.validity.value == Valid)
  }

  /** Rows of key `k` that are tallied. */
  function KeyIs(k: string, onlyValid: bool): Row -> bool {
    (r: Row) => BaseAttribute(r) == Some(k) && Tallied(r, onlyValid)
  }

  /** Rows whose key is one of `ks` and that are tallied. */
  function KeyAmong(ks: seq<string>, onlyValid: bool): Row -> bool {
    (r: Row) => BaseAttribute(r).Some? && BaseAttribute(r).value in ks && Tallied(r, onlyValid)
  }

  /** Rows that have a key and are tallied. */
  function HasKey(onlyValid: bool): Row -> bool {
    (r: Row) => BaseAttribute(r).Some? && Tallied(r, onlyValid)
  }

  /** One line of the result: the base attribute, its Valid count, its count
      of verdicts and its accuracy. */
  datatype Metric = Metric(attribute: string, valid: nat, total: nat, accuracy: Option<real>)

  /** `a` is `valid` as a percentage of `total`. */
  predicate IsPercent(a: real, valid: nat, total: nat) {
    a * (total as real) == 100.0 * (valid as real)
  }

  /** `valid / total * 100`. */
  function Percent(valid: nat, total: nat): (a: real)
    requires total > 0
    ensures IsPercent(a, valid, total)
    ensures 0.0 <= a
    ensures valid <= total ==> a <= 100.0
  {
    RatioBounds(valid as real, total as real);
    (valid as real) / (total as real) * 100.0
  }

  lemma RatioBounds(v: real, t: real)
    requires 0.0 <= v && t > 0.0
    ensures v / t * t == v
    ensures 0.0 <= v / t
    ensures v <= t ==> v / t <= 1.0
  {
    assert v / t * t == v;
  }

  /** The accuracy column: `valid / total * 100`, None (NaN) for a group with no verdict. */
  function Accuracy(valid: nat, total: nat): (a: Option<real>)
    ensures total == 0 <==> a.None?
    ensures total > 0 ==> IsPercent(a.value, valid, total)
    ensures valid <= total && total > 0 ==> 0.0 <= a.value <= 100.0
  {
    if total == 0 then None else Some(Percent(valid, total))
  }

  /** The group keys, one per row that has a key, in row order. */
  function Keys(rows: seq<Row>): (ks: seq<string>)
    ensures forall k :: k in ks <==> exists r :: r in rows && BaseAttribute(r) == Some(k)
  {
    if rows == [] then []
    else
      var init, last := rows[..|rows| - 1], rows[|rows| - 1];
      assert rows == init + [last];
      Keys(init) + (match BaseAttribute(last) case Some(k) => [k] case None => [])
  }

  /** The metrics of the keys `ks`, in the order of `ks`. */
  function MetricsOf(rows: seq<Row>, ks: seq<string>): (ms: seq<Metric>)
    ensures |ms| == |ks|
    ensures forall i :: 0 <= i < |ks| ==>
              ms[i].attribute == ks[i]
              && ms[i].valid == Count(rows, KeyIs(ks[i], true))
              && ms[i].total == Count(rows, KeyIs(ks[i], false))
              && ms[i].accuracy == Accuracy(ms[i].valid, ms[i].total)
  {
    if ks == [] then []
    else
      var last := ks[|ks| - 1];
      var valid, total := Count(rows, KeyIs(last, true)), Count(rows, KeyIs(last, false));
      MetricsOf(rows, ks[..|ks| - 1]) + [Metric(last, valid, total, Accuracy(valid, total))]
  }

  /** aggregate_base_attributes: one metric per distinct key, in groupby's
      sorted key order. */
  function AggregateBaseAttributes(rows: seq<Row>): seq<Metric> {
    MetricsOf(rows, SortedSet(Keys(rows)))
  }

  function SumValid(ms: seq<Metric>): nat {
    if ms == [] then 0 else SumValid(ms[..|ms| - 1]) + ms[|ms| - 1].valid
  }

  function SumTotal(ms: seq<Metric>): nat {
    if ms == [] then 0 else SumTotal(ms[..|ms| - 1]) + ms[|ms| - 1].total
  }

  // ---------------------------------------------------------------------
  // What the aggregate promises

  /** The result lists each base attribute of the table once, in increasing
      order, and nothing else. */
  lemma AggregateAttributes(rows: seq<Row>)
    ensures var ms := AggregateBaseAttributes(rows);
            (forall k :: (exists i :: 0 <= i < |ms| && ms[i].attribute == k) <==>
                           exists r :: r in rows && BaseAttribute(r) == Some(k))
            && forall i, j :: 0 <= i < j < |ms| ==> Less(ms[i].attribute, ms[j].attribute)
  {
    var ks := SortedSet(Keys(rows));
    MetricAttributes(rows, ks);
    LabelledBy(AggregateBaseAttributes(rows), ks);
  }

  /** Metrics labelled by `ks`, in order, carry exactly the labels of `ks`, and
      in increasing order when `ks` is. */
  lemma LabelledBy(ms: seq<Metric>, ks: seq<string>)
    requires |ms| == |ks| && forall i :: 0 <= i < |ks| ==> ms[i].attribute == ks[i]
    ensures forall k :: (exists i :: 0 <= i < |ms| && ms[i].attribute == k) <==> k in ks
    ensures Increasing(ks) ==> forall i, j :: 0 <= i < j < |ms| ==> Less(ms[i].attribute, ms[j].attribute)
  {
    forall k | k in ks ensures exists i :: 0 <= i < |ms| && ms[i].attribute == k {
      var i :| 0 <= i < |ks| && ks[i] == k;
      assert ms[i].attribute == k;
    }
  }

  /** The metrics of `ks` are labelled by `ks`, in order. */
  lemma MetricAttributes(rows: seq<Row>, ks: seq<string>)
    ensures |MetricsOf(rows, ks)| == |ks|
    ensures forall i :: 0 <= i < |ks| ==> MetricsOf(rows, ks)[i].attribute == ks[i]
  {
  }

  /** Per attribute, 0 <= valid <= total. */
  lemma MetricBounds(rows: seq<Row>, m: Metric)
    requires m in AggregateBaseAttributes(rows)
    ensures m.valid <= m.total
  {
    var ks := SortedSet(Keys(rows));
    var i :| 0 <= i < |ks| && AggregateBaseAttributes(rows)[i] == m;
    CountMono(rows, KeyIs(ks[i], true), KeyIs(ks[i], false));
  }

  /** When every row has a verdict (as in the pipeline), every listed
      attribute has at least one. */
  lemma MetricTotalPositive(rows: seq<Row>, m: Metric)
    requires forall r :: r in rows ==> r.validity.Some?
    requires m in AggregateBaseAttributes(rows)
    ensures m.total >= 1
  {
    var ks := SortedSet(Keys(rows));
    var i :| 0 <= i < |ks| && AggregateBaseAttributes(rows)[i] == m;
    assert ks[i] in ks;
    var r :| r in rows && BaseAttribute(r) == Some(ks[i]);
    CountPositive(rows, KeyIs(ks[i], false), r);
  }

  /** An empty table gives an empty result. */
  lemma AggregateEmpty()
    ensures AggregateBaseAttributes([]) == []
  {
    assert Keys([]) == [];
  }

  /** Counting per key over distinct keys and summing is counting the rows
      whose key is among them. */
  lemma {:induction false} SumOverKeys(rows: seq<Row>, ks: seq<string>, onlyValid: bool)
    requires forall i, j :: 0 <= i < j < |ks| ==> ks[i] != ks[j]
    ensures (if onlyValid then SumValid(MetricsOf(rows, ks)) else SumTotal(MetricsOf(rows, ks)))
            == Count(rows, KeyAmong(ks, onlyValid))
    decreases |ks|
  {
    var ms := MetricsOf(rows, ks);
    if ks == [] {
      FilterNone(rows, KeyAmong(ks, onlyValid));
    } else {
      var init, last := ks[..|ks| - 1], ks[|ks| - 1];
      SumOverKeys(rows, init, onlyValid);
      assert ms[..|ms| - 1] == MetricsOf(rows, init);
      forall r | r in rows
        ensures KeyAmong(ks, onlyValid)(r) <==> KeyAmong(init, onlyValid)(r) || KeyIs(last, onlyValid)(r)
        ensures !(KeyAmong(init, onlyValid)(r) && KeyIs(last, onlyValid)(r))
      {
        KeyAmongSplit(ks, onlyValid, r);
      }
      CountSplit(rows, KeyAmong(ks, onlyValid), KeyAmong(init, onlyValid), KeyIs(last, onlyValid));
    }
  }

  /** A row's key is among distinct keys `ks` exactly when it is among all
      but the last or is the last, and never both. */
  lemma KeyAmongSplit(ks: seq<string>, onlyValid: bool, r: Row)
    requires ks != []
    requires forall i, j :: 0 <= i < j < |ks| ==> ks[i] != ks[j]
    ensures var init, last := ks[..|ks| - 1], ks[|ks| - 1];
            (KeyAmong(ks, onlyValid)(r) <==> KeyAmong(init, onlyValid)(r) || KeyIs(last, onlyValid)(r))
            && !(KeyAmong(init, onlyValid)(r) && KeyIs(last, onlyValid)(r))
  {
    var init, last := ks[..|ks| - 1], ks[|ks| - 1];
    assert ks == init + [last];
    assert last !in init;
  }

  /** Counting with two predicates that agree on every element gives the same count. */
  lemma CountSame(rows: seq<Row>, p: Row -> bool, q: Row -> bool)
    requires forall r :: r in rows ==> (p(r) <==> q(r))
    ensures Count(rows, p) == Count(rows, q)
  {
    CountMono(rows, p, q);
    CountMono(rows, q, p);
  }

  /** The totals of all attributes add up to the number of rows that have a
      key and a verdict, and the valid counts to the number of those that are
      Valid. */
  lemma AggregateSums(rows: seq<Row>)
    ensures SumTotal(AggregateBaseAttributes(rows)) == Count(rows, HasKey(false))
    ensures SumValid(AggregateBaseAttributes(rows)) == Count(rows, HasKey(true))
  {
    var ks := SortedSet(Keys(rows));
    forall i, j | 0 <= i < j < |ks| ensures ks[i] != ks[j] {
      LessIrreflexive(ks[i]);
    }
    SumOverKeys(rows, ks, false);
    SumOverKeys(rows, ks, true);
    forall r | r in rows ensures KeyAmong(ks, false)(r) <==> HasKey(false)(r) {
    }
    forall r | r in rows ensures KeyAmong(ks, true)(r) <==> HasKey(true)(r) {
    }
    CountSame(rows, KeyAmong(ks, false), HasKey(false));
    CountSame(rows, KeyAmong(ks, true), HasKey(true));
  }

  /** Summed over the attributes, valid never exceeds total. */
  lemma SumValidAtMostTotal(rows: seq<Row>)
    ensures SumValid(AggregateBaseAttributes(rows)) <= SumTotal(AggregateBaseAttributes(rows))
  {
    AggregateSums(rows);
    CountMono(rows, HasKey(true), HasKey(false));
  }
}
