/**
 * The Validator: the verdict of one joined row (compute_validity and its four
 * policies, src/utils.py:81-198). `similar(a, b)` stands for
 * `SequenceMatcher(None, a, b).ratio() >= threshold` on the two texts; it is
 * not assumed symmetric, and the arguments are passed in the source's order.
 */
module Validity {
  import opened Cells
  import opened Fields
  import opened Seqs
  import opened Align

  /** A row of the sibling group of (`jobName`, `prefix`): the same job name
      (a missing name matches nothing) and the same base output attribute. */
  predicate IsSibling(r: Row, jobName: Cell, prefix: string) {
    Equal(r.jobNameOutput, jobName) && GetBaseField(r.attributeOutput) == prefix
  }

  /** `relevant_rows` of the two array policies. */
  function Siblings(table: seq<Row>, jobName: Cell, prefix: string): (r: seq<Row>)
    ensures forall x :: x in r <==> x in table && IsSibling(x, jobName, prefix)
  {
    Filter(table, (x: Row) => IsSibling(x, jobName, prefix))
  }

  /** `set(relevant_rows['Value_gold'].dropna().unique())`. */
  function GoldValues(rows: seq<Row>): (r: set<Cell>)
    ensures forall g :: g in r <==> !g.Missing? && exists x :: x in rows && x.valueGold == g
  {
    set x | x in rows && !x.valueGold.Missing? :: x.valueGold
  }

  /** `relevant_rows['Value_gold'].isna().any()`. */
  predicate AnyGoldMissing(rows: seq<Row>) {
    exists x :: x in rows && x.valueGold.Missing?
  }

  /** _validate_array_similarity. */
  function ValidateArraySimilarity(output: Cell, jobName: Cell, attribute: Cell, table: seq<Row>,
                                   similar: (string, string) -> bool): (v: Status)
    ensures v == Valid <==>
              (output.Missing? && exists x :: x in table && IsSibling(x, jobName, GetBaseField(attribute)) && x.valueGold.Missing?)
              || (exists x :: x in table && IsSibling(x, jobName, GetBaseField(attribute))
                               && !x.valueGold.Missing? && similar(Text(output), Text(x.valueGold)))
  {
    var relevant := Siblings(table, jobName, GetBaseField(attribute));
    var golds := GoldValues(relevant);
    if output.Missing? && AnyGoldMissing(relevant) then Valid
    else if exists g :: g in golds && similar(Text(output), Text(g)) then Valid
    else NoValid
  }

  /** _validate_single_similarity. */
  function ValidateSingleSimilarity(output: Cell, gold: Cell, similar: (string, string) -> bool): (v: Status)
    ensures output.Missing? && gold.Missing? ==> v == Valid
    ensures output.Missing? != gold.Missing? ==> v == NoValid
    ensures !output.Missing? && !gold.Missing? ==> (v == Valid <==> similar(Text(output), Text(gold)))
  {
    if output.Missing? && gold.Missing? then Valid
    else if output.Missing? || gold.Missing? then NoValid
    else if similar(Text(output), Text(gold)) then Valid
    else NoValid
  }

  /** _validate_array_exact. */
  function ValidateArrayExact(output: Cell, gold: Cell, jobName: Cell, attribute: Cell, table: seq<Row>): (v: Status)
    ensures !output.Missing? ==>
              (v == Valid <==> exists x :: x in table && IsSibling(x, jobName, GetBaseField(attribute)) && Equal(output, x.valueGold))
    ensures output.Missing? ==>
              (v == Valid <==> gold.Missing?
                               || exists x :: x in table && IsSibling(x, jobName, GetBaseField(attribute)) && x.valueGold.Missing?)
  {
    var relevant := Siblings(table, jobName, GetBaseField(attribute));
    var golds := GoldValues(relevant);
    if output.Missing? && AnyGoldMissing(relevant) then Valid
    else if output in golds then Valid
    else if output.Missing? && gold.Missing? then Valid
    else NoValid
  }

  /** _validate_single_exact. */
  function ValidateSingleExact(output: Cell, gold: Cell): (v: Status)
    ensures v == Valid <==> (output.Missing? && gold.Missing?) || Equal(output, gold)
  {
    if output.Missing? && gold.Missing? then Valid
    else if output == gold then Valid
    else NoValid
  }

  /** compute_validity: `fields` is the list of similarity-matched fields,
      `table` the whole joined table. */
  function ComputeValidity(row: Row, table: seq<Row>, fields: seq<string>, similar: (string, string) -> bool): Status {
    var inCompare := GetBaseField(row.attributeOutput) in fields;
    var isArray := LooksLikeArray(row.attributeOutput);
    if inCompare then
      if isArray then ValidateArraySimilarity(row.valueOutput, row.jobNameOutput, row.attributeOutput, table, similar)
      else ValidateSingleSimilarity(row.valueOutput, row.valueGold, similar)
    else
      if isArray then ValidateArrayExact(row.valueOutput, row.valueGold, row.jobNameOutput, row.attributeOutput, table)
      else ValidateSingleExact(row.valueOutput, row.valueGold)
  }

  // ---------------------------------------------------------------------
  // The verdicts as the policies promise them

  /** A scalar field outside the similarity set: Valid iff both values are
      missing or they are equal (so a missing value against a present one is
      No Valid). */
  lemma ScalarExactVerdict(row: Row, table: seq<Row>, fields: seq<string>, similar: (string, string) -> bool)
    requires GetBaseField(row.attributeOutput) !in fields && !LooksLikeArray(row.attributeOutput)
    ensures ComputeValidity(row, table, fields, similar) == Valid <==>
              (row.valueOutput.Missing? && row.valueGold.Missing?) || Equal(row.valueOutput, row.valueGold)
  {
  }

  /** A scalar field in the similarity set: Valid iff both values are missing,
      or both are present and the output is similar to the gold value. */
  lemma ScalarSimilarityVerdict(row: Row, table: seq<Row>, fields: seq<string>, similar: (string, string) -> bool)
    requires GetBaseField(row.attributeOutput) in fields && !LooksLikeArray(row.attributeOutput)
    ensures ComputeValidity(row, table, fields, similar) == Valid <==>
              (row.valueOutput.Missing? && row.valueGold.Missing?)
              || (!row.valueOutput.Missing? && !row.valueGold.Missing?
                  && similar(Text(row.valueOutput), Text(row.valueGold)))
  {
  }

  /** An array field outside the similarity set: a present output value is
      Valid iff it equals the gold value of some row of its (job name, base
      field) group; a missing one iff its own gold value or the gold value of
      some row of the group is missing. */
  lemma ArrayExactVerdict(row: Row, table: seq<Row>, fields: seq<string>, similar: (string, string) -> bool)
    requires GetBaseField(row.attributeOutput) !in fields && LooksLikeArray(row.attributeOutput)
    ensures var name, prefix := row.jobNameOutput, GetBaseField(row.attributeOutput);
            ComputeValidity(row, table, fields, similar) == Valid <==>
              if row.valueOutput.Missing? then
                row.valueGold.Missing? || exists x :: x in table && IsSibling(x, name, prefix) && x.valueGold.Missing?
              else
                exists x :: x in table && IsSibling(x, name, prefix) && Equal(row.valueOutput, x.valueGold)
  {
  }

  /** An array field in the similarity set: Valid iff the output is missing and
      some row of its group has a missing gold value, or the output is similar
      to a present gold value of some row of the group. */
  lemma ArraySimilarityVerdict(row: Row, table: seq<Row>, fields: seq<string>, similar: (string, string) -> bool)
    requires GetBaseField(row.attributeOutput) in fields && LooksLikeArray(row.attributeOutput)
    ensures var name, prefix := row.jobNameOutput, GetBaseField(row.attributeOutput);
            ComputeValidity(row, table, fields, similar) == Valid <==>
              (row.valueOutput.Missing? && exists x :: x in table && IsSibling(x, name, prefix) && x.valueGold.Missing?)
              || exists x :: x in table && IsSibling(x, name, prefix) && !x.valueGold.Missing? && similar(Text(row.valueOutput), Text(x.valueGold))
  {
  }

  /** The verdict of a scalar field does not depend on the rest of the table. */
  lemma ScalarIgnoresTable(row: Row, t1: seq<Row>, t2: seq<Row>, fields: seq<string>, similar: (string, string) -> bool)
    requires !LooksLikeArray(row.attributeOutput)
    ensures ComputeValidity(row, t1, fields, similar) == ComputeValidity(row, t2, fields, similar)
  {
  }

  /** An array field matched exactly: a present output value equal to its own
      row's gold value is Valid, since the row is its own sibling. */
  lemma ArrayExactOwnGold(row: Row, table: seq<Row>, fields: seq<string>, similar: (string, string) -> bool)
    requires row in table
    requires GetBaseField(row.attributeOutput) !in fields && LooksLikeArray(row.attributeOutput)
    requires !row.jobNameOutput.Missing? && Equal(row.valueOutput, row.valueGold)
    ensures ComputeValidity(row, table, fields, similar) == Valid
  {
    assert IsSibling(row, row.jobNameOutput, GetBaseField(row.attributeOutput));
  }

  /** An array field matched by similarity: an output similar to its own row's
      gold value is Valid. */
  lemma ArraySimilarityOwnGold(row: Row, table: seq<Row>, fields: seq<string>, similar: (string, string) -> bool)
    requires row in table
    requires GetBaseField(row.attributeOutput) in fields && LooksLikeArray(row.attributeOutput)
    requires !row.jobNameOutput.Missing? && !row.valueGold.Missing?
    requires similar(Text(row.valueOutput), Text(row.valueGold))
    ensures ComputeValidity(row, table, fields, similar) == Valid
  {
    assert IsSibling(row, row.jobNameOutput, GetBaseField(row.attributeOutput));
  }

  /** Array policies look only at the sibling group: rows of other jobs or
      other base fields can be added or removed without changing the verdict. */
  lemma ArrayVerdictLocal(row: Row, t1: seq<Row>, t2: seq<Row>, fields: seq<string>, similar: (string, string) -> bool)
    requires forall x :: IsSibling(x, row.jobNameOutput, GetBaseField(row.attributeOutput)) ==> (x in t1 <==> x in t2)
    ensures ComputeValidity(row, t1, fields, similar) == ComputeValidity(row, t2, fields, similar)
  {
  }
}
