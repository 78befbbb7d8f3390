# CSV field comparison: the comparison engine and the run-analysis pipeline

This project models the core of a tool that compares a TEST table of extracted
job fields with a GOLD table of the same jobs. Both tables are keyed by
`job_id` and `job_name`. A run does the following:

1. Normalises both tables: lowercases string cells, fills missing cells with
   `"false"`, trims column names, then trims string cells and replaces blanks
   with `"No Value"`.
2. Offers the sorted base names of TEST's non-id columns as fields. With no
   field selected, it stops.
3. Melts each table into long rows of (job id, job name, attribute, value) and
   keeps the rows whose base attribute is selected.
4. Keys each long row by `job_name + "_" + attribute`, outer-joins the two
   sides on that key and drops rows that have neither a gold job id nor an
   output value.
5. Gives each joined row a verdict, Valid or No Valid, by one of four
   policies: scalar or array, crossed with exact or similarity matching.
6. Appends a "No ID" row for every gold array value that no output value of
   its job and base field matches.
7. Cleans up and annotates the table, converts its values to text, and counts
   valid and total verdicts per base attribute and overall.

Modules, in pipeline order:

- `Config`: the constants.
- `Strings`: trimming, lowercasing and string order.
- `Cells`: pandas cells (`Missing` for NaN, `Str`, `Other` for non-string
  scalars) and the verdict type.
- `Seqs`: filter and count over sequences.
- `Fields`: `get_base_field` and the two `[digits]` patterns.
- `Normalize`: the cellwise preprocessing steps, and `WideFrame` for the
  in-place column rename.
- `Reshape`: melt, the selection filter, `unique_id`, and `LongFrame` for the
  in-place rename and key column.
- `Align`: the outer join and `remove_empty_rows`.
- `Validity`: `compute_validity` and its four policies.
- `Reconcile`: `add_missing_gold_array_rows`.
- `Aggregate`: `aggregate_base_attributes`.
- `Pipeline`: the stages of `main()` on a `MergedFrame`, and the whole run.
- `Properties`: what a completed run promises, traced through the stages.

Design choices:

- The similarity test `SequenceMatcher(None, a, b).ratio() >= THRESHOLD` is a
  function parameter `similar` on the two texts. It is not assumed symmetric.
  Each call site passes its arguments in the source's order: output first when
  judging a row, gold first when reconciling.
- State the source changes in place is a class field that methods reassign:
  - the column names of a read table;
  - the job-name column and key column of a long table;
  - the rows of the joined table, with its validity, prefix and value
    columns.

  Each such method is proved equal to a function on the old state, and the
  properties are lemmas about those functions.
- The model keeps these behaviours of the code as written:
  - `compute_validity` calls an attribute an array when it merely contains `[`
    and `]`. The reconciler requires `[digits]`.
  - The aggregator deletes only `[digits]` and then trims.
  - The selected fields, not `COMPARE_FIELDS`, are the similarity set, both
    for the verdicts and for the reconciler.

## Model

| member | source | states |
|---|---|---|
| Cells.Status.Label | src/config.py:30-31 | the label of a verdict is "Valid" exactly for Valid and "No Valid" exactly for No Valid |
| Cells.FillMissing | src/utils.py:269-270 | `fillna(fill)` turns a missing cell into the string `fill`, keeps every present cell, and leaves no cell missing |
| Strings.TrimLeft | src/utils.py:33 | the result is a suffix of the input, everything dropped is whitespace, and it does not start with whitespace |
| Strings.TrimRight | src/utils.py:33 | the result is a prefix of the input, everything dropped is whitespace, and it does not end with whitespace |
| Strings.StripSpec | src/utils.py:33 | `str.strip` returns a substring that is preceded and followed only by whitespace in the input and has no whitespace at either end |
| Strings.StripIdempotent | src/utils.py:33 | stripping twice is stripping once |
| Strings.LowerChar | src/utils.py:13 | an upper-case letter becomes the lower-case letter at the same alphabet position; every other character is unchanged; no upper-case letter is left, and whitespace is kept |
| Strings.Lower | src/utils.py:13 | `str.lower` keeps the length and lowercases each character in place |
| Strings.StripLower | src/app.py:63-73 | lowercasing and trimming commute, so the order of the two preprocessing steps does not matter for present strings |
| Strings.LessIrreflexive | src/app.py:98 | the string order used by `sorted` is irreflexive |
| Strings.LessTransitive | src/app.py:98 | the string order used by `sorted` is transitive |
| Strings.LessTotal | src/app.py:98 | any two distinct strings are ordered one way or the other |
| Strings.Insert | src/app.py:98 | inserting into a strictly increasing list keeps it strictly increasing and adds exactly the new element |
| Strings.SortedSet | src/app.py:98 | `sorted(set(xs))` is strictly increasing and holds exactly the elements of `xs` |
| Normalize.LowerCell | src/utils.py:13 | a string cell becomes its lowercased string, with no upper-case letter left; missing and non-string cells are unchanged |
| Normalize.NormalizeDf | src/utils.py:11-13 | `normalize_df` keeps the table's shape, lowercases every string cell, and leaves no upper-case letter in any string cell |
| Normalize.FillEmptyWithBlank | src/utils.py:22-24 | `fill_empty_with_blank` keeps the shape, turns every missing cell into "false" and keeps every present cell |
| Normalize.StripValues | src/utils.py:27-36 | `strip_values` keeps the shape, applies `clean_cell` to every cell and leaves every cell clean |
| Normalize.MapCells | src/utils.py:13 | a cellwise map keeps the table's shape and applies the function to every cell |
| Normalize.CleanCell | src/utils.py:29-35 | missing becomes "No Value"; a string is trimmed, and becomes "No Value" when nothing is left; other values are kept; the result is present, and a non-empty trimmed string when a string |
| Normalize.StripValuesIdempotent | src/utils.py:27-36 | after `strip_values` every cell is clean, and applying it again changes nothing |
| Normalize.CleanCellFixed | src/utils.py:29-35 | a clean cell is a fixed point of `clean_cell` |
| Normalize.StripColumns | src/utils.py:16-19 | every column name is trimmed, and the number of columns is kept |
| Normalize.WideFrame.NormalizeColumns | src/utils.py:18 | the frame's columns are replaced by their trimmed names and its rows are unchanged |
| Normalize.PreprocessCellSpec | src/app.py:63-73 | after the four steps a cell is clean. A missing cell ends as "false", a blank string as "No Value" (capitalised), any other string lowercased and trimmed, and a non-string unchanged |
| Normalize.PreprocessNotIdempotent | src/app.py:63-73 | preprocessing twice is not preprocessing once: a blank cell becomes "No Value" and then "no value" |
| Pipeline.PreprocessRowsSpec | src/app.py:63-73 | both tables are preprocessed cell by cell, and their shape is kept |
| Pipeline.Preprocess | src/app.py:63-73 | the preprocessed table has the trimmed column names and every cell preprocessed |
| Pipeline.SelectableFields | src/app.py:94-98 | the offered fields are strictly increasing and are exactly the base names of TEST's columns other than `job_id` and `job_name` |
| Seqs.Filter | src/utils.py:60 | a boolean-mask selection keeps exactly the elements the mask accepts, and as many as the mask accepts |
| Seqs.FilterMultiset | src/utils.py:60 | a boolean-mask selection keeps every copy of an accepted element and none of a rejected one |
| Seqs.FilterConcat | src/utils.py:60 | selecting from a concatenation selects from each part, keeping the order |
| Seqs.FilterFilter | src/app.py:195-201 | two selections in a row are one selection by the conjunction of the masks |
| Fields.DigitRunSpec | src/utils.py:73 | the digit run at the start of a string is its longest all-digit prefix, as `\d+` matches greedily |
| Fields.RemoveTokens | src/utils.py:73 | the regex substitution never lengthens the string |
| Fields.RemoveTokensBounds | src/utils.py:73 | a string without a token is unchanged, and one with a token comes back strictly shorter |
| Fields.BaseName | src/utils.py:73 | the base name is the input when it holds no `[digits]` or `()` token, and strictly shorter when it holds one |
| Fields.HasIndex | src/utils.py:208 | a gold attribute that holds `[digits]` holds both `[` and `]` |
| Fields.IndexHasBrackets | src/utils.py:208 | a string in which `\[\d+\]` is found contains both `[` and `]` |
| Fields.ArrayTestsDiffer | src/utils.py:97-101 | the array test of `compute_validity` accepts 'a[x]', which holds no `[digits]` index for the reconciler; 'a[0]' passes both tests |
| Fields.GetBaseField | src/utils.py:63-73 | a missing attribute gives "", and a string attribute gives its base name |
| Fields.NoTokenUnchanged | src/utils.py:73 | a string with no `[digits]` or `()` is returned unchanged |
| Fields.TokenShortens | src/utils.py:73 | a string holding such a token comes back strictly shorter |
| Fields.RemoveTokensUnchanged | src/utils.py:73 | the substitution changes the string if and only if it holds a token |
| Fields.BaseNameDeletesToken | src/utils.py:73 | a token anywhere in the string is deleted and the text on each side is processed independently |
| Fields.TokenFirst | src/utils.py:73 | a leading token is deleted |
| Fields.BaseNameExamples | src/utils.py:66-69 | 'field[0]', 'field[123]' and 'field()' all give 'field' |
| Fields.BaseNameNotIdempotent | src/utils.py:73 | `get_base_field` is not idempotent: 'a[[0]0]' gives 'a[0]', which gives 'a' |
| Reshape.IndexOf | src/utils.py:41 | the column found carries the name, and it is its first occurrence |
| Reshape.ColumnRows | src/utils.py:41 | one long row per input row for a given column, in row order |
| Reshape.MeltFrom | src/utils.py:41 | the columns from `j` on give rows × value columns long rows |
| Reshape.MeltFromComplete | src/utils.py:41 | every (row, value column) pair from `j` on yields its long row |
| Reshape.MeltFromSound | src/utils.py:41 | every long row comes from some row and value column from `j` on |
| Reshape.Melt | src/utils.py:39-41 | melt yields rows × value columns long rows. It holds the long row of every (row, non-id column) pair, with that column's name as attribute and that cell as value, and nothing else |
| Reshape.FilterSelected | src/app.py:148-157 | the long rows whose attribute's base name is selected are kept, every copy of each, and no other row; the count is the number of such rows |
| Reshape.UniqueIdOf | src/utils.py:46 | the key is job name + "_" + attribute; a missing job name gives a missing key; a non-string job name raises |
| Reshape.UniqueIds | src/utils.py:44-47 | building the key column raises exactly when some job name is a non-string, and otherwise gives one key per row |
| Reshape.WithKeys | src/utils.py:46 | each long row is paired with its own key |
| Reshape.LongFrame.Rename | src/app.py:160-167 | the rename changes only the job-name column's name, and only when it matches |
| Reshape.LongFrame.CreateUniqueId | src/utils.py:44-47 | the key column is added when it can be built, raising otherwise; the rows are unchanged |
| Align.RowsFor | src/utils.py:52-55 | an output row with a matching gold key pairs with every gold row of that key, once per such gold row and in gold order, so duplicate keys give every combination; otherwise it appears alone |
| Align.LeftPart | src/utils.py:52-55 | the left part holds the rows of every output row's pairing and nothing else |
| Align.RightPart | src/utils.py:52-55 | the right part holds exactly the gold rows whose key no output row has, each alone, once per such row and in gold order |
| Align.MergeMembers | src/utils.py:50-55 | the outer join holds exactly the pairs with equal keys, the unmatched output rows and the unmatched gold rows |
| Align.MergeKeepsKeys | src/utils.py:50-55 | every key of either side survives the join |
| Align.LeftPartMembers | src/utils.py:52-55 | the left part holds exactly the pairs with equal keys and the output rows whose key gold lacks |
| Align.LeftPartSize | src/utils.py:52-55 | the left part has, for each output row, as many rows as gold rows share its key, or one when none does |
| Align.MergeSize | src/utils.py:50-55 | the join's size is the sum of those pairings plus one row per gold row whose key no output row has |
| Align.MergeDisjointSize | src/utils.py:50-55 | when no key is shared the join has one row per input row |
| Align.LeftPartDisjointSize | src/utils.py:50-55 | when no key is shared the left part has one row per output row |
| Align.RemoveEmptyRows | src/utils.py:58-60 | the rows with a gold job id or an output value are kept, every copy of each, and no other row; the count is the number of such rows |
| Validity.Siblings | src/utils.py:131-135 | the sibling group is exactly the rows with the same present job name and the same base output attribute |
| Validity.GoldValues | src/utils.py:137 | the sibling gold values are exactly the present gold values of the group |
| Validity.ValidateArraySimilarity | src/utils.py:123-149 | Valid iff the output is missing and some sibling's gold value is missing, or the output is similar to some present sibling gold value |
| Validity.ValidateSingleSimilarity | src/utils.py:152-162 | both missing is Valid, exactly one missing is No Valid, otherwise Valid iff the output is similar to the gold value |
| Validity.ValidateArrayExact | src/utils.py:165-191 | a present output is Valid iff it equals some sibling gold value. A missing output is Valid iff its own gold value or some sibling's gold value is missing |
| Validity.ValidateSingleExact | src/utils.py:194-198 | Valid iff both values are missing or they are equal (NaN equals nothing) |
| Validity.ScalarExactVerdict | src/utils.py:93-120 | a scalar attribute outside the similarity set is judged by exact equality |
| Validity.ScalarSimilarityVerdict | src/utils.py:93-120 | a scalar attribute in the similarity set is judged by similarity, with missing values handled first |
| Validity.ScalarIgnoresTable | src/utils.py:110-111 | the verdict of a scalar attribute does not depend on the rest of the table |
| Validity.ArrayExactOwnGold | src/utils.py:114-118 | an array output equal to its own row's gold value is Valid, since the row is its own sibling |
| Validity.ArraySimilarityOwnGold | src/utils.py:105-109 | an array output similar to its own row's present gold value is Valid |
| Validity.ArrayVerdictLocal | src/utils.py:131-135 | a verdict depends only on the row's sibling group |
| Validity.ArrayExactVerdict | src/utils.py:93-120 | an array attribute outside the similarity set: a present output is Valid iff it equals the gold value of some row of its (job name, base field) group; a missing output iff its own or some group row's gold value is missing |
| Validity.ArraySimilarityVerdict | src/utils.py:93-120 | an array attribute in the similarity set: Valid iff the output is missing and some group row's gold value is missing, or the output is similar to a present gold value of the group |
| Pipeline.Validated | src/app.py:182-187 | every row keeps its columns and gets the verdict computed against the whole joined table, with the selected fields as the similarity set |
| Pipeline.AssignValidity | src/app.py:182-187 | the frame's rows become the validated rows |
| Reconcile.GoldArrayRows | src/utils.py:208-209 | the rows whose gold attribute holds `[digits]`, every copy of each, and no other row; the count is the number of such rows |
| Reconcile.WithPrefix | src/utils.py:216 | every row gets the base field of its output attribute as `attr_prefix_output`, and nothing else changes |
| Reconcile.LookupAgrees | src/utils.py:219-225 | the grouped lookup gives, for every job name and prefix, exactly the present output values of that group |
| Reconcile.IsFound | src/utils.py:236-244 | nothing is found among no output values; outside the similarity set a gold value is found iff some output value has the same text |
| Reconcile.NewRows | src/utils.py:227-258 | the i-th new row is the missing-gold row of the i-th unmatched gold row, so there is one per unmatched gold row, each repeat counted, in gold order |
| Reconcile.NewRowsStep | src/utils.py:228-258 | one more iteration appends the visited gold row's new row exactly when it is unmatched |
| Reconcile.CollectNewRows | src/utils.py:227-258 | the loop builds exactly the new rows of the gold array rows, in order |
| Reconcile.ReconciledNoGoldArrays | src/utils.py:211-212 | without gold array rows the table comes back unchanged |
| Reconcile.ReconciledKeepsRows | src/utils.py:211-261 | otherwise the original rows come first, in order, each with its prefix column |
| Reconcile.ReconciledAppends | src/utils.py:227-261 | the rows after the original ones are, in gold order, the missing-gold rows of the gold array rows that no present output value of their (gold job name, base field) group matches; their number is the count of such gold rows, repeats included |
| Reconcile.MissingGoldRowSpec | src/utils.py:247-258 | an appended row has job id "No ID", the gold-not-in-output message as its value and the gold attribute as its attribute. It copies the gold columns and is No Valid |
| Reconcile.AddMissingGoldArrayRows | src/utils.py:201-263 | the method returns the reconciled table. With no gold array rows it returns the caller's table untouched. Otherwise it writes the prefix column into the caller's table |
| Pipeline.Cleanup | src/app.py:195-201 | the two filters are one filter by both masks: the rows with a present output attribute that are not "No ID" rows with a missing gold value survive, in order, every copy of each, and no other row |
| Pipeline.MarkTestNotGold | src/app.py:204-208 | exactly the No Valid rows whose job id is not "No ID" get the test-not-in-gold message as gold value, and no other cell changes |
| Pipeline.MarkFieldsInTestNotGold | src/app.py:204-208 | the frame's rows become the annotated rows |
| Pipeline.CastCell | src/app.py:213 | the conversion leaves no non-string value, keeps the text and the missingness, and keeps strings |
| Pipeline.CastColumn | src/app.py:213 | one value column is converted and everything else is kept |
| Pipeline.CastValuesSpec | src/app.py:210-213 | after the loop both value columns hold only strings or missing values, with their texts and missingness kept, and the other columns are unchanged |
| Pipeline.CastValuesToString | src/app.py:210-213 | the loop converts both value columns in turn |
| Aggregate.BaseAttribute | src/utils.py:269-278 | the key is the output attribute, or the gold one when the output one is missing or empty, with `[digits]` deleted and trimmed; a non-string chosen attribute has no key; when both are missing or the output one is empty and the gold one missing, the key is the empty string |
| Aggregate.Percent | src/utils.py:286 | `valid / total * 100` times `total` is `100 * valid`; it lies in [0, 100] when valid ≤ total |
| Aggregate.Accuracy | src/utils.py:286 | the accuracy is undefined exactly when total is 0, and otherwise valid as a percentage of total, in [0, 100] when valid ≤ total |
| Aggregate.Keys | src/utils.py:281 | the group keys are exactly the keys of the rows that have one |
| Aggregate.MetricsOf | src/utils.py:281-288 | each key's line counts its Valid rows and its rows with a verdict, and carries the accuracy of those counts |
| Aggregate.AggregateAttributes | src/utils.py:281-288 | each base attribute of the table is listed once, in increasing order, and nothing else |
| Aggregate.LabelledBy | src/utils.py:288 | lines keyed by a list carry exactly its keys, in increasing order when the list is |
| Aggregate.MetricBounds | src/utils.py:281-284 | per attribute, valid ≤ total |
| Aggregate.MetricTotalPositive | src/utils.py:281-284 | when every row has a verdict, every listed attribute has total ≥ 1 |
| Aggregate.AggregateEmpty | src/utils.py:266-288 | an empty table gives an empty result |
| Aggregate.SumOverKeys | src/utils.py:281-284 | summing per-key counts over distinct keys counts the rows whose key is among them |
| Aggregate.AggregateSums | src/utils.py:281-284 | the totals add up to the rows that have a key and a verdict, and the valid counts to those that are Valid |
| Aggregate.SumValidAtMostTotal | src/app.py:238-239 | summed over the attributes, valid ≤ total |
| Pipeline.OverallAccuracy | src/app.py:240-242 | the overall accuracy is 0 with no comparisons, and otherwise the valid total as a percentage of the total count, in [0, 100] when valid ≤ total |
| Pipeline.PreprocessKeepsShape | src/app.py:63-73 | preprocessing keeps a table rectangular |
| Pipeline.JoinSides | src/app.py:159-179 | the join is built unless building a key raises |
| Pipeline.Complete | src/app.py:182-228 | from the joined table the stages give the completed run of the joined rows |
| Pipeline.RunAnalysis | src/app.py:143-228 | the run on the two preprocessed tables is the specified run |
| Pipeline.Analyze | src/app.py:63-242 | the page computes the specified analysis: the offered fields, then nothing, a failure or the completed run |
| Properties.JoinedSelected | src/app.py:148-179 | after the filter every joined row's attributes are missing or name selected fields |
| Properties.ValidatedSelected | src/app.py:182-187 | after validation every row keeps its attributes and has a verdict |
| Properties.ReconciledSelected | src/app.py:189-192 | after reconciliation every row still names selected fields and has a verdict |
| Properties.FinishRow | src/app.py:195-213 | the i-th finished row comes from the i-th kept row. Every column other than the two values is unchanged. Neither value is a non-string scalar. The output value keeps its text and missingness. The gold value becomes the test-not-in-gold message for a marked row, and otherwise keeps its text and missingness |
| Properties.CompletedRunSelected | src/app.py:182-228 | every result row has a string output attribute naming a selected field, and a verdict |
| Properties.ResultsSelected | src/app.py:143-228 | the same for a completed analysis of the two tables |
| Properties.ResultsMarked | src/app.py:204-208 | a No Valid result row from the join reports the test-not-in-gold message; a "No ID" row always carries its gold value |
| Properties.KeyedTotals | src/app.py:238-239 | when every row has a key and a verdict, the total count is the number of rows |
| Properties.CompletedRunTotals | src/app.py:215-242 | a completed run counts every result row once, valid ≤ total, and its accuracy is the valid total as a percentage of the total count, in [0, 100], and 0 when there are no comparisons |
| Properties.TotalsConsistent | src/app.py:143-242 | the same for a completed analysis of the two tables |
| Properties.GuardOnSelection | src/app.py:130-132 | nothing is computed exactly when no field is selected |
| Properties.SelectedFieldsUseSimilarity | src/app.py:182-185 | every joined row with an output attribute is judged by a similarity policy, because the selected fields are the similarity set |

## Left out

- Page layout, widgets, session state and the field filter text box
  (src/app.py:17-60, 100-128, 230-273) are presentation only.
  `selected` is a parameter of the run.
- Reading the CSV files and the Excel export are file I/O. The tables arrive
  as column names and rows of cells.
- Pipeline.Analyze: the job-name check of src/app.py:75-91 is not
  modelled. It is meant only to display a warning. The model does not capture
  one case: both tables have the same number of distinct job names, and some
  GOLD job name that TEST lacks is not a string (an integer job name read
  from the CSV). Then `', '.join(...)` at src/app.py:88 raises a
  `TypeError`. That line is outside the handler at src/app.py:140, so the
  page stops before it offers any field. On such input the model still offers
  the fields, and then gives `Failed`, or `NothingSelected` when no field is
  selected.
- `difflib.SequenceMatcher` and its floating-point ratio (src/utils.py:76-78)
  are a foreign library. They are the parameter `similar`.
- Aggregate.Accuracy and Pipeline.OverallAccuracy: exact rationals, without
  floating point or `.round(2)`.
- Row order of pandas `melt`, `merge` and `groupby` is a fixed model order:
  - melt goes column by column;
  - the join is the output side then the unmatched gold rows;
  - the groups are in sorted key order.

  The filters are stated by the elements they keep, with every copy counted,
  and by their count; `Cleanup` and the reconciler also by the order of what
  they keep. The join is stated by membership and by its size, which counts
  every combination of duplicate keys, and within one output row by gold
  order; the aggregate by membership, counts and sorted keys. Neither is
  stated by pandas' positions.
- Align.Merge: an outer join that leaves a cell of an integer (`int64`)
  column empty turns that whole column into `float64`. From then on `str()`
  of 5 gives "5.0" on that side only, which changes the similarity ratio
  (src/utils.py:76-78) and the reconciler's `str` comparison
  (src/utils.py:244). The model copies `Other("5")` unchanged through
  `Align.Joined`; pandas dtypes are not modelled.
- Unicode is approximated by ASCII:
  - `str.strip` whitespace is characters 9-13 and 28-32;
  - `str.lower` changes only A-Z;
  - `\d` is 0-9.
- Non-string scalars are compared by their text. Python's numeric equality
  across types (`1 == 1.0`) is not modelled.
- Duplicate column names are not modelled: the id columns are looked up by
  their first occurrence.
- Pipeline.Validated: on an empty joined table, pandas' row-wise `apply`
  returns an empty frame rather than a column, and the assignment may raise.
  The model gives the empty table an empty validity column instead.
- Pipeline.Analyze, Pipeline.RunAnalysis: they require both tables to have
  `job_id` and `job_name` columns after trimming. The source has no schema
  check and pandas raises a `KeyError` in `melt` otherwise; that error is not
  modelled.
- Pipeline.CastCell: `astype("string")` keeps a missing value missing
  (`<NA>`). Only the text and missingness of values are modelled, not the
  dtype.
- `COMPARE_FIELDS` is declared as a constant, but the pipeline never uses it.
- `similarity_ratio` is not a separate member; its two conversions `str(a)`,
  `str(b)` are the `Text` applied at each call site.
- Only the exception raised when a key is built from a non-string job name is
  modelled as a failed run. Other exceptions the handler at src/app.py:140
  could catch are not modelled.
