/** The tool's configuration constants (src/config.py). */
module Config {
  // Column identifiers
  const ID_COLUMN: string := "job_id"
  const JOB_NAME_COLUMN: string := "job_name"
  const GOLD_JOB_NAME_COLUMN: string := "job_name_gold"
  const OUTPUT_JOB_NAME_COLUMN: string := "job_name_output"

  // Fields listed for fuzzy matching; the analysis pipeline never reads this list
  // (it passes the user's selection instead).
  const COMPARE_FIELDS: seq<string> := [
    "loss_details.loss_location_address",
    "contact_details.contact_address",
    "insured_details.insured_address",
    "insured_details.insured_organization_name"
  ]

  // Similarity threshold; it is folded into the abstract similarity test.
  const THRESHOLD: real := 0.8

  // Placeholder values
  const EMPTY_CELL_PLACEHOLDER: string := "false"
  const NO_VALUE_PLACEHOLDER: string := "No Value"
  const NO_ID_PLACEHOLDER: string := "No ID"

  // Status messages
  const VALID_STATUS: string := "Valid"
  const INVALID_STATUS: string := "No Valid"
  const FIELD_IN_TEST_NOT_GOLD: string := "This field value exists in TEST DATA but not in gold"
  const FIELD_IN_GOLD_NOT_TEST: string := "This field value exists in GOLD DATA but not in output"
}
