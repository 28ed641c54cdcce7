/** The rows of the survey's tab-separated tables, one datatype per table. A
    column that a table lacks, or a missing value, is `None`. */
module SurveyData {
  import opened Wrappers
  import opened Text

  /** `"Cluster" in region`: how every core file tells a state cluster from a
      single state. */
  predicate IsCluster(region: string) {
    Contains(region, "Cluster")
  }

  /** Python truthiness of an optional string: `None` and `""` are false. */
  predicate Truthy(s: Option<string>) {
    s.Some? && s.value != ""
  }

  /** A row of the opinions tables (whole sample, by state, by party):
      the share of respondents (0..1) giving `outcome` to a sub-question. */
  datatype OpinionRow = OpinionRow(
    question: string,
    subQuestion: string,
    outcome: string,
    percentage: real,
    state: Option<string>,
    party: Option<string>)

  /** A row of `state_abbreviations.tsv`: a state or cluster label and its
      comma-separated abbreviations. */
  datatype AbbrevRow = AbbrevRow(state: string, stateAbbreviated: string)

  /** A row of `impacts_state.tsv`. */
  datatype ImpactRow = ImpactRow(state: string, numImpacts: int, percentage: real)

  /** A row of `sampledesc_state.tsv`. */
  datatype SampleDescRow = SampleDescRow(state: string, demographicVariable: string, category: string, percentage: real)

  /** A row of `samplesizes_state.tsv`. */
  datatype SampleSizeRow = SampleSizeRow(state: string, n: nat)

  /** A row of `question_dictionary.tsv`. */
  datatype QuestionEntry = QuestionEntry(question: string, fullText: string)

  /** A row of `subquestion_dictionary.tsv`. */
  datatype SubquestionEntry = SubquestionEntry(question: string, subQuestion: string, fullText: string)

  /** Which opinions table a chart reads. */
  datatype TableKind = WholeSample | ByState | ByParty

  /** The three opinions tables. */
  datatype OpinionTables = OpinionTables(wholeSample: seq<OpinionRow>, byState: seq<OpinionRow>, byParty: seq<OpinionRow>)
}
