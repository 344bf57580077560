/** The stored form of a fit evaluation, `UserJobFitEvaluation`, and the
    field validation Django's `full_clean` applies to it. Keys, foreign
    keys and timestamps are left to the database.
 */
module FitEvaluationRecord {
  import opened Wrappers
  import opened AgentTypes

  /** The validated columns: a required integer score, required text, and
      an optional star rating and optional feedback text. */
  datatype UserJobFitEvaluation = UserJobFitEvaluation(
    llmScore: int,
    llmEvaluation: string,
    userScore: Option<int>,
    userFeedback: Option<string>)

  /** A row the model accepts. */
  predicate Valid(r: UserJobFitEvaluation) {
    && 0 <= r.llmScore <= 100
    && r.llmEvaluation != ""
    && (r.userScore.Some? ==> 0 <= r.userScore.value <= 5)
  }

  /** One message of the error dictionary, by field and validator. */
  datatype FieldError =
    | LlmScoreBelowMinimum      // MinValueValidator(0)
    | LlmScoreAboveMaximum      // MaxValueValidator(100)
    | LlmEvaluationBlank        // a TextField without blank=True
    | UserScoreBelowMinimum     // MinValueValidator(0)
    | UserScoreAboveMaximum     // MaxValueValidator(5)

  /** The bound validators of an integer value. */
  function BoundErrors(value: int, low: int, high: int, belowLow: FieldError, aboveHigh: FieldError): (r: seq<FieldError>)
    requires low <= high
    ensures r == [] <==> low <= value <= high
    ensures |r| <= 1
  {
    if value < low then [belowLow] else if value > high then [aboveHigh] else []
  }

  /** The field errors, in the order the fields are declared. A null
      `user_score` and a null or empty `user_feedback` are empty values, so
      their validators are skipped. */
  function Validate(r: UserJobFitEvaluation): (errors: seq<FieldError>)
    ensures LlmScoreBelowMinimum in errors <==> r.llmScore < 0
    ensures LlmScoreAboveMaximum in errors <==> r.llmScore > 100
    ensures LlmEvaluationBlank in errors <==> r.llmEvaluation == ""
    ensures UserScoreBelowMinimum in errors <==> r.userScore.Some? && r.userScore.value < 0
    ensures UserScoreAboveMaximum in errors <==> r.userScore.Some? && r.userScore.value > 5
    ensures |errors| <= 3
  {
    BoundErrors(r.llmScore, 0, 100, LlmScoreBelowMinimum, LlmScoreAboveMaximum)
    + (if r.llmEvaluation == "" then [LlmEvaluationBlank] else [])
    + (if r.userScore.Some? then BoundErrors(r.userScore.value, 0, 5, UserScoreBelowMinimum, UserScoreAboveMaximum) else [])
  }

  /** Validation passes exactly on the valid rows. */
  lemma ValidateAcceptsValid(r: UserJobFitEvaluation)
    ensures Validate(r) == [] <==> Valid(r)
  {
    if Validate(r) == [] {
      assert LlmScoreBelowMinimum !in Validate(r);
    }
  }

  /** Neither the rating nor the feedback is required. */
  lemma UserFieldsOptional(r: UserJobFitEvaluation)
    requires 0 <= r.llmScore <= 100 && r.llmEvaluation != ""
    ensures Valid(r.(userScore := None, userFeedback := None))
    ensures Valid(r.(userFeedback := Some("")))  <==> Valid(r)
  {
  }

  /** The row an agent evaluation maps to, field by field. Nothing in the
      repository creates one; this names the correspondence only. */
  function FromEvaluation(e: JobEvaluation, userScore: Option<int>, userFeedback: Option<string>): (r: UserJobFitEvaluation)
    ensures r.llmScore == e.fitScores && r.llmEvaluation == e.fitEvaluations
    ensures r.userScore == userScore && r.userFeedback == userFeedback
  {
    UserJobFitEvaluation(e.fitScores, e.fitEvaluations, userScore, userFeedback)
  }

  /** The agent's own score is unbounded; only the field validators, which
      `full_clean` runs and `save` does not, bound it to 0..100. They accept
      an agent evaluation exactly when its score is in range and its text
      is not empty. */
  lemma AgentScoreUnchecked(e: JobEvaluation)
    ensures Valid(FromEvaluation(e, None, None)) <==> 0 <= e.fitScores <= 100 && e.fitEvaluations != ""
    ensures !Valid(FromEvaluation(e.(fitScores := 101), None, None))
    ensures Validate(FromEvaluation(e.(fitScores := -1, fitEvaluations := "fit"), None, None)) == [LlmScoreBelowMinimum]
  {
  }
}
