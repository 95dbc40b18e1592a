/**
 * The human intervention agent: it checks its three required inputs, formats a review
 * request, asks a human (a simulated one who always approves) and turns the answer
 * into an approval, which saves the reviewed text for known output types, or a rejection.
 */
module HumanIntervention {
  import opened Wrappers
  import opened PyText
  import opened Values
  import opened BaseAgent
  import Config

  /** `input_data.get(key)`; a missing key reads as the empty string, which is equally falsy. */
  function Field(input: map<string, string>, key: string): (v: string)
    ensures key in input ==> v == input[key]
    ensures key !in input ==> v == ""
  {
    if key in input then input[key] else ""
  }

  const MissingInputs := "Missing required intervention inputs"
  const NoErrorContext := "No error context provided"
  const RejectionError := "Human rejected the output"

  /** `error_context or "No error context provided"`. */
  function ShownContext(errorContext: string): (r: string)
    ensures r != ""
    ensures errorContext != "" ==> r == errorContext
  {
    if errorContext != "" then errorContext else NoErrorContext
  }

  /** The tail of the request, after the output under review. */
  const ActionsRequired :=
    "\n\n### Actions Required\n1. Review the output above\n2. Make necessary corrections\n"
    + "3. Approve or reject the changes\n\nPlease provide your feedback below:\n"

  /** The review request text `_create_review_request` formats. */
  function ReviewRequest(stage: string, outputType: string, outputData: string, errorContext: string): string {
    "\n# Human Review Request\n\n"
    + ("## Stage: " + stage) + "\n"
    + ("## Output Type: " + outputType) + "\n\n### Error Context\n"
    + ShownContext(errorContext) + "\n\n### Output to Review\n"
    + outputData + ActionsRequired
  }

  /** Four pieces placed between fixed texts all occur in the result. */
  lemma FilledContains(t0: string, x1: string, t1: string, x2: string, t2: string,
                       x3: string, t3: string, x4: string, t4: string)
    ensures var r := t0 + x1 + t1 + x2 + t2 + x3 + t3 + x4 + t4;
      Contains(r, x1) && Contains(r, x2) && Contains(r, x3) && Contains(r, x4)
  {
    var a1 := t0 + x1;
    var a2 := a1 + t1;
    var a3 := a2 + x2;
    var a4 := a3 + t2;
    var a5 := a4 + x3;
    var a6 := a5 + t3;
    var a7 := a6 + x4;
    ContainsMiddle(t0, x1, "");
    assert t0 + x1 + "" == a1;
    ContainsGrows(a1, t1, x1);
    ContainsGrows(a2, x2, x1);
    ContainsMiddle(a2, x2, "");
    assert a2 + x2 + "" == a3;
    ContainsGrows(a3, t2, x1);
    ContainsGrows(a3, t2, x2);
    ContainsGrows(a4, x3, x1);
    ContainsGrows(a4, x3, x2);
    ContainsMiddle(a4, x3, "");
    assert a4 + x3 + "" == a5;
    ContainsGrows(a5, t3, x1);
    ContainsGrows(a5, t3, x2);
    ContainsGrows(a5, t3, x3);
    ContainsGrows(a6, x4, x1);
    ContainsGrows(a6, x4, x2);
    ContainsGrows(a6, x4, x3);
    ContainsMiddle(a6, x4, "");
    assert a6 + x4 + "" == a7;
    ContainsGrows(a7, t4, x1);
    ContainsGrows(a7, t4, x2);
    ContainsGrows(a7, t4, x3);
    ContainsGrows(a7, t4, x4);
  }

  /**
   * The request names the stage and the output type, shows the error context (or says
   * there is none) and embeds the output under review.
   */
  lemma ReviewRequestShows(stage: string, outputType: string, outputData: string, errorContext: string)
    ensures Contains(ReviewRequest(stage, outputType, outputData, errorContext), "## Stage: " + stage)
    ensures Contains(ReviewRequest(stage, outputType, outputData, errorContext), "## Output Type: " + outputType)
    ensures Contains(ReviewRequest(stage, outputType, outputData, errorContext), ShownContext(errorContext))
    ensures Contains(ReviewRequest(stage, outputType, outputData, errorContext), outputData)
    ensures errorContext == "" ==> Contains(ReviewRequest(stage, outputType, outputData, errorContext), NoErrorContext)
  {
    FilledContains("\n# Human Review Request\n\n", "## Stage: " + stage, "\n",
                   "## Output Type: " + outputType, "\n\n### Error Context\n",
                   ShownContext(errorContext), "\n\n### Output to Review\n",
                   outputData, ActionsRequired);
  }

  /** What the human answers; each entry other than the verdict may be absent. */
  datatype Feedback = Feedback(
    approved: bool,
    updatedOutput: Option<string>,
    changesMade: Option<bool>,
    feedback: Option<string>)

  /** `_simulate_human_feedback`: the placeholder human approves the request text unchanged. */
  function SimulatedFeedback(request: string): Feedback {
    Feedback(true, Some(request), Some(false), Some("Output looks good"))
  }

  /** The output types that have a file to save to. */
  const SavedTypes: set<string> := {"acceptance_criteria", "design_document", "developer_document", "generated_code"}

  /** `_get_output_path`: the configured path of a known output type, none otherwise. */
  function OutputPath(outputType: string): (p: Option<string>)
    ensures p.Some? <==> outputType in SavedTypes
    ensures outputType == "acceptance_criteria" ==> p == Some(Config.AcceptanceCriteriaPath)
    ensures outputType == "design_document" ==> p == Some(Config.DesignDocPath)
    ensures outputType == "developer_document" ==> p == Some(Config.DeveloperDocPath)
    ensures outputType == "generated_code" ==> p == Some(Config.GeneratedCodePath)
  {
    var paths := map[
      "acceptance_criteria" := Config.AcceptanceCriteriaPath,
      "design_document" := Config.DesignDocPath,
      "developer_document" := Config.DeveloperDocPath,
      "generated_code" := Config.GeneratedCodePath];
    if outputType in paths then Some(paths[outputType]) else None
  }

  /** Distinct output types are saved to distinct files. */
  lemma OutputPathsDistinct(a: string, b: string)
    requires a in SavedTypes && b in SavedTypes && a != b
    ensures OutputPath(a) != OutputPath(b)
  {
  }

  /** What `process` returns. */
  datatype InterventionResult =
    | Approved(updatedOutput: string, stage: string, outputType: string, changesMade: bool)
    | Rejected(stage: string, outputType: string, feedback: string)
    | InterventionFailed(failure: FailureRecord)

  /**
   * How the human's answer becomes the result: an approval carries the human's text
   * (the original output when it gives none) and saves it when the output type has a
   * path; a rejection saves nothing and carries the human's feedback, "" when absent.
   */
  function Decide(fb: Feedback, stage: string, outputType: string, outputData: string): (r: (InterventionResult, Option<Artifact>))
    ensures r.0.Approved? <==> fb.approved
    ensures r.0.Approved? ==>
      && r.0.updatedOutput == (if fb.updatedOutput.Some? then fb.updatedOutput.value else outputData)
      && r.0.stage == stage && r.0.outputType == outputType
      && r.0.changesMade == (fb.changesMade == Some(true))
    ensures !fb.approved ==> r.0 == Rejected(stage, outputType, if fb.feedback.Some? then fb.feedback.value else "")
    ensures r.1.Some? <==> fb.approved && outputType in SavedTypes
    ensures r.1.Some? ==> r.1.value == Artifact(OutputPath(outputType).value, r.0.updatedOutput)
  {
    if fb.approved then
      var updated := fb.updatedOutput.GetOr(outputData);
      var path := OutputPath(outputType);
      (Approved(updated, stage, outputType, fb.changesMade.GetOr(false)),
       if path.Some? then Some(Artifact(path.value, updated)) else None)
    else
      (Rejected(stage, outputType, fb.feedback.GetOr("")), None)
  }

  /**
   * `process` for an agent whose failure counter stands at `counter`. A missing or empty
   * stage, output type or output data is a failure; anything else is approved by the
   * simulated human, whose text is the review request itself.
   */
  function Process(input: map<string, string>, counter: int): (r: (InterventionResult, Option<Artifact>))
    ensures r.0.InterventionFailed? <==>
      Field(input, "stage") == "" || Field(input, "output_type") == "" || Field(input, "output_data") == ""
    ensures r.0.InterventionFailed? ==> r.0.failure == FailureRecord(MissingInputs, counter + 1) && r.1.None?
    ensures !r.0.InterventionFailed? ==>
      && r.0.Approved? && !r.0.changesMade
      && r.0.updatedOutput == ReviewRequest(Field(input, "stage"), Field(input, "output_type"),
                                            Field(input, "output_data"), Field(input, "error_context"))
    ensures r.1.Some? <==> r.0.Approved? && Field(input, "output_type") in SavedTypes
  {
    var stage := Field(input, "stage");
    var outputType := Field(input, "output_type");
    var outputData := Field(input, "output_data");
    var errorContext := Field(input, "error_context");
    if stage == "" || outputType == "" || outputData == "" then
      (InterventionFailed(FailureFor(MissingInputs, counter)), None)
    else
      var request := ReviewRequest(stage, outputType, outputData, errorContext);
      Decide(SimulatedFeedback(request), stage, outputType, outputData)
  }

  /** The dictionary `process` returns, key by key. */
  function ResultFields(r: InterventionResult): (m: map<string, Value>)
    ensures "success" in m && m["success"] == VBool(r.Approved?)
    ensures "metadata" in m <==> !r.InterventionFailed?
    ensures "error" in m <==> !r.Approved?
    ensures "updated_output" in m <==> r.Approved?
    ensures "acceptance_criteria" !in m
    ensures r.Approved? ==>
      && m["updated_output"] == VStr(r.updatedOutput)
      && m["metadata"].VDict? && m["metadata"].entries.Keys == {"stage", "output_type", "human_approved", "changes_made"}
      && m["metadata"].entries["human_approved"] == VBool(true)
      && m["metadata"].entries["stage"] == VStr(r.stage)
      && m["metadata"].entries["output_type"] == VStr(r.outputType)
      && m["metadata"].entries["changes_made"] == VBool(r.changesMade)
    ensures r.Rejected? ==>
      && m["error"] == VStr(RejectionError)
      && m["metadata"].VDict? && m["metadata"].entries.Keys == {"stage", "output_type", "human_approved", "feedback"}
      && m["metadata"].entries["human_approved"] == VBool(false)
      && m["metadata"].entries["stage"] == VStr(r.stage)
      && m["metadata"].entries["output_type"] == VStr(r.outputType)
      && m["metadata"].entries["feedback"] == VStr(r.feedback)
    ensures r.InterventionFailed? ==>
      m == map["success" := VBool(false), "error" := VStr(r.failure.error), "retry_count" := VInt(r.failure.retryCount)]
  {
    match r
    case Approved(updated, stage, outputType, changes) =>
      map["success" := VBool(true), "updated_output" := VStr(updated),
          "metadata" := VDict(map["stage" := VStr(stage), "output_type" := VStr(outputType),
                                  "human_approved" := VBool(true), "changes_made" := VBool(changes)])]
    case Rejected(stage, outputType, feedback) =>
      map["success" := VBool(false), "error" := VStr(RejectionError),
          "metadata" := VDict(map["stage" := VStr(stage), "output_type" := VStr(outputType),
                                  "human_approved" := VBool(false), "feedback" := VStr(feedback)])]
    case InterventionFailed(f) =>
      map["success" := VBool(false), "error" := VStr(f.error), "retry_count" := VInt(f.retryCount)]
  }

  /** `validate`: both "success" and "metadata" are present. */
  function Validate(output: map<string, Value>): (ok: bool)
    ensures ok <==> "success" in output && "metadata" in output
  {
    "success" in output && "metadata" in output
  }

  /** `validate` accepts exactly the approvals and rejections, never the failure record. */
  lemma ValidateAcceptsDecisions(r: InterventionResult)
    ensures Validate(ResultFields(r)) <==> !r.InterventionFailed?
  {
  }
}
