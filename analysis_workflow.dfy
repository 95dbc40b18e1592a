/**
 * The analysis workflow's state record and its node and edge handlers. Each handler is a
 * method of `AnalysisState` that updates the record in place; its effect is specified by a
 * function on a `Snapshot` of the record, and the lemmas below are about those functions.
 * The agents a handler consults are parameters that map the request to the agent's reply.
 */
module AnalysisWorkflow {
  import opened Wrappers
  import opened Values
  import OutputValidation

  /** The retry bound `self.max_retries`. */
  const MaxRetries := 3

  /** The metadata key the validation outcome is stored under. */
  const DetailsKey := "validation_details"

  /** The values of the state record's fields. */
  datatype Snapshot = Snapshot(
    requirements: string,
    acceptanceCriteria: string,
    validationStatus: bool,
    retryCount: int,
    errorMessage: string,
    metadata: map<string, Value>,
    isComplete: bool,
    currentStep: string)

  /** The record `run` starts from. */
  function Initial(requirements: string): Snapshot {
    Snapshot(requirements, "", false, 0, "", map[], false, "analyze")
  }

  /** `str(KeyError(key))`. */
  function KeyErrorText(key: string): string {
    "'" + key + "'"
  }

  /**
   * The dictionary the generator returns, or the exception it raised. `written` is not a
   * dictionary entry: it is the text the generator itself wrote to the criteria file while
   * answering, if any.
   */
  datatype AnalysisReply =
    | AnalysisReply(success: bool, acceptanceCriteria: Option<string>,
                    metadata: Option<map<string, Value>>, error: Option<string>,
                    written: Option<string>)
    | AnalysisRaised(message: string)

  /** The dictionary the validator returns, or the exception it raised. */
  datatype ValidationReply =
    | ValidationReply(success: bool, details: Option<Value>, needsHuman: Option<bool>,
                      retryCount: Option<int>, reason: Option<string>)
    | ValidationRaised(message: string)

  /** The dictionary the human agent returns, or the exception it raised. */
  datatype HumanReply =
    | HumanReply(success: bool, acceptanceCriteria: Option<string>, error: Option<string>)
    | HumanRaised(message: string)

  /** The texts written to the criteria file by one write, or by none. */
  function Saves(w: Option<string>): seq<string> {
    match w
    case Some(c) => [c]
    case None => []
  }

  // ----- _analyze_requirements -----

  /** The analysis failure branch: the message is recorded and the run completes. */
  function AnalysisFailure(s: Snapshot, message: string): Snapshot {
    s.(errorMessage := "Analysis failed: " + message, validationStatus := false,
       isComplete := true, currentStep := "end")
  }

  /** The state after the analyze node, the generator answering `gen(requirements)`. */
  function Analyzed(s: Snapshot, gen: string -> AnalysisReply): Snapshot {
    if s.isComplete then s
    else if s.requirements == "" then AnalysisFailure(s, "No requirements provided")
    else
      match gen(s.requirements)
      case AnalysisRaised(m) => AnalysisFailure(s, m)
      case AnalysisReply(ok, criteria, meta, err, _) =>
        if !ok then AnalysisFailure(s, err.GetOr("Failed to generate acceptance criteria"))
        else if criteria.None? then AnalysisFailure(s, KeyErrorText("acceptance_criteria"))
        else s.(acceptanceCriteria := criteria.value, metadata := meta.GetOr(map[]),
                errorMessage := "", validationStatus := false, currentStep := "validate")
  }

  /**
   * What the generator writes to the criteria file during the analyze node: nothing when
   * the node does not consult it (a completed record, empty requirements), and otherwise
   * whatever the generator wrote, whether or not the node then accepts its answer.
   */
  function AgentWrites(s: Snapshot, gen: string -> AnalysisReply): seq<string> {
    if s.isComplete || s.requirements == "" then []
    else
      match gen(s.requirements)
      case AnalysisRaised(_) => []
      case AnalysisReply(_, _, _, _, w) => Saves(w)
  }

  // ----- _validate_criteria -----

  /** What the validation node sends to the validator. */
  function ValidationRequestOf(s: Snapshot): OutputValidation.ValidationRequest {
    OutputValidation.ValidationRequest("acceptance_criteria", s.acceptanceCriteria, s.requirements, s.retryCount)
  }

  /** The validation exception branch: an error record, a retry step and one more retry counted. */
  function ValidationError(s: Snapshot, message: string): Snapshot {
    s.(errorMessage := "Validation failed: " + message, validationStatus := false,
       metadata := s.metadata[DetailsKey := VDict(map["status" := VStr("error"), "message" := VStr(message)])],
       currentStep := "retry", retryCount := s.retryCount + 1)
  }

  /** How the validation node records the validator's reply, and the criteria saved, if any. */
  function Verdict(s: Snapshot, reply: ValidationReply): (Snapshot, Option<string>) {
    match reply
    case ValidationRaised(m) => (ValidationError(s, m), None)
    case ValidationReply(ok, details, needsHuman, count, reason) =>
      var stored := s.(validationStatus := ok, metadata := s.metadata[DetailsKey := details.GetOr(VDict(map[]))]);
      if ok then (stored.(isComplete := true, currentStep := "end"), Some(s.acceptanceCriteria))
      else if needsHuman.None? then (ValidationError(s, KeyErrorText("needs_human")), None)
      else if needsHuman.value then
        (stored.(currentStep := "human_intervention", errorMessage := "Validation failed after maximum retries"), None)
      else if count.None? then (ValidationError(s, KeyErrorText("retry_count")), None)
      else
        (stored.(currentStep := "retry", retryCount := count.value,
                 errorMessage := reason.GetOr("Validation failed"), acceptanceCriteria := ""), None)
  }

  /**
   * The state after the validation node, the validator answering `val(request)`, and the
   * criteria saved to the criteria file, if any.
   */
  function Validated(s: Snapshot, val: OutputValidation.ValidationRequest -> ValidationReply): (Snapshot, Option<string>) {
    if s.isComplete then (s, None)
    else if s.acceptanceCriteria == "" then (ValidationError(s, "No acceptance criteria to validate"), None)
    else Verdict(s, val(ValidationRequestOf(s)))
  }

  // ----- _handle_human_intervention -----

  /** What the human intervention node sends to the human agent. */
  function HumanRequestOf(s: Snapshot): map<string, string> {
    map["requirements" := s.requirements, "acceptance_criteria" := s.acceptanceCriteria,
        "error_message" := s.errorMessage]
  }

  /** The human intervention failure branch: the message is recorded and the run completes. */
  function HumanFailure(s: Snapshot, message: string): Snapshot {
    s.(errorMessage := "Human intervention failed: " + message, validationStatus := false,
       isComplete := true, currentStep := "end")
  }

  /** The state after the human intervention node, and the criteria saved, if any. */
  function Reviewed(s: Snapshot, rev: map<string, string> -> HumanReply): (Snapshot, Option<string>) {
    if s.isComplete then (s, None)
    else
      match rev(HumanRequestOf(s))
      case HumanRaised(m) => (HumanFailure(s, m), None)
      case HumanReply(ok, criteria, err) =>
        if !ok then (HumanFailure(s, err.GetOr("Human intervention failed")), None)
        else if criteria.None? then (HumanFailure(s, KeyErrorText("acceptance_criteria")), None)
        else
          (s.(acceptanceCriteria := criteria.value, validationStatus := true, errorMessage := "",
              metadata := s.metadata[DetailsKey := VDict(map["status" := VStr("human_reviewed")])],
              isComplete := true, currentStep := "end"),
           Some(criteria.value))
  }

  // ----- edges -----

  /** The labels the edge functions return. */
  datatype Route = ToValidate | ToRetry | ToHuman | ToEnd {
    function Label(): string {
      match this
      case ToValidate => "validate"
      case ToRetry => "retry"
      case ToHuman => "human_intervention"
      case ToEnd => "end"
    }
  }

  /** `_should_validate`. */
  function ValidateRoute(s: Snapshot): (r: Route)
    ensures r == ToValidate || r == ToEnd
    ensures r == ToValidate <==> !s.isComplete && s.errorMessage == "" && s.currentStep == "analyze"
  {
    if s.isComplete || s.errorMessage != "" then ToEnd
    else if s.currentStep == "analyze" then ToValidate
    else ToEnd
  }

  /** `_should_retry`: the label and the record as the function leaves it. */
  function RetryRoute(s: Snapshot): (Route, Snapshot) {
    if s.isComplete || s.errorMessage != "" then (ToEnd, s)
    else if s.validationStatus then (ToEnd, s.(isComplete := true))
    else if s.retryCount >= MaxRetries then (ToHuman, s)
    else (ToRetry, s.(currentStep := "analyze"))
  }

  /** `_should_end`: the label and the record as the function leaves it. */
  function EndRoute(s: Snapshot): (Route, Snapshot) {
    if s.isComplete || s.errorMessage != "" then (ToEnd, s)
    else if s.validationStatus then (ToEnd, s.(isComplete := true))
    else (ToRetry, s)
  }

  /**
   * The router `_should_validate` was evidently meant to be: after a successful analysis
   * the step reads "validate", and that is the step it should send on to validation.
   */
  function IntendedValidateRoute(s: Snapshot): (r: Route)
    ensures r == ToValidate || r == ToEnd
    ensures r == ToValidate <==> !s.isComplete && s.errorMessage == "" && s.currentStep == "validate"
  {
    if s.isComplete || s.errorMessage != "" then ToEnd
    else if s.currentStep == "validate" then ToValidate
    else ToEnd
  }

  // ----- properties of the handlers -----

  /** Every handler leaves a completed record as it is and saves nothing. */
  lemma CompleteIsFixed(s: Snapshot, gen: string -> AnalysisReply,
                        val: OutputValidation.ValidationRequest -> ValidationReply,
                        rev: map<string, string> -> HumanReply)
    requires s.isComplete
    ensures Analyzed(s, gen) == s && AgentWrites(s, gen) == []
    ensures Validated(s, val) == (s, None)
    ensures Reviewed(s, rev) == (s, None)
  {
  }

  /** The generator answered with criteria. */
  predicate Generated(reply: AnalysisReply) {
    reply.AnalysisReply? && reply.success && reply.acceptanceCriteria.Some?
  }

  /**
   * After the analyze node the record is complete exactly when it holds an error, and a
   * completed record ends at step "end" unvalidated; the retry count is never touched.
   */
  lemma AnalyzeOutcome(s: Snapshot, gen: string -> AnalysisReply)
    requires !s.isComplete
    ensures var r := Analyzed(s, gen);
      && r.retryCount == s.retryCount && r.requirements == s.requirements
      && (r.isComplete <==> r.errorMessage != "")
      && (r.isComplete ==> r.currentStep == "end" && !r.validationStatus && "Analysis failed: " <= r.errorMessage)
  {
    if s.requirements == "" {
      AnalysisFailureEnds(s, "No requirements provided");
    } else {
      match gen(s.requirements)
      case AnalysisRaised(m) =>
        AnalysisFailureEnds(s, m);
      case AnalysisReply(ok, criteria, meta, err, _) =>
        if !ok {
          AnalysisFailureEnds(s, err.GetOr("Failed to generate acceptance criteria"));
        } else if criteria.None? {
          AnalysisFailureEnds(s, KeyErrorText("acceptance_criteria"));
        }
    }
  }

  /** The analysis failure branch records a non-empty error and touches no retry count. */
  lemma AnalysisFailureEnds(s: Snapshot, message: string)
    ensures var r := AnalysisFailure(s, message);
      && r.errorMessage != "" && r.isComplete && r.currentStep == "end" && !r.validationStatus
      && "Analysis failed: " <= r.errorMessage
      && r.retryCount == s.retryCount && r.requirements == s.requirements
  {
    assert AnalysisFailure(s, message).errorMessage[0] == 'A';
  }

  /** Empty requirements fail the analysis without consulting the generator. */
  lemma AnalyzeEmptyRequirements(s: Snapshot, gen: string -> AnalysisReply, other: string -> AnalysisReply)
    requires !s.isComplete && s.requirements == ""
    ensures Analyzed(s, gen) == Analyzed(s, other)
    ensures Analyzed(s, gen).errorMessage == "Analysis failed: No requirements provided"
  {
  }

  /**
   * The analysis succeeds exactly when the requirements are non-empty and the generator
   * answers with criteria; a success stores those criteria, replaces the metadata with the
   * reply's (or an empty one), clears the verdict and moves to step "validate".
   */
  lemma AnalyzeSuccess(s: Snapshot, gen: string -> AnalysisReply)
    requires !s.isComplete
    ensures var r := Analyzed(s, gen);
      && (!r.isComplete <==> s.requirements != "" && Generated(gen(s.requirements)))
      && (!r.isComplete ==> r.currentStep == "validate" && r.acceptanceCriteria == gen(s.requirements).acceptanceCriteria.value)
      && (!r.isComplete ==> r.metadata == gen(s.requirements).metadata.GetOr(map[])
                            && !r.validationStatus && r.errorMessage == "")
  {
  }

  /** The analyze node never leads to validation under the router as written. */
  lemma AnalyzeNeverValidates(s: Snapshot, gen: string -> AnalysisReply)
    ensures ValidateRoute(Analyzed(s, gen)) == ToEnd
  {
    if !s.isComplete {
      AnalyzeOutcome(s, gen);
      AnalyzeSuccess(s, gen);
    }
  }

  /** Under the intended router, the analyze node leads to validation exactly when it generated criteria. */
  lemma AnalyzedThenValidates(s: Snapshot, gen: string -> AnalysisReply)
    requires !s.isComplete
    ensures IntendedValidateRoute(Analyzed(s, gen)) == ToValidate <==> s.requirements != "" && Generated(gen(s.requirements))
  {
    AnalyzeOutcome(s, gen);
    AnalyzeSuccess(s, gen);
  }

  /** The validator's reason, when it gives one, is not empty. */
  predicate GivesReason(reply: ValidationReply) {
    reply.ValidationReply? ==> reply.reason != Some("")
  }

  /**
   * After the validation node: the criteria are saved exactly when they passed, and what
   * is saved is the non-empty text that was validated; a pass completes the run, a failure
   * never does, and a failure leaves the step at "retry" or "human_intervention".
   */
  lemma ValidateOutcome(s: Snapshot, val: OutputValidation.ValidationRequest -> ValidationReply)
    requires !s.isComplete
    ensures var (r, w) := Validated(s, val);
      && (w.Some? <==> r.validationStatus)
      && (w.Some? ==> w.value == s.acceptanceCriteria && s.acceptanceCriteria != "" && r.isComplete)
      && (!r.validationStatus ==> !r.isComplete && (r.currentStep == "retry" || r.currentStep == "human_intervention"))
      && DetailsKey in r.metadata
  {
  }

  /**
   * The branches of the validation node on non-empty criteria: a pass stores the details
   * and keeps the criteria; an escalation moves to step "human_intervention", keeping the
   * criteria and the count; a retry takes the validator's count and clears the criteria;
   * an exception counts one more retry and stores an error record.
   */
  lemma ValidateBranches(s: Snapshot, val: OutputValidation.ValidationRequest -> ValidationReply)
    requires !s.isComplete && s.acceptanceCriteria != ""
    ensures var reply := val(ValidationRequestOf(s));
      var t := Validated(s, val).0;
      && (reply.ValidationReply? && reply.success ==>
            t.acceptanceCriteria == s.acceptanceCriteria && t.currentStep == "end"
            && t.metadata[DetailsKey] == reply.details.GetOr(VDict(map[])))
      && (reply.ValidationReply? && !reply.success && reply.needsHuman == Some(true) ==>
            t.acceptanceCriteria == s.acceptanceCriteria && t.retryCount == s.retryCount
            && t.currentStep == "human_intervention" && !t.validationStatus
            && t.errorMessage == "Validation failed after maximum retries")
      && (reply.ValidationReply? && !reply.success && reply.needsHuman == Some(false) && reply.retryCount.Some? ==>
            t.acceptanceCriteria == "" && t.retryCount == reply.retryCount.value && t.currentStep == "retry")
      && (reply.ValidationRaised? ==>
            t.retryCount == s.retryCount + 1 && t.currentStep == "retry"
            && t.metadata[DetailsKey] == VDict(map["status" := VStr("error"), "message" := VStr(reply.message)]))
  {
  }

  /**
   * With a validator whose reasons are never empty, the retry edge ends the run after every
   * validation: neither the retry loop nor the human intervention node is ever reached.
   */
  lemma ValidationEndsRun(s: Snapshot, val: OutputValidation.ValidationRequest -> ValidationReply)
    requires !s.isComplete
    requires GivesReason(val(ValidationRequestOf(s)))
    ensures RetryRoute(Validated(s, val).0).0 == ToEnd
  {
    ValidateOutcome(s, val);
  }

  /**
   * `_should_retry` checks, in order: finished or failed, passed, retries exhausted. Only a
   * pass changes completion and only a retry changes the step; nothing else is written.
   */
  lemma RetryRouteDecision(s: Snapshot)
    ensures var (route, t) := RetryRoute(s);
      && (route == ToHuman <==> !s.isComplete && s.errorMessage == "" && !s.validationStatus && s.retryCount >= MaxRetries)
      && (route == ToRetry <==> !s.isComplete && s.errorMessage == "" && !s.validationStatus && s.retryCount < MaxRetries)
      && (route == ToRetry ==> t == s.(currentStep := "analyze"))
      && (route != ToRetry ==> t == s.(isComplete := t.isComplete))
      && (t.isComplete <==> s.isComplete || (s.errorMessage == "" && s.validationStatus))
  {
  }

  /** `_should_end` ends every run that is finished, failed or passed, and marks a pass complete. */
  lemma EndRouteDecision(s: Snapshot)
    ensures var (route, t) := EndRoute(s);
      && (route == ToRetry <==> !s.isComplete && s.errorMessage == "" && !s.validationStatus)
      && t == s.(isComplete := s.isComplete || (s.errorMessage == "" && s.validationStatus))
  {
  }

  /**
   * The human intervention node always completes the run, so its edge always ends it. A
   * review is accepted exactly when the agent answers with success and criteria; those
   * criteria replace the record's, are saved and are recorded as a pass with no error.
   */
  lemma ReviewCompletes(s: Snapshot, rev: map<string, string> -> HumanReply)
    ensures var (r, w) := Reviewed(s, rev);
      && r.isComplete && EndRoute(r).0 == ToEnd
      && (w.Some? ==> r.validationStatus && r.errorMessage == "" && w.value == r.acceptanceCriteria
                      && r.metadata[DetailsKey] == VDict(map["status" := VStr("human_reviewed")]))
      && (!s.isComplete ==> (w.Some? <==> r.validationStatus))
      && (!s.isComplete && w.None? ==> "Human intervention failed: " <= r.errorMessage)
      && (!s.isComplete ==>
            var reply := rev(HumanRequestOf(s));
            && (w.Some? <==> reply.HumanReply? && reply.success && reply.acceptanceCriteria.Some?)
            && (w.Some? ==> r.acceptanceCriteria == reply.acceptanceCriteria.value)
            && (w.None? ==> r.acceptanceCriteria == s.acceptanceCriteria && r.retryCount == s.retryCount))
  {
  }

  /** The state record, updated in place by the handlers. */
  class AnalysisState {
    var requirements: string
    var acceptanceCriteria: string
    var validationStatus: bool
    var retryCount: int
    var errorMessage: string
    var metadata: map<string, Value>
    var isComplete: bool
    var currentStep: string
    /** The contents written to the acceptance criteria file, oldest first. */
    ghost var saved: seq<string>

    function Snap(): Snapshot
      reads this
    {
      Snapshot(requirements, acceptanceCriteria, validationStatus, retryCount, errorMessage,
               metadata, isComplete, currentStep)
    }

    constructor (requirements: string)
      ensures Snap() == Initial(requirements) && saved == []
    {
      this.requirements := requirements;
      acceptanceCriteria := "";
      validationStatus := false;
      retryCount := 0;
      errorMessage := "";
      metadata := map[];
      isComplete := false;
      currentStep := "analyze";
      saved := [];
    }

    method FailAnalysis(message: string)
      modifies this
      ensures Snap() == AnalysisFailure(old(Snap()), message) && saved == old(saved)
    {
      errorMessage := "Analysis failed: " + message;
      validationStatus := false;
      isComplete := true;
      currentStep := "end";
    }

    /** `_analyze_requirements`; what the generator writes joins the saved texts. */
    method AnalyzeRequirements(gen: string -> AnalysisReply)
      modifies this
      ensures Snap() == Analyzed(old(Snap()), gen) && saved == old(saved) + AgentWrites(old(Snap()), gen)
    {
      if isComplete {
        return;
      }
      if requirements == "" {
        FailAnalysis("No requirements provided");
        return;
      }
      var result := gen(requirements);
      match result
      case AnalysisRaised(m) =>
        FailAnalysis(m);
      case AnalysisReply(ok, criteria, meta, err, w) =>
        saved := saved + Saves(w);
        if ok {
          if criteria.None? {
            FailAnalysis(KeyErrorText("acceptance_criteria"));
          } else {
            acceptanceCriteria := criteria.value;
            metadata := meta.GetOr(map[]);
            errorMessage := "";
            validationStatus := false;
            currentStep := "validate";
          }
        } else {
          FailAnalysis(err.GetOr("Failed to generate acceptance criteria"));
        }
    }

    method FailValidation(message: string)
      modifies this
      ensures Snap() == ValidationError(old(Snap()), message) && saved == old(saved)
    {
      errorMessage := "Validation failed: " + message;
      validationStatus := false;
      metadata := metadata[DetailsKey := VDict(map["status" := VStr("error"), "message" := VStr(message)])];
      currentStep := "retry";
      retryCount := retryCount + 1;
    }

    /** `_validate_criteria`; a pass saves the criteria. */
    method ValidateCriteria(val: OutputValidation.ValidationRequest -> ValidationReply)
      modifies this
      ensures Snap() == Validated(old(Snap()), val).0
      ensures saved == old(saved) + (match Validated(old(Snap()), val).1 case Some(c) => [c] case None => [])
    {
      if isComplete {
        return;
      }
      if acceptanceCriteria == "" {
        FailValidation("No acceptance criteria to validate");
        return;
      }
      var result := val(ValidationRequestOf(Snap()));
      RecordVerdict(result);
    }

    /** The part of `_validate_criteria` that handles the validator's reply. */
    method RecordVerdict(result: ValidationReply)
      modifies this
      ensures Snap() == Verdict(old(Snap()), result).0
      ensures saved == old(saved) + (match Verdict(old(Snap()), result).1 case Some(c) => [c] case None => [])
    {
      var entry := Snap();
      match result
      case ValidationRaised(m) =>
        FailValidation(m);
      case ValidationReply(ok, details, needsHuman, count, reason) =>
        validationStatus := ok;
        metadata := metadata[DetailsKey := details.GetOr(VDict(map[]))];
        if ok {
          saved := saved + [acceptanceCriteria];
          isComplete := true;
          currentStep := "end";
        } else {
          RecordRejection(entry, details, needsHuman, count, reason);
        }
    }

    /** The failed-verdict branches, once the status and the details are stored. */
    method RecordRejection(ghost entry: Snapshot, details: Option<Value>, needsHuman: Option<bool>,
                           count: Option<int>, reason: Option<string>)
      requires Snap() == entry.(validationStatus := false,
                                metadata := entry.metadata[DetailsKey := details.GetOr(VDict(map[]))])
      modifies this
      ensures Snap() == Verdict(entry, ValidationReply(false, details, needsHuman, count, reason)).0
      ensures saved == old(saved)
    {
      if needsHuman.None? {
        FailValidation(KeyErrorText("needs_human"));
        assert metadata == entry.metadata[DetailsKey := metadata[DetailsKey]];
      } else if needsHuman.value {
        currentStep := "human_intervention";
        errorMessage := "Validation failed after maximum retries";
      } else {
        currentStep := "retry";
        if count.None? {
          FailValidation(KeyErrorText("retry_count"));
          assert metadata == entry.metadata[DetailsKey := metadata[DetailsKey]];
        } else {
          retryCount := count.value;
          errorMessage := reason.GetOr("Validation failed");
          acceptanceCriteria := "";
        }
      }
    }

    method FailHumanIntervention(message: string)
      modifies this
      ensures Snap() == HumanFailure(old(Snap()), message) && saved == old(saved)
    {
      errorMessage := "Human intervention failed: " + message;
      validationStatus := false;
      isComplete := true;
      currentStep := "end";
    }

    /** `_handle_human_intervention`; an accepted review saves the reviewed criteria. */
    method HandleHumanIntervention(rev: map<string, string> -> HumanReply)
      modifies this
      ensures Snap() == Reviewed(old(Snap()), rev).0
      ensures saved == old(saved) + (match Reviewed(old(Snap()), rev).1 case Some(c) => [c] case None => [])
    {
      if isComplete {
        return;
      }
      var result := rev(HumanRequestOf(Snap()));
      match result
      case HumanRaised(m) =>
        FailHumanIntervention(m);
      case HumanReply(ok, criteria, err) =>
        if !ok {
          FailHumanIntervention(err.GetOr("Human intervention failed"));
        } else if criteria.None? {
          FailHumanIntervention(KeyErrorText("acceptance_criteria"));
        } else {
          acceptanceCriteria := criteria.value;
          validationStatus := true;
          errorMessage := "";
          saved := saved + [acceptanceCriteria];
          metadata := metadata[DetailsKey := VDict(map["status" := VStr("human_reviewed")])];
          isComplete := true;
          currentStep := "end";
        }
    }

    /** `_should_retry`, with its writes to the record. */
    method ShouldRetry() returns (route: Route)
      modifies this
      ensures (route, Snap()) == RetryRoute(old(Snap())) && saved == old(saved)
    {
      if isComplete || errorMessage != "" {
        return ToEnd;
      }
      if validationStatus {
        isComplete := true;
        return ToEnd;
      }
      if retryCount >= MaxRetries {
        return ToHuman;
      }
      currentStep := "analyze";
      return ToRetry;
    }

    /** `_should_end`, with its write to the record. */
    method ShouldEnd() returns (route: Route)
      modifies this
      ensures (route, Snap()) == EndRoute(old(Snap())) && saved == old(saved)
    {
      if isComplete || errorMessage != "" {
        return ToEnd;
      }
      if validationStatus {
        isComplete := true;
        return ToEnd;
      }
      return ToRetry;
    }
  }
}
