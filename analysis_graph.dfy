/**
 * The compiled workflow graph and `AnalysisWorkflow.run`: the nodes, the conditional
 * edges, the engine's step loop with its recursion limit, and the dictionary `run`
 * returns. The agents are passed in as functions from request to reply; the placeholder
 * agents of this repository are adapted to that form at the end of the module.
 */
module AnalysisGraph {
  import opened Wrappers
  import opened Values
  import Config
  import OutputValidation
  import AnalysisAgent
  import HumanIntervention
  import TemplateValidation
  import opened AnalysisWorkflow

  /** The graph's nodes; `EndNode` is the graph's END. */
  datatype Node = AnalyzeNode | ValidateNode | HumanNode | EndNode

  /** The three agents the workflow consults, as request-to-reply functions. */
  datatype Agents = Agents(
    gen: string -> AnalysisReply,
    val: OutputValidation.ValidationRequest -> ValidationReply,
    rev: map<string, string> -> HumanReply)

  /** Which router follows the analyze node: the one in the source or the intended one. */
  datatype Routing = AsWritten | Intended

  function AnalyzeRouter(routing: Routing, s: Snapshot): Route {
    match routing
    case AsWritten => ValidateRoute(s)
    case Intended => IntendedValidateRoute(s)
  }

  /** The conditional edge maps of `create_workflow`. */
  function Successor(n: Node, route: Route): Node {
    match n
    case AnalyzeNode => if route == ToValidate then ValidateNode else EndNode
    case ValidateNode =>
      (match route
       case ToRetry => AnalyzeNode
       case ToHuman => HumanNode
       case _ => EndNode)
    case HumanNode => if route == ToRetry then AnalyzeNode else EndNode
    case EndNode => EndNode
  }

  /**
   * One node and its outgoing edge: the new record, the next node and the texts written to
   * the criteria file, by the node or by the agent it consults.
   */
  function Step(s: Snapshot, n: Node, agents: Agents, routing: Routing): (Snapshot, Node, seq<string>) {
    match n
    case AnalyzeNode =>
      var t := Analyzed(s, agents.gen);
      (t, Successor(n, AnalyzeRouter(routing, t)), AgentWrites(s, agents.gen))
    case ValidateNode =>
      var (t, w) := Validated(s, agents.val);
      var (route, u) := RetryRoute(t);
      (u, Successor(n, route), Saves(w))
    case HumanNode =>
      var (t, w) := Reviewed(s, agents.rev);
      var (route, u) := EndRoute(t);
      (u, Successor(n, route), Saves(w))
    case EndNode => (s, EndNode, [])
  }

  /** Where a run stops: the final record, or `None` when the step limit ran out first; and what it saved. */
  datatype Trace = Trace(final: Option<Snapshot>, saved: seq<string>)

  /** The engine's loop from node `n` with at most `fuel` more node executions. */
  function Drive(s: Snapshot, n: Node, agents: Agents, routing: Routing, fuel: nat): Trace
    decreases fuel
  {
    if n == EndNode then Trace(Some(s), [])
    else if fuel == 0 then Trace(None, [])
    else
      var (t, m, w) := Step(s, n, agents, routing);
      var rest := Drive(t, m, agents, routing, fuel - 1);
      Trace(rest.final, w + rest.saved)
  }

  /** What `run` returns: the final record with its verdict, or the "Workflow failed" dictionary. */
  datatype RunResult =
    | Finished(state: Snapshot, success: bool, errorMessage: Value)
    | Crashed(message: string)

  /**
   * How `run` shapes the final record: success means an empty error message; a failed run
   * that holds validation details reports their "reason" entry instead of its error
   * message, and details that are not a dictionary make the lookup raise.
   */
  function Shape(final: Snapshot): (r: RunResult)
    ensures r.Finished? ==> r.state == final && (r.success <==> final.errorMessage == "")
    ensures final.errorMessage == "" || DetailsKey !in final.metadata ==> r == Finished(final, final.errorMessage == "", VStr(final.errorMessage))
    ensures final.errorMessage != "" && DetailsKey in final.metadata ==>
      match final.metadata[DetailsKey]
      case VDict(e) => r == Finished(final, false, if "reason" in e then e["reason"] else VStr(final.errorMessage))
      case v => r == Crashed("Workflow failed: '" + TypeName(v) + "' object has no attribute 'get'")
  {
    var success := final.errorMessage == "";
    if !success && DetailsKey in final.metadata then
      match final.metadata[DetailsKey]
      case VDict(e) => Finished(final, false, if "reason" in e then e["reason"] else VStr(final.errorMessage))
      case v => Crashed("Workflow failed: '" + TypeName(v) + "' object has no attribute 'get'")
    else Finished(final, success, VStr(final.errorMessage))
  }

  /** Stands for the engine's message when the step limit runs out. */
  const RecursionLimitMessage := "Recursion limit reached without hitting a stop condition"

  /** `run` with the engine's step limit `limit`. */
  function RunSpec(requirements: string, agents: Agents, routing: Routing, limit: nat): RunResult {
    match Drive(Initial(requirements), AnalyzeNode, agents, routing, limit).final
    case None => Crashed("Workflow failed: " + RecursionLimitMessage)
    case Some(f) => Shape(f)
  }

  /** The engine's loop unfolded by one node execution. */
  lemma DriveStep(s: Snapshot, n: Node, agents: Agents, routing: Routing, fuel: nat)
    requires n != EndNode && fuel > 0
    ensures Drive(s, n, agents, routing, fuel).final
      == Drive(Step(s, n, agents, routing).0, Step(s, n, agents, routing).1, agents, routing, fuel - 1).final
    ensures Drive(s, n, agents, routing, fuel).saved
      == Step(s, n, agents, routing).2 + Drive(Step(s, n, agents, routing).0, Step(s, n, agents, routing).1, agents, routing, fuel - 1).saved
  {
  }

  /** Proof helper: sequence concatenation is associative. */
  lemma ConcatAssoc(a: seq<string>, b: seq<string>, c: seq<string>)
    ensures a + (b + c) == (a + b) + c
  {
  }

  /** One node execution followed by its edge, on the state record. */
  method Advance(state: AnalysisState, node: Node, agents: Agents, routing: Routing) returns (next: Node)
    requires node != EndNode
    modifies state
    ensures (state.Snap(), next) == (Step(old(state.Snap()), node, agents, routing).0, Step(old(state.Snap()), node, agents, routing).1)
    ensures state.saved == old(state.saved) + Step(old(state.Snap()), node, agents, routing).2
  {
    if node == AnalyzeNode {
      state.AnalyzeRequirements(agents.gen);
      next := Successor(node, AnalyzeRouter(routing, state.Snap()));
    } else if node == ValidateNode {
      state.ValidateCriteria(agents.val);
      var route := state.ShouldRetry();
      next := Successor(node, route);
    } else {
      state.HandleHumanIntervention(agents.rev);
      var route := state.ShouldEnd();
      next := Successor(node, route);
    }
  }

  /**
   * `run`: the engine executes a node and follows its edge until END or until the step
   * limit runs out. `saved` is what was written to the criteria file, oldest first.
   */
  method Run(requirements: string, agents: Agents, routing: Routing, limit: nat) returns (r: RunResult, ghost saved: seq<string>)
    ensures r == RunSpec(requirements, agents, routing, limit)
    ensures saved == Drive(Initial(requirements), AnalyzeNode, agents, routing, limit).saved
  {
    var state := new AnalysisState(requirements);
    var node := AnalyzeNode;
    var steps := 0;
    ghost var whole := Drive(Initial(requirements), AnalyzeNode, agents, routing, limit);
    while node != EndNode && steps < limit
      invariant steps <= limit
      invariant whole.final == Drive(state.Snap(), node, agents, routing, limit - steps).final
      invariant whole.saved == state.saved + Drive(state.Snap(), node, agents, routing, limit - steps).saved
      decreases limit - steps
    {
      ghost var s0 := state.Snap();
      ghost var saved0 := state.saved;
      ghost var step := Step(s0, node, agents, routing);
      DriveStep(s0, node, agents, routing, limit - steps);
      node := Advance(state, node, agents, routing);
      steps := steps + 1;
      assert state.Snap() == step.0 && node == step.1 && state.saved == saved0 + step.2;
      ghost var rest := Drive(step.0, step.1, agents, routing, limit - steps).saved;
      ghost var w := step.2;
      ConcatAssoc(saved0, w, rest);
    }
    ghost var rest := Drive(state.Snap(), node, agents, routing, limit - steps);
    if node == EndNode {
      assert rest == Trace(Some(state.Snap()), []);
      r := Shape(state.Snap());
    } else {
      assert rest == Trace(None, []);
      r := Crashed("Workflow failed: " + RecursionLimitMessage);
    }
    saved := state.saved;
  }

  // ----- the workflow as it runs in this repository -----

  /** The text a file write puts into the criteria file, if it goes there. */
  function CriteriaWrite(w: Option<Artifact>): Option<string> {
    match w
    case Some(a) => if a.path == Config.AcceptanceCriteriaPath then Some(a.content) else None
    case None => None
  }

  /**
   * The dictionary the analysis agent's `process` returns, as the analyze node reads it,
   * with the agent's own write `w` to the criteria file.
   */
  function AnalysisReplyOf(r: AnalysisAgent.AnalysisResult, w: Option<Artifact>): AnalysisReply {
    match r
    case Generated(criteria, source, length) =>
      AnalysisReply(true, Some(criteria),
                    Some(map["source_requirements" := VStr(source), "criteria_length" := VInt(length)]), None,
                    CriteriaWrite(w))
    case AnalysisFailed(f) => AnalysisReply(false, None, None, Some(f.error), CriteriaWrite(w))
  }

  /**
   * The dictionary the validation agent returns, as the validation node reads it. The
   * failure record carries no "needs_human" entry, so the node's lookup of it raises.
   */
  function ValidationReplyOf(r: OutputValidation.ValidationResult): ValidationReply {
    match r
    case Checked(ok, _, needsHuman, count, reason, diagnostics) =>
      ValidationReply(ok, Some(OutputValidation.DiagnosticsValue(diagnostics)), Some(needsHuman), Some(count), Some(reason))
    case ValidationFailed(f) => ValidationReply(false, None, None, Some(f.retryCount), None)
  }

  /**
   * The dictionary the human intervention agent returns, as the human node reads it: the
   * agent reports the reviewed text under "updated_output", never "acceptance_criteria".
   */
  function HumanReplyOf(r: HumanIntervention.InterventionResult): HumanReply {
    match r
    case Approved(_, _, _, _) => HumanReply(true, None, None)
    case Rejected(_, _, _) => HumanReply(false, None, Some(HumanIntervention.RejectionError))
    case InterventionFailed(f) => HumanReply(false, None, Some(f.error))
  }

  /** What the analysis agent answers and writes, its failure counter at `counter`. */
  function GeneratorReply(requirements: string, counter: int): AnalysisReply {
    var (result, written) := AnalysisAgent.Process(requirements, counter);
    AnalysisReplyOf(result, written)
  }

  /** This repository's generator, its failure counter at 0. */
  function Generator(): string -> AnalysisReply {
    requirements => GeneratorReply(requirements, 0)
  }

  /** This repository's validator, its failure counter at 0. */
  function Validator(): OutputValidation.ValidationRequest -> ValidationReply {
    request => ValidationReplyOf(OutputValidation.Process(request, 0))
  }

  /** This repository's human agent, its failure counter at 0. */
  function Reviewer(): map<string, string> -> HumanReply {
    input => HumanReplyOf(HumanIntervention.Process(input, 0).0)
  }

  /** The three agents of this repository. */
  function PlaceholderAgents(): Agents {
    Agents(Generator(), Validator(), Reviewer())
  }

  /**
   * The agents' failure counters grow from call to call, but nothing the workflow reads
   * depends on them: fixing them at 0 loses nothing. First the generator's reply.
   */
  lemma GeneratorIgnoresCounter(requirements: string, counter: int)
    ensures GeneratorReply(requirements, counter) == GeneratorReply(requirements, 0)
  {
  }

  /** The validator's failure record carries the counter, but the node raises before reading it. */
  lemma ValidatorIgnoresCounter(s: Snapshot, request: OutputValidation.ValidationRequest, counter: int)
    ensures Verdict(s, ValidationReplyOf(OutputValidation.Process(request, counter)))
         == Verdict(s, ValidationReplyOf(OutputValidation.Process(request, 0)))
  {
  }

  /** The human agent's reply does not depend on its counter. */
  lemma ReviewerIgnoresCounter(input: map<string, string>, counter: int)
    ensures HumanReplyOf(HumanIntervention.Process(input, counter).0)
         == HumanReplyOf(HumanIntervention.Process(input, 0).0)
  {
  }

  /**
   * Under the router as written, every run stops after the analyze node: the validator and
   * the human agent are never consulted, and only the generator writes the criteria file.
   */
  lemma RunStopsAfterAnalysis(requirements: string, agents: Agents, limit: nat)
    requires limit >= 1
    ensures Drive(Initial(requirements), AnalyzeNode, agents, AsWritten, limit)
         == Trace(Some(Analyzed(Initial(requirements), agents.gen)), AgentWrites(Initial(requirements), agents.gen))
    ensures RunSpec(requirements, agents, AsWritten, limit) == Shape(Analyzed(Initial(requirements), agents.gen))
  {
    AnalyzeNeverValidates(Initial(requirements), agents.gen);
    DriveStep(Initial(requirements), AnalyzeNode, agents, AsWritten, limit);
  }

  /** The metadata the analysis agent attaches to generated criteria. */
  function GeneratedMetadata(requirements: string): map<string, Value> {
    map["source_requirements" := VStr(requirements),
        "criteria_length" := VInt(|AnalysisAgent.Template(requirements)|)]
  }

  /** Proof helper: the generator's metadata holds no validation details. */
  lemma GeneratedMetadataKeys(requirements: string)
    ensures DetailsKey !in GeneratedMetadata(requirements)
  {
  }

  /** What this repository's generator answers, and what it writes to the criteria file. */
  lemma PlaceholderGenerator(requirements: string)
    ensures requirements == "" ==>
      Generator()(requirements) == AnalysisReply(false, None, None, Some("No requirements provided"), None)
    ensures requirements != "" ==>
      Generator()(requirements)
      == AnalysisReply(true, Some(AnalysisAgent.Template(requirements)), Some(GeneratedMetadata(requirements)), None,
                       Some(AnalysisAgent.Template(requirements)))
  {
  }

  /** What this repository's validator answers on the request the workflow sends first. */
  lemma PlaceholderValidator(request: OutputValidation.ValidationRequest)
    requires request.outputType == "acceptance_criteria" && request.outputData != "" && request.retryCount == 0
    ensures var (ok, d) := OutputValidation.Assess(request.outputData);
      Validator()(request)
      == ValidationReply(ok, Some(OutputValidation.DiagnosticsValue(OutputValidation.SectionReport(d))),
                         Some(false), Some(if ok then 0 else 1), Some(d.reason))
  {
  }

  /** What this repository's human agent answers on a request without a stage. */
  lemma PlaceholderReviewer(input: map<string, string>)
    requires "stage" !in input
    ensures Reviewer()(input) == HumanReply(false, None, Some(HumanIntervention.MissingInputs))
  {
    assert HumanIntervention.Field(input, "stage") == "";
  }

  /**
   * Under the router as written, a generator that answers with criteria gives a run that
   * succeeds with those criteria unvalidated, the file holding only what the generator
   * wrote; empty requirements fail with the analysis error and nothing written.
   */
  lemma GeneratedRun(requirements: string, agents: Agents, criteria: string, meta: map<string, Value>,
                     written: Option<string>, limit: nat)
    requires limit >= 1
    requires requirements != "" ==> agents.gen(requirements) == AnalysisReply(true, Some(criteria), Some(meta), None, written)
    requires DetailsKey !in meta
    ensures var r := RunSpec(requirements, agents, AsWritten, limit);
      var trace := Drive(Initial(requirements), AnalyzeNode, agents, AsWritten, limit);
      && r.Finished?
      && trace.saved == (if requirements == "" then [] else Saves(written))
      && (r.success <==> requirements != "")
      && (requirements == "" ==> r.errorMessage == VStr("Analysis failed: No requirements provided"))
      && (requirements != "" ==>
            && r.state.acceptanceCriteria == criteria
            && !r.state.validationStatus
            && DetailsKey !in r.state.metadata
            && r.errorMessage == VStr(""))
  {
    RunStopsAfterAnalysis(requirements, agents, limit);
    AnalyzeOutcome(Initial(requirements), agents.gen);
    AnalyzeSuccess(Initial(requirements), agents.gen);
    if requirements == "" {
      AnalyzeEmptyRequirements(Initial(requirements), agents.gen, agents.gen);
    }
  }

  /**
   * `run` with this repository's agents: empty requirements fail with the analysis error
   * and nothing written; any other requirements succeed with the unvalidated template,
   * whose metadata holds no validation details, and the criteria file holds exactly the
   * criteria of the result, written once by the analysis agent.
   */
  lemma PlaceholderRun(requirements: string, limit: nat)
    requires limit >= 1
    ensures var r := RunSpec(requirements, PlaceholderAgents(), AsWritten, limit);
      var trace := Drive(Initial(requirements), AnalyzeNode, PlaceholderAgents(), AsWritten, limit);
      && r.Finished?
      && (r.success <==> requirements != "")
      && (requirements == "" ==> r.errorMessage == VStr("Analysis failed: No requirements provided") && trace.saved == [])
      && (requirements != "" ==>
            && trace.saved == [r.state.acceptanceCriteria]
            && r.state.acceptanceCriteria == AnalysisAgent.Template(requirements)
            && !r.state.validationStatus
            && DetailsKey !in r.state.metadata
            && r.errorMessage == VStr(""))
  {
    PlaceholderGenerator(requirements);
    GeneratedMetadataKeys(requirements);
    GeneratedRun(requirements, PlaceholderAgents(), AnalysisAgent.Template(requirements),
                 GeneratedMetadata(requirements), Some(AnalysisAgent.Template(requirements)), limit);
  }

  /** Proof helper: the criteria template is never empty. */
  lemma TemplateNonEmpty(requirements: string)
    ensures AnalysisAgent.Template(requirements) != ""
  {
    var parts := AnalysisAgent.PrefixLines + [requirements] + AnalysisAgent.SuffixLines;
    assert |parts| > 1;
    assert |AnalysisAgent.Template(requirements)| >= |"\n"|;
  }

  /** The failure reason of an assessment is never empty. */
  lemma ReasonNonEmpty(criteria: string)
    ensures OutputValidation.Assess(criteria).1.reason != ""
  {
    var failures := OutputValidation.Assess(criteria).1.failures;
    assert OutputValidation.ReasonText(failures)[0] == 'V';
  }

  /**
   * Under the intended router, a generator that answers with non-empty criteria and a
   * validator that answers once with a verdict give a run that is analysed and validated
   * once: after the generator's own write, a pass saves the criteria again and succeeds,
   * and a failure with a non-empty reason fails with that reason and saves nothing more.
   */
  lemma ValidatedRun(requirements: string, agents: Agents, criteria: string, meta: map<string, Value>,
                     written: Option<string>, ok: bool, details: map<string, Value>, reason: string, limit: nat)
    requires requirements != "" && criteria != "" && limit >= 2
    requires agents.gen(requirements) == AnalysisReply(true, Some(criteria), Some(meta), None, written)
    requires agents.val(OutputValidation.ValidationRequest("acceptance_criteria", criteria, requirements, 0))
          == ValidationReply(ok, Some(VDict(details)), Some(false), Some(if ok then 0 else 1), Some(reason))
    requires reason != "" && "reason" in details && details["reason"] == VStr(reason)
    ensures var trace := Drive(Initial(requirements), AnalyzeNode, agents, Intended, limit);
      var r := RunSpec(requirements, agents, Intended, limit);
      && r.Finished? && (r.success <==> ok)
      && (ok ==> r.state.validationStatus && trace.saved == Saves(written) + [criteria])
      && (!ok ==> r.errorMessage == VStr(reason) && trace.saved == Saves(written))
  {
    var s0 := Initial(requirements);
    var s1 := Analyzed(s0, agents.gen);
    AnalyzeSuccess(s0, agents.gen);
    AnalyzedThenValidates(s0, agents.gen);
    DriveStep(s0, AnalyzeNode, agents, Intended, limit);
    assert ValidationRequestOf(s1) == OutputValidation.ValidationRequest("acceptance_criteria", criteria, requirements, 0);
    DriveStep(s1, ValidateNode, agents, Intended, limit - 1);
  }

  /**
   * With the intended router and this repository's agents, non-empty requirements are
   * analysed and validated once. The analysis agent writes the template to the criteria
   * file; when the template passes the section check the workflow writes it again and the
   * run succeeds, and otherwise the run fails with the section check's reason.
   */
  lemma IntendedPlaceholderRun(requirements: string, limit: nat)
    requires requirements != "" && limit >= 2
    ensures var (ok, d) := OutputValidation.Assess(AnalysisAgent.Template(requirements));
      var trace := Drive(Initial(requirements), AnalyzeNode, PlaceholderAgents(), Intended, limit);
      var r := RunSpec(requirements, PlaceholderAgents(), Intended, limit);
      && r.Finished? && (r.success <==> ok)
      && (ok ==> r.state.validationStatus && trace.saved == [AnalysisAgent.Template(requirements), AnalysisAgent.Template(requirements)])
      && (!ok ==> r.errorMessage == VStr(d.reason) && trace.saved == [AnalysisAgent.Template(requirements)])
  {
    var criteria := AnalysisAgent.Template(requirements);
    var (ok, d) := OutputValidation.Assess(criteria);
    var v := OutputValidation.DiagnosticsValue(OutputValidation.SectionReport(d));
    PlaceholderAnswers(requirements);
    ValidatedRun(requirements, PlaceholderAgents(), criteria, GeneratedMetadata(requirements),
                 Some(criteria), ok, v.entries, d.reason, limit);
  }

  /**
   * Proof helper: what this repository's generator and validator answer on a first pass
   * over non-empty requirements.
   */
  lemma PlaceholderAnswers(requirements: string)
    requires requirements != ""
    ensures var criteria := AnalysisAgent.Template(requirements);
      var (ok, d) := OutputValidation.Assess(criteria);
      var v := OutputValidation.DiagnosticsValue(OutputValidation.SectionReport(d));
      && criteria != "" && d.reason != "" && v.VDict? && "reason" in v.entries && v.entries["reason"] == VStr(d.reason)
      && PlaceholderAgents().gen(requirements)
         == AnalysisReply(true, Some(criteria), Some(GeneratedMetadata(requirements)), None, Some(criteria))
      && PlaceholderAgents().val(OutputValidation.ValidationRequest("acceptance_criteria", criteria, requirements, 0))
         == ValidationReply(ok, Some(v), Some(false), Some(if ok then 0 else 1), Some(d.reason))
  {
    var criteria := AnalysisAgent.Template(requirements);
    PlaceholderGenerator(requirements);
    TemplateNonEmpty(requirements);
    ReasonNonEmpty(criteria);
    PlaceholderValidator(OutputValidation.ValidationRequest("acceptance_criteria", criteria, requirements, 0));
  }

  /**
   * Requirements without a line that opens with '#' give a template that fails the section
   * check, so with the intended router the run fails with the section check's reason.
   */
  lemma IntendedRunFails(requirements: string, limit: nat)
    requires requirements != "" && limit >= 2
    requires TemplateValidation.NoHashedLine(requirements)
    ensures var r := RunSpec(requirements, PlaceholderAgents(), Intended, limit);
      && r.Finished? && !r.success
      && r.errorMessage == VStr(OutputValidation.Assess(AnalysisAgent.Template(requirements)).1.reason)
  {
    TemplateValidation.TemplateFailsValidation(requirements);
    IntendedPlaceholderRun(requirements, limit);
  }

  /** A human agent that answers with a failure and an error message ends the run with that message. */
  lemma ReviewerRejects(s: Snapshot, rev: map<string, string> -> HumanReply, message: string)
    requires !s.isComplete
    requires rev(HumanRequestOf(s)) == HumanReply(false, None, Some(message))
    ensures Reviewed(s, rev).0.errorMessage == "Human intervention failed: " + message
    ensures Reviewed(s, rev).0.isComplete
  {
  }

  /**
   * Were the human intervention node reached, this repository's human agent would reject the
   * workflow's request for lack of a stage, output type and output data, ending the run.
   */
  lemma PlaceholderReviewFails(s: Snapshot)
    requires !s.isComplete
    ensures Reviewed(s, Reviewer()).0.errorMessage
         == "Human intervention failed: " + HumanIntervention.MissingInputs
    ensures Reviewed(s, Reviewer()).0.isComplete
  {
    var request := HumanRequestOf(s);
    assert "stage" !in request;
    PlaceholderReviewer(request);
    ReviewerRejects(s, Reviewer(), HumanIntervention.MissingInputs);
  }
}
