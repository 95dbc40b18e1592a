# sdlc_agents analysis workflow, modelled in Dafny

This project models the requirements-analysis pipeline of `sdlc_agents`. An analysis
workflow (a LangGraph state graph) runs three agents in turn:

- an analysis agent that turns raw requirements into acceptance criteria;
- an output validation agent that checks the criteria against an analyst template;
- a human intervention agent that stands in for a human review.

The workflow keeps one state record. Each node reads the record, consults its agent and
writes the record back. Conditional edges ("routers") then choose the next node, until the
graph reaches its end. `run` finally shapes the final record into the dictionary the caller
sees.

Modules:

- `PyText` — the Python string operations the core relies on: `strip`, `lower`, `split('\n')`,
  `'\n'.join`, and `in` on strings.
- `Values` — dictionary values (`Value`) and saved files (`Artifact`). `Config` holds the output paths.
- `BaseAgent` — the agent base class: its capability table and its failure handler. The
  handler counts failures and turns an exception into a failure record.
- `AnalysisAgent` — the placeholder criteria generator (a fixed template around the
  requirements) and its structural `validate`.
- `OutputValidation` — the validation agent:
  - the section scan of `_validate_acceptance_criteria`, as pure specification functions and
    as the imperative loops of the source, each proved against them;
  - the failure list and the reason text;
  - the retry and human-intervention flags of `process`.
- `TemplateValidation` — what the validator makes of the analysis agent's template.
- `HumanIntervention` — the review request, the simulated feedback, the output paths, the
  result dictionary and `validate`.
- `AnalysisWorkflow` — the state record as a class (`AnalysisState`), with one method per
  node and router. Each method is proved against a function on a value snapshot (`Snapshot`).
  The lemmas state what each node and router does.
- `AnalysisGraph` — the graph wiring of `create_workflow`, the engine's step loop with its
  step limit, `run`, and adapters from the concrete agents to the replies the workflow reads.
  It also holds whole-run lemmas for any agents and for this repository's placeholder agents.

Each agent enters the workflow as a function from request to reply. A reply says which keys
the returned dictionary holds, so the `KeyError` paths of the workflow are modelled. Such an
error is recorded with the message `'key'`, as `str()` of a `KeyError` reads.

Three features of the code shape every run, and the lemmas state each of them:

- **Analysis router.** The router after analysis never chooses validation. See Findings.
- **Failed validation.** A failed validation that carries a reason writes that reason into the
  error message. The retry router then ends the run instead of retrying
  (`AnalysisWorkflow.ValidationEndsRun`).
- **Human intervention.** The workflow sends the human intervention agent the keys
  `requirements`, `acceptance_criteria` and `error_message`. The agent requires `stage`,
  `output_type` and `output_data`, so it always fails with "Missing required intervention
  inputs" (`AnalysisGraph.PlaceholderReviewer`). Even an approval would be reported under
  `updated_output`. The node reads `acceptance_criteria`, so that lookup raises.

## Model

| member | source | states |
|---|---|---|
| PyText.StripIsSlice | sdlc_agents/agents/output_validation_agent.py:149 | the stripped line is the slice of the line left once the whitespace before and after it is cut off; only whitespace lies outside it, and it neither starts nor ends with whitespace |
| PyText.StripTrimmed | sdlc_agents/agents/output_validation_agent.py:149 | a line with no surrounding whitespace is its own strip |
| PyText.LowerConcat | sdlc_agents/agents/output_validation_agent.py:154 | lower-casing distributes over concatenation |
| PyText.SplitJoin | sdlc_agents/agents/output_validation_agent.py:145 | splitting on newlines undoes joining newline-free lines |
| PyText.SplitConcat | sdlc_agents/agents/output_validation_agent.py:145 | splitting text joined by a newline splits each part |
| PyText.JoinContains | sdlc_agents/agents/analysis_agent.py:135 | every joined part occurs in the joined text |
| BaseAgent.CapabilityTable | sdlc_agents/agents/base_agent.py:33-36 | one capability per given name, keyed and named by that name, with its description |
| BaseAgent.SdlcAgent.constructor | sdlc_agents/agents/base_agent.py:16-37 | name, description, capability table and starting counter as given |
| BaseAgent.SdlcAgent.HandleFailure | sdlc_agents/agents/base_agent.py:63-77 | the agent's counter grows by one and the returned record carries the error and the new count |
| AnalysisAgent.TemplateLines | sdlc_agents/agents/analysis_agent.py:84-115 | the generated criteria's lines are the fixed heading lines, the requirements' own lines, then the fixed section lines |
| AnalysisAgent.TemplateHasStructure | sdlc_agents/agents/analysis_agent.py:95-135 | the generated template contains all five required headings |
| AnalysisAgent.Process | sdlc_agents/agents/analysis_agent.py:25-61 | fails exactly on empty requirements ("No requirements provided", counter plus one, nothing saved); otherwise returns the template, the source requirements and the criteria length, and saves the criteria to the criteria path |
| AnalysisAgent.GeneratedValidates | sdlc_agents/agents/analysis_agent.py:25-135 | for non-empty requirements the agent generates criteria that its own `validate` accepts |
| OutputValidation.Rank | sdlc_agents/agents/output_validation_agent.py:101-142 | every section has a position in the fixed section order |
| OutputValidation.FirstMarked | sdlc_agents/agents/output_validation_agent.py:153-228 | the section the `elif` chain picks is in the chain and its pattern matches |
| OutputValidation.FirstMarkedAtSound | sdlc_agents/agents/output_validation_agent.py:153-228 | the chain picks a section only if its pattern matches and no earlier pattern does |
| OutputValidation.FirstMarkedAtComplete | sdlc_agents/agents/output_validation_agent.py:153-228 | a section whose pattern matches, with no earlier pattern matching, is the one picked |
| OutputValidation.FirstMarkedNone | sdlc_agents/agents/output_validation_agent.py:153-228 | the chain picks nothing exactly when no pattern matches |
| OutputValidation.ClassifyFirstMatch | sdlc_agents/agents/output_validation_agent.py:148-228 | a line opens a section exactly when it is not blank after stripping, its lower-cased form matches that section's header pattern, and no earlier pattern in the chain matches |
| OutputValidation.ClassifyNone | sdlc_agents/agents/output_validation_agent.py:148-228 | a line opens nothing exactly when it is blank or matches no pattern |
| OutputValidation.UnhashedLineOpensNothing | sdlc_agents/agents/output_validation_agent.py:154-217 | a line that does not start with `#` after stripping opens no section |
| OutputValidation.Kinds | sdlc_agents/agents/output_validation_agent.py:148 | one entry per line |
| OutputValidation.KindsAt | sdlc_agents/agents/output_validation_agent.py:148-228 | entry `i` is the section line `i` opens |
| OutputValidation.LastMatch | sdlc_agents/agents/output_validation_agent.py:148-228 | the last header of a section among the first `n` lines, or none when no line opens it |
| OutputValidation.InfoAtMeaning | sdlc_agents/agents/output_validation_agent.py:148-228 | a section is found exactly when some scanned line opens it. Its record then holds the 1-based number of the last such line and that header's content: the heading's own stripped line, or the body below any other header |
| OutputValidation.InfoAtStep | sdlc_agents/agents/output_validation_agent.py:148-228 | scanning one more line changes only the record of the section that line opens |
| OutputValidation.SectionsOf | sdlc_agents/agents/output_validation_agent.py:101-228 | every section has a record, the one the full scan leaves |
| OutputValidation.CollectBody | sdlc_agents/agents/output_validation_agent.py:166-171 | the inner loop collects exactly the stripped non-blank lines from the start line up to the next raw line starting with `##` |
| OutputValidation.ScanLine | sdlc_agents/agents/output_validation_agent.py:148-228 | one pass of the outer loop carries every section's record from `i` lines scanned to `i + 1` |
| OutputValidation.HeaderUpdate | sdlc_agents/agents/output_validation_agent.py:155-228 | overwriting the record of the section a header line opens matches the scan after that line |
| OutputValidation.ScanSections | sdlc_agents/agents/output_validation_agent.py:101-228 | the scan loop leaves exactly the records of the specification, in which a later header overwrites an earlier one |
| OutputValidation.FailuresSound | sdlc_agents/agents/output_validation_agent.py:230-243 | every listed failure is its section's failure: missing when not found, empty when found without content |
| OutputValidation.FailuresComplete | sdlc_agents/agents/output_validation_agent.py:230-243 | every failing section is listed |
| OutputValidation.FailuresOrdered | sdlc_agents/agents/output_validation_agent.py:231-243 | failures appear in the section order of the details dictionary |
| OutputValidation.ListFailures | sdlc_agents/agents/output_validation_agent.py:230-243 | the failure loop produces the failure list of the specification |
| OutputValidation.Bullets | sdlc_agents/agents/output_validation_agent.py:248-249 | one `- reason` line per failure, in failure order |
| OutputValidation.AssessFailures | sdlc_agents/agents/output_validation_agent.py:230-253 | the reported failures are exactly the failing sections, in section order |
| OutputValidation.HeadingHasContent | sdlc_agents/agents/output_validation_agent.py:154-158 | a found acceptance-criteria heading always has content |
| OutputValidation.AssessFailureKinds | sdlc_agents/agents/output_validation_agent.py:232-243 | a failure is "missing" exactly when its section was not found; the heading can only be missing, never empty |
| OutputValidation.ValidateAcceptanceCriteria | sdlc_agents/agents/output_validation_agent.py:90-253 | the verdict and details are those of the specification `Assess` |
| OutputValidation.BodyLinesNonBlank | sdlc_agents/agents/output_validation_agent.py:169-170 | a section body holds no blank line |
| OutputValidation.JoinNonBlank | sdlc_agents/agents/output_validation_agent.py:172 | joining non-blank lines gives the empty text exactly when there are no lines |
| OutputValidation.ScannedContentNonBlank | sdlc_agents/agents/output_validation_agent.py:149-228 | every stored content line is non-blank |
| OutputValidation.StoredContentEmpty | sdlc_agents/agents/output_validation_agent.py:172-238 | the stored content, whether a joined string or a list, is empty exactly when no line was collected, so the emptiness test sees the collected lines |
| OutputValidation.DiagnosticsValue | sdlc_agents/agents/output_validation_agent.py:66-88 | the details dictionary always holds a "reason" entry, the reason reported |
| OutputValidation.ValidateOutput | sdlc_agents/agents/output_validation_agent.py:78-88 | the output is valid exactly when its type is "acceptance_criteria" and no section fails, and a valid output's reason is "Validation successful". An unknown type's details are the dictionary with reason "Unknown output type: " and the type, and empty "details". Failed criteria get a reason starting "Validation failed:" |
| OutputValidation.Process | sdlc_agents/agents/output_validation_agent.py:25-76 | fails exactly on an empty output type or data ("Missing required validation inputs", counter plus one). Otherwise: retry and human are never both set; a pass sets neither; a failure sets exactly one; human is set exactly when the check failed with a retry count of 3 or more; the count grows by one exactly on retry; verdict and details are the check's and the reason is the details' reason |
| TemplateValidation.SubheadingMarks | sdlc_agents/agents/output_validation_agent.py:161-217 | a `## ` line matches a section pattern exactly when the section is not the heading and the rest starts with its title |
| TemplateValidation.HeadingMarks | sdlc_agents/agents/output_validation_agent.py:154 | a `# ` line matches only the heading pattern, and only when the rest starts with its title |
| TemplateValidation.SubheadingOpensNothing | sdlc_agents/agents/output_validation_agent.py:161-217 | a capitalised `## ` line whose words start no section title opens nothing |
| TemplateValidation.TemplateKinds | sdlc_agents/agents/analysis_agent.py:95-114 | when no requirement line starts with `#`, every template line opens nothing, the heading or the validation methods section |
| TemplateValidation.HeadingLineOpens | sdlc_agents/agents/output_validation_agent.py:148-158 | a line "# " and a word that lower-cases to "acceptance criteria" opens the heading section |
| TemplateValidation.SubheadingLineOpens | sdlc_agents/agents/output_validation_agent.py:148-217 | a line "## " and a word that lower-cases to a two-hash section's title opens that section, when no earlier title in the chain starts that title |
| TemplateValidation.TitleLineOpensHeading | sdlc_agents/agents/analysis_agent.py:95 | the template's "# Acceptance Criteria" line opens the heading section |
| TemplateValidation.ValidationLineOpensValidation | sdlc_agents/agents/analysis_agent.py:110 | the template's "## Validation Methods" line opens the validation methods section |
| TemplateValidation.OpenedHeadingPasses | sdlc_agents/agents/output_validation_agent.py:154-158 | a heading that some line opens never fails |
| TemplateValidation.HeadingSupplied | sdlc_agents/agents/analysis_agent.py:95 | the generated criteria's heading section passes |
| TemplateValidation.LastOpenerWithBody | sdlc_agents/agents/output_validation_agent.py:161-172 | a section whose last header is followed by a non-blank line that does not start with `##` passes |
| TemplateValidation.ValidationLines | sdlc_agents/agents/analysis_agent.py:110-114 | in the generated criteria the "## Validation Methods" line is the last to open that section, and a numbered line follows it |
| TemplateValidation.ValidationSupplied | sdlc_agents/agents/analysis_agent.py:110-114 | the generated criteria's validation methods section passes |
| TemplateValidation.NeverOpenedFails | sdlc_agents/agents/output_validation_agent.py:230-237 | a section no line opens fails as missing |
| TemplateValidation.ExactFailures | sdlc_agents/agents/output_validation_agent.py:230-243 | with the heading and validation methods passing and the other four sections missing, the failure list is those four, in section order |
| TemplateValidation.NeverOpenedIsMissing | sdlc_agents/agents/output_validation_agent.py:230-237 | a section no line opens is reported missing and the criteria are invalid |
| TemplateValidation.TemplateFailsValidation | sdlc_agents/agents/analysis_agent.py:95-114 | the analysis agent's template fails the validator with exactly four failures, in this order: user story, functional, non-functional and open questions, each missing |
| HumanIntervention.Field | sdlc_agents/agents/human_intervention_agent.py:42-45 | a present key reads as its entry and an absent key as empty |
| HumanIntervention.ShownContext | sdlc_agents/agents/human_intervention_agent.py:138 | the shown context is never empty and is the given context when there is one |
| HumanIntervention.ReviewRequestShows | sdlc_agents/agents/human_intervention_agent.py:113-149 | the review request shows the stage, the output type, the error context (or the default text) and the output |
| HumanIntervention.OutputPath | sdlc_agents/agents/human_intervention_agent.py:168-183 | a path exists exactly for the four known output types. Acceptance criteria, the design document, the developer document and generated code each go to their configured path |
| HumanIntervention.OutputPathsDistinct | sdlc_agents/agents/human_intervention_agent.py:177-183 | distinct known output types are saved to distinct files |
| HumanIntervention.Decide | sdlc_agents/agents/human_intervention_agent.py:62-91 | approved exactly when the feedback approves, with the updated output (or the original) and the change flag. A rejection carries the feedback text. Something is saved exactly when approved for a known type, and it is the updated output at that type's path |
| HumanIntervention.Process | sdlc_agents/agents/human_intervention_agent.py:25-94 | fails exactly when stage, output type or output data is empty ("Missing required intervention inputs", counter plus one, nothing saved). Otherwise the simulated review approves, with the review request as the updated output and no changes; something is saved exactly for a known type |
| HumanIntervention.ResultFields | sdlc_agents/agents/human_intervention_agent.py:71-94 | "success" is always present and true only on approval; "acceptance_criteria" is never present. An approval carries the updated output and metadata of exactly stage, output type, `human_approved` true and the change flag. A rejection carries the error "Human rejected the output" and metadata of exactly stage, output type, `human_approved` false and the feedback. A failure is exactly the failure record's success, error and retry count |
| HumanIntervention.ValidateAcceptsDecisions | sdlc_agents/agents/human_intervention_agent.py:25-111 | `validate` accepts an approval or a rejection and refuses a failure record |
| AnalysisWorkflow.ValidateRoute | sdlc_agents/agents/analysis_workflow.py:223-233 | routes to validation exactly when the run is not complete, has no error and its step is "analyze"; otherwise ends |
| AnalysisWorkflow.IntendedValidateRoute | sdlc_agents/agents/analysis_workflow.py:223-233 | the corrected router: validation exactly when not complete, no error and step "validate" |
| AnalysisWorkflow.CompleteIsFixed | sdlc_agents/agents/analysis_workflow.py:92-187 | every node returns a completed record unchanged, and neither the node nor its agent saves anything |
| AnalysisWorkflow.AnalyzeOutcome | sdlc_agents/agents/analysis_workflow.py:92-126 | analysis keeps the requirements and retry count. It completes the run exactly when it records an error, and then the step is "end", the status false and the error starts with "Analysis failed: " |
| AnalysisWorkflow.AnalysisFailureEnds | sdlc_agents/agents/analysis_workflow.py:113-124 | the failure branches record a non-empty "Analysis failed: " message and end the run |
| AnalysisWorkflow.AnalyzeEmptyRequirements | sdlc_agents/agents/analysis_workflow.py:100-101 | empty requirements never reach the agent and record "Analysis failed: No requirements provided" |
| AnalysisWorkflow.AnalyzeSuccess | sdlc_agents/agents/analysis_workflow.py:103-112 | the run continues exactly when the requirements are non-empty and the agent succeeds with criteria; the step is then "validate", the criteria are the agent's, the metadata is replaced by the reply's (or an empty map), the verdict is false and the error empty |
| AnalysisWorkflow.AnalyzeNeverValidates | sdlc_agents/agents/analysis_workflow.py:107-112 | after the analysis node the as-written router always ends the run |
| AnalysisWorkflow.AnalyzedThenValidates | sdlc_agents/agents/analysis_workflow.py:107-112 | after the analysis node the corrected router validates exactly when analysis produced criteria |
| AnalysisWorkflow.ValidateOutcome | sdlc_agents/agents/analysis_workflow.py:128-180 | the criteria are saved exactly when they pass, and what is saved is the non-empty validated text. A pass completes the run; a failure leaves it open at "retry" or "human_intervention"; validation details are always recorded |
| AnalysisWorkflow.ValidateBranches | sdlc_agents/agents/analysis_workflow.py:146-178 | each verdict branch: a pass stores the details and ends; a human hand-off moves to step "human_intervention", unvalidated, keeping criteria and count, with the "maximum retries" message; a retry clears the criteria and takes the validator's count; an exception counts one more retry and stores an error record |
| AnalysisWorkflow.ValidationEndsRun | sdlc_agents/agents/analysis_workflow.py:164-166 | a verdict carrying a non-empty reason always leads the retry router to end the run |
| AnalysisWorkflow.RetryRouteDecision | sdlc_agents/agents/analysis_workflow.py:235-251 | human intervention exactly when open, error-free, not validated and at 3 or more retries; retry exactly when the same with fewer than 3, which resets the step to "analyze"; the record is completed exactly when it was or is validated without error |
| AnalysisWorkflow.EndRouteDecision | sdlc_agents/agents/analysis_workflow.py:253-264 | retry exactly when open, error-free and not validated; the record is completed exactly when it was or is validated without error |
| AnalysisWorkflow.ReviewCompletes | sdlc_agents/agents/analysis_workflow.py:182-221 | the human node always completes the run and the end router then ends it. A review is accepted exactly when the agent answers with success and an "acceptance_criteria" entry; that entry becomes the criteria, which are validated, error-free, saved and marked "human_reviewed". Any other outcome keeps the criteria and the count and records a "Human intervention failed: " error |
| AnalysisWorkflow.AnalysisState.constructor | sdlc_agents/agents/analysis_workflow.py:15-24 | a fresh record holds the requirements and the defaults, with step "analyze" and nothing saved |
| AnalysisWorkflow.AnalysisState.FailAnalysis | sdlc_agents/agents/analysis_workflow.py:113-124 | the record becomes the analysis failure record |
| AnalysisWorkflow.AnalysisState.AnalyzeRequirements | sdlc_agents/agents/analysis_workflow.py:92-126 | the record becomes `Analyzed` of the old record, and what the generator wrote to the criteria file joins the saved texts |
| AnalysisWorkflow.AnalysisState.FailValidation | sdlc_agents/agents/analysis_workflow.py:170-178 | the record becomes the validation error record |
| AnalysisWorkflow.AnalysisState.ValidateCriteria | sdlc_agents/agents/analysis_workflow.py:128-180 | the record becomes `Validated` of the old record, and the criteria it passes are appended to what was saved |
| AnalysisWorkflow.AnalysisState.RecordVerdict | sdlc_agents/agents/analysis_workflow.py:146-178 | the record becomes `Verdict` of the old record and the reply, with the passed criteria saved |
| AnalysisWorkflow.AnalysisState.RecordRejection | sdlc_agents/agents/analysis_workflow.py:158-168 | a failed verdict's branches, after the status and details are stored |
| AnalysisWorkflow.AnalysisState.FailHumanIntervention | sdlc_agents/agents/analysis_workflow.py:208-219 | the record becomes the human intervention failure record |
| AnalysisWorkflow.AnalysisState.HandleHumanIntervention | sdlc_agents/agents/analysis_workflow.py:182-221 | the record becomes `Reviewed` of the old record, with the reviewed criteria saved |
| AnalysisWorkflow.AnalysisState.ShouldRetry | sdlc_agents/agents/analysis_workflow.py:235-251 | returns the retry router's decision and leaves the record it writes |
| AnalysisWorkflow.AnalysisState.ShouldEnd | sdlc_agents/agents/analysis_workflow.py:253-264 | returns the end router's decision and leaves the record it writes |
| AnalysisGraph.Shape | sdlc_agents/agents/analysis_workflow.py:283-296 | success means an empty error message. A failed record holding validation details reports their "reason" entry, or its own message without one; details that are not a dictionary make `run` return "Workflow failed" |
| AnalysisGraph.Advance | sdlc_agents/agents/analysis_workflow.py:36-78 | one node and its outgoing edge, as the graph's step function |
| AnalysisGraph.Run | sdlc_agents/agents/analysis_workflow.py:266-296 | the driver loop returns the result of the specification run, and the texts written to the criteria file are the trace's |
| AnalysisGraph.GeneratorIgnoresCounter | sdlc_agents/agents/analysis_agent.py:60-61 | the analysis agent's failure counter does not change what the workflow reads or what the agent writes |
| AnalysisGraph.ValidatorIgnoresCounter | sdlc_agents/agents/output_validation_agent.py:75-76 | the validation agent's failure counter does not change the validation node's outcome |
| AnalysisGraph.ReviewerIgnoresCounter | sdlc_agents/agents/human_intervention_agent.py:93-94 | the human agent's failure counter does not change what the workflow reads |
| AnalysisGraph.RunStopsAfterAnalysis | sdlc_agents/agents/analysis_workflow.py:42-54 | with the as-written routing a run executes the analysis node alone, whatever the agents, and only the analysis agent writes the criteria file |
| AnalysisGraph.PlaceholderGenerator | sdlc_agents/agents/analysis_agent.py:25-61 | the workflow reads "No requirements provided" for empty requirements, with nothing written. Otherwise it reads the template with its metadata, and the agent has written the template to the criteria file |
| AnalysisGraph.PlaceholderValidator | sdlc_agents/agents/output_validation_agent.py:36-76 | for a first attempt the workflow reads the section check's verdict, its details and reason, no hand-off, and a count of 1 on failure |
| AnalysisGraph.PlaceholderReviewer | sdlc_agents/agents/human_intervention_agent.py:42-48 | a request without a stage is refused with "Missing required intervention inputs" |
| AnalysisGraph.GeneratedRun | sdlc_agents/agents/analysis_workflow.py:266-290 | with the as-written routing: an empty input fails with the analysis message and nothing written. Otherwise the run succeeds unvalidated with the generated criteria and no validation details, and the criteria file holds only what the generator wrote |
| AnalysisGraph.PlaceholderRun | sdlc_agents/agents/analysis_workflow.py:266-290 | the same for this repository's agents: the run succeeds on any non-empty requirements with the unvalidated template. The criteria file is written once, with exactly the result's criteria, as tests/test_analysis_workflow.py:112-115 expects |
| AnalysisGraph.ReasonNonEmpty | sdlc_agents/agents/output_validation_agent.py:245-251 | the section check always gives a reason |
| AnalysisGraph.ValidatedRun | sdlc_agents/agents/analysis_workflow.py:36-78 | with the corrected routing: after the generator's own write, a passing first validation ends the run validated and the workflow saves the criteria once more; a failing one ends it with the validator's reason and nothing more saved |
| AnalysisGraph.IntendedPlaceholderRun | sdlc_agents/agents/analysis_workflow.py:36-78 | the same for this repository's agents, with the section check's verdict on the template. The analysis agent writes the template, and a pass writes it a second time |
| AnalysisGraph.IntendedRunFails | sdlc_agents/agents/analysis_workflow.py:266-290 | with the corrected routing and requirements without `#` lines, the run fails and reports the validator's reason |
| AnalysisGraph.ReviewerRejects | sdlc_agents/agents/analysis_workflow.py:208-213 | a reviewer refusal completes the run with "Human intervention failed: " and the refusal text |
| AnalysisGraph.PlaceholderReviewFails | sdlc_agents/agents/analysis_workflow.py:189-213 | the human node with this repository's agent always fails with the missing-inputs message |

## Findings

| source | as written | input that shows it | evidently intended | confidence | as-written member | corrected member |
|---|---|---|---|---|---|---|
| sdlc_agents/agents/analysis_workflow.py:223-233 | `_should_validate` routes to validation only when the step is "analyze". A successful analysis sets the step to "validate" (line 112), and a failed one sets an error. So the validation node is never reached, and `run` reports success for unvalidated criteria with no "validation_details". The test at tests/test_analysis_workflow.py:50 expects those details on success. | `run("Build a login page")`, or any non-empty requirements | route to validation when the step is "validate", the step the analysis node sets | not executed | AnalysisWorkflow.AnalyzeNeverValidates, AnalysisGraph.PlaceholderRun | AnalysisWorkflow.IntendedValidateRoute, AnalysisWorkflow.AnalyzedThenValidates, AnalysisGraph.IntendedPlaceholderRun |

The graph takes the router as a parameter (`AnalysisGraph.Routing`), so both routers are
modelled side by side. The whole-run lemmas are stated for each.

## Left out

- Files: `save_artifact` is not modelled as a write. The analysis and human agents return
  the file they would write as an `Artifact`. The texts written to the criteria file are the
  ghost `saved` list of `AnalysisState` and the `saved` part of a trace. They hold the
  workflow's own writes and the analysis agent's (the `written` part of its reply).
- The human agent's own write is not part of the reply the workflow reads. The workflow's
  request always fails that agent's input check (`AnalysisGraph.PlaceholderReviewer`), so
  with this repository's agents it never writes.
- Criteria generation: the LLM is not part of this model. The analysis agent is the
  placeholder template of the source.
- Human interaction: the human is not part of this model. The human agent uses the
  simulated feedback of the source.
- The graph engine (LangGraph) is not part of this model. `AnalysisGraph.Drive` stands for its
  loop. The engine's step limit is a `fuel` bound; when it runs out, the run returns
  "Workflow failed" with a stand-in message instead of the engine's own wording and
  step counting.
- Router writes: the routers' writes to the record (`is_complete`, `current_step`) are kept
  in the record. Whether the engine would keep such a write is outside the model.
- Dictionary round trips: the conversion between the record and its dictionary
  (`_ensure_state`, `_ensure_dict`, pydantic) is the identity here.
- The "validation_details" entry of `run`'s result is read from the record's metadata. The
  field type checks pydantic would apply are not modelled.
- Concurrency: `async` and `await` carry no concurrency and are dropped.
- Text: strip and lower case are ASCII only, with no Unicode whitespace or case mapping. The
  header patterns are modelled exactly for their shape (hashes, optional spaces, a title
  prefix), not as general regular expressions.
- Configuration: only the output paths are modelled, as fixed text relative to the output
  directory. Settings loading, the API key and the remaining settings are not modelled.
- `AnalysisWorkflow.create_workflow` is modelled as the functions `Successor` and `Step`, not as a graph object.
- The Streamlit UI, the prompt executor, the LLM utilities and the base workflow are not part of this model.
- Agent failure counters: the agents consulted by the workflow run with counter 0. The
  `*IgnoresCounter` lemmas show the counter never changes what the workflow reads.
- Only string dictionary values reach the human agent. The error context is shown as text.
- Section content is stored as a list of lines. The emptiness test on the joined string is
  related to it by `OutputValidation.StoredContentEmpty`.
- tests/test_analysis_workflow.py:82 expects `_should_retry` to raise the retry count. The
  code does not, and the model follows the code.
