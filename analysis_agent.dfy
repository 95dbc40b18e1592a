/**
 * The placeholder analysis agent: it wraps the requirements in a fixed acceptance-criteria
 * template, saves it, and offers a substring check for the five headings it writes.
 */
module AnalysisAgent {
  import opened Wrappers
  import opened PyText
  import opened Values
  import opened BaseAgent
  import Config

  /** The template lines above the requirements. */
  const PrefixLines: seq<string> := ["# Acceptance Criteria", "", "## Requirements Overview"]

  /** The template lines below the requirements; the final empty line is the closing newline. */
  const SuffixLines: seq<string> := [
    "",
    "## Functional Criteria",
    "1. System must...",
    "2. Users should be able to...",
    "3. The interface must provide...",
    "",
    "## Non-Functional Criteria",
    "1. Performance requirements...",
    "2. Security requirements...",
    "3. Reliability requirements...",
    "",
    "## Validation Methods",
    "1. Test cases for...",
    "2. Integration tests for...",
    "3. Performance benchmarks for...",
    ""]

  /** The headings `_validate_criteria_structure` looks for. */
  const RequiredHeadings: seq<string> := [
    "# Acceptance Criteria",
    "## Requirements Overview",
    "## Functional Criteria",
    "## Non-Functional Criteria",
    "## Validation Methods"]

  /** `_generate_acceptance_criteria`: the template's lines around the requirements, one per line. */
  function Template(requirements: string): string {
    Join("\n", PrefixLines + [requirements] + SuffixLines)
  }

  /** Proof helper: the lines of the functional block hold no newline. */
  lemma FunctionalBlockFlat()
    ensures Flat("## Functional Criteria") && Flat("1. System must...")
    ensures Flat("2. Users should be able to...") && Flat("3. The interface must provide...")
  {
  }

  /** Proof helper: the lines of the non-functional block hold no newline. */
  lemma NonFunctionalBlockFlat()
    ensures Flat("## Non-Functional Criteria") && Flat("1. Performance requirements...")
    ensures Flat("2. Security requirements...") && Flat("3. Reliability requirements...")
  {
  }

  /** Proof helper: the lines of the validation block hold no newline. */
  lemma ValidationBlockFlat()
    ensures Flat("## Validation Methods") && Flat("1. Test cases for...")
    ensures Flat("2. Integration tests for...") && Flat("3. Performance benchmarks for...")
  {
  }

  /** Proof helper: no template line holds a newline. */
  lemma TemplateLinesFlat()
    ensures forall k | 0 <= k < |PrefixLines| :: Flat(PrefixLines[k])
    ensures forall k | 0 <= k < |SuffixLines| :: Flat(SuffixLines[k])
  {
    FunctionalBlockFlat();
    NonFunctionalBlockFlat();
    ValidationBlockFlat();
    forall k | 0 <= k < |SuffixLines| ensures Flat(SuffixLines[k]) {
      if k < 5 {
        assert SuffixLines[..5] == ["", "## Functional Criteria", "1. System must...",
                                    "2. Users should be able to...", "3. The interface must provide..."];
        assert SuffixLines[k] == SuffixLines[..5][k];
      } else if k < 10 {
        assert SuffixLines[5..10] == ["", "## Non-Functional Criteria", "1. Performance requirements...",
                                      "2. Security requirements...", "3. Reliability requirements..."];
        assert SuffixLines[k] == SuffixLines[5..10][k - 5];
      } else {
        assert SuffixLines[10..] == ["", "## Validation Methods", "1. Test cases for...",
                                     "2. Integration tests for...", "3. Performance benchmarks for...", ""];
        assert SuffixLines[k] == SuffixLines[10..][k - 10];
      }
    }
  }

  /**
   * Split into lines, the template is its own lines around the lines of the requirements:
   * the heading comes first, and the requirements start right below the overview heading.
   */
  lemma TemplateLines(requirements: string)
    ensures Split(Template(requirements)) == PrefixLines + Split(requirements) + SuffixLines
  {
    var rest := [requirements] + SuffixLines;
    assert PrefixLines + [requirements] + SuffixLines == PrefixLines + rest;
    JoinAppend("\n", PrefixLines, rest);
    JoinAppend("\n", [requirements], SuffixLines);
    TemplateLinesFlat();
    SplitJoin(PrefixLines);
    SplitJoin(SuffixLines);
    var tail := Join("\n", SuffixLines);
    SplitConcat(requirements, tail);
    SplitConcat(Join("\n", PrefixLines), requirements + "\n" + tail);
    assert Join("\n", PrefixLines) + "\n" + (requirements + "\n" + tail) == Template(requirements);
  }

  /** `_validate_criteria_structure`: every required heading occurs somewhere in the text. */
  predicate HasStructure(criteria: string) {
    forall k | 0 <= k < |RequiredHeadings| :: Contains(criteria, RequiredHeadings[k])
  }

  /** The generated template always passes its own structure check. */
  lemma TemplateHasStructure(requirements: string)
    ensures HasStructure(Template(requirements))
  {
    var parts := PrefixLines + [requirements] + SuffixLines;
    forall k | 0 <= k < |RequiredHeadings| ensures Contains(Template(requirements), RequiredHeadings[k]) {
      var at := if k == 0 then 0 else if k == 1 then 2 else if k == 2 then 5 else if k == 3 then 10 else 15;
      assert parts[at] == RequiredHeadings[k];
      JoinContains("\n", parts, at);
    }
  }

  /** What `process` returns. */
  datatype AnalysisResult =
    | Generated(acceptanceCriteria: string, sourceRequirements: string, criteriaLength: int)
    | AnalysisFailed(failure: FailureRecord)

  /**
   * `process` for an agent whose failure counter stands at `counter`; `requirements` is
   * the input's "requirements" entry, the empty string when absent. The second component
   * is the file written on success.
   */
  function Process(requirements: string, counter: int): (r: (AnalysisResult, Option<Artifact>))
    ensures r.0.AnalysisFailed? <==> requirements == ""
    ensures r.0.AnalysisFailed? ==> r.0.failure == FailureRecord("No requirements provided", counter + 1) && r.1.None?
    ensures r.0.Generated? ==>
      && r.0.acceptanceCriteria == Template(requirements)
      && r.0.sourceRequirements == requirements
      && r.0.criteriaLength == |r.0.acceptanceCriteria|
      && r.1 == Some(Artifact(Config.AcceptanceCriteriaPath, r.0.acceptanceCriteria))
  {
    if requirements == "" then (AnalysisFailed(FailureFor("No requirements provided", counter)), None)
    else
      var criteria := Template(requirements);
      (Generated(criteria, requirements, |criteria|), Some(Artifact(Config.AcceptanceCriteriaPath, criteria)))
  }

  /**
   * `validate` on a result whose "acceptance_criteria" entry is `criteria` (the empty
   * string when absent): a missing or empty text fails, anything else is structure-checked.
   */
  function Validate(criteria: string): (ok: bool)
    ensures ok ==> criteria != "" && HasStructure(criteria)
    ensures criteria != "" && HasStructure(criteria) ==> ok
  {
    criteria != "" && HasStructure(criteria)
  }

  /** Whatever `process` generates passes `validate`. */
  lemma GeneratedValidates(requirements: string, counter: int)
    requires requirements != ""
    ensures Process(requirements, counter).0.Generated?
    ensures Validate(Process(requirements, counter).0.acceptanceCriteria)
  {
    TemplateHasStructure(requirements);
  }
}
