/**
 * How the analysis agent's placeholder template fares under the structural validator of
 * acceptance criteria. The template's sub-headings are "## Functional Criteria" and
 * "## Non-Functional Criteria", shorter than the "functional acceptance criteria" titles
 * the validator looks for, and it has no user story or open questions section: unless
 * the requirements themselves contribute headings, the generated criteria fail
 * validation with those four sections missing.
 */
module TemplateValidation {
  import opened Wrappers
  import opened PyText
  import AnalysisAgent
  import opened OutputValidation

  /** A title that differs from `w` in its first character, or is longer, is not a prefix of `w`. */
  lemma NotTitled(w: string, s: Section)
    requires |w| > 0
    requires w[0] != Title(s)[0] || |w| < |Title(s)|
    ensures !StartsWith(w, Title(s))
  {
    StartsWithSlice(w, Title(s));
  }

  /** After "## " and a word, only the two-hash sections can match, by their title. */
  lemma SubheadingMarks(rest: string, s: Section)
    requires |rest| > 0 && !IsSpace(rest[0]) && rest[0] != '#'
    ensures Marks("## " + rest, s) <==> s != AcceptanceCriteriaHeading && StartsWith(rest, Title(s))
  {
    var low := "## " + rest;
    assert low[2..] == " " + rest;
    assert (" " + rest)[1..] == rest;
    assert DropSpaces(low[2..]) == rest;
    assert low[1..] == "# " + rest;
    assert DropSpaces(low[1..]) == "# " + rest;
    StartsWithSlice(low, "##");
    assert low[..2] == "##";
  }

  /** After "# " and a word, only the heading section can match. */
  lemma HeadingMarks(rest: string, s: Section)
    requires |rest| > 0 && !IsSpace(rest[0]) && rest[0] != '#'
    ensures Marks("# " + rest, s) <==> s == AcceptanceCriteriaHeading && StartsWith(rest, Title(s))
  {
    var low := "# " + rest;
    assert low[1..] == " " + rest;
    assert (" " + rest)[1..] == rest;
    assert DropSpaces(low[1..]) == rest;
    StartsWithSlice(low, "##");
    assert low[1] == ' ';
  }

  /** A line that begins with neither whitespace nor '#' opens no section. */
  lemma PlainLineOpensNothing(line: string)
    requires line == "" || (!IsSpace(line[0]) && line[0] != '#')
    ensures Classify(line) == None
  {
    if line != "" {
      StripFirst(line);
    }
    UnhashedLineOpensNothing(line);
  }

  /** A line "## " + `word` is its own stripped form and lower-cases word by word. */
  lemma SubheadingLower(raw: string, word: string)
    requires raw == "## " + word
    requires |word| > 0 && 'A' <= word[0] <= 'Z' && !IsSpace(word[|word| - 1])
    ensures Strip(raw) != "" && Lower(Strip(raw)) == "## " + Lower(word)
    ensures |Lower(word)| > 0 && !IsSpace(Lower(word)[0]) && Lower(word)[0] != '#'
  {
    StripTrimmed(raw);
    LowerConcat("## ", word);
    LowerNoUpper("## ");
    LowerAt(word, 0);
  }

  /** "## " + `word` opens no section when no two-hash title starts its lower-cased form. */
  lemma SubheadingOpensNothing(raw: string, word: string)
    requires raw == "## " + word
    requires |word| > 0 && 'A' <= word[0] <= 'Z' && !IsSpace(word[|word| - 1])
    requires forall s | s != AcceptanceCriteriaHeading :: !StartsWith(Lower(word), Title(s))
    ensures Classify(raw) == None
  {
    SubheadingLower(raw, word);
    var lw := Lower(word);
    forall s ensures !Marks("## " + lw, s) {
      SubheadingMarks(lw, s);
    }
    ClassifyNone(raw);
  }

  /** A line opens a section only when its lower-cased stripped form carries that section's marker. */
  lemma OpensOnlyMarked(raw: string, s: Section)
    requires Classify(raw) == Some(s)
    ensures Strip(raw) != "" && Marks(Lower(Strip(raw)), s)
  {
  }

  /** Lower-casing `word` character by character gives `low`. */
  lemma LowerIs(word: string, low: string)
    requires |word| == |low|
    requires forall i | 0 <= i < |word| :: LowerChar(word[i]) == low[i]
    ensures Lower(word) == low
  {
    forall i | 0 <= i < |word| ensures Lower(word)[i] == low[i] {
      LowerAt(word, i);
    }
  }

  /** A line "# " + `word` is its own stripped form and lower-cases word by word. */
  lemma HeadingLower(raw: string, word: string)
    requires raw == "# " + word
    requires |word| > 0 && !IsSpace(word[|word| - 1])
    ensures Strip(raw) != "" && Lower(Strip(raw)) == "# " + Lower(word)
  {
    StripTrimmed(raw);
    LowerConcat("# ", word);
    LowerNoUpper("# ");
  }

  /** A non-blank line whose lowered form carries `s`'s marker, and no earlier one, opens `s`. */
  lemma MarkedFirstOpens(raw: string, low: string, s: Section)
    requires Strip(raw) != "" && Lower(Strip(raw)) == low
    requires Marks(low, s)
    requires forall k | 0 <= k < Rank(s) :: !Marks(low, SectionOrder[k])
    ensures Classify(raw) == Some(s)
  {
    ClassifyFirstMatch(raw, s);
  }

  /** "# " followed by the heading's title carries the heading's marker. */
  lemma HeadingTitleMarks(title: string)
    requires title == Title(AcceptanceCriteriaHeading)
    ensures Marks("# " + title, AcceptanceCriteriaHeading)
  {
    StartsWithSlice(title, title);
    HeadingMarks(title, AcceptanceCriteriaHeading);
  }

  /** A line "# " + `word`, where `word` lower-cases to the heading's title, opens the heading. */
  lemma HeadingLineOpens(raw: string, word: string)
    requires raw == "# " + word
    requires |word| > 0 && !IsSpace(word[|word| - 1])
    requires Lower(word) == Title(AcceptanceCriteriaHeading)
    ensures Classify(raw) == Some(AcceptanceCriteriaHeading)
  {
    HeadingLower(raw, word);
    HeadingTitleMarks(Title(AcceptanceCriteriaHeading));
    MarkedFirstOpens(raw, "# " + Title(AcceptanceCriteriaHeading), AcceptanceCriteriaHeading);
  }

  /** The template's first line, "# Acceptance Criteria", opens the heading section. */
  lemma TitleLineOpensHeading(raw: string, word: string)
    requires word == "Acceptance Criteria" && raw == "# " + word
    ensures Classify(raw) == Some(AcceptanceCriteriaHeading)
  {
    LowerIs(word, Title(AcceptanceCriteriaHeading));
    HeadingLineOpens(raw, word);
  }

  /** "## Requirements Overview" opens no section: no title starts with 'r'. */
  lemma OverviewLineOpensNothing(raw: string, word: string)
    requires word == "Requirements Overview" && raw == "## " + word
    ensures Classify(raw) == None
  {
    LowerAt(word, 0);
    var lw := Lower(word);
    forall s | s != AcceptanceCriteriaHeading ensures !StartsWith(lw, Title(s)) {
      NotTitled(lw, s);
    }
    SubheadingOpensNothing(raw, word);
  }

  /** "## Functional Criteria" opens no section: it is shorter than "functional acceptance criteria". */
  lemma FunctionalLineOpensNothing(raw: string, word: string)
    requires word == "Functional Criteria" && raw == "## " + word
    ensures Classify(raw) == None
  {
    LowerAt(word, 0);
    var lw := Lower(word);
    forall s | s != AcceptanceCriteriaHeading ensures !StartsWith(lw, Title(s)) {
      NotTitled(lw, s);
    }
    SubheadingOpensNothing(raw, word);
  }

  /** "## Non-Functional Criteria" opens no section: it is shorter than its title too. */
  lemma NonFunctionalLineOpensNothing(raw: string, word: string)
    requires word == "Non-Functional Criteria" && raw == "## " + word
    ensures Classify(raw) == None
  {
    LowerAt(word, 0);
    var lw := Lower(word);
    forall s | s != AcceptanceCriteriaHeading ensures !StartsWith(lw, Title(s)) {
      NotTitled(lw, s);
    }
    SubheadingOpensNothing(raw, word);
  }

  /**
   * A line "## " + `word`, where `word` lower-cases to the title of two-hash section `s`
   * and no earlier two-hash title starts that title, opens `s`.
   */
  lemma SubheadingLineOpens(raw: string, word: string, s: Section)
    requires raw == "## " + word
    requires |word| > 0 && 'A' <= word[0] <= 'Z' && !IsSpace(word[|word| - 1])
    requires s != AcceptanceCriteriaHeading && Lower(word) == Title(s)
    requires forall k | 0 < k < Rank(s) :: !StartsWith(Title(s), Title(SectionOrder[k]))
    ensures Classify(raw) == Some(s)
  {
    SubheadingLower(raw, word);
    SubheadingTitleMarks(Title(s), s);
    MarkedFirstOpens(raw, "## " + Title(s), s);
  }

  /**
   * "## " followed by the title of two-hash section `s` carries `s`'s marker and, when no
   * earlier two-hash title starts it, no earlier section's.
   */
  lemma SubheadingTitleMarks(title: string, s: Section)
    requires title == Title(s) && |title| > 0 && !IsSpace(title[0]) && title[0] != '#'
    requires s != AcceptanceCriteriaHeading
    requires forall k | 0 < k < Rank(s) :: !StartsWith(title, Title(SectionOrder[k]))
    ensures Marks("## " + title, s)
    ensures forall k | 0 <= k < Rank(s) :: !Marks("## " + title, SectionOrder[k])
  {
    StartsWithSlice(title, title);
    SubheadingMarks(title, s);
    EarlierTitlesUnmarked(title, s);
  }

  /** Proof helper: "## " + `title` carries no earlier section's marker when no earlier two-hash title starts `title`. */
  lemma EarlierTitlesUnmarked(title: string, s: Section)
    requires |title| > 0 && !IsSpace(title[0]) && title[0] != '#'
    requires forall k | 0 < k < Rank(s) :: !StartsWith(title, Title(SectionOrder[k]))
    ensures forall k | 0 <= k < Rank(s) :: !Marks("## " + title, SectionOrder[k])
  {
    forall k | 0 <= k < Rank(s) ensures !Marks("## " + title, SectionOrder[k]) {
      SubheadingMarks(title, SectionOrder[k]);
    }
  }

  /** "## Validation Methods" opens the validation-methods section. */
  lemma ValidationLineOpensValidation(raw: string, word: string)
    requires word == "Validation Methods" && raw == "## " + word
    ensures Classify(raw) == Some(ValidationMethods)
  {
    var title := Title(ValidationMethods);
    LowerIs(word, title);
    forall k | 0 < k < Rank(ValidationMethods) ensures !StartsWith(title, Title(SectionOrder[k])) {
      NotTitled(title, SectionOrder[k]);
    }
    SubheadingLineOpens(raw, word, ValidationMethods);
  }

  /** What a template line may open: nothing, the heading, or the validation-methods section. */
  predicate TemplateKind(k: Option<Section>) {
    k == None || k == Some(AcceptanceCriteriaHeading) || k == Some(ValidationMethods)
  }

  /** The blank lines of the template below the requirements. */
  lemma BlankSuffixLines(k: nat)
    requires k == 0 || k == 5 || k == 10 || k == 15
    ensures k < |AnalysisAgent.SuffixLines| && Classify(AnalysisAgent.SuffixLines[k]) == None
  {
    PlainLineOpensNothing(AnalysisAgent.SuffixLines[k]);
  }

  /** The numbered placeholder lines of the functional block. */
  lemma FunctionalItems(k: nat)
    requires 2 <= k <= 4
    ensures k < |AnalysisAgent.SuffixLines| && Classify(AnalysisAgent.SuffixLines[k]) == None
  {
    PlainLineOpensNothing(AnalysisAgent.SuffixLines[k]);
  }

  /** The numbered placeholder lines of the non-functional block. */
  lemma NonFunctionalItems(k: nat)
    requires 7 <= k <= 9
    ensures k < |AnalysisAgent.SuffixLines| && Classify(AnalysisAgent.SuffixLines[k]) == None
  {
    PlainLineOpensNothing(AnalysisAgent.SuffixLines[k]);
  }

  /** The numbered placeholder lines of the validation block. */
  lemma ValidationItems(k: nat)
    requires 12 <= k <= 14
    ensures k < |AnalysisAgent.SuffixLines| && Classify(AnalysisAgent.SuffixLines[k]) == None
  {
    PlainLineOpensNothing(AnalysisAgent.SuffixLines[k]);
  }

  /** The functional sub-heading below the requirements. */
  lemma FunctionalHeading(k: nat)
    requires k == 1
    ensures k < |AnalysisAgent.SuffixLines| && Classify(AnalysisAgent.SuffixLines[k]) == None
  {
    FunctionalLineOpensNothing(AnalysisAgent.SuffixLines[k], "Functional Criteria");
  }

  /** The non-functional sub-heading. */
  lemma NonFunctionalHeading(k: nat)
    requires k == 6
    ensures k < |AnalysisAgent.SuffixLines| && Classify(AnalysisAgent.SuffixLines[k]) == None
  {
    NonFunctionalLineOpensNothing(AnalysisAgent.SuffixLines[k], "Non-Functional Criteria");
  }

  /** The validation-methods sub-heading. */
  lemma ValidationHeading(k: nat)
    requires k == 11
    ensures k < |AnalysisAgent.SuffixLines| && TemplateKind(Classify(AnalysisAgent.SuffixLines[k]))
  {
    ValidationLineOpensValidation(AnalysisAgent.SuffixLines[k], "Validation Methods");
  }

  /** Every template line below the requirements opens nothing, the heading, or validation methods. */
  lemma SuffixLineOpens(k: nat)
    requires k < |AnalysisAgent.SuffixLines|
    ensures TemplateKind(Classify(AnalysisAgent.SuffixLines[k]))
  {
    if k == 0 || k == 5 || k == 10 || k == 15 {
      BlankSuffixLines(k);
    } else if k == 1 {
      FunctionalHeading(k);
    } else if k == 6 {
      NonFunctionalHeading(k);
    } else if k == 11 {
      ValidationHeading(k);
    } else if k < 5 {
      FunctionalItems(k);
    } else if k < 10 {
      NonFunctionalItems(k);
    } else {
      ValidationItems(k);
    }
  }

  /** Every template line above the requirements opens nothing or the heading. */
  lemma PrefixLineOpens(k: nat)
    requires k < |AnalysisAgent.PrefixLines|
    ensures TemplateKind(Classify(AnalysisAgent.PrefixLines[k]))
  {
    var line := AnalysisAgent.PrefixLines[k];
    if k == 0 {
      TitleLineOpensHeading(line, "Acceptance Criteria");
    } else if k == 1 {
      PlainLineOpensNothing(line);
    } else {
      OverviewLineOpensNothing(line, "Requirements Overview");
    }
  }

  /** No requirement line, once stripped, starts with '#'. */
  predicate NoHashedLine(requirements: string) {
    forall k | 0 <= k < |Split(requirements)| ::
      Strip(Split(requirements)[k]) == "" || Strip(Split(requirements)[k])[0] != '#'
  }

  /** Every line of generated criteria opens nothing, the heading, or validation methods. */
  lemma TemplateKinds(requirements: string)
    requires NoHashedLine(requirements)
    ensures var lines := Split(AnalysisAgent.Template(requirements));
      forall i | 0 <= i < |lines| :: TemplateKind(Kinds(lines)[i])
  {
    var lines := Split(AnalysisAgent.Template(requirements));
    var p := AnalysisAgent.PrefixLines;
    var r := Split(requirements);
    var q := AnalysisAgent.SuffixLines;
    AnalysisAgent.TemplateLines(requirements);
    forall i | 0 <= i < |lines| ensures TemplateKind(Kinds(lines)[i]) {
      KindsAt(lines, i);
      if i < |p| {
        assert lines[i] == p[i];
        PrefixLineOpens(i);
      } else if i < |p| + |r| {
        assert lines[i] == r[i - |p|];
        UnhashedLineOpensNothing(lines[i]);
      } else {
        assert lines[i] == q[i - |p| - |r|];
        SuffixLineOpens(i - |p| - |r|);
      }
    }
  }

  /** A section no line opens is reported missing, so the criteria fail. */
  lemma NeverOpenedIsMissing(criteria: string, s: Section)
    requires forall i | 0 <= i < |Split(criteria)| :: Kinds(Split(criteria))[i] != Some(s)
    ensures !Assess(criteria).0
    ensures Failure(s, Missing) in Assess(criteria).1.failures
  {
    var lines := Split(criteria);
    var sections := SectionsOf(lines);
    InfoAtMeaning(lines, |lines|, s);
    assert SectionFailure(sections[s], s) == Some(Failure(s, Missing));
    AssessFailures(criteria);
  }

  /** Proof helper: the first line of generated criteria opens the heading. */
  lemma FirstLineOpensHeading(requirements: string)
    ensures var lines := Split(AnalysisAgent.Template(requirements));
      0 < |lines| && Kinds(lines)[0] == Some(AcceptanceCriteriaHeading)
  {
    var lines := Split(AnalysisAgent.Template(requirements));
    AnalysisAgent.TemplateLines(requirements);
    assert lines[0] == AnalysisAgent.PrefixLines[0];
    TitleLineClassified();
    KindsAt(lines, 0);
  }

  /** Proof helper: the template's title line opens the heading. */
  lemma TitleLineClassified()
    ensures Classify(AnalysisAgent.PrefixLines[0]) == Some(AcceptanceCriteriaHeading)
  {
    TitleLineOpensHeading(AnalysisAgent.PrefixLines[0], "Acceptance Criteria");
  }

  /** Proof helper: the template's "## Validation Methods" line opens that section. */
  lemma ValidationLineClassified()
    ensures Classify(AnalysisAgent.SuffixLines[11]) == Some(ValidationMethods)
  {
    ValidationLineOpensValidation(AnalysisAgent.SuffixLines[11], "Validation Methods");
  }

  /** A heading some line opens passes: its record holds that line. */
  lemma OpenedHeadingPasses(lines: seq<string>, i: nat)
    requires i < |lines| && Kinds(lines)[i] == Some(AcceptanceCriteriaHeading)
    ensures SectionFailure(InfoAt(lines, |lines|, AcceptanceCriteriaHeading), AcceptanceCriteriaHeading) == None
  {
    InfoAtMeaning(lines, |lines|, AcceptanceCriteriaHeading);
    HeadingHasContent(lines, |lines|);
  }

  /** The template's first line supplies the heading, whose record holds that line. */
  lemma HeadingSupplied(requirements: string)
    ensures var lines := Split(AnalysisAgent.Template(requirements));
      SectionFailure(InfoAt(lines, |lines|, AcceptanceCriteriaHeading), AcceptanceCriteriaHeading) == None
  {
    FirstLineOpensHeading(requirements);
    OpenedHeadingPasses(Split(AnalysisAgent.Template(requirements)), 0);
  }

  /** Proof helper: `v` is the last of the first `n` entries that opens `s`. */
  lemma LastMatchIs(kinds: seq<Option<Section>>, n: nat, v: nat, s: Section)
    requires v < n <= |kinds|
    requires kinds[v] == Some(s)
    requires forall i | v < i < n :: kinds[i] != Some(s)
    ensures LastMatch(kinds, n, s) == Some(v)
  {
    assert kinds[v] == Some(s);
  }

  /** Proof helper: the last opener of `s` is line `v`, in the 1-based record. */
  lemma LastOpenerRecorded(lines: seq<string>, v: nat, s: Section)
    requires v < |lines|
    requires LastMatch(Kinds(lines), |lines|, s) == Some(v)
    ensures InfoAt(lines, |lines|, s) == SectionInfo(true, ContentAt(lines, v, s), Some(v + 1))
  {
  }

  /** Proof helper: a non-blank line that does not start with "##" belongs to the body it opens. */
  lemma BodyStartsWith(lines: seq<string>, j: nat)
    requires j < |lines|
    requires Strip(lines[j]) != "" && !StartsWith(lines[j], "##")
    ensures Body(lines, j) != []
  {
  }

  /**
   * A section other than the heading whose last opener at line `v` is followed by a
   * non-blank line that does not start with "##" has a non-empty body, so it passes.
   */
  lemma LastOpenerWithBody(lines: seq<string>, v: nat, s: Section)
    requires s != AcceptanceCriteriaHeading && v + 1 < |lines|
    requires LastMatch(Kinds(lines), |lines|, s) == Some(v)
    requires Strip(lines[v + 1]) != "" && !StartsWith(lines[v + 1], "##")
    ensures SectionFailure(InfoAt(lines, |lines|, s), s) == None
  {
    LastOpenerRecorded(lines, v, s);
    BodyStartsWith(lines, v + 1);
  }

  /** Proof helper: in generated criteria, no line after the "## Validation Methods" line opens that section. */
  lemma AfterValidationLine(requirements: string, v: nat)
    requires v == |AnalysisAgent.PrefixLines| + |Split(requirements)| + 11
    ensures var lines := Split(AnalysisAgent.Template(requirements));
      v < |lines| && forall i | v < i < |lines| :: Kinds(lines)[i] != Some(ValidationMethods)
  {
    var lines := Split(AnalysisAgent.Template(requirements));
    var p := AnalysisAgent.PrefixLines;
    var r := Split(requirements);
    var q := AnalysisAgent.SuffixLines;
    AnalysisAgent.TemplateLines(requirements);
    forall i | v < i < |lines| ensures Kinds(lines)[i] != Some(ValidationMethods) {
      KindsAt(lines, i);
      var k := i - |p| - |r|;
      assert lines[i] == q[k];
      if k < 15 {
        ValidationItems(k);
      } else {
        BlankSuffixLines(k);
      }
    }
  }

  /** Proof helper: in generated criteria, the "## Validation Methods" line opens that section. */
  lemma ValidationLineAt(requirements: string, v: nat)
    requires v == |AnalysisAgent.PrefixLines| + |Split(requirements)| + 11
    ensures var lines := Split(AnalysisAgent.Template(requirements));
      && v + 1 < |lines|
      && Kinds(lines)[v] == Some(ValidationMethods)
      && lines[v + 1] == AnalysisAgent.SuffixLines[12]
  {
    var lines := Split(AnalysisAgent.Template(requirements));
    var q := AnalysisAgent.SuffixLines;
    AnalysisAgent.TemplateLines(requirements);
    assert lines[v] == q[11];
    assert lines[v + 1] == q[12];
    ValidationLineClassified();
    KindsAt(lines, v);
  }

  /**
   * In generated criteria, the "## Validation Methods" line is the last to open that
   * section, and the line below it is the numbered "1. Test cases for...".
   */
  lemma ValidationLines(requirements: string, v: nat)
    requires v == |AnalysisAgent.PrefixLines| + |Split(requirements)| + 11
    ensures var lines := Split(AnalysisAgent.Template(requirements));
      && v + 1 < |lines|
      && LastMatch(Kinds(lines), |lines|, ValidationMethods) == Some(v)
      && lines[v + 1] == AnalysisAgent.SuffixLines[12]
  {
    var lines := Split(AnalysisAgent.Template(requirements));
    ValidationLineAt(requirements, v);
    AfterValidationLine(requirements, v);
    LastMatchIs(Kinds(lines), |lines|, v, ValidationMethods);
  }

  /**
   * The template's "## Validation Methods" line is the last to open that section, and the
   * numbered line below it keeps the section's body non-empty.
   */
  lemma ValidationSupplied(requirements: string)
    ensures var lines := Split(AnalysisAgent.Template(requirements));
      SectionFailure(InfoAt(lines, |lines|, ValidationMethods), ValidationMethods) == None
  {
    var lines := Split(AnalysisAgent.Template(requirements));
    var v := |AnalysisAgent.PrefixLines| + |Split(requirements)| + 11;
    ValidationLines(requirements, v);
    var item := AnalysisAgent.SuffixLines[12];
    StripFirst(item);
    assert !StartsWith(item, "##");
    LastOpenerWithBody(lines, v, ValidationMethods);
  }

  /** A section no line opens fails as missing. */
  lemma NeverOpenedFails(lines: seq<string>, s: Section)
    requires forall i | 0 <= i < |lines| :: Kinds(lines)[i] != Some(s)
    ensures SectionFailure(InfoAt(lines, |lines|, s), s) == Some(Failure(s, Missing))
  {
    InfoAtMeaning(lines, |lines|, s);
  }

  /**
   * With the heading and validation methods supplied and the other four sections missing,
   * the failures list those four, in section order.
   */
  lemma ExactFailures(sections: map<Section, SectionInfo>)
    requires forall s :: s in sections
    requires SectionFailure(sections[AcceptanceCriteriaHeading], AcceptanceCriteriaHeading) == None
    requires SectionFailure(sections[ValidationMethods], ValidationMethods) == None
    requires forall s | s in TemplateMissing :: SectionFailure(sections[s], s) == Some(Failure(s, Missing))
    ensures FailuresOf(sections, SectionOrder) == TemplateFailures
  {
    var o := SectionOrder;
    assert o[..6][..5] == o[..5] && o[..5][..4] == o[..4] && o[..4][..3] == o[..3];
    assert o[..3][..2] == o[..2] && o[..2][..1] == o[..1] && o[..1][..0] == [];
    assert o[..6] == o;
    assert FailuresOf(sections, o[..1]) == [];
    assert FailuresOf(sections, o[..2]) == [Failure(UserStory, Missing)];
    assert FailuresOf(sections, o[..3]) == [Failure(UserStory, Missing), Failure(FunctionalCriteria, Missing)];
    assert FailuresOf(sections, o[..4]) == TemplateFailures[..3];
    assert FailuresOf(sections, o[..5]) == TemplateFailures[..3];
  }

  /** The sections the template never supplies. */
  const TemplateMissing: seq<Section> := [UserStory, FunctionalCriteria, NonFunctionalCriteria, OpenQuestions]

  /** Their failures, as the validator lists them. */
  const TemplateFailures: seq<Failure> := [
    Failure(UserStory, Missing), Failure(FunctionalCriteria, Missing),
    Failure(NonFunctionalCriteria, Missing), Failure(OpenQuestions, Missing)]

  /**
   * Unless the requirements contribute headings of their own, the criteria the analysis
   * agent generates fail the structural validation with exactly four failures: the user
   * story, both criteria sections and the open questions are reported missing, in that
   * order, while the heading and the validation methods pass.
   */
  lemma TemplateFailsValidation(requirements: string)
    requires NoHashedLine(requirements)
    ensures !Assess(AnalysisAgent.Template(requirements)).0
    ensures Assess(AnalysisAgent.Template(requirements)).1.failures == TemplateFailures
  {
    var lines := Split(AnalysisAgent.Template(requirements));
    TemplateKinds(requirements);
    HeadingSupplied(requirements);
    ValidationSupplied(requirements);
    forall s | s in TemplateMissing
      ensures SectionFailure(InfoAt(lines, |lines|, s), s) == Some(Failure(s, Missing))
    {
      NeverOpenedFails(lines, s);
    }
    ExactFailures(SectionsOf(lines));
  }
}
