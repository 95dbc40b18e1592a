/**
 * The structural validator (`OutputValidationAgent`): a line scanner that looks for six
 * headed sections of an acceptance-criteria document, collects each section's body,
 * lists the failures in section order and decides between retry and escalation.
 */
module OutputValidation {
  import opened Wrappers
  import opened PyText
  import opened Values
  import opened BaseAgent

  /** Escalation threshold hard-coded in `process`. */
  const RetryThreshold := 3

  datatype Section =
    | AcceptanceCriteriaHeading
    | UserStory
    | FunctionalCriteria
    | NonFunctionalCriteria
    | ValidationMethods
    | OpenQuestions

  /** The order of the `sections` dictionary; the if/elif chain and the failure list follow it. */
  const SectionOrder: seq<Section> :=
    [AcceptanceCriteriaHeading, UserStory, FunctionalCriteria, NonFunctionalCriteria,
     ValidationMethods, OpenQuestions]

  function Rank(s: Section): (k: nat)
    ensures k < |SectionOrder| && SectionOrder[k] == s
  {
    match s
    case AcceptanceCriteriaHeading => 0
    case UserStory => 1
    case FunctionalCriteria => 2
    case NonFunctionalCriteria => 3
    case ValidationMethods => 4
    case OpenQuestions => 5
  }

  /** The section's key in the `sections` dictionary. */
  function Name(s: Section): string {
    match s
    case AcceptanceCriteriaHeading => "acceptance_criteria_heading"
    case UserStory => "user_story"
    case FunctionalCriteria => "functional_criteria"
    case NonFunctionalCriteria => "non_functional_criteria"
    case ValidationMethods => "validation_methods"
    case OpenQuestions => "open_questions"
  }

  /** `"## " + name.replace('_', ' ').title()`, reported with a missing section. */
  function ExpectedFormat(s: Section): string {
    match s
    case AcceptanceCriteriaHeading => "## Acceptance Criteria Heading"
    case UserStory => "## User Story"
    case FunctionalCriteria => "## Functional Criteria"
    case NonFunctionalCriteria => "## Non Functional Criteria"
    case ValidationMethods => "## Validation Methods"
    case OpenQuestions => "## Open Questions"
  }

  /** The run of `#` that opens the section's pattern. */
  function Hashes(s: Section): string {
    if s == AcceptanceCriteriaHeading then "#" else "##"
  }

  /** The lower-case title that follows the hashes and optional whitespace. */
  function Title(s: Section): string {
    match s
    case AcceptanceCriteriaHeading => "acceptance criteria"
    case UserStory => "user story"
    case FunctionalCriteria => "functional acceptance criteria"
    case NonFunctionalCriteria => "non-functional acceptance criteria"
    case ValidationMethods => "validation methods"
    case OpenQuestions => "open questions"
  }

  /**
   * `re.search(r'^<hashes>\s*<title>', low)`. Every title starts with a letter, so the
   * pattern matches exactly when the hashes are followed, after the whole run of
   * whitespace, by the title.
   */
  predicate Marks(low: string, s: Section) {
    |Hashes(s)| <= |low| && StartsWith(low, Hashes(s)) && StartsWith(DropSpaces(low[|Hashes(s)|..]), Title(s))
  }

  /** The first section of `order` whose marker `low` carries. */
  function FirstMarked(low: string, order: seq<Section>): (r: Option<Section>)
    ensures r.Some? ==> r.value in order && Marks(low, r.value)
  {
    if order == [] then None
    else if Marks(low, order[0]) then Some(order[0])
    else FirstMarked(low, order[1..])
  }

  /** In a list without repeats, the entry at `k` is the first match only if it matches and no earlier one does. */
  lemma {:induction false} FirstMarkedAtSound(low: string, order: seq<Section>, k: nat)
    requires k < |order|
    requires forall i, j | 0 <= i < j < |order| :: order[i] != order[j]
    requires FirstMarked(low, order) == Some(order[k])
    ensures Marks(low, order[k])
    ensures forall j | 0 <= j < k :: !Marks(low, order[j])
  {
    if k > 0 {
      if Marks(low, order[0]) {
        assert false;
      }
      var rest := order[1..];
      assert forall i, j | 0 <= i < j < |rest| :: rest[i] != rest[j] by {
        forall i, j | 0 <= i < j < |rest| ensures rest[i] != rest[j] {
          assert rest[i] == order[i + 1] && rest[j] == order[j + 1];
        }
      }
      assert rest[k - 1] == order[k];
      FirstMarkedAtSound(low, rest, k - 1);
      forall j | 0 <= j < k ensures !Marks(low, order[j]) {
        if j > 0 {
          assert order[j] == rest[j - 1];
        }
      }
    }
  }

  /** In a list without repeats, the entry at `k` is the first match if it matches and no earlier one does. */
  lemma FirstMarkedAtComplete(low: string, order: seq<Section>, k: nat)
    requires k < |order|
    requires forall i, j | 0 <= i < j < |order| :: order[i] != order[j]
    requires Marks(low, order[k])
    requires forall j | 0 <= j < k :: !Marks(low, order[j])
    ensures FirstMarked(low, order) == Some(order[k])
  {
    var r := FirstMarked(low, order);
    if r == None {
      FirstMarkedNone(low, order);
      assert false;
    }
    var m :| 0 <= m < |order| && order[m] == r.value;
    FirstMarkedAtSound(low, order, m);
    if m < k {
      assert false;
    } else if m > k {
      assert false;
    }
  }

  /** No section of `order` matches exactly when the search finds none. */
  lemma {:induction false} FirstMarkedNone(low: string, order: seq<Section>)
    ensures FirstMarked(low, order) == None <==> forall j | 0 <= j < |order| :: !Marks(low, order[j])
  {
    if order != [] && !Marks(low, order[0]) {
      FirstMarkedNone(low, order[1..]);
      assert forall j | 1 <= j < |order| :: order[1..][j - 1] == order[j];
    }
  }

  /**
   * The section a raw line opens: its stripped, lower-cased form is matched against the
   * patterns in section order and the first match wins; a blank line opens none.
   */
  function Classify(raw: string): Option<Section> {
    var line := Strip(raw);
    if line == "" then None else FirstMarked(Lower(line), SectionOrder)
  }

  /** The section order lists every section once, each at its rank. */
  lemma SectionOrderRanks()
    ensures forall i | 0 <= i < |SectionOrder| :: Rank(SectionOrder[i]) == i
    ensures forall i, j | 0 <= i < j < |SectionOrder| :: SectionOrder[i] != SectionOrder[j]
  {
    forall i | 0 <= i < |SectionOrder| ensures Rank(SectionOrder[i]) == i {
      if i == 0 {} else if i == 1 {} else if i == 2 {} else if i == 3 {} else if i == 4 {} else {}
    }
  }

  /**
   * A line opens section `s` exactly when it is non-blank, its stripped lower-cased form
   * carries `s`'s marker, and no section earlier in the order matches first.
   */
  lemma ClassifyFirstMatch(raw: string, s: Section)
    ensures Classify(raw) == Some(s) <==>
      && Strip(raw) != ""
      && Marks(Lower(Strip(raw)), s)
      && forall k | 0 <= k < Rank(s) :: !Marks(Lower(Strip(raw)), SectionOrder[k])
  {
    SectionOrderRanks();
    var low := Lower(Strip(raw));
    if Classify(raw) == Some(s) {
      FirstMarkedAtSound(low, SectionOrder, Rank(s));
    }
    if Strip(raw) != "" && Marks(low, s) && forall k | 0 <= k < Rank(s) :: !Marks(low, SectionOrder[k]) {
      FirstMarkedAtComplete(low, SectionOrder, Rank(s));
    }
  }

  /** A line opens no section exactly when it is blank or carries no marker at all. */
  lemma ClassifyNone(raw: string)
    ensures Classify(raw).Some? ==> Strip(raw) != "" && exists s :: Marks(Lower(Strip(raw)), s)
    ensures Classify(raw) == None ==> Strip(raw) == "" || forall s :: !Marks(Lower(Strip(raw)), s)
  {
    var low := Lower(Strip(raw));
    if Classify(raw).Some? {
      var s := Classify(raw).value;
      assert Marks(low, s);
    } else if Strip(raw) != "" {
      FirstMarkedNone(low, SectionOrder);
      forall s ensures !Marks(low, s) {
        assert SectionOrder[Rank(s)] == s;
      }
    }
  }

  /** A line that does not strip to something beginning with '#' opens no section. */
  lemma UnhashedLineOpensNothing(raw: string)
    requires Strip(raw) == "" || Strip(raw)[0] != '#'
    ensures Classify(raw) == None
  {
    var line := Strip(raw);
    if line != "" {
      var low := Lower(line);
      LowerAt(line, 0);
      assert low[0] != '#';
      forall s ensures !Marks(low, s) {
        assert Hashes(s)[0] == '#';
      }
      ClassifyNone(raw);
    }
  }

  /**
   * The body of a section whose header precedes line `j`: the stripped non-blank lines
   * from `j` up to the next raw line that starts with "##".
   */
  function Body(lines: seq<string>, j: nat): (r: seq<string>)
    decreases |lines| - j
  {
    if j >= |lines| || StartsWith(lines[j], "##") then []
    else (if Strip(lines[j]) != "" then [Strip(lines[j])] else []) + Body(lines, j + 1)
  }

  /** What the scan records about one section. */
  datatype SectionInfo = SectionInfo(found: bool, content: seq<string>, lineNumber: Option<nat>)

  const Unseen := SectionInfo(false, [], None)

  /** The section each line opens, line by line. */
  function Kinds(lines: seq<string>): (r: seq<Option<Section>>)
    ensures |r| == |lines|
  {
    if lines == [] then [] else [Classify(lines[0])] + Kinds(lines[1..])
  }

  lemma {:induction false} KindsAt(lines: seq<string>, i: nat)
    requires i < |lines|
    ensures Kinds(lines)[i] == Classify(lines[i])
  {
    if i > 0 {
      KindsAt(lines[1..], i - 1);
    }
  }

  /** The last of the first `n` entries that opens section `s`. */
  function LastMatch(kinds: seq<Option<Section>>, n: nat, s: Section): (r: Option<nat>)
    requires n <= |kinds|
    ensures r.Some? ==> r.value < n && kinds[r.value] == Some(s)
    ensures r.Some? ==> forall i | r.value < i < n :: kinds[i] != Some(s)
    ensures r.None? ==> forall i | 0 <= i < n :: kinds[i] != Some(s)
  {
    if n == 0 then None
    else if kinds[n - 1] == Some(s) then Some(n - 1)
    else LastMatch(kinds, n - 1, s)
  }

  /** The content recorded for section `s` opened at line index `i`. */
  function ContentAt(lines: seq<string>, i: nat, s: Section): seq<string>
    requires i < |lines|
  {
    if s == AcceptanceCriteriaHeading then [Strip(lines[i])] else Body(lines, i + 1)
  }

  /**
   * The record for section `s` once the first `n` lines have been scanned: the last
   * header seen wins, and the line number is 1-based.
   */
  function InfoAt(lines: seq<string>, n: nat, s: Section): SectionInfo
    requires n <= |lines|
  {
    match LastMatch(Kinds(lines), n, s)
    case None => Unseen
    case Some(i) => SectionInfo(true, ContentAt(lines, i, s), Some(i + 1))
  }

  /**
   * A section is found exactly when some scanned line opens it (`Kinds` holds what each
   * line opens, see `KindsAt`); its record then points at the last such line and holds
   * that header's content: a heading's own stripped line, or the body below any other
   * header.
   */
  lemma InfoAtMeaning(lines: seq<string>, n: nat, s: Section)
    requires n <= |lines|
    ensures var r := InfoAt(lines, n, s);
      !r.found ==> r == Unseen && forall i | 0 <= i < n :: Kinds(lines)[i] != Some(s)
    ensures var r := InfoAt(lines, n, s);
      r.found ==>
        && r.lineNumber.Some? && 1 <= r.lineNumber.value <= n
        && Kinds(lines)[r.lineNumber.value - 1] == Some(s)
        && (forall i | r.lineNumber.value <= i < n :: Kinds(lines)[i] != Some(s))
        && r.content == (if s == AcceptanceCriteriaHeading then [Strip(lines[r.lineNumber.value - 1])]
                         else Body(lines, r.lineNumber.value))
  {
  }

  /** Scanning one more line changes only the record of the section that line opens. */
  lemma InfoAtStep(lines: seq<string>, n: nat, s: Section)
    requires n < |lines|
    ensures InfoAt(lines, n + 1, s) ==
      if Classify(lines[n]) == Some(s) then SectionInfo(true, ContentAt(lines, n, s), Some(n + 1))
      else InfoAt(lines, n, s)
  {
    KindsAt(lines, n);
  }

  /** Every section appears in the order. */
  lemma AllSectionsOrdered()
    ensures forall s :: s in SectionOrder
  {
    forall s ensures s in SectionOrder {
      assert SectionOrder[Rank(s)] == s;
    }
  }

  /** The whole `sections` dictionary after the scan. */
  function SectionsOf(lines: seq<string>): (m: map<Section, SectionInfo>)
    ensures forall s :: s in m && m[s] == InfoAt(lines, |lines|, s)
  {
    AllSectionsOrdered();
    map s: Section | s in SectionOrder :: InfoAt(lines, |lines|, s)
  }

  datatype FailureKind = Missing | EmptySection(lineNumber: Option<nat>)

  datatype Failure = Failure(section: Section, kind: FailureKind) {
    /** The failure's "reason" text. */
    function Reason(): string {
      match kind
      case Missing => "Missing required section: " + Name(section)
      case EmptySection(_) => "Section " + Name(section) + " is empty"
    }
  }

  /** The failure a section contributes, if any: missing first, then found but empty. */
  function SectionFailure(info: SectionInfo, s: Section): Option<Failure> {
    if !info.found then Some(Failure(s, Missing))
    else if info.content == [] then Some(Failure(s, EmptySection(info.lineNumber)))
    else None
  }

  /** The failures of the sections in `order`, in that order. */
  function FailuresOf(sections: map<Section, SectionInfo>, order: seq<Section>): seq<Failure>
    requires forall s :: s in sections
  {
    if order == [] then []
    else
      var s := order[|order| - 1];
      FailuresOf(sections, order[..|order| - 1])
        + (match SectionFailure(sections[s], s) case Some(f) => [f] case None => [])
  }

  /** Each listed failure is the failure of a section of `order`. */
  lemma {:induction false} FailuresSound(sections: map<Section, SectionInfo>, order: seq<Section>)
    requires forall s :: s in sections
    ensures forall f | f in FailuresOf(sections, order) ::
      f.section in order && SectionFailure(sections[f.section], f.section) == Some(f)
  {
    if order != [] {
      var init := order[..|order| - 1];
      FailuresSound(sections, init);
      forall f | f in FailuresOf(sections, init) ensures f.section in order {
        var k :| 0 <= k < |init| && init[k] == f.section;
        assert order[k] == f.section;
      }
    }
  }

  /** Every section of `order` that fails has its failure listed. */
  lemma {:induction false} FailuresComplete(sections: map<Section, SectionInfo>, order: seq<Section>)
    requires forall s :: s in sections
    ensures forall s | s in order && SectionFailure(sections[s], s).Some? ::
      SectionFailure(sections[s], s).value in FailuresOf(sections, order)
  {
    if order != [] {
      var init := order[..|order| - 1];
      var last := order[|order| - 1];
      FailuresComplete(sections, init);
      forall s | s in order && SectionFailure(sections[s], s).Some?
        ensures SectionFailure(sections[s], s).value in FailuresOf(sections, order)
      {
        if s != last {
          var k :| 0 <= k < |order| && order[k] == s;
          assert init[k] == s;
        }
      }
    }
  }

  /** Failures over sections listed in rank order come in rank order. */
  lemma {:induction false} FailuresOrdered(sections: map<Section, SectionInfo>, order: seq<Section>)
    requires forall s :: s in sections
    requires forall i, j | 0 <= i < j < |order| :: Rank(order[i]) < Rank(order[j])
    ensures forall i, j | 0 <= i < j < |FailuresOf(sections, order)| ::
      Rank(FailuresOf(sections, order)[i].section) < Rank(FailuresOf(sections, order)[j].section)
  {
    if order != [] {
      var init := order[..|order| - 1];
      var last := order[|order| - 1];
      FailuresOrdered(sections, init);
      FailuresSound(sections, init);
      forall f | f in FailuresOf(sections, init) ensures Rank(f.section) < Rank(last) {
        var k :| 0 <= k < |init| && init[k] == f.section;
      }
    }
  }

  /** Python's `"\n".join(f"- {reason}" ...)` input. */
  function Bullets(failures: seq<Failure>): (r: seq<string>)
    ensures |r| == |failures|
    ensures forall i | 0 <= i < |r| :: r[i] == "- " + failures[i].Reason()
  {
    if failures == [] then [] else ["- " + failures[0].Reason()] + Bullets(failures[1..])
  }

  /** The overall reason text. */
  function ReasonText(failures: seq<Failure>): string {
    if failures == [] then "Validation successful"
    else "Validation failed:\n" + Join("\n", Bullets(failures))
  }

  /** The `validation_details` record. */
  datatype ValidationDetails = ValidationDetails(
    sections: map<Section, SectionInfo>,
    reason: string,
    failures: seq<Failure>)

  /** The verdict `_validate_acceptance_criteria` reaches on `criteria`. */
  function Assess(criteria: string): (bool, ValidationDetails) {
    var sections := SectionsOf(Split(criteria));
    var failures := FailuresOf(sections, SectionOrder);
    (failures == [], ValidationDetails(sections, ReasonText(failures), failures))
  }

  /**
   * The failures of any assessment follow the section order, hold at most one entry per
   * section, and name exactly the sections that are missing or empty.
   */
  lemma AssessFailures(criteria: string)
    ensures var d := Assess(criteria).1;
      && (forall i, j | 0 <= i < j < |d.failures| ::
            Rank(d.failures[i].section) < Rank(d.failures[j].section))
      && (forall f | f in d.failures :: SectionFailure(d.sections[f.section], f.section) == Some(f))
      && (forall s | SectionFailure(d.sections[s], s).Some? :: SectionFailure(d.sections[s], s).value in d.failures)
  {
    var sections := SectionsOf(Split(criteria));
    SectionOrderRanks();
    AllSectionsOrdered();
    FailuresOrdered(sections, SectionOrder);
    FailuresSound(sections, SectionOrder);
    FailuresComplete(sections, SectionOrder);
  }

  /** A heading that was found records its own non-blank line as content. */
  lemma HeadingHasContent(lines: seq<string>, n: nat)
    requires n <= |lines|
    ensures InfoAt(lines, n, AcceptanceCriteriaHeading).found ==>
      InfoAt(lines, n, AcceptanceCriteriaHeading).content != []
  {
  }

  /**
   * A failure says "missing" exactly for a section that was never found, and the heading
   * section is never reported empty.
   */
  lemma AssessFailureKinds(criteria: string)
    ensures var d := Assess(criteria).1;
      && (forall f | f in d.failures :: f.kind == Missing <==> !d.sections[f.section].found)
      && (forall f | f in d.failures :: f.section != AcceptanceCriteriaHeading || f.kind == Missing)
  {
    var lines := Split(criteria);
    var sections := SectionsOf(lines);
    FailuresSound(sections, SectionOrder);
    HeadingHasContent(lines, |lines|);
  }

  /** Builds the body of a section by scanning forward from line `start`. */
  method CollectBody(lines: seq<string>, start: nat) returns (body: seq<string>)
    ensures body == Body(lines, start)
  {
    body := [];
    var j := start;
    while j < |lines| && !StartsWith(lines[j], "##")
      invariant start <= j
      invariant body + Body(lines, j) == Body(lines, start)
      decreases |lines| - j
    {
      var stripped := Strip(lines[j]);
      var step: seq<string> := if stripped != "" then [stripped] else [];
      ghost var rest := Body(lines, j + 1);
      assert Body(lines, j) == step + rest;
      assert body + Body(lines, j) == (body + step) + rest;
      body := body + step;
      j := j + 1;
    }
  }

  /** One pass of the scan: line `i`, when it is a header, overwrites its section's record. */
  method ScanLine(lines: seq<string>, i: nat, before: map<Section, SectionInfo>)
    returns (sections: map<Section, SectionInfo>)
    requires i < |lines|
    requires forall s :: s in before && before[s] == InfoAt(lines, i, s)
    ensures forall s :: s in sections && sections[s] == InfoAt(lines, i + 1, s)
  {
    sections := before;
    var header := Classify(lines[i]);
    if header.Some? {
      var content: seq<string>;
      if header.value == AcceptanceCriteriaHeading {
        content := [Strip(lines[i])];
      } else {
        content := CollectBody(lines, i + 1);
      }
      assert content == ContentAt(lines, i, header.value);
      sections := sections[header.value := SectionInfo(true, content, Some(i + 1))];
      HeaderUpdate(lines, i, before, header.value);
    } else {
      forall s ensures s in sections && sections[s] == InfoAt(lines, i + 1, s) {
        InfoAtStep(lines, i, s);
      }
    }
  }

  /** Overwriting the record of the section line `i` opens carries the scan past that line. */
  lemma HeaderUpdate(lines: seq<string>, i: nat, before: map<Section, SectionInfo>, h: Section)
    requires i < |lines| && Classify(lines[i]) == Some(h)
    requires forall s :: s in before && before[s] == InfoAt(lines, i, s)
    ensures var after := before[h := SectionInfo(true, ContentAt(lines, i, h), Some(i + 1))];
      forall s :: s in after && after[s] == InfoAt(lines, i + 1, s)
  {
    var after := before[h := SectionInfo(true, ContentAt(lines, i, h), Some(i + 1))];
    forall s ensures s in after && after[s] == InfoAt(lines, i + 1, s) {
      InfoAtStep(lines, i, s);
    }
  }

  /** The scan over the lines of `_validate_acceptance_criteria`: a later header of a section overwrites an earlier one. */
  method ScanSections(lines: seq<string>) returns (sections: map<Section, SectionInfo>)
    ensures sections == SectionsOf(lines)
  {
    AllSectionsOrdered();
    sections := map s: Section | s in SectionOrder :: Unseen;
    for i := 0 to |lines|
      invariant forall s :: s in sections && sections[s] == InfoAt(lines, i, s)
    {
      sections := ScanLine(lines, i, sections);
    }
  }

  /** The failure loop of `_validate_acceptance_criteria`, in section order. */
  method ListFailures(sections: map<Section, SectionInfo>) returns (failures: seq<Failure>)
    requires forall s :: s in sections
    ensures failures == FailuresOf(sections, SectionOrder)
  {
    failures := [];
    for k := 0 to |SectionOrder|
      invariant failures == FailuresOf(sections, SectionOrder[..k])
    {
      var s := SectionOrder[k];
      assert SectionOrder[..k + 1][..k] == SectionOrder[..k];
      var info := sections[s];
      if !info.found {
        failures := failures + [Failure(s, Missing)];
      } else if info.content == [] {
        failures := failures + [Failure(s, EmptySection(info.lineNumber))];
      }
    }
    assert SectionOrder[..|SectionOrder|] == SectionOrder;
  }

  /** `_validate_acceptance_criteria`: the line scan, the failure list and the reason. */
  method ValidateAcceptanceCriteria(criteria: string, requirements: string)
    returns (valid: bool, details: ValidationDetails)
    ensures (valid, details) == Assess(criteria)
  {
    var lines := Split(criteria);
    var sections := ScanSections(lines);
    var failures := ListFailures(sections);
    valid := |failures| == 0;
    details := ValidationDetails(sections, ReasonText(failures), failures);
  }

  /** A body holds only non-blank lines. */
  lemma {:induction false} BodyLinesNonBlank(lines: seq<string>, j: nat)
    ensures forall l | l in Body(lines, j) :: l != ""
    decreases |lines| - j
  {
    if j < |lines| && !StartsWith(lines[j], "##") {
      BodyLinesNonBlank(lines, j + 1);
    }
  }

  /** Joining non-blank lines gives the empty string only when there are none. */
  lemma {:induction false} JoinNonBlank(parts: seq<string>)
    requires forall l | l in parts :: l != ""
    ensures Join("\n", parts) == "" <==> parts == []
  {
    if |parts| > 1 {
      assert parts[0] in parts;
    } else if |parts| == 1 {
      assert parts[0] in parts;
    }
  }

  /**
   * The sections whose content the source stores as one "\n"-joined string (the others,
   * the two criteria lists, keep the list of lines).
   */
  predicate JoinedContent(s: Section) {
    s == AcceptanceCriteriaHeading || s == UserStory || s == ValidationMethods || s == OpenQuestions
  }

  /** A section's `content` entry as the source stores it. */
  function ContentValue(s: Section, content: seq<string>): Value {
    if JoinedContent(s) then VStr(Join("\n", content))
    else VList(seq(|content|, i requires 0 <= i < |content| => VStr(content[i])))
  }

  /** Every content line the scan records is non-blank. */
  lemma ScannedContentNonBlank(lines: seq<string>, n: nat, s: Section)
    requires n <= |lines|
    ensures forall l | l in InfoAt(lines, n, s).content :: l != ""
  {
    var info := InfoAt(lines, n, s);
    InfoAtMeaning(lines, n, s);
    if info.found {
      var k := info.lineNumber.value - 1;
      if s == AcceptanceCriteriaHeading {
        KindsAt(lines, k);
        ClassifyNone(lines[k]);
      } else {
        BodyLinesNonBlank(lines, k + 1);
      }
    }
  }

  /**
   * The source tests emptiness on the stored `content` (an empty string or an empty list);
   * for non-blank lines that test agrees with the model's test on the list of lines.
   */
  lemma StoredContentEmpty(s: Section, content: seq<string>)
    requires forall l | l in content :: l != ""
    ensures ContentValue(s, content) == VStr("") || ContentValue(s, content) == VList([])
      <==> content == []
  {
    JoinNonBlank(content);
    if ContentValue(s, content) == VList([]) {
      assert |ContentValue(s, content).items| == |content|;
    }
  }

  /** A section's record as the source stores it in `validation_details["sections"]`. */
  function SectionValue(s: Section, info: SectionInfo): Value {
    VDict(map[
      "found" := VBool(info.found),
      "content" := ContentValue(s, info.content),
      "line_number" := (match info.lineNumber case Some(n) => VInt(n) case None => VNone),
      "required" := VBool(true)])
  }

  /** A failure entry as the source appends it. */
  function FailureValue(f: Failure): Value {
    match f.kind
    case Missing =>
      VDict(map["section" := VStr(Name(f.section)), "reason" := VStr(f.Reason()),
                "expected_format" := VStr(ExpectedFormat(f.section))])
    case EmptySection(n) =>
      VDict(map["section" := VStr(Name(f.section)), "reason" := VStr(f.Reason()),
                "line_number" := (match n case Some(k) => VInt(k) case None => VNone)])
  }

  /** What `_validate_output` reports beside its verdict. */
  datatype Diagnostics =
    | SectionReport(details: ValidationDetails)
    | UnknownOutputType(outputType: string)
  {
    /** The diagnostics' "reason" entry. */
    function Reason(): string {
      match this
      case SectionReport(d) => d.reason
      case UnknownOutputType(t) => "Unknown output type: " + t
    }
  }

  /** The `validation_details` dictionary as the workflow later reads it. */
  function DiagnosticsValue(d: Diagnostics): (v: Value)
    ensures v.VDict? && "reason" in v.entries && v.entries["reason"] == VStr(d.Reason())
  {
    match d
    case SectionReport(r) =>
      VDict(map[
        "sections" := VDict(map s: Section | s in r.sections :: Name(s) := SectionValue(s, r.sections[s])),
        "reason" := VStr(r.reason),
        "failures" := VList(seq(|r.failures|, i requires 0 <= i < |r.failures| => FailureValue(r.failures[i])))])
    case UnknownOutputType(t) =>
      VDict(map["reason" := VStr("Unknown output type: " + t), "details" := VDict(map[])])
  }

  /** `_validate_output`: only acceptance criteria have a checker. */
  function ValidateOutput(outputType: string, outputData: string, requirements: string): (r: (bool, Diagnostics))
    ensures outputType != "acceptance_criteria" ==> !r.0 && r.1 == UnknownOutputType(outputType)
    ensures outputType == "acceptance_criteria" ==> r == (Assess(outputData).0, SectionReport(Assess(outputData).1))
    ensures r.0 <==> outputType == "acceptance_criteria" && Assess(outputData).1.failures == []
    ensures r.0 ==> r.1.Reason() == "Validation successful"
    ensures outputType != "acceptance_criteria" ==>
      DiagnosticsValue(r.1) == VDict(map["reason" := VStr("Unknown output type: " + outputType), "details" := VDict(map[])])
    ensures outputType == "acceptance_criteria" && !r.0 ==> "Validation failed:\n" <= r.1.Reason()
  {
    if outputType == "acceptance_criteria" then
      var (valid, details) := Assess(outputData);
      (valid, SectionReport(details))
    else (false, UnknownOutputType(outputType))
  }

  /**
   * The inputs `process` reads. A missing `output_type` or `output_data` is modelled as
   * the empty string (both are falsy), a missing `retry_count` as 0.
   */
  datatype ValidationRequest = ValidationRequest(
    outputType: string,
    outputData: string,
    originalRequirements: string,
    retryCount: int)

  /** What `process` returns: the verdict with its flags, or the failure record. */
  datatype ValidationResult =
    | Checked(success: bool, needsRetry: bool, needsHuman: bool, retryCount: int,
              reason: string, diagnostics: Diagnostics)
    | ValidationFailed(failure: FailureRecord)

  /**
   * `process` for an agent whose failure counter stands at `counter`: missing inputs give
   * the failure record; otherwise a failed check is retried below three attempts and
   * escalated to a human from three on.
   */
  function Process(req: ValidationRequest, counter: int): (r: ValidationResult)
    ensures r.ValidationFailed? <==> req.outputType == "" || req.outputData == ""
    ensures r.ValidationFailed? ==> r.failure == FailureRecord("Missing required validation inputs", counter + 1)
    ensures r.Checked? ==> !(r.needsRetry && r.needsHuman)
    ensures r.Checked? && r.success ==> !r.needsRetry && !r.needsHuman
    ensures r.Checked? && !r.success ==> r.needsRetry != r.needsHuman
    ensures r.Checked? ==> (r.needsHuman <==> !r.success && req.retryCount >= RetryThreshold)
    ensures r.Checked? ==> r.retryCount == if r.needsRetry then req.retryCount + 1 else req.retryCount
    ensures r.Checked? ==> (r.success, r.diagnostics) == ValidateOutput(req.outputType, req.outputData, req.originalRequirements)
    ensures r.Checked? ==> r.reason == r.diagnostics.Reason()
  {
    if req.outputType == "" || req.outputData == "" then
      ValidationFailed(FailureFor("Missing required validation inputs", counter))
    else
      var (valid, diagnostics) := ValidateOutput(req.outputType, req.outputData, req.originalRequirements);
      var needsRetry := !valid && req.retryCount < RetryThreshold;
      var needsHuman := !valid && req.retryCount >= RetryThreshold;
      Checked(valid, needsRetry, needsHuman,
              if needsRetry then req.retryCount + 1 else req.retryCount,
              diagnostics.Reason(), diagnostics)
  }
}
