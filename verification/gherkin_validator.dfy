/** The line-oriented Gherkin structure check of the editor front end.

    The functions below state what one call computes: Read (what one line says), Apply (what
    it does to the scan variables), Scan and Finish (the whole pass), Diagnose (validate),
    InDataTable, StepOrderWarnings and FormatLines. The methods (Validate with ScanLines,
    ReadLine, ApplyLine and FinishScan; IsInDataTable; ValidateStepOrder;
    FormatValidationResult) do it the way the front end does, with mutable scan variables,
    and are proved equal to those functions. */
module GherkinValidator {
  import opened Wrappers
  import opened Strings

  datatype Severity = Error | Warning | Info

  /** The step keywords, in the order the validator tries them. */
  datatype StepKeyword = Given | When | Then | And | But

  function KeywordText(k: StepKeyword): (r: string)
    ensures |r| >= 3 && ' ' !in r && ':' !in r
  {
    match k
    case Given => "Given"
    case When => "When"
    case Then => "Then"
    case And => "And"
    case But => "But"
  }

  const StepKeywords: seq<StepKeyword> := [Given, When, Then, And, But]

  /** Every keyword the unknown-keyword rule accepts in front of a colon. */
  const Keywords: seq<string> :=
    ["Feature", "Background", "Scenario", "Scenario Outline", "Examples",
     "Given", "When", "Then", "And", "But"]

  /** What a diagnostic reports; the payloads are the parts the message interpolates. */
  datatype Kind =
    | DuplicateFeature
    | FeatureWithoutDescription
    | ScenarioBeforeFeature
    | ScenarioWithoutSteps(name: string)
    | ScenarioWithoutDescription
    | ExamplesWithoutScenario
    | StepBeforeScenario
    | StepWithoutDescription(keyword: StepKeyword)
    | GivenAfterWhenOrThen
    | WhenAfterThen
    | TableOutOfContext
    | UnknownKeyword(word: string)
    | MissingFeature
    | NoScenario

  function Message(k: Kind): string {
    match k
    case DuplicateFeature => "一个文件只能包含一个Feature"
    case FeatureWithoutDescription => "Feature后面必须有描述"
    case ScenarioBeforeFeature => "Scenario必须在Feature之后定义"
    case ScenarioWithoutSteps(name) => "场景 \"" + name + "\" 没有定义任何步骤"
    case ScenarioWithoutDescription => "Scenario后面必须有描述"
    case ExamplesWithoutScenario => "Examples必须在Scenario Outline之后定义"
    case StepBeforeScenario => "测试步骤必须在Scenario之后定义"
    case StepWithoutDescription(kw) => KeywordText(kw) + "后面必须有步骤描述"
    case GivenAfterWhenOrThen => "Given步骤通常应该在When和Then之前"
    case WhenAfterThen => "When步骤通常应该在Then之前"
    case TableOutOfContext => "表格数据应该在Examples或步骤之后使用"
    case UnknownKeyword(word) => "未知的关键字: " + word
    case MissingFeature => "缺少Feature定义"
    case NoScenario => "建议至少定义一个Scenario"
  }

  /** One diagnostic, with a 1-based line number. */
  datatype ValidationError = ValidationError(line: nat, kind: Kind, severity: Severity) {
    function message(): string { Message(kind) }
  }

  datatype ValidationResult =
    ValidationResult(isValid: bool, errors: seq<ValidationError>, warnings: seq<ValidationError>)

  function Err(line: nat, k: Kind): ValidationError { ValidationError(line, k, Error) }
  function Warn(line: nat, k: Kind): ValidationError { ValidationError(line, k, Warning) }

  // ---------------------------------------------------------------------------------------
  // Line classification.

  /** The first step keyword k, in StepKeywords order, such that t starts with k and a space. */
  function FindStepKeyword(t: string): (r: Option<StepKeyword>)
    ensures r.Some? ==> StartsWith(t, KeywordText(r.value) + " ")
    ensures r.None? ==> forall k :: !StartsWith(t, KeywordText(k) + " ")
  {
    FindIn(StepKeywords, t)
  }

  function FindIn(ks: seq<StepKeyword>, t: string): (r: Option<StepKeyword>)
    ensures r.Some? ==> r.value in ks && StartsWith(t, KeywordText(r.value) + " ")
    ensures r.None? ==> forall k :: k in ks ==> !StartsWith(t, KeywordText(k) + " ")
  {
    if ks == [] then None
    else if StartsWith(t, KeywordText(ks[0]) + " ") then Some(ks[0])
    else FindIn(ks[1..], t)
  }

  /** The branch of the scan a trimmed line takes; the first matching test wins. */
  datatype LineClass =
    | Blank
    | FeatureHeader
    | ScenarioHeader
    | ExamplesHeader
    | StepLine(keyword: StepKeyword)
    | TableRow
    | TagLine
    | OtherLine

  function Classify(t: string): (c: LineClass)
    ensures c.ScenarioHeader? ==> ':' in t
    ensures c.StepLine? ==> StartsWith(t, KeywordText(c.keyword) + " ")
  {
    HeaderHasColon(t);
    if t == "" || StartsWith(t, "#") then Blank
    else if StartsWith(t, "Feature:") then FeatureHeader
    else if StartsWith(t, "Scenario:") || StartsWith(t, "Scenario Outline:") then ScenarioHeader
    else if StartsWith(t, "Examples:") then ExamplesHeader
    else match FindStepKeyword(t)
      case Some(k) => StepLine(k)
      case None =>
        if StartsWith(t, "|") && EndsWith(t, "|") then TableRow
        else if StartsWith(t, "@") then TagLine
        else OtherLine
  }

  lemma HeaderHasColon(t: string)
    ensures StartsWith(t, "Scenario:") || StartsWith(t, "Scenario Outline:") ==> ':' in t
  {
    if StartsWith(t, "Scenario:") {
      assert t[8] == "Scenario:"[8];
    } else if StartsWith(t, "Scenario Outline:") {
      assert t[16] == "Scenario Outline:"[16];
    }
  }

  /** The scenario name: the trimmed text after the first colon of a header. */
  function ScenarioName(t: string): string
    requires ':' in t
  {
    JsTrim(t[IndexOf(t, ':') + 1..])
  }

  /** The first space-separated word, words[0] of t.split(' '). */
  function FirstWord(t: string): string {
    Split(t, ' ')[0]
  }

  /** Whether a first word ending in a colon names a keyword the validator does not know. */
  predicate IsUnknownKeyword(firstWord: string) {
    EndsWith(firstWord, ":") && firstWord[..|firstWord| - 1] !in Keywords
  }

  /** JavaScript truthiness of a string-or-null: present and non-empty. */
  predicate Truthy(name: Option<string>) {
    name.Some? && name.value != ""
  }

  // ---------------------------------------------------------------------------------------
  // Step order.

  /** The warnings validateStepOrder pushes: steps already holds the new keyword current. */
  function StepOrderWarnings(steps: seq<StepKeyword>, lineNumber: nat, current: StepKeyword)
    : (r: seq<ValidationError>)
    ensures |r| <= 1
    ensures forall i :: 0 <= i < |r| ==>
              r[i].line == lineNumber && r[i].severity == Warning
              && (r[i].kind == GivenAfterWhenOrThen || r[i].kind == WhenAfterThen)
  {
    if |steps| < 2 then []
    else
      var last := steps[|steps| - 2];
      (if current == Given && (last == When || last == Then)
       then [Warn(lineNumber, GivenAfterWhenOrThen)] else [])
      + (if current == When && last == Then then [Warn(lineNumber, WhenAfterThen)] else [])
  }

  /** The position of a keyword in the Given-When-Then order; And and But have none. */
  function Rank(k: StepKeyword): Option<nat> {
    match k
    case Given => Some(0)
    case When => Some(1)
    case Then => Some(2)
    case _ => None
  }

  /** An independent reading of the order rule: a warning is due exactly when both keywords
      have a rank and the new one ranks lower than the one before it. */
  predicate RanksBackwards(previous: StepKeyword, current: StepKeyword) {
    Rank(previous).Some? && Rank(current).Some? && Rank(current).value < Rank(previous).value
  }

  /** The order rule read against the ranks: a warning is pushed exactly when the new keyword
      ranks below the one before it, And and But never draw one, and the warning names the
      new step's line. */
  lemma StepOrderMeaning(steps: seq<StepKeyword>, lineNumber: nat, current: StepKeyword)
    requires |steps| >= 1 && steps[|steps| - 1] == current
    ensures |steps| >= 2 && RanksBackwards(steps[|steps| - 2], current)
            ==> StepOrderWarnings(steps, lineNumber, current)
                == [Warn(lineNumber, if current == Given then GivenAfterWhenOrThen
                                     else WhenAfterThen)]
    ensures !(|steps| >= 2 && RanksBackwards(steps[|steps| - 2], current))
            ==> StepOrderWarnings(steps, lineNumber, current) == []
    ensures current == And || current == But ==> StepOrderWarnings(steps, lineNumber, current) == []
  {
  }

  method ValidateStepOrder(steps: seq<StepKeyword>, lineNumber: nat, currentStep: StepKeyword,
                           warnings: seq<ValidationError>)
    returns (pushed: seq<ValidationError>)
    requires |steps| >= 1 && steps[|steps| - 1] == currentStep
    ensures pushed == warnings + StepOrderWarnings(steps, lineNumber, currentStep)
  {
    pushed := warnings;
    if |steps| < 2 {
      return;
    }
    var lastStep := steps[|steps| - 2];
    if currentStep == Given && (lastStep == When || lastStep == Then) {
      pushed := pushed + [Warn(lineNumber, GivenAfterWhenOrThen)];
    }
    if currentStep == When && lastStep == Then {
      pushed := pushed + [Warn(lineNumber, WhenAfterThen)];
    }
  }

  // ---------------------------------------------------------------------------------------
  // Data-table context.

  /** Whether a line counts as the context a table may follow: Examples or a step. */
  predicate IsTableContext(line: string) {
    var t := JsTrim(line);
    StartsWith(t, "Examples:") || FindStepKeyword(t).Some?
  }

  /** Whether the backward scan stops at this line: a context line or a Scenario line. */
  predicate StopsTableScan(line: string) {
    IsTableContext(line) || StartsWith(JsTrim(line), "Scenario")
  }

  /** The backward scan over lines[..index]: the nearest non-blank, non-comment line that is a
      step, Examples or Scenario line decides. */
  function InDataTable(lines: seq<string>, index: nat): bool
    requires index <= |lines|
  {
    if index == 0 then false
    else
      var line := JsTrim(lines[index - 1]);
      if line == "" || StartsWith(line, "#") then InDataTable(lines, index - 1)
      else if StartsWith(line, "Examples:") then true
      else if FindStepKeyword(line).Some? then true
      else if StartsWith(line, "Scenario") then false
      else InDataTable(lines, index - 1)
  }

  method IsInDataTable(lines: seq<string>, currentIndex: nat) returns (found: bool)
    requires currentIndex <= |lines|
    ensures found == InDataTable(lines, currentIndex)
  {
    // The source counts i from currentIndex - 1 down to 0; here i is one above that index.
    var i: nat := currentIndex;
    while i > 0
      invariant i <= currentIndex
      invariant forall m :: i <= m < currentIndex ==> !StopsTableScan(lines[m])
    {
      var line := JsTrim(lines[i - 1]);
      if line == "" || StartsWith(line, "#") {
        SkippedLinesExtend(lines, i, currentIndex);
        i := i - 1;
        continue;
      }
      if StartsWith(line, "Examples:") {
        InDataTablePassesTo(lines, currentIndex, i);
        InDataTableStep(lines, i);
        return true;
      }
      var hasStepKeyword := FindStepKeyword(line).Some?;
      if hasStepKeyword {
        InDataTablePassesTo(lines, currentIndex, i);
        InDataTableStep(lines, i);
        return true;
      }
      if StartsWith(line, "Scenario") {
        InDataTablePassesTo(lines, currentIndex, i);
        InDataTableStep(lines, i);
        return false;
      }
      i := i - 1;
    }
    InDataTablePassesTo(lines, currentIndex, 0);
    return false;
  }

  /** Lines that do not stop the scan hand the verdict to the lines above them. */
  lemma {:induction false} InDataTablePassesTo(lines: seq<string>, index: nat, i: nat)
    requires i <= index <= |lines|
    requires forall m :: i <= m < index ==> !StopsTableScan(lines[m])
    ensures InDataTable(lines, index) == InDataTable(lines, i)
    decreases index - i
  {
    if i < index {
      InDataTableStep(lines, index);
      InDataTablePassesTo(lines, index - 1, i);
    }
  }

  lemma SkippedLinesExtend(lines: seq<string>, i: nat, index: nat)
    requires 0 < i <= index <= |lines|
    requires JsTrim(lines[i - 1]) == "" || StartsWith(JsTrim(lines[i - 1]), "#")
    requires forall m :: i <= m < index ==> !StopsTableScan(lines[m])
    ensures forall m :: i - 1 <= m < index ==> !StopsTableScan(lines[m])
  {
    SkippedLinesDoNotStop(lines[i - 1]);
  }

  /** A blank or comment line never stops the scan. */
  lemma SkippedLinesDoNotStop(line: string)
    requires JsTrim(line) == "" || StartsWith(JsTrim(line), "#")
    ensures !StopsTableScan(line)
  {
    var t := JsTrim(line);
    if t != "" {
      assert t[0] == '#';
      CommentIsNoHeader(t);
    }
  }

  lemma CommentIsNoHeader(t: string)
    requires t != "" && t[0] == '#'
    ensures FindStepKeyword(t).None? && !StartsWith(t, "Examples:") && !StartsWith(t, "Scenario")
  {
  }

  /** One step of the backward scan, with blank and comment lines folded into "go on". */
  lemma InDataTableStep(lines: seq<string>, index: nat)
    requires 0 < index <= |lines|
    ensures InDataTable(lines, index)
      == if IsTableContext(lines[index - 1]) then true
         else if StopsTableScan(lines[index - 1]) then false
         else InDataTable(lines, index - 1)
  {
    var line := JsTrim(lines[index - 1]);
    if line == "" || StartsWith(line, "#") {
      SkippedLinesDoNotStop(lines[index - 1]);
    }
  }

  /** The backward scan in the abstract: verdicts[i] is the verdict for a table row below the
      first i lines, given which lines are context lines and which stop the scan. */
  ghost predicate IsBackScan(verdicts: seq<bool>, context: seq<bool>, stops: seq<bool>) {
    |verdicts| == |context| + 1 && |stops| == |context| && !verdicts[0]
    && forall i :: 0 <= i < |context| ==>
         verdicts[i + 1] == (context[i] || (!stops[i] && verdicts[i]))
  }

  /** A backward scan says yes exactly when a context line lies above with nothing that stops
      the scan in between. */
  lemma {:induction false} BackScanMeaning(verdicts: seq<bool>, context: seq<bool>,
                                           stops: seq<bool>, index: nat)
    requires IsBackScan(verdicts, context, stops) && index <= |context|
    ensures verdicts[index]
      <==> exists j :: 0 <= j < index && context[j] && forall m :: j < m < index ==> !stops[m]
  {
    if index > 0 {
      BackScanMeaning(verdicts, context, stops, index - 1);
      var k := index - 1;
      if !context[k] && !stops[k] && verdicts[index] {
        var j :| 0 <= j < k && context[j] && forall m :: j < m < k ==> !stops[m];
        assert forall m :: j < m < index ==> !stops[m];
      }
    }
  }

  /** verdicts, context and stops hold, line by line, the verdict of the scan, whether the line
      is a context line and whether it stops the scan. Each fact fires only where the line's
      own term is in view. */
  ghost predicate ScanTables(lines: seq<string>, verdicts: seq<bool>, context: seq<bool>,
                             stops: seq<bool>) {
    |verdicts| == |lines| + 1 && |context| == |lines| && |stops| == |lines|
    && (forall i {:trigger InDataTable(lines, i)} :: 0 <= i <= |lines| ==>
          verdicts[i] == InDataTable(lines, i))
    && (forall i {:trigger IsTableContext(lines[i])} :: 0 <= i < |lines| ==>
          context[i] == IsTableContext(lines[i]))
    && (forall i {:trigger StopsTableScan(lines[i])} :: 0 <= i < |lines| ==>
          stops[i] == StopsTableScan(lines[i]))
  }

  lemma TablesOfLines(lines: seq<string>)
    returns (verdicts: seq<bool>, context: seq<bool>, stops: seq<bool>)
    ensures ScanTables(lines, verdicts, context, stops)
  {
    verdicts := seq(|lines| + 1, i requires 0 <= i <= |lines| => InDataTable(lines, i));
    context := seq(|lines|, i requires 0 <= i < |lines| => IsTableContext(lines[i]));
    stops := seq(|lines|, i requires 0 <= i < |lines| => StopsTableScan(lines[i]));
  }

  /** The scan over lines is a backward scan in the abstract sense. */
  lemma TablesAreBackScan(lines: seq<string>, verdicts: seq<bool>, context: seq<bool>,
                          stops: seq<bool>)
    requires ScanTables(lines, verdicts, context, stops)
    ensures IsBackScan(verdicts, context, stops)
  {
    assert !InDataTable(lines, 0);
    forall i | 0 <= i < |context|
      ensures verdicts[i + 1] == (context[i] || (!stops[i] && verdicts[i]))
    {
      TableStepAt(lines, verdicts, context, stops, i);
    }
  }

  lemma TableStepAt(lines: seq<string>, verdicts: seq<bool>, context: seq<bool>,
                    stops: seq<bool>, i: nat)
    requires ScanTables(lines, verdicts, context, stops) && i < |lines|
    ensures verdicts[i + 1] == (context[i] || (!stops[i] && verdicts[i]))
  {
    var v := InDataTable(lines, i + 1);
    var c := IsTableContext(lines[i]);
    var s := StopsTableScan(lines[i]);
    var w := InDataTable(lines, i);
    InDataTableStep(lines, i + 1);
    assert v == (c || (!s && w));
  }

  /** InDataTable holds exactly when some context line lies before index with no line that
      stops the scan in between. */
  lemma InDataTableMeaning(lines: seq<string>, index: nat)
    requires index <= |lines|
    ensures InDataTable(lines, index)
      <==> exists j :: 0 <= j < index && IsTableContext(lines[j])
                       && forall m :: j < m < index ==> !StopsTableScan(lines[m])
  {
    var verdicts, context, stops := TablesOfLines(lines);
    TablesAreBackScan(lines, verdicts, context, stops);
    BackScanMeaning(verdicts, context, stops, index);
    if exists j :: 0 <= j < index && IsTableContext(lines[j])
                   && forall m :: j < m < index ==> !StopsTableScan(lines[m]) {
      var j :| 0 <= j < index && IsTableContext(lines[j])
               && forall m :: j < m < index ==> !StopsTableScan(lines[m]);
      forall m | j < m < index ensures !stops[m] {
        assert !StopsTableScan(lines[m]);
      }
      assert context[j];
    }
    if InDataTable(lines, index) {
      var j :| 0 <= j < index && context[j] && forall m :: j < m < index ==> !stops[m];
      assert IsTableContext(lines[j]);
      forall m | j < m < index ensures !StopsTableScan(lines[m]) {
        assert !stops[m];
      }
    }
  }

  // ---------------------------------------------------------------------------------------
  // The scan: what each line means, and what it does to the scan variables.

  /** What one line contributes to the scan once its text has been examined. Blank lines,
      comments, tags and lines with no unknown keyword in front all read as Skipped. */
  datatype LineEvent =
    | Skipped
    | FeatureSeen(bare: bool)
    | ScenarioSeen(name: string)
    | ExamplesSeen
    | StepSeen(keyword: StepKeyword, bare: bool)
    | TableRowSeen(afterContext: bool)
    | UnknownKeywordSeen(word: string)

  /** The reading of the line at index: bare says that nothing but blanks follows the
      keyword, afterContext is the verdict of the backward data-table scan. */
  function Read(lines: seq<string>, index: nat): LineEvent
    requires index < |lines|
  {
    var t := JsTrim(lines[index]);
    match Classify(t)
    case Blank => Skipped
    case FeatureHeader => FeatureSeen(t == "Feature:")
    case ScenarioHeader => ScenarioSeen(ScenarioName(t))
    case ExamplesHeader => ExamplesSeen
    case StepLine(k) => StepSeen(k, StepContent(t, k) == "")
    case TableRow => TableRowSeen(InDataTable(lines, index))
    case TagLine => Skipped
    case OtherLine =>
      var firstWord := FirstWord(t);
      if IsUnknownKeyword(firstWord) then UnknownKeywordSeen(firstWord) else Skipped
  }

  // One lemma per branch of the callback: under that branch's tests, what Read returns.

  lemma ReadSkipped(lines: seq<string>, index: nat)
    requires index < |lines|
    requires var t := JsTrim(lines[index]); t == "" || StartsWith(t, "#")
    ensures Read(lines, index) == Skipped
  {
  }

  lemma ReadFeature(lines: seq<string>, index: nat)
    requires index < |lines|
    requires var t := JsTrim(lines[index]);
      !(t == "" || StartsWith(t, "#")) && StartsWith(t, "Feature:")
    ensures Read(lines, index) == FeatureSeen(JsTrim(lines[index]) == "Feature:")
  {
  }

  lemma ReadScenario(lines: seq<string>, index: nat)
    requires index < |lines|
    requires var t := JsTrim(lines[index]);
      !(t == "" || StartsWith(t, "#")) && !StartsWith(t, "Feature:")
      && (StartsWith(t, "Scenario:") || StartsWith(t, "Scenario Outline:"))
    ensures ':' in JsTrim(lines[index])
    ensures Read(lines, index) == ScenarioSeen(ScenarioName(JsTrim(lines[index])))
  {
    HeaderHasColon(JsTrim(lines[index]));
  }

  lemma ReadExamples(lines: seq<string>, index: nat)
    requires index < |lines|
    requires var t := JsTrim(lines[index]);
      !(t == "" || StartsWith(t, "#")) && !StartsWith(t, "Feature:")
      && !(StartsWith(t, "Scenario:") || StartsWith(t, "Scenario Outline:"))
      && StartsWith(t, "Examples:")
    ensures Read(lines, index) == ExamplesSeen
  {
  }

  lemma ReadStep(lines: seq<string>, index: nat, k: StepKeyword)
    requires index < |lines|
    requires var t := JsTrim(lines[index]);
      !(t == "" || StartsWith(t, "#")) && !StartsWith(t, "Feature:")
      && !(StartsWith(t, "Scenario:") || StartsWith(t, "Scenario Outline:"))
      && !StartsWith(t, "Examples:") && FindStepKeyword(t) == Some(k)
    ensures StartsWith(JsTrim(lines[index]), KeywordText(k) + " ")
    ensures Read(lines, index) == StepSeen(k, StepContent(JsTrim(lines[index]), k) == "")
  {
  }

  lemma ReadTableRow(lines: seq<string>, index: nat)
    requires index < |lines|
    requires var t := JsTrim(lines[index]);
      !(t == "" || StartsWith(t, "#")) && !StartsWith(t, "Feature:")
      && !(StartsWith(t, "Scenario:") || StartsWith(t, "Scenario Outline:"))
      && !StartsWith(t, "Examples:") && FindStepKeyword(t).None?
      && StartsWith(t, "|") && EndsWith(t, "|")
    ensures Read(lines, index) == TableRowSeen(InDataTable(lines, index))
  {
  }

  lemma ReadTag(lines: seq<string>, index: nat)
    requires index < |lines|
    requires var t := JsTrim(lines[index]);
      !(t == "" || StartsWith(t, "#")) && !StartsWith(t, "Feature:")
      && !(StartsWith(t, "Scenario:") || StartsWith(t, "Scenario Outline:"))
      && !StartsWith(t, "Examples:") && FindStepKeyword(t).None?
      && !(StartsWith(t, "|") && EndsWith(t, "|")) && StartsWith(t, "@")
    ensures Read(lines, index) == Skipped
  {
  }

  lemma ReadOther(lines: seq<string>, index: nat)
    requires index < |lines|
    requires var t := JsTrim(lines[index]);
      !(t == "" || StartsWith(t, "#")) && !StartsWith(t, "Feature:")
      && !(StartsWith(t, "Scenario:") || StartsWith(t, "Scenario Outline:"))
      && !StartsWith(t, "Examples:") && FindStepKeyword(t).None?
      && !(StartsWith(t, "|") && EndsWith(t, "|")) && !StartsWith(t, "@")
    ensures var w := FirstWord(JsTrim(lines[index]));
      Read(lines, index) == if IsUnknownKeyword(w) then UnknownKeywordSeen(w) else Skipped
  {
  }

  /** The text after a step keyword and its space, trimmed. */
  function StepContent(t: string, k: StepKeyword): string
    requires StartsWith(t, KeywordText(k) + " ")
  {
    JsTrim(t[|KeywordText(k)| + 1..])
  }

  /** The scan variables of validate. */
  datatype ScanState = ScanState(
    hasFeature: bool,
    hasScenario: bool,
    currentScenario: Option<string>,
    scenarioSteps: seq<StepKeyword>,
    inExamples: bool,
    errors: seq<ValidationError>,
    warnings: seq<ValidationError>)

  const InitialState := ScanState(false, false, None, [], false, [], [])

  /** The effect of one line, numbered lineNumber, on the scan variables. */
  function Apply(lineNumber: nat, e: LineEvent, st: ScanState): ScanState
    requires lineNumber >= 1
  {
    match e
    case Skipped => st
    case FeatureSeen(bare) =>
      var duplicate := if st.hasFeature then [Err(lineNumber, DuplicateFeature)] else [];
      var unnamed := if bare then [Err(lineNumber, FeatureWithoutDescription)] else [];
      st.(hasFeature := true, errors := st.errors + duplicate + unnamed)
    case ScenarioSeen(name) =>
      var early := if !st.hasFeature then [Err(lineNumber, ScenarioBeforeFeature)] else [];
      var empty := if Truthy(st.currentScenario) && st.scenarioSteps == []
                   then [Warn(lineNumber - 1, ScenarioWithoutSteps(st.currentScenario.value))]
                   else [];
      var unnamed := if name == "" then [Err(lineNumber, ScenarioWithoutDescription)] else [];
      st.(hasScenario := true, currentScenario := Some(name), scenarioSteps := [],
          inExamples := false, errors := st.errors + early + unnamed,
          warnings := st.warnings + empty)
    case ExamplesSeen =>
      var orphan := if !Truthy(st.currentScenario)
                    then [Err(lineNumber, ExamplesWithoutScenario)] else [];
      st.(inExamples := true, errors := st.errors + orphan)
    case StepSeen(k, bare) =>
      var early := if !st.hasScenario then [Err(lineNumber, StepBeforeScenario)] else [];
      var steps := st.scenarioSteps + [k];
      var unnamed := if bare then [Err(lineNumber, StepWithoutDescription(k))] else [];
      st.(scenarioSteps := steps, errors := st.errors + early + unnamed,
          warnings := st.warnings + StepOrderWarnings(steps, lineNumber, k))
    case TableRowSeen(afterContext) =>
      if !st.inExamples && !afterContext
      then st.(warnings := st.warnings + [Warn(lineNumber, TableOutOfContext)])
      else st
    case UnknownKeywordSeen(word) =>
      st.(warnings := st.warnings + [Warn(lineNumber, UnknownKeyword(word))])
  }

  /** events holds the reading of every line, in order. The quantifier fires only on a
      reading that is already in view, so the text of a line is examined only where a
      proof asks for it. */
  ghost predicate ReadsAs(lines: seq<string>, events: seq<LineEvent>) {
    |events| == |lines|
    && forall i {:trigger Read(lines, i)} :: 0 <= i < |lines| ==> events[i] == Read(lines, i)
  }

  /** The readings of all lines, in order. */
  function Events(lines: seq<string>): (es: seq<LineEvent>)
    ensures ReadsAs(lines, es)
  {
    seq(|lines|, i requires 0 <= i < |lines| => Read(lines, i))
  }

  /** The scan variables after the first n lines. */
  function Scan(events: seq<LineEvent>, n: nat): ScanState
    requires n <= |events|
  {
    if n == 0 then InitialState else Apply(n, events[n - 1], Scan(events, n - 1))
  }

  /** Appends the end-of-scan diagnostics and decides validity; lineCount is lines.length. */
  function Finish(lineCount: nat, st: ScanState): ValidationResult {
    var errors := st.errors + (if !st.hasFeature then [Err(1, MissingFeature)] else []);
    var lastEmpty := if Truthy(st.currentScenario) && st.scenarioSteps == []
                     then [Warn(lineCount, ScenarioWithoutSteps(st.currentScenario.value))]
                     else [];
    var warnings := st.warnings + (if !st.hasScenario then [Warn(1, NoScenario)] else [])
                    + lastEmpty;
    ValidationResult(errors == [], errors, warnings)
  }

  /** The result validate returns for content. */
  function Diagnose(content: string): ValidationResult {
    var lines := Split(content, '\n');
    Finish(|lines|, Scan(Events(lines), |lines|))
  }

  // ---------------------------------------------------------------------------------------
  // Every diagnostic names a line of the document, and its payload is one line long.

  /** No line of the document holds a line break (the lines come from split('\n')). */
  predicate NoBreaks(lines: seq<string>) {
    forall k :: 0 <= k < |lines| ==> '\n' !in lines[k]
  }

  /** A reading whose payload, if any, holds no line break. */
  predicate OneLineEvent(e: LineEvent) {
    match e
    case ScenarioSeen(name) => '\n' !in name
    case UnknownKeywordSeen(word) => '\n' !in word
    case _ => true
  }

  /** What holds of every diagnostic the scan produces while reading n lines. */
  predicate WellFormedDiagnostic(d: ValidationError, n: nat) {
    1 <= d.line <= n
    && match d.kind
       case ScenarioWithoutSteps(name) => '\n' !in name
       case UnknownKeyword(word) => '\n' !in word
       case _ => true
  }

  predicate WellFormedList(ds: seq<ValidationError>, severity: Severity, n: nat) {
    forall k :: 0 <= k < |ds| ==> ds[k].severity == severity && WellFormedDiagnostic(ds[k], n)
  }

  predicate WellFormedState(st: ScanState, n: nat) {
    WellFormedList(st.errors, Error, n)
    && WellFormedList(st.warnings, Warning, n)
    && (st.currentScenario.Some? ==> n >= 1 && '\n' !in st.currentScenario.value)
  }

  lemma WellFormedWiden(ds: seq<ValidationError>, severity: Severity, n: nat)
    requires WellFormedList(ds, severity, n)
    ensures WellFormedList(ds, severity, n + 1)
  {
  }

  lemma WellFormedConcat(a: seq<ValidationError>, b: seq<ValidationError>, severity: Severity,
                         n: nat)
    requires WellFormedList(a, severity, n) && WellFormedList(b, severity, n)
    ensures WellFormedList(a + b, severity, n)
  {
  }

  /** A line break absent from s is absent from JsTrim(s). */
  lemma JsTrimNoBreak(s: string)
    requires '\n' !in s
    ensures '\n' !in JsTrim(s)
  {
    TrimAvoids(s, JsWhitespace, '\n');
  }

  /** A line with no line break reads as an event with none. */
  lemma ReadOneLine(lines: seq<string>, index: nat)
    requires index < |lines| && '\n' !in lines[index]
    ensures OneLineEvent(Read(lines, index))
  {
    var t := JsTrim(lines[index]);
    JsTrimNoBreak(lines[index]);
    match Classify(t)
    case ScenarioHeader => JsTrimNoBreak(t[IndexOf(t, ':') + 1..]);
    case OtherLine =>
      FirstPieceIsPrefix(t, ' ');
      var w := FirstWord(t);
      assert '\n' !in w by {
        forall k | 0 <= k < |w| ensures w[k] != '\n' {
          assert w[k] == t[k];
        }
      }
    case _ =>
  }

  /** The first piece of a split is a prefix of the string. */
  lemma {:induction false} FirstPieceIsPrefix(s: string, sep: char)
    ensures |Split(s, sep)[0]| <= |s| && Split(s, sep)[0] == s[..|Split(s, sep)[0]|]
    decreases |s|
  {
    if s != [] {
      FirstPieceIsPrefix(s[1..], sep);
    }
  }

  /** One line keeps the scan variables well formed, one line further on. */
  lemma ApplyWellFormed(n: nat, e: LineEvent, st: ScanState)
    requires n >= 1 && OneLineEvent(e) && WellFormedState(st, n - 1)
    ensures WellFormedState(Apply(n, e, st), n)
  {
    WellFormedWiden(st.errors, Error, n - 1);
    WellFormedWiden(st.warnings, Warning, n - 1);
    match e
    case FeatureSeen(bare) =>
      var duplicate := if st.hasFeature then [Err(n, DuplicateFeature)] else [];
      var unnamed := if bare then [Err(n, FeatureWithoutDescription)] else [];
      WellFormedConcat(st.errors, duplicate, Error, n);
      WellFormedConcat(st.errors + duplicate, unnamed, Error, n);
    case ScenarioSeen(name) =>
      var early := if !st.hasFeature then [Err(n, ScenarioBeforeFeature)] else [];
      var empty := if Truthy(st.currentScenario) && st.scenarioSteps == []
                   then [Warn(n - 1, ScenarioWithoutSteps(st.currentScenario.value))]
                   else [];
      var unnamed := if name == "" then [Err(n, ScenarioWithoutDescription)] else [];
      WellFormedConcat(st.errors, early, Error, n);
      WellFormedConcat(st.errors + early, unnamed, Error, n);
      WellFormedConcat(st.warnings, empty, Warning, n);
    case ExamplesSeen =>
      var orphan := if !Truthy(st.currentScenario) then [Err(n, ExamplesWithoutScenario)] else [];
      WellFormedConcat(st.errors, orphan, Error, n);
    case StepSeen(k, bare) =>
      var early := if !st.hasScenario then [Err(n, StepBeforeScenario)] else [];
      var unnamed := if bare then [Err(n, StepWithoutDescription(k))] else [];
      WellFormedConcat(st.errors, early, Error, n);
      WellFormedConcat(st.errors + early, unnamed, Error, n);
      WellFormedConcat(st.warnings, StepOrderWarnings(st.scenarioSteps + [k], n, k), Warning, n);
    case TableRowSeen(_) =>
      WellFormedConcat(st.warnings, [Warn(n, TableOutOfContext)], Warning, n);
    case UnknownKeywordSeen(word) =>
      WellFormedConcat(st.warnings, [Warn(n, UnknownKeyword(word))], Warning, n);
    case Skipped =>
  }

  /** After n lines every diagnostic names one of those lines and has a one-line payload. */
  lemma {:induction false} ScanWellFormed(events: seq<LineEvent>, n: nat)
    requires n <= |events|
    requires forall i :: 0 <= i < |events| ==> OneLineEvent(events[i])
    ensures WellFormedState(Scan(events, n), n)
  {
    if n > 0 {
      ScanWellFormed(events, n - 1);
      ApplyWellFormed(n, events[n - 1], Scan(events, n - 1));
    }
  }

  /** What validate promises about its result: it is valid exactly when there are no errors,
      errors and warnings carry their severities, every diagnostic names a line of the
      document (1 to lines.length) and holds no line break in its message payload. */
  lemma DiagnoseWellFormed(content: string)
    ensures Diagnose(content).isValid <==> Diagnose(content).errors == []
    ensures WellFormedList(Diagnose(content).errors, Error, |Split(content, '\n')|)
    ensures WellFormedList(Diagnose(content).warnings, Warning, |Split(content, '\n')|)
  {
    var lines := Split(content, '\n');
    var events := Events(lines);
    SplitPiecesAvoidSep(content, '\n');
    assert |events| == |lines|;
    forall i | 0 <= i < |events| ensures OneLineEvent(events[i]) {
      ReadOneLine(lines, i);
    }
    ScanWellFormed(events, |lines|);
    var st := Scan(events, |lines|);
    var n := |lines|;
    var missing := if !st.hasFeature then [Err(1, MissingFeature)] else [];
    var none := if !st.hasScenario then [Warn(1, NoScenario)] else [];
    var lastEmpty := if Truthy(st.currentScenario) && st.scenarioSteps == []
                     then [Warn(n, ScenarioWithoutSteps(st.currentScenario.value))]
                     else [];
    WellFormedConcat(st.errors, missing, Error, n);
    WellFormedConcat(st.warnings, none, Warning, n);
    WellFormedConcat(st.warnings + none, lastEmpty, Warning, n);
  }

  // ---------------------------------------------------------------------------------------
  // The front end's loop.

  /** The tests of validate's forEach callback, in the callback's order: which branch the line
      at index takes and what that branch reads off the line. */
  method ReadLine(lines: seq<string>, index: nat, ghost events: seq<LineEvent>)
    returns (e: LineEvent)
    requires index < |lines| && ReadsAs(lines, events)
    ensures e == events[index]
  {
    assert events[index] == Read(lines, index);
    var trimmedLine := JsTrim(lines[index]);
    if trimmedLine == "" || StartsWith(trimmedLine, "#") {
      ReadSkipped(lines, index);
      return Skipped;
    }
    if StartsWith(trimmedLine, "Feature:") {
      ReadFeature(lines, index);
      return FeatureSeen(trimmedLine == "Feature:");
    }
    if StartsWith(trimmedLine, "Scenario:") || StartsWith(trimmedLine, "Scenario Outline:") {
      ReadScenario(lines, index);
      return ScenarioSeen(JsTrim(trimmedLine[IndexOf(trimmedLine, ':') + 1..]));
    }
    if StartsWith(trimmedLine, "Examples:") {
      ReadExamples(lines, index);
      return ExamplesSeen;
    }
    var stepKeyword := FindStepKeyword(trimmedLine);
    if stepKeyword.Some? {
      var keyword := stepKeyword.value;
      ReadStep(lines, index, keyword);
      var stepContent := JsTrim(trimmedLine[|KeywordText(keyword)| + 1..]);
      return StepSeen(keyword, stepContent == "");
    }
    if StartsWith(trimmedLine, "|") && EndsWith(trimmedLine, "|") {
      ReadTableRow(lines, index);
      var inTable := IsInDataTable(lines, index);
      return TableRowSeen(inTable);
    }
    if StartsWith(trimmedLine, "@") {
      ReadTag(lines, index);
      return Skipped;
    }
    ReadOther(lines, index);
    var words := Split(trimmedLine, ' ');
    if |words| > 0 {
      var firstWord := words[0];
      if EndsWith(firstWord, ":") && firstWord[..|firstWord| - 1] !in Keywords {
        return UnknownKeywordSeen(firstWord);
      }
    }
    return Skipped;
  }

  /** The updates of validate's forEach callback: the scan variables are copied into locals,
      updated in the callback's order, and handed back. */
  method ApplyLine(lineNumber: nat, e: LineEvent, st: ScanState) returns (next: ScanState)
    requires lineNumber >= 1
    ensures next == Apply(lineNumber, e, st)
  {
    var errors := st.errors;
    var warnings := st.warnings;
    var hasFeature := st.hasFeature;
    var hasScenario := st.hasScenario;
    var currentScenario := st.currentScenario;
    var scenarioSteps := st.scenarioSteps;
    var inExamples := st.inExamples;
    match e {
      case Skipped =>
      case FeatureSeen(bare) =>
        if hasFeature {
          errors := errors + [Err(lineNumber, DuplicateFeature)];
        }
        hasFeature := true;
        if bare {
          errors := errors + [Err(lineNumber, FeatureWithoutDescription)];
        }
      case ScenarioSeen(name) =>
        if !hasFeature {
          errors := errors + [Err(lineNumber, ScenarioBeforeFeature)];
        }
        if Truthy(currentScenario) && |scenarioSteps| == 0 {
          warnings := warnings + [Warn(lineNumber - 1, ScenarioWithoutSteps(currentScenario.value))];
        }
        hasScenario := true;
        currentScenario := Some(name);
        scenarioSteps := [];
        inExamples := false;
        if !Truthy(currentScenario) {
          errors := errors + [Err(lineNumber, ScenarioWithoutDescription)];
        }
      case ExamplesSeen =>
        if !Truthy(currentScenario) {
          errors := errors + [Err(lineNumber, ExamplesWithoutScenario)];
        }
        inExamples := true;
      case StepSeen(keyword, bare) =>
        if !hasScenario {
          errors := errors + [Err(lineNumber, StepBeforeScenario)];
        }
        scenarioSteps := scenarioSteps + [keyword];
        warnings := ValidateStepOrder(scenarioSteps, lineNumber, keyword, warnings);
        if bare {
          errors := errors + [Err(lineNumber, StepWithoutDescription(keyword))];
        }
      case TableRowSeen(afterContext) =>
        if !inExamples && !afterContext {
          warnings := warnings + [Warn(lineNumber, TableOutOfContext)];
        }
      case UnknownKeywordSeen(word) =>
        warnings := warnings + [Warn(lineNumber, UnknownKeyword(word))];
    }
    next := ScanState(hasFeature, hasScenario, currentScenario, scenarioSteps, inExamples,
                      errors, warnings);
  }

  /** GherkinValidator.validate: one forward pass over the lines, then the end-of-scan
      checks. */
  method Validate(content: string) returns (result: ValidationResult)
    ensures result == Diagnose(content)
  {
    var lines := Split(content, '\n');
    var st := ScanLines(lines, Events(lines));
    result := FinishScan(|lines|, st);
  }

  /** The forEach over the lines: each line is read, then applied to the scan variables;
      events names the readings the lines will give. */
  method ScanLines(lines: seq<string>, ghost events: seq<LineEvent>) returns (st: ScanState)
    requires ReadsAs(lines, events)
    ensures st == Scan(events, |lines|)
  {
    st := InitialState;
    var index := 0;
    while index < |lines|
      invariant 0 <= index <= |lines|
      invariant st == Scan(events, index)
    {
      var e := ReadLine(lines, index, events);
      st := ApplyLine(index + 1, e, st);
      index := index + 1;
    }
  }

  /** The checks after the forEach: a missing feature, no scenario at all, and a last
      scenario without steps (reported at the last line). */
  method FinishScan(lineCount: nat, st: ScanState) returns (result: ValidationResult)
    ensures result == Finish(lineCount, st)
  {
    var errors := st.errors;
    var warnings := st.warnings;
    if !st.hasFeature {
      errors := errors + [Err(1, MissingFeature)];
    }
    if !st.hasScenario {
      warnings := warnings + [Warn(1, NoScenario)];
    }
    if Truthy(st.currentScenario) && |st.scenarioSteps| == 0 {
      warnings := warnings + [Warn(lineCount, ScenarioWithoutSteps(st.currentScenario.value))];
    }
    result := ValidationResult(|errors| == 0, errors, warnings);
  }
  // ---------------------------------------------------------------------------------------
  // Rendering.

  function PassFailHeader(isValid: bool): string {
    if isValid then "✅ Gherkin语法验证通过" else "❌ Gherkin语法验证失败"
  }

  function ErrorText(d: ValidationError): string {
    "第" + NatToString(d.line) + "行 - 错误: " + d.message()
  }

  function WarningText(d: ValidationError): string {
    "第" + NatToString(d.line) + "行 - 警告: " + d.message()
  }

  /** The lines formatValidationResult joins: the header, the errors, then the warnings. */
  function FormatLines(r: ValidationResult): (ls: seq<string>)
    ensures |ls| == 1 + |r.errors| + |r.warnings|
    ensures ls[0] == PassFailHeader(r.isValid)
    ensures forall k :: 0 <= k < |r.errors| ==> ls[1 + k] == ErrorText(r.errors[k])
    ensures forall k :: 0 <= k < |r.warnings| ==>
              ls[1 + |r.errors| + k] == WarningText(r.warnings[k])
  {
    [PassFailHeader(r.isValid)]
    + seq(|r.errors|, k requires 0 <= k < |r.errors| => ErrorText(r.errors[k]))
    + seq(|r.warnings|, k requires 0 <= k < |r.warnings| => WarningText(r.warnings[k]))
  }

  method FormatValidationResult(result: ValidationResult) returns (text: string)
    ensures text == Join(FormatLines(result), "\n")
  {
    var messages: seq<string> := [];
    if result.isValid {
      messages := messages + ["✅ Gherkin语法验证通过"];
    } else {
      messages := messages + ["❌ Gherkin语法验证失败"];
    }
    for k := 0 to |result.errors|
      invariant |messages| == 1 + k
      invariant messages == FormatLines(result)[..1 + k]
    {
      messages := messages + [ErrorText(result.errors[k])];
    }
    for k := 0 to |result.warnings|
      invariant |messages| == 1 + |result.errors| + k
      invariant messages == FormatLines(result)[..1 + |result.errors| + k]
    {
      messages := messages + [WarningText(result.warnings[k])];
    }
    assert messages == FormatLines(result);
    text := Join(messages, "\n");
  }
}
