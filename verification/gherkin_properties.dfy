/** What the front end's Gherkin check promises, stated over the scan of line readings and
    over Diagnose (the result of validate): which lines draw which diagnostics, what the scan
    variables mean, that one rule can never fire, and what the rendered text looks like. */
module GherkinProperties {
  import opened Wrappers
  import opened Strings
  import opened GherkinValidator

  // ---------------------------------------------------------------------------------------
  // What the scan variables mean after n lines.

  lemma {:induction false} ScanHasFeature(events: seq<LineEvent>, n: nat)
    requires n <= |events|
    ensures Scan(events, n).hasFeature <==> exists j :: 0 <= j < n && events[j].FeatureSeen?
  {
    if n > 0 {
      ScanHasFeature(events, n - 1);
      if events[n - 1].FeatureSeen? {
        assert 0 <= n - 1 < n && events[n - 1].FeatureSeen?;
      } else if exists j :: 0 <= j < n && events[j].FeatureSeen? {
        var j :| 0 <= j < n && events[j].FeatureSeen?;
        assert j < n - 1;
      }
    }
  }

  lemma {:induction false} ScanHasScenario(events: seq<LineEvent>, n: nat)
    requires n <= |events|
    ensures Scan(events, n).hasScenario <==> exists j :: 0 <= j < n && events[j].ScenarioSeen?
  {
    if n > 0 {
      ScanHasScenario(events, n - 1);
      if events[n - 1].ScenarioSeen? {
        assert 0 <= n - 1 < n && events[n - 1].ScenarioSeen?;
      } else if exists j :: 0 <= j < n && events[j].ScenarioSeen? {
        var j :| 0 <= j < n && events[j].ScenarioSeen?;
        assert j < n - 1;
      }
    }
  }

  /** The Examples flag holds exactly when an Examples line came after the last scenario
      header. */
  lemma {:induction false} InExamplesMeaning(events: seq<LineEvent>, n: nat)
    requires n <= |events|
    ensures Scan(events, n).inExamples
      <==> exists j :: 0 <= j < n && events[j].ExamplesSeen?
                       && forall m :: j < m < n ==> !events[m].ScenarioSeen?
  {
    if n > 0 {
      InExamplesMeaning(events, n - 1);
      var e := events[n - 1];
      if e.ExamplesSeen? {
        assert 0 <= n - 1 < n && events[n - 1].ExamplesSeen?;
      } else if e.ScenarioSeen? {
        assert !Scan(events, n).inExamples;
      } else {
        if Scan(events, n - 1).inExamples {
          var j :| 0 <= j < n - 1 && events[j].ExamplesSeen?
                   && forall m :: j < m < n - 1 ==> !events[m].ScenarioSeen?;
          assert forall m :: j < m < n ==> !events[m].ScenarioSeen?;
        }
        if exists j :: 0 <= j < n && events[j].ExamplesSeen?
                       && forall m :: j < m < n ==> !events[m].ScenarioSeen? {
          var j :| 0 <= j < n && events[j].ExamplesSeen?
                   && forall m :: j < m < n ==> !events[m].ScenarioSeen?;
          assert j < n - 1;
        }
      }
    }
  }

  /** The index of the last scenario header among the first n readings, if there is one. */
  function LastHeader(events: seq<LineEvent>, n: nat): (r: Option<nat>)
    requires n <= |events|
    ensures r.Some? ==> r.value < n && events[r.value].ScenarioSeen?
                        && forall m :: r.value < m < n ==> !events[m].ScenarioSeen?
    ensures r.None? ==> forall m :: 0 <= m < n ==> !events[m].ScenarioSeen?
  {
    if n == 0 then None
    else if events[n - 1].ScenarioSeen? then Some(n - 1)
    else LastHeader(events, n - 1)
  }

  /** Where the current scenario's steps begin: just after the last header, or at the top. */
  function StepsStart(events: seq<LineEvent>, n: nat): (r: nat)
    requires n <= |events|
    ensures r <= n
  {
    if LastHeader(events, n).Some? then LastHeader(events, n).value + 1 else 0
  }

  /** The keywords of the step readings at indices from up to (not including) to. */
  function StepsFrom(events: seq<LineEvent>, from: nat, to: nat): (r: seq<StepKeyword>)
    requires from <= to <= |events|
    ensures r == [] <==> forall m :: from <= m < to ==> !events[m].StepSeen?
  {
    if to == from then []
    else StepsFrom(events, from, to - 1)
         + (if events[to - 1].StepSeen? then [events[to - 1].keyword] else [])
  }

  /** The steps read since the last header among the first n readings. */
  function StepsSince(events: seq<LineEvent>, n: nat): seq<StepKeyword>
    requires n <= |events|
  {
    StepsFrom(events, StepsStart(events, n), n)
  }

  /** After n lines, the current scenario is the name of the last header read, or none before
      the first header, and the scenario's steps are the keywords of the step lines read since
      that header (since the top of the document before the first header). */
  lemma {:induction false} ScanScenarioMeaning(events: seq<LineEvent>, n: nat)
    requires n <= |events|
    ensures Scan(events, n).currentScenario
            == if LastHeader(events, n).Some? then Some(events[LastHeader(events, n).value].name)
               else None
    ensures Scan(events, n).scenarioSteps == StepsSince(events, n)
  {
    if n > 0 {
      ScanScenarioMeaning(events, n - 1);
      var e := events[n - 1];
      if !e.ScenarioSeen? {
        assert LastHeader(events, n) == LastHeader(events, n - 1);
        assert StepsStart(events, n) == StepsStart(events, n - 1);
      }
    }
  }

  /** A header with no header after it, before n, is the last one. */
  lemma LastHeaderAt(events: seq<LineEvent>, n: nat, h: nat)
    requires h < n <= |events| && events[h].ScenarioSeen?
    requires forall m :: h < m < n ==> !events[m].ScenarioSeen?
    ensures LastHeader(events, n) == Some(h)
  {
  }

  // ---------------------------------------------------------------------------------------
  // Diagnostics are appended, never rewritten, and carry the line being read.

  /** The errors one line adds to the scan, rule by rule. */
  function LineErrors(n: nat, e: LineEvent, st: ScanState): seq<ValidationError> {
    match e
    case FeatureSeen(bare) =>
      (if st.hasFeature then [Err(n, DuplicateFeature)] else [])
      + (if bare then [Err(n, FeatureWithoutDescription)] else [])
    case ScenarioSeen(name) =>
      (if !st.hasFeature then [Err(n, ScenarioBeforeFeature)] else [])
      + (if name == "" then [Err(n, ScenarioWithoutDescription)] else [])
    case ExamplesSeen =>
      if !Truthy(st.currentScenario) then [Err(n, ExamplesWithoutScenario)] else []
    case StepSeen(k, bare) =>
      (if !st.hasScenario then [Err(n, StepBeforeScenario)] else [])
      + (if bare then [Err(n, StepWithoutDescription(k))] else [])
    case _ => []
  }

  /** The warnings one line adds to the scan, rule by rule. */
  function LineWarnings(n: nat, e: LineEvent, st: ScanState): seq<ValidationError>
    requires n >= 1
  {
    match e
    case ScenarioSeen(_) =>
      if Truthy(st.currentScenario) && st.scenarioSteps == []
      then [Warn(n - 1, ScenarioWithoutSteps(st.currentScenario.value))] else []
    case StepSeen(k, _) => StepOrderWarnings(st.scenarioSteps + [k], n, k)
    case TableRowSeen(afterContext) =>
      if !st.inExamples && !afterContext then [Warn(n, TableOutOfContext)] else []
    case UnknownKeywordSeen(word) => [Warn(n, UnknownKeyword(word))]
    case _ => []
  }

  /** One line keeps what was reported before it and appends what its rules add. */
  lemma ApplyAppends(n: nat, e: LineEvent, st: ScanState)
    requires n >= 1
    ensures Apply(n, e, st).errors == st.errors + LineErrors(n, e, st)
    ensures Apply(n, e, st).warnings == st.warnings + LineWarnings(n, e, st)
  {
    match e
    case FeatureSeen(bare) =>
      assert Apply(n, e, st).errors
          == st.errors + (if st.hasFeature then [Err(n, DuplicateFeature)] else [])
                       + (if bare then [Err(n, FeatureWithoutDescription)] else []);
    case ScenarioSeen(name) =>
      assert Apply(n, e, st).errors
          == st.errors + (if !st.hasFeature then [Err(n, ScenarioBeforeFeature)] else [])
                       + (if name == "" then [Err(n, ScenarioWithoutDescription)] else []);
    case StepSeen(k, bare) =>
      assert Apply(n, e, st).errors
          == st.errors + (if !st.hasScenario then [Err(n, StepBeforeScenario)] else [])
                       + (if bare then [Err(n, StepWithoutDescription(k))] else []);
    case _ =>
  }

  /** An added error names the line itself, and so does an added warning, except the warning
      about the scenario before a header, which names the line above. */
  lemma LineDiagnosticsAtLine(n: nat, e: LineEvent, st: ScanState)
    requires n >= 1
    ensures forall d :: d in LineErrors(n, e, st) ==> d.line == n && d.severity == Error
    ensures forall d :: d in LineWarnings(n, e, st) ==>
              d.severity == Warning
              && if d.kind.ScenarioWithoutSteps? then d.line == n - 1 else d.line == n
    ensures forall d :: d in LineErrors(n, e, st) ==>
              !d.kind.MissingFeature? && (d.kind.StepWithoutDescription? ==> e.StepSeen? && e.bare)
    ensures forall d :: d in LineWarnings(n, e, st) ==>
              !d.kind.NoScenario?
              && (d.kind.ScenarioWithoutSteps? ==> d.kind.name != "")
  {
    if e.StepSeen? {
      var w := StepOrderWarnings(st.scenarioSteps + [e.keyword], n, e.keyword);
      assert forall d :: d in w ==> exists i :: 0 <= i < |w| && w[i] == d;
    }
  }

  /** Which errors a line adds, rule by rule. */
  lemma LineErrorsMeaning(n: nat, e: LineEvent, st: ScanState)
    ensures Err(n, DuplicateFeature) in LineErrors(n, e, st) <==> e.FeatureSeen? && st.hasFeature
    ensures Err(n, FeatureWithoutDescription) in LineErrors(n, e, st) <==> e == FeatureSeen(true)
    ensures Err(n, ScenarioBeforeFeature) in LineErrors(n, e, st)
            <==> e.ScenarioSeen? && !st.hasFeature
    ensures Err(n, ScenarioWithoutDescription) in LineErrors(n, e, st) <==> e == ScenarioSeen("")
    ensures Err(n, ExamplesWithoutScenario) in LineErrors(n, e, st)
            <==> e.ExamplesSeen? && !Truthy(st.currentScenario)
    ensures Err(n, StepBeforeScenario) in LineErrors(n, e, st) <==> e.StepSeen? && !st.hasScenario
    ensures forall k :: (Err(n, StepWithoutDescription(k)) in LineErrors(n, e, st)
                         <==> e == StepSeen(k, true))
  {
  }

  /** Which warnings about its own line a line adds, rule by rule. */
  lemma LineWarningsMeaning(n: nat, e: LineEvent, st: ScanState)
    requires n >= 1
    ensures Warn(n, TableOutOfContext) in LineWarnings(n, e, st)
            <==> e == TableRowSeen(false) && !st.inExamples
    ensures forall w :: (Warn(n, UnknownKeyword(w)) in LineWarnings(n, e, st)
                         <==> e == UnknownKeywordSeen(w))
  {
    if e.StepSeen? {
      var w := StepOrderWarnings(st.scenarioSteps + [e.keyword], n, e.keyword);
      assert forall d :: d in w ==> exists i :: 0 <= i < |w| && w[i] == d;
    }
  }

  /** After n lines, every error names one of the lines read so far. */
  lemma {:induction false} ScanErrorLines(events: seq<LineEvent>, n: nat)
    requires n <= |events|
    ensures forall d :: d in Scan(events, n).errors ==> 1 <= d.line <= n
  {
    if n > 0 {
      ScanErrorLines(events, n - 1);
      ApplyAppends(n, events[n - 1], Scan(events, n - 1));
    LineDiagnosticsAtLine(n, events[n - 1], Scan(events, n - 1));
    }
  }

  /** The errors that name line i + 1 are exactly those reading that line added. */
  lemma {:induction false} ScanErrorsAt(events: seq<LineEvent>, n: nat, i: nat, d: ValidationError)
    requires i < n <= |events|
    ensures d in Scan(events, n).errors && d.line == i + 1
            <==> d in LineErrors(i + 1, events[i], Scan(events, i)) && d.line == i + 1
  {
    ApplyAppends(n, events[n - 1], Scan(events, n - 1));
    LineDiagnosticsAtLine(n, events[n - 1], Scan(events, n - 1));
    if n == i + 1 {
      ScanErrorLines(events, i);
    } else {
      ScanErrorsAt(events, n - 1, i, d);
    }
  }

  /** After n lines, no error or warning is one of the end-of-scan kinds. */
  lemma {:induction false} ScanHasNoFinalKinds(events: seq<LineEvent>, n: nat)
    requires n <= |events|
    ensures forall d :: d in Scan(events, n).errors ==> !d.kind.MissingFeature?
    ensures forall d :: d in Scan(events, n).warnings ==> !d.kind.NoScenario?
  {
    if n > 0 {
      ScanHasNoFinalKinds(events, n - 1);
      var st := Scan(events, n - 1);
      ApplyAppends(n, events[n - 1], st);
      LineDiagnosticsAtLine(n, events[n - 1], st);
    }
  }

  // ---------------------------------------------------------------------------------------
  // The rules for whole documents.

  /** The lines validate reads and what it reads them as. */
  function LinesOf(content: string): seq<string> { Split(content, '\n') }

  /** The errors of a document at a line before the end-of-scan checks. */
  lemma DiagnoseErrorsAt(content: string, i: nat, d: ValidationError)
    requires i < |LinesOf(content)| && d.line == i + 1 && !d.kind.MissingFeature?
    ensures var lines := LinesOf(content);
      d in Diagnose(content).errors
      <==> d in LineErrors(i + 1, Read(lines, i), Scan(Events(lines), i))
  {
    var lines := LinesOf(content);
    var events := Events(lines);
    ScanErrorsAt(events, |lines|, i, d);
    assert events[i] == Read(lines, i);
  }

  /** A Feature line after the first one is an error at its own line, and only that. */
  lemma DuplicateFeatureRule(content: string, i: nat)
    requires i < |LinesOf(content)|
    ensures var lines := LinesOf(content);
      Err(i + 1, DuplicateFeature) in Diagnose(content).errors
      <==> Read(lines, i).FeatureSeen? && exists j :: 0 <= j < i && Read(lines, j).FeatureSeen?
  {
    var lines := LinesOf(content);
    var events := Events(lines);
    DiagnoseErrorsAt(content, i, Err(i + 1, DuplicateFeature));
    LineErrorsMeaning(i + 1, events[i], Scan(events, i));
    ScanHasFeature(events, i);
    assert events[i] == Read(lines, i);
    assert forall j :: 0 <= j < i ==> events[j] == Read(lines, j);
  }

  /** A scenario header before any Feature line is an error at the header's line. */
  lemma ScenarioBeforeFeatureRule(content: string, i: nat)
    requires i < |LinesOf(content)|
    ensures var lines := LinesOf(content);
      Err(i + 1, ScenarioBeforeFeature) in Diagnose(content).errors
      <==> Read(lines, i).ScenarioSeen? && forall j :: 0 <= j < i ==> !Read(lines, j).FeatureSeen?
  {
    var lines := LinesOf(content);
    var events := Events(lines);
    DiagnoseErrorsAt(content, i, Err(i + 1, ScenarioBeforeFeature));
    LineErrorsMeaning(i + 1, events[i], Scan(events, i));
    ScanHasFeature(events, i);
    assert events[i] == Read(lines, i);
    assert forall j :: 0 <= j < i ==> events[j] == Read(lines, j);
  }

  /** A step line before any scenario header is an error at the step's line. */
  lemma StepBeforeScenarioRule(content: string, i: nat)
    requires i < |LinesOf(content)|
    ensures var lines := LinesOf(content);
      Err(i + 1, StepBeforeScenario) in Diagnose(content).errors
      <==> Read(lines, i).StepSeen? && forall j :: 0 <= j < i ==> !Read(lines, j).ScenarioSeen?
  {
    var lines := LinesOf(content);
    var events := Events(lines);
    DiagnoseErrorsAt(content, i, Err(i + 1, StepBeforeScenario));
    LineErrorsMeaning(i + 1, events[i], Scan(events, i));
    ScanHasScenario(events, i);
    assert events[i] == Read(lines, i);
    assert forall j :: 0 <= j < i ==> events[j] == Read(lines, j);
  }

  /** With no Feature line the document draws the missing-Feature error at line 1, as its last
      error, and otherwise never. */
  lemma MissingFeatureRule(content: string)
    ensures var lines := LinesOf(content);
      var errors := Diagnose(content).errors;
      (Err(1, MissingFeature) in errors
       <==> forall j :: 0 <= j < |lines| ==> !Read(lines, j).FeatureSeen?)
      && (Err(1, MissingFeature) in errors ==> errors[|errors| - 1] == Err(1, MissingFeature))
  {
    var lines := LinesOf(content);
    var events := Events(lines);
    ScanHasFeature(events, |lines|);
    ScanHasNoFinalKinds(events, |lines|);
    assert forall j :: 0 <= j < |lines| ==> events[j] == Read(lines, j);
  }

  /** With no scenario header the document draws the suggestion warning at line 1, as its last
      warning, and otherwise never. */
  lemma NoScenarioRule(content: string)
    ensures var lines := LinesOf(content);
      var warnings := Diagnose(content).warnings;
      (Warn(1, NoScenario) in warnings
       <==> forall j :: 0 <= j < |lines| ==> !Read(lines, j).ScenarioSeen?)
      && (Warn(1, NoScenario) in warnings ==> warnings[|warnings| - 1] == Warn(1, NoScenario))
  {
    var lines := LinesOf(content);
    var events := Events(lines);
    ScanHasScenario(events, |lines|);
    ScanHasNoFinalKinds(events, |lines|);
    ScenarioNameNeedsHeader(events, |lines|);
    assert forall j :: 0 <= j < |lines| ==> events[j] == Read(lines, j);
  }

  /** A current scenario is only ever set by a header. */
  lemma {:induction false} ScenarioNameNeedsHeader(events: seq<LineEvent>, n: nat)
    requires n <= |events|
    ensures Scan(events, n).currentScenario.Some? ==> Scan(events, n).hasScenario
  {
    if n > 0 {
      ScenarioNameNeedsHeader(events, n - 1);
    }
  }

  // ---------------------------------------------------------------------------------------
  // Table rows.

  /** The warnings that name line i + 1, other than the one about the scenario above a
      header, are exactly those reading that line added. */
  lemma {:induction false} ScanWarningsAt(events: seq<LineEvent>, n: nat, i: nat,
                                          d: ValidationError)
    requires i < n <= |events| && !d.kind.ScenarioWithoutSteps?
    ensures d in Scan(events, n).warnings && d.line == i + 1
            <==> d in LineWarnings(i + 1, events[i], Scan(events, i)) && d.line == i + 1
  {
    ApplyAppends(n, events[n - 1], Scan(events, n - 1));
    LineDiagnosticsAtLine(n, events[n - 1], Scan(events, n - 1));
    if n == i + 1 {
      ScanWarningLines(events, i);
    } else {
      ScanWarningsAt(events, n - 1, i, d);
    }
  }

  /** After n lines, every warning other than the one about a scenario names a line read so
      far. */
  lemma {:induction false} ScanWarningLines(events: seq<LineEvent>, n: nat)
    requires n <= |events|
    ensures forall d :: d in Scan(events, n).warnings && !d.kind.ScenarioWithoutSteps? ==>
                            1 <= d.line <= n
  {
    if n > 0 {
      ScanWarningLines(events, n - 1);
      ApplyAppends(n, events[n - 1], Scan(events, n - 1));
    LineDiagnosticsAtLine(n, events[n - 1], Scan(events, n - 1));
    }
  }

  /** After n lines, every no-steps warning names a line above the last one read. */
  lemma {:induction false} ScanNoStepsLines(events: seq<LineEvent>, n: nat)
    requires n <= |events|
    ensures forall d :: d in Scan(events, n).warnings && d.kind.ScenarioWithoutSteps? ==>
                            d.line < n
  {
    if n > 0 {
      ScanNoStepsLines(events, n - 1);
      ApplyAppends(n, events[n - 1], Scan(events, n - 1));
      LineDiagnosticsAtLine(n, events[n - 1], Scan(events, n - 1));
    }
  }

  /** Over readings: a table row draws a warning exactly when it read as outside any data
      table and no Examples line came after the last scenario header above it. */
  lemma ScanTableRowRule(events: seq<LineEvent>, n: nat, i: nat)
    requires i < n <= |events|
    ensures Warn(i + 1, TableOutOfContext) in Scan(events, n).warnings
      <==> events[i] == TableRowSeen(false)
           && !exists j :: 0 <= j < i && events[j].ExamplesSeen?
                           && forall m :: j < m < i ==> !events[m].ScenarioSeen?
  {
    ScanWarningsAt(events, n, i, Warn(i + 1, TableOutOfContext));
    LineWarningsMeaning(i + 1, events[i], Scan(events, i));
    InExamplesMeaning(events, i);
  }

  /** A table row is warned exactly when the backward scan finds no step or Examples line
      above it before a Scenario line, and it is outside an Examples block. */
  lemma TableRowRule(content: string, i: nat)
    requires i < |LinesOf(content)|
    ensures var lines := LinesOf(content);
      var events := Events(lines);
      Warn(i + 1, TableOutOfContext) in Diagnose(content).warnings
      <==> events[i].TableRowSeen?
           && !(exists j :: 0 <= j < i && IsTableContext(lines[j])
                            && forall m :: j < m < i ==> !StopsTableScan(lines[m]))
           && !(exists j :: 0 <= j < i && events[j].ExamplesSeen?
                            && forall m :: j < m < i ==> !events[m].ScenarioSeen?)
  {
    var lines := LinesOf(content);
    var events := Events(lines);
    ScanTableRowRule(events, |lines|, i);
    assert events[i] == Read(lines, i);
    if events[i].TableRowSeen? {
      ReadTableRowContext(lines, i);
      InDataTableMeaning(lines, i);
    }
  }

  /** A table row reads with the verdict of the backward scan. */
  lemma ReadTableRowContext(lines: seq<string>, i: nat)
    requires i < |lines| && Read(lines, i).TableRowSeen?
    ensures Read(lines, i).afterContext == InDataTable(lines, i)
  {
  }

  // ---------------------------------------------------------------------------------------
  // The step-description error cannot fire.

  /** A step line always has something after its keyword: the line is trimmed, so the space
      after the keyword is followed by a character that trimming kept. */
  lemma ReadNeverBareStep(lines: seq<string>, i: nat)
    requires i < |lines|
    ensures !(Read(lines, i).StepSeen? && Read(lines, i).bare)
  {
    var t := JsTrim(lines[i]);
    var c := Classify(t);
    if c.StepLine? {
      StepContentNonBlank(lines[i], c.keyword);
    }
  }

  /** The text after the keyword of a trimmed step line is never blank. */
  lemma StepContentNonBlank(line: string, k: StepKeyword)
    requires StartsWith(JsTrim(line), KeywordText(k) + " ")
    ensures StepContent(JsTrim(line), k) != ""
  {
    var p := KeywordText(k) + " ";
    assert p[|p| - 1] == ' ';
    TrimmedRemainderNonBlank(JsTrim(line), p, JsWhitespace);
  }

  lemma {:induction false} ScanNoBareStepError(events: seq<LineEvent>, n: nat)
    requires n <= |events|
    requires forall i :: 0 <= i < |events| ==> !(events[i].StepSeen? && events[i].bare)
    ensures forall d :: d in Scan(events, n).errors ==> !d.kind.StepWithoutDescription?
  {
    if n > 0 {
      ScanNoBareStepError(events, n - 1);
      var st := Scan(events, n - 1);
      ApplyAppends(n, events[n - 1], st);
      LineDiagnosticsAtLine(n, events[n - 1], st);
    }
  }

  /** validate never reports a step without a description. */
  lemma StepDescriptionErrorUnreachable(content: string)
    ensures forall d :: d in Diagnose(content).errors ==> !d.kind.StepWithoutDescription?
  {
    var lines := LinesOf(content);
    var events := Events(lines);
    forall i | 0 <= i < |events|
      ensures !(events[i].StepSeen? && events[i].bare)
    {
      ReadNeverBareStep(lines, i);
    }
    ScanNoBareStepError(events, |lines|);
  }

  // ---------------------------------------------------------------------------------------
  // Scenarios without steps.

  /** A scenario with an empty name is never reported as having no steps. */
  lemma {:induction false} ScanNoStepsNamed(events: seq<LineEvent>, n: nat)
    requires n <= |events|
    ensures forall d :: d in Scan(events, n).warnings && d.kind.ScenarioWithoutSteps? ==>
                            d.kind.name != ""
  {
    if n > 0 {
      ScanNoStepsNamed(events, n - 1);
      var st := Scan(events, n - 1);
      ApplyAppends(n, events[n - 1], st);
      LineDiagnosticsAtLine(n, events[n - 1], st);
    }
  }

  lemma NoStepsWarningNamed(content: string)
    ensures forall d :: d in Diagnose(content).warnings && d.kind.ScenarioWithoutSteps? ==>
                            d.kind.name != ""
  {
    var lines := LinesOf(content);
    ScanNoStepsNamed(Events(lines), |lines|);
  }

  /** The no-steps warnings that name line i are exactly those reading line i + 1 added:
      a header reports the scenario above it at the line before its own. */
  lemma {:induction false} ScanNoStepsAt(events: seq<LineEvent>, n: nat, i: nat,
                                         d: ValidationError)
    requires i < n <= |events| && d.kind.ScenarioWithoutSteps? && d.line == i
    ensures d in Scan(events, n).warnings
            <==> d in LineWarnings(i + 1, events[i], Scan(events, i))
  {
    ApplyAppends(n, events[n - 1], Scan(events, n - 1));
    LineDiagnosticsAtLine(n, events[n - 1], Scan(events, n - 1));
    if n == i + 1 {
      ScanNoStepsLines(events, i);
    } else {
      ScanNoStepsAt(events, n - 1, i, d);
    }
  }

  /** The scan state calls for a no-steps warning about scenario w: the current scenario is
      named w, the name is not empty, and it has no steps yet. */
  predicate NoStepsDue(st: ScanState, w: string) {
    Truthy(st.currentScenario) && st.currentScenario.value == w && st.scenarioSteps == []
  }

  /** Over readings: the no-steps warning at line j is drawn by the header at index j or, at
      the end, by the last scenario, in the state the scan had reached there. */
  lemma ScanNoStepsRule(events: seq<LineEvent>, j: nat, w: string)
    requires j <= |events|
    ensures Warn(j, ScenarioWithoutSteps(w)) in Finish(|events|, Scan(events, |events|)).warnings
            <==> (j == |events| || events[j].ScenarioSeen?) && NoStepsDue(Scan(events, j), w)
  {
    var n := |events|;
    var d := Warn(j, ScenarioWithoutSteps(w));
    ScanNoStepsLines(events, n);
    if j < n {
      ScanNoStepsAt(events, n, j, d);
    }
  }

  /** Over readings: the state after j readings calls for the warning about w exactly when
      the last header among them is named w, w is not empty, and no step follows it. */
  lemma UnsteppedScenario(events: seq<LineEvent>, j: nat, w: string)
    requires j <= |events|
    ensures NoStepsDue(Scan(events, j), w)
            <==> w != ""
                 && exists h :: 0 <= h < j && events[h] == ScenarioSeen(w)
                                && forall m :: h < m < j ==> !events[m].ScenarioSeen?
                                                             && !events[m].StepSeen?
  {
    ScanScenarioMeaning(events, j);
    if NoStepsDue(Scan(events, j), w) {
      var h := LastHeader(events, j).value;
      assert 0 <= h < j && events[h] == ScenarioSeen(w);
    }
    if exists h :: 0 <= h < j && events[h] == ScenarioSeen(w)
                   && forall m :: h < m < j ==> !events[m].ScenarioSeen? && !events[m].StepSeen? {
      var h :| 0 <= h < j && events[h] == ScenarioSeen(w)
               && forall m :: h < m < j ==> !events[m].ScenarioSeen? && !events[m].StepSeen?;
      LastHeaderAt(events, j, h);
    }
  }

  /** A named scenario with no step line before the next header is warned about at the line
      just above that header, and a last such scenario at the document's last line: the
      warning at line j names scenario w exactly when line j + 1 is a header (or j is the
      line count), and the last header above it is named w, w is not empty and no step line
      lies between them. */
  lemma NoStepsRule(content: string, j: nat, w: string)
    requires j <= |LinesOf(content)|
    ensures var events := Events(LinesOf(content));
      Warn(j, ScenarioWithoutSteps(w)) in Diagnose(content).warnings
      <==> (j == |events| || events[j].ScenarioSeen?) && w != ""
           && exists h :: 0 <= h < j && events[h] == ScenarioSeen(w)
                          && forall m :: h < m < j ==> !events[m].ScenarioSeen?
                                                       && !events[m].StepSeen?
  {
    var events := Events(LinesOf(content));
    ScanNoStepsRule(events, j, w);
    UnsteppedScenario(events, j, w);
  }

  /** The order warnings one line adds compare its keyword with the last step of the
      current scenario. */
  lemma LineOrderRule(n: nat, e: LineEvent, st: ScanState)
    requires n >= 1
    ensures var before := st.scenarioSteps;
      (Warn(n, GivenAfterWhenOrThen) in LineWarnings(n, e, st)
       <==> e.StepSeen? && e.keyword == Given
            && before != [] && RanksBackwards(before[|before| - 1], Given))
      && (Warn(n, WhenAfterThen) in LineWarnings(n, e, st)
          <==> e.StepSeen? && e.keyword == When
               && before != [] && RanksBackwards(before[|before| - 1], When))
  {
    if e.StepSeen? {
      var steps := st.scenarioSteps + [e.keyword];
      StepOrderMeaning(steps, n, e.keyword);
      assert steps[|steps| - 1] == e.keyword;
      assert |steps| >= 2 ==> steps[|steps| - 2] == st.scenarioSteps[|st.scenarioSteps| - 1];
    }
  }

  /** Over readings: the order warnings at the line of reading i compare its keyword with
      the last step read since the header above it. */
  lemma ScanStepOrderRule(events: seq<LineEvent>, i: nat)
    requires i < |events|
    ensures var before := StepsSince(events, i);
      var warnings := Scan(events, |events|).warnings;
      (Warn(i + 1, GivenAfterWhenOrThen) in warnings
       <==> events[i].StepSeen? && events[i].keyword == Given
            && before != [] && RanksBackwards(before[|before| - 1], Given))
      && (Warn(i + 1, WhenAfterThen) in warnings
          <==> events[i].StepSeen? && events[i].keyword == When
               && before != [] && RanksBackwards(before[|before| - 1], When))
  {
    var st := Scan(events, i);
    ScanScenarioMeaning(events, i);
    LineOrderRule(i + 1, events[i], st);
    var given := Warn(i + 1, GivenAfterWhenOrThen);
    var when := Warn(i + 1, WhenAfterThen);
    ScanWarningsAt(events, |events|, i, given);
    ScanWarningsAt(events, |events|, i, when);
    assert given in Scan(events, |events|).warnings
           <==> given in LineWarnings(i + 1, events[i], st);
    assert when in Scan(events, |events|).warnings
           <==> when in LineWarnings(i + 1, events[i], st);
  }

  /** In a document, a Given step draws the order warning exactly when the step line before
      it in the same scenario is a When or Then step, and a When step draws its warning exactly
      when that step is a Then step (the order rule of StepOrderMeaning, with the steps read
      since the last header). */
  lemma StepOrderRule(content: string, i: nat)
    requires i < |LinesOf(content)|
    ensures var lines := LinesOf(content);
      var before := StepsSince(Events(lines), i);
      var warnings := Diagnose(content).warnings;
      (Warn(i + 1, GivenAfterWhenOrThen) in warnings
       <==> Read(lines, i).StepSeen? && Read(lines, i).keyword == Given
            && before != [] && RanksBackwards(before[|before| - 1], Given))
      && (Warn(i + 1, WhenAfterThen) in warnings
          <==> Read(lines, i).StepSeen? && Read(lines, i).keyword == When
               && before != [] && RanksBackwards(before[|before| - 1], When))
  {
    var lines := LinesOf(content);
    var events := Events(lines);
    assert events[i] == Read(lines, i);
    ScanStepOrderRule(events, i);
  }

  /** An Examples line is an error exactly when no scenario header lies above it or the last
      one above it has an empty name. */
  lemma ExamplesRule(content: string, i: nat)
    requires i < |LinesOf(content)|
    ensures var lines := LinesOf(content);
      Err(i + 1, ExamplesWithoutScenario) in Diagnose(content).errors
      <==> Read(lines, i).ExamplesSeen?
           && forall h :: 0 <= h < i && Read(lines, h).ScenarioSeen? ==>
                            Read(lines, h).name == ""
                            || exists m :: h < m < i && Read(lines, m).ScenarioSeen?
  {
    var lines := LinesOf(content);
    var events := Events(lines);
    var st := Scan(events, i);
    assert forall m :: 0 <= m < |lines| ==> events[m] == Read(lines, m);
    DiagnoseErrorsAt(content, i, Err(i + 1, ExamplesWithoutScenario));
    LineErrorsMeaning(i + 1, events[i], st);
    ScanScenarioMeaning(events, i);
    var last := LastHeader(events, i);
    if last.Some? {
      assert forall h :: 0 <= h < i && events[h].ScenarioSeen? && h != last.value ==>
                           h < last.value;
    }
  }

  // ---------------------------------------------------------------------------------------
  // Blank and comment lines.

  /** A line that trims to nothing or to a comment changes no scan variable. */
  lemma BlankOrCommentLineInert(lines: seq<string>, i: nat, st: ScanState)
    requires i < |lines|
    requires JsTrim(lines[i]) == "" || StartsWith(JsTrim(lines[i]), "#")
    ensures Apply(i + 1, Read(lines, i), st) == st
  {
    ReadSkipped(lines, i);
  }

  // ---------------------------------------------------------------------------------------
  // Rendering.

  /** The messages about Feature and Scenario headers are single lines. */
  lemma ScenarioMessagesOneLine()
    ensures '\n' !in Message(DuplicateFeature)
    ensures '\n' !in Message(FeatureWithoutDescription)
    ensures '\n' !in Message(ScenarioBeforeFeature)
    ensures '\n' !in Message(ScenarioWithoutDescription)
  {
  }

  /** The messages about Examples and steps are single lines. */
  lemma StepMessagesOneLine()
    ensures '\n' !in Message(ExamplesWithoutScenario)
    ensures '\n' !in Message(StepBeforeScenario)
    ensures '\n' !in Message(GivenAfterWhenOrThen)
  {
  }

  /** The messages about step order, tables and the whole document are single lines. */
  lemma DocumentMessagesOneLine()
    ensures '\n' !in Message(WhenAfterThen)
    ensures '\n' !in Message(TableOutOfContext)
    ensures '\n' !in Message(MissingFeature)
    ensures '\n' !in Message(NoScenario)
  {
  }

  /** A message is a single line unless the scenario name or word it quotes holds a break. */
  lemma MessageOneLine(k: Kind)
    requires k.ScenarioWithoutSteps? ==> '\n' !in k.name
    requires k.UnknownKeyword? ==> '\n' !in k.word
    ensures '\n' !in Message(k)
  {
    ScenarioMessagesOneLine();
    StepMessagesOneLine();
    DocumentMessagesOneLine();
  }

  lemma DiagnosticTextOneLine(d: ValidationError, n: nat)
    requires WellFormedDiagnostic(d, n)
    ensures '\n' !in ErrorText(d) && '\n' !in WarningText(d)
  {
    MessageOneLine(d.kind);
    var digits := NatToString(d.line);
    assert '\n' !in digits by {
      forall k | 0 <= k < |digits| ensures digits[k] != '\n' {
      }
    }
  }

  /** The rendered report of a document splits back into its header and one line per
      diagnostic, so it has 1 + |errors| + |warnings| lines. */
  lemma FormatLineCount(content: string)
    ensures var r := Diagnose(content);
      Split(Join(FormatLines(r), "\n"), '\n') == FormatLines(r)
      && |Split(Join(FormatLines(r), "\n"), '\n')| == 1 + |r.errors| + |r.warnings|
  {
    var r := Diagnose(content);
    var n := |LinesOf(content)|;
    DiagnoseWellFormed(content);
    var ls := FormatLines(r);
    forall k | 0 <= k < |ls| ensures '\n' !in ls[k] {
      if k == 0 {
      } else if k <= |r.errors| {
        DiagnosticTextOneLine(r.errors[k - 1], n);
      } else {
        DiagnosticTextOneLine(r.warnings[k - 1 - |r.errors|], n);
      }
    }
    SplitJoin(ls, '\n');
  }

  // ---------------------------------------------------------------------------------------
  // Examples.

  /** The empty document splits into one empty line: no Feature (error at line 1) and no
      scenario (warning at line 1). */
  lemma EmptyDocument()
    ensures Diagnose("") == ValidationResult(false, [Err(1, MissingFeature)], [Warn(1, NoScenario)])
  {
    var lines := LinesOf("");
    assert lines == [""];
    assert JsTrim("") == "";
    ReadSkipped(lines, 0);
    assert Events(lines) == [Skipped];
  }
}
