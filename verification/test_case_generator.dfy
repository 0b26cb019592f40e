/** The text builders of the test-case generator: grouping steps by type, the feature file
    (tag line, header, then the Given, When and Then lines), a step's text and pattern, the
    decorator of a generated step definition, and the function-name and file-name
    sanitisers. Absent optional text fields (description, decorator, usage example) are the
    empty string here, which the generator treats exactly like None. */
module TestCaseGenerator {
  import opened Wrappers
  import opened Strings
  import GV = GherkinValidator

  // ---------------------------------------------------------------------------------------
  // Steps.

  datatype StepType = Setup | Action | Verification

  /** One entry of a step's parameters list: its 'name' key, when present. */
  datatype Parameter = Parameter(name: Option<string>)

  /** The fields of a TestStep the generator reads; a step whose type is not set has None. */
  datatype TestStep = TestStep(
    name: string,
    stepType: Option<StepType>,
    parameters: seq<Parameter>,
    decorator: string,
    usageExample: string)

  const SetupKey := "setup"
  const ActionKey := "action"
  const VerificationKey := "verification"

  /** The steps of type t, in their input order. */
  function OfType(steps: seq<TestStep>, t: StepType): (r: seq<TestStep>)
    ensures |r| <= |steps|
  {
    if steps == [] then []
    else
      var last := steps[|steps| - 1];
      OfType(steps[..|steps| - 1], t) + (if last.stepType == Some(t) then [last] else [])
  }

  /** _group_steps_by_type: the three lists start empty and each step is appended to the
      list of its type; a step without a type is dropped. */
  method GroupStepsByType(steps: seq<TestStep>) returns (grouped: map<string, seq<TestStep>>)
    ensures grouped.Keys == {SetupKey, ActionKey, VerificationKey}
    ensures grouped[SetupKey] == OfType(steps, Setup)
    ensures grouped[ActionKey] == OfType(steps, Action)
    ensures grouped[VerificationKey] == OfType(steps, Verification)
  {
    grouped := map[SetupKey := [], ActionKey := [], VerificationKey := []];
    for i := 0 to |steps|
      invariant grouped.Keys == {SetupKey, ActionKey, VerificationKey}
      invariant grouped[SetupKey] == OfType(steps[..i], Setup)
      invariant grouped[ActionKey] == OfType(steps[..i], Action)
      invariant grouped[VerificationKey] == OfType(steps[..i], Verification)
    {
      var step := steps[i];
      assert steps[..i + 1][..i] == steps[..i];
      if step.stepType == Some(Setup) {
        grouped := grouped[SetupKey := grouped[SetupKey] + [step]];
      } else if step.stepType == Some(Action) {
        grouped := grouped[ActionKey := grouped[ActionKey] + [step]];
      } else if step.stepType == Some(Verification) {
        grouped := grouped[VerificationKey := grouped[VerificationKey] + [step]];
      }
    }
    assert steps[..|steps|] == steps;
  }

  /** Selecting by type distributes over concatenation: the order of the input is kept. */
  lemma {:induction false} OfTypeConcat(a: seq<TestStep>, b: seq<TestStep>, t: StepType)
    ensures OfType(a + b, t) == OfType(a, t) + OfType(b, t)
    decreases |b|
  {
    if b == [] {
      assert a + b == a;
    } else {
      var n := |b| - 1;
      assert (a + b)[..|a + b| - 1] == a + b[..n];
      OfTypeConcat(a, b[..n], t);
    }
  }

  /** A step is in the list of type t exactly when it is one of the steps and has type t. */
  lemma {:induction false} OfTypeMembers(steps: seq<TestStep>, t: StepType, x: TestStep)
    ensures x in OfType(steps, t) <==> x in steps && x.stepType == Some(t)
    decreases |steps|
  {
    if steps != [] {
      var init := steps[..|steps| - 1];
      OfTypeMembers(init, t, x);
      assert steps == init + [steps[|steps| - 1]];
    }
  }

  /** When every step has a type, the three lists together hold exactly the steps. */
  lemma {:induction false} GroupingPartitions(steps: seq<TestStep>)
    requires forall i :: 0 <= i < |steps| ==> steps[i].stepType.Some?
    ensures multiset(OfType(steps, Setup)) + multiset(OfType(steps, Action))
            + multiset(OfType(steps, Verification)) == multiset(steps)
    decreases |steps|
  {
    if steps != [] {
      var init := steps[..|steps| - 1];
      var last := steps[|steps| - 1];
      GroupingPartitions(init);
      assert steps == init + [last];
      OfTypeConcat(init, [last], Setup);
      OfTypeConcat(init, [last], Action);
      OfTypeConcat(init, [last], Verification);
      GroupingOne(last);
    }
  }

  lemma GroupingOne(step: TestStep)
    requires step.stepType.Some?
    ensures multiset(OfType([step], Setup)) + multiset(OfType([step], Action))
            + multiset(OfType([step], Verification)) == multiset([step])
  {
    assert [step][..0] == [];
    match step.stepType.value
    case Setup =>
      assert OfType([step], Setup) == [step];
      assert OfType([step], Action) == [] && OfType([step], Verification) == [];
    case Action =>
      assert OfType([step], Action) == [step];
      assert OfType([step], Setup) == [] && OfType([step], Verification) == [];
    case Verification =>
      assert OfType([step], Verification) == [step];
      assert OfType([step], Setup) == [] && OfType([step], Action) == [];
  }

  // ---------------------------------------------------------------------------------------
  // Step text and pattern.

  /** param.get('name', fallback) for the parameter at position i: the numbered fallback
      param<i+1> for the feature file, the fallback value for a step pattern. */
  function ParamName(p: Parameter, i: nat, numbered: bool): string {
    match p.name
    case Some(n) => n
    case None => if numbered then "param" + NatToString(i + 1) else "value"
  }

  /** The placeholder " {param_<name>}" for a parameter name. */
  function Placeholder(name: string): string {
    " " + "{" + "param_" + name + "}"
  }

  /** The placeholders of the parameters, in order. */
  function Placeholders(params: seq<Parameter>, numbered: bool): string {
    if params == [] then ""
    else
      var n := |params| - 1;
      Placeholders(params[..n], numbered) + Placeholder(ParamName(params[n], n, numbered))
  }

  /** _convert_step_to_gherkin: the usage example verbatim, or the name with a placeholder per
      parameter. */
  function StepText(step: TestStep): (text: string)
    ensures step.usageExample != "" ==> text == step.usageExample
    ensures step.usageExample == "" ==> StartsWith(text, step.name)
  {
    if step.usageExample != "" then step.usageExample
    else
      var suffix := Placeholders(step.parameters, true);
      assert (step.name + suffix)[..|step.name|] == step.name;
      step.name + suffix
  }

  /** _generate_step_pattern: as the step text, with value as the fallback parameter name. */
  function StepPattern(step: TestStep): (pattern: string)
    ensures step.usageExample != "" ==> pattern == step.usageExample
    ensures step.usageExample == "" ==> StartsWith(pattern, step.name)
  {
    if step.usageExample != "" then step.usageExample
    else
      var suffix := Placeholders(step.parameters, false);
      assert (step.name + suffix)[..|step.name|] == step.name;
      step.name + suffix
  }

  /** The gherkin keyword is passed in but not used. */
  method ConvertStepToGherkin(step: TestStep, gherkinKeyword: string) returns (stepText: string)
    ensures stepText == StepText(step)
  {
    if step.usageExample != "" {
      return step.usageExample;
    }
    stepText := step.name;
    if step.parameters != [] {
      for i := 0 to |step.parameters|
        invariant stepText == step.name + Placeholders(step.parameters[..i], true)
      {
        var paramName := ParamName(step.parameters[i], i, true);
        PlaceholdersGrow(step.name, step.parameters, i, true);
        stepText := stepText + Placeholder(paramName);
      }
      assert step.parameters[..|step.parameters|] == step.parameters;
    }
  }

  /** One more parameter adds its placeholder at the end. */
  lemma PlaceholdersGrow(name: string, parameters: seq<Parameter>, i: nat, numbered: bool)
    requires i < |parameters|
    ensures name + Placeholders(parameters[..i + 1], numbered)
            == name + Placeholders(parameters[..i], numbered)
               + Placeholder(ParamName(parameters[i], i, numbered))
  {
    assert parameters[..i + 1][..i] == parameters[..i];
  }

  method GenerateStepPattern(step: TestStep) returns (pattern: string)
    ensures pattern == StepPattern(step)
  {
    if step.usageExample != "" {
      return step.usageExample;
    }
    pattern := step.name;
    if step.parameters != [] {
      for i := 0 to |step.parameters|
        invariant pattern == step.name + Placeholders(step.parameters[..i], false)
      {
        var paramName := ParamName(step.parameters[i], i, false);
        PlaceholdersGrow(step.name, step.parameters, i, false);
        pattern := pattern + Placeholder(paramName);
      }
      assert step.parameters[..|step.parameters|] == step.parameters;
    }
  }

  /** Where every parameter has a name, the fallbacks are never used and the step text and the
      pattern agree. */
  lemma {:induction false} PlaceholdersAgree(params: seq<Parameter>)
    requires forall i :: 0 <= i < |params| ==> params[i].name.Some?
    ensures Placeholders(params, true) == Placeholders(params, false)
    decreases |params|
  {
    if params != [] {
      PlaceholdersAgree(params[..|params| - 1]);
    }
  }

  lemma TextMatchesPattern(step: TestStep)
    requires forall i :: 0 <= i < |step.parameters| ==> step.parameters[i].name.Some?
    ensures StepText(step) == StepPattern(step)
  {
    PlaceholdersAgree(step.parameters);
  }

  /** One placeholder per parameter: where no parameter name holds a '{', the placeholders
      hold exactly one '{' per parameter. */
  lemma {:induction false} PlaceholderCount(params: seq<Parameter>, numbered: bool)
    requires forall i :: 0 <= i < |params| ==> params[i].name.Some? ==> '{' !in params[i].name.value
    ensures Count(Placeholders(params, numbered), '{') == |params|
    decreases |params|
  {
    if params == [] {
      assert Placeholders(params, numbered) == "";
    } else {
      var n := |params| - 1;
      PlaceholderCount(params[..n], numbered);
      var name := ParamName(params[n], n, numbered);
      NameHasNoBrace(params[n], n, numbered);
      PlaceholderBrace(name);
      CountConcat(Placeholders(params[..n], numbered), Placeholder(name), '{');
    }
  }

  lemma PlaceholderBrace(name: string)
    requires '{' !in name
    ensures Count(Placeholder(name), '{') == 1
  {
    var tail := "param_" + name + "}";
    assert '{' !in tail;
    CountAbsent(tail, '{');
    CountAbsent(" ", '{');
    assert "{"[..0] == "";
    assert Count("{", '{') == 1;
    CountConcat(" ", "{", '{');
    CountConcat(" " + "{", tail, '{');
    assert Placeholder(name) == " " + "{" + tail;
  }

  lemma NameHasNoBrace(p: Parameter, i: nat, numbered: bool)
    requires p.name.Some? ==> '{' !in p.name.value
    ensures '{' !in ParamName(p, i, numbered)
  {
    if p.name.None? && numbered {
      var digits := NatToString(i + 1);
      assert forall k :: 0 <= k < |"param" + digits| ==> ("param" + digits)[k] != '{';
    }
  }

  // ---------------------------------------------------------------------------------------
  // Tag line and feature file.

  /** The tags of the stripped comma-separated pieces: '@' and the piece, for each piece that
      is not empty, in order. */
  function TagsOf(stripped: seq<string>): seq<string> {
    if stripped == [] then []
    else
      var n := |stripped| - 1;
      TagsOf(stripped[..n]) + (if stripped[n] != "" then ["@" + stripped[n]] else [])
  }

  /** The tag line: nothing for empty tags, otherwise the tags joined by single spaces and a
      line feed, even when no tag survives. */
  function TagLine(tags: string): (line: string)
    ensures tags == "" ==> line == ""
    ensures tags != "" ==> EndsWith(line, "\n")
  {
    if tags == "" then ""
    else
      var joined := Join(TagsOf(StripAll(Split(tags, ','))), " ");
      assert (joined + "\n")[|joined + "\n"| - 1..] == "\n";
      joined + "\n"
  }

  /** A tag is listed exactly when some stripped piece is not empty and the tag is '@'
      followed by it. */
  lemma TagsOfMeaning(stripped: seq<string>, tag: string)
    ensures tag in TagsOf(stripped)
            <==> exists i :: 0 <= i < |stripped| && stripped[i] != "" && tag == "@" + stripped[i]
  {
    if tag in TagsOf(stripped) {
      var i := TagSource(stripped, tag);
    }
    if exists i :: 0 <= i < |stripped| && stripped[i] != "" && tag == "@" + stripped[i] {
      var i :| 0 <= i < |stripped| && stripped[i] != "" && tag == "@" + stripped[i];
      TagListed(stripped, i);
    }
  }

  /** Every listed tag comes from a non-empty piece. */
  lemma {:induction false} TagSource(stripped: seq<string>, tag: string) returns (i: nat)
    requires tag in TagsOf(stripped)
    ensures i < |stripped| && stripped[i] != "" && tag == "@" + stripped[i]
    decreases |stripped|
  {
    var n := |stripped| - 1;
    var init := stripped[..n];
    if tag in TagsOf(init) {
      i := TagSource(init, tag);
      assert init[i] == stripped[i];
    } else {
      i := n;
    }
  }

  /** Every non-empty piece yields its tag. */
  lemma {:induction false} TagListed(stripped: seq<string>, i: nat)
    requires i < |stripped| && stripped[i] != ""
    ensures "@" + stripped[i] in TagsOf(stripped)
    decreases |stripped|
  {
    var n := |stripped| - 1;
    var init := stripped[..n];
    if i < n {
      assert init[i] == stripped[i];
      TagListed(init, i);
    }
  }

  /** Each tag is a single word when the tags text holds no whitespace: the tag line splits
      back on ' ' into the tags. */
  lemma TagLineSplits(tags: string)
    requires tags != "" && forall i :: 0 <= i < |tags| ==> !IsPySpace(tags[i])
    requires TagsOf(StripAll(Split(tags, ','))) != []
    ensures Split(TagLine(tags)[..|TagLine(tags)| - 1], ' ') == TagsOf(StripAll(Split(tags, ',')))
  {
    var stripped := StripAll(Split(tags, ','));
    var list := TagsOf(stripped);
    SplitPiecesAvoid(tags, ',', ' ');
    forall k | 0 <= k < |list| ensures ' ' !in list[k] {
      assert list[k] in list;
      TagsOfMeaning(stripped, list[k]);
      var i :| 0 <= i < |stripped| && stripped[i] != "" && list[k] == "@" + stripped[i];
      TrimAvoids(Split(tags, ',')[i], PyWhitespace, ' ');
    }
    var joined := Join(list, " ");
    assert TagLine(tags)[..|TagLine(tags)| - 1] == joined;
    SplitJoin(list, ' ');
  }

  /** A tags text of commas only still yields the line feed. */
  lemma CommaOnlyTags()
    ensures TagLine(",") == "\n"
  {
    assert Split(",", ',') == ["", ""] by {
      assert ","[1..] == "";
    }
    var stripped := StripAll(["", ""]);
    assert PyStrip("") == "";
    assert stripped == ["", ""];
    assert stripped[..1] == [""] && [""][..0] == [];
    assert TagsOf(stripped) == [];
  }

  /** The description line's text: the description, or the fallback naming the test case. */
  function Description(testCaseName: string, description: string): string {
    if description != "" then description else "Automated test case for " + testCaseName
  }

  /** The tag line, the Feature line, the description line, an empty line and the Scenario
      line. */
  function FeatureHeader(testCaseName: string, description: string, tags: string): string {
    TagLine(tags)
    + ("Feature: " + testCaseName + "\n")
    + ("  " + Description(testCaseName, description) + "\n")
    + "\n"
    + ("  Scenario: " + testCaseName + "\n")
  }

  /** What precedes a step's text on its line: four spaces, the keyword and a space. */
  function Indent(keyword: GV.StepKeyword): string {
    "    " + GV.KeywordText(keyword) + " "
  }

  /** The line of one step under a keyword. */
  function StepLine(keyword: GV.StepKeyword, step: TestStep): string {
    Indent(keyword) + StepText(step)
  }

  /** The lines of the steps of one group, each followed by a line feed. */
  function StepBlock(keyword: GV.StepKeyword, steps: seq<TestStep>): string {
    if steps == [] then ""
    else
      var n := |steps| - 1;
      StepBlock(keyword, steps[..n]) + (StepLine(keyword, steps[n]) + "\n")
  }

  /** grouped_steps.get(key, []) */
  function Group(grouped: map<string, seq<TestStep>>, key: string): seq<TestStep> {
    if key in grouped then grouped[key] else []
  }

  /** What _generate_feature_file returns. */
  function FeatureText(testCaseName: string, description: string,
                       grouped: map<string, seq<TestStep>>, tags: string): string {
    FeatureHeader(testCaseName, description, tags)
    + StepBlock(GV.Given, Group(grouped, SetupKey))
    + StepBlock(GV.When, Group(grouped, ActionKey))
    + StepBlock(GV.Then, Group(grouped, VerificationKey))
  }

  method GenerateFeatureFile(testCaseName: string, description: string,
                             groupedSteps: map<string, seq<TestStep>>, tags: string)
    returns (featureContent: string)
    ensures featureContent == FeatureText(testCaseName, description, groupedSteps, tags)
  {
    var tagLine := "";
    if tags != "" {
      var tagList := TagsOf(StripAll(Split(tags, ',')));
      tagLine := Join(tagList, " ") + "\n";
    }
    featureContent := tagLine
                      + ("Feature: " + testCaseName + "\n")
                      + ("  " + Description(testCaseName, description) + "\n")
                      + "\n"
                      + ("  Scenario: " + testCaseName + "\n");
    featureContent := AddStepLines(featureContent, GV.Given, Group(groupedSteps, SetupKey));
    featureContent := AddStepLines(featureContent, GV.When, Group(groupedSteps, ActionKey));
    featureContent := AddStepLines(featureContent, GV.Then, Group(groupedSteps, VerificationKey));
  }

  /** One of the three loops: a line per step of the group, under the group's keyword. */
  method AddStepLines(content: string, keyword: GV.StepKeyword, steps: seq<TestStep>)
    returns (featureContent: string)
    ensures featureContent == content + StepBlock(keyword, steps)
  {
    featureContent := content;
    for i := 0 to |steps|
      invariant featureContent == content + StepBlock(keyword, steps[..i])
    {
      var stepText := ConvertStepToGherkin(steps[i], GV.KeywordText(keyword));
      var line := "    " + GV.KeywordText(keyword) + " " + stepText + "\n";
      StepBlockGrows(content, keyword, steps, i);
      featureContent := featureContent + line;
    }
    assert steps[..|steps|] == steps;
  }

  /** One more step adds its line and a line feed at the end. */
  lemma StepBlockGrows(content: string, keyword: GV.StepKeyword, steps: seq<TestStep>, i: nat)
    requires i < |steps|
    ensures content + StepBlock(keyword, steps[..i + 1])
            == content + StepBlock(keyword, steps[..i]) + (StepLine(keyword, steps[i]) + "\n")
  {
    assert steps[..i + 1][..i] == steps[..i];
  }

  /** The keyword of each step line, top to bottom: Given per setup step, then When per
      action step, then Then per verification step. */
  function LineKeywords(grouped: map<string, seq<TestStep>>): (ks: seq<GV.StepKeyword>)
    ensures |ks| == |Group(grouped, SetupKey)| + |Group(grouped, ActionKey)|
                    + |Group(grouped, VerificationKey)|
  {
    seq(|Group(grouped, SetupKey)|, _ => GV.Given)
    + seq(|Group(grouped, ActionKey)|, _ => GV.When)
    + seq(|Group(grouped, VerificationKey)|, _ => GV.Then)
  }

  /** The generated steps never run backwards through Given, When and Then. */
  lemma LineKeywordsInOrder(grouped: map<string, seq<TestStep>>, i: nat, j: nat)
    requires i < j < |LineKeywords(grouped)|
    ensures var ks := LineKeywords(grouped); !GV.RanksBackwards(ks[i], ks[j])
  {
  }

  /** So the front end's order check finds nothing to warn about on any generated step. */
  lemma GeneratedStepsDrawNoOrderWarning(grouped: map<string, seq<TestStep>>, i: nat,
                                         lineNumber: nat)
    requires i < |LineKeywords(grouped)|
    ensures var ks := LineKeywords(grouped);
      GV.StepOrderWarnings(ks[..i + 1], lineNumber, ks[i]) == []
  {
    var ks := LineKeywords(grouped);
    GV.StepOrderMeaning(ks[..i + 1], lineNumber, ks[i]);
    if i >= 1 {
      LineKeywordsInOrder(grouped, i - 1, i);
      assert ks[..i + 1][i - 1] == ks[i - 1];
    }
  }

  /** The lines of a group's steps, without their line feeds. */
  function GroupLines(keyword: GV.StepKeyword, steps: seq<TestStep>): (lines: seq<string>)
    ensures |lines| == |steps|
  {
    seq(|steps|, i requires 0 <= i < |steps| => StepLine(keyword, steps[i]))
  }

  lemma {:induction false} StepBlockLines(keyword: GV.StepKeyword, steps: seq<TestStep>)
    ensures StepBlock(keyword, steps) == Terminated(GroupLines(keyword, steps))
    decreases |steps|
  {
    if steps != [] {
      var n := |steps| - 1;
      StepBlockLines(keyword, steps[..n]);
      assert GroupLines(keyword, steps)[..n] == GroupLines(keyword, steps[..n]);
    }
  }

  /** The tag line without its line feed, when there is one. */
  function TagLines(tags: string): (lines: seq<string>)
    ensures |lines| <= 1
  {
    if tags == "" then [] else [Join(TagsOf(StripAll(Split(tags, ','))), " ")]
  }

  lemma TagLineTerminated(tags: string)
    ensures Terminated(TagLines(tags)) == TagLine(tags)
  {
    if tags != "" {
      TerminatedSnoc([], TagLines(tags)[0]);
      assert [] + [TagLines(tags)[0]] == TagLines(tags);
    }
  }

  /** The lines above the steps. */
  function HeaderLines(testCaseName: string, description: string, tags: string): seq<string> {
    TagLines(tags)
    + ["Feature: " + testCaseName,
       "  " + Description(testCaseName, description),
       "",
       "  Scenario: " + testCaseName]
  }

  /** Every line of the file, the step lines in keyword order; the text ends with a line feed,
      so splitting it yields one more, empty, line. */
  function FeatureLines(testCaseName: string, description: string,
                        grouped: map<string, seq<TestStep>>, tags: string): seq<string> {
    HeaderLines(testCaseName, description, tags)
    + GroupLines(GV.Given, Group(grouped, SetupKey))
    + GroupLines(GV.When, Group(grouped, ActionKey))
    + GroupLines(GV.Then, Group(grouped, VerificationKey))
  }

  /** The header's four lines after the tag lines, the third one empty. */
  lemma HeaderBody(tagLines: seq<string>, a: string, b: string, c: string)
    ensures Terminated(tagLines) + (a + "\n") + (b + "\n") + "\n" + (c + "\n")
            == Terminated(tagLines + [a, b, "", c])
  {
    TerminatedSnoc(tagLines, a);
    TerminatedSnoc(tagLines + [a], b);
    TerminatedSnoc(tagLines + [a] + [b], "");
    TerminatedSnoc(tagLines + [a] + [b] + [""], c);
    assert tagLines + [a] + [b] + [""] + [c] == tagLines + [a, b, "", c];
  }

  lemma HeaderTerminated(testCaseName: string, description: string, tags: string)
    ensures FeatureHeader(testCaseName, description, tags)
            == Terminated(HeaderLines(testCaseName, description, tags))
  {
    TagLineTerminated(tags);
    HeaderBody(TagLines(tags), "Feature: " + testCaseName,
               "  " + Description(testCaseName, description), "  Scenario: " + testCaseName);
  }

  /** The feature text is its lines, each followed by a line feed. */
  lemma FeatureTextTerminated(testCaseName: string, description: string,
                              grouped: map<string, seq<TestStep>>, tags: string)
    ensures FeatureText(testCaseName, description, grouped, tags)
            == Terminated(FeatureLines(testCaseName, description, grouped, tags))
  {
    var h := HeaderLines(testCaseName, description, tags);
    var g := GroupLines(GV.Given, Group(grouped, SetupKey));
    var w := GroupLines(GV.When, Group(grouped, ActionKey));
    var t := GroupLines(GV.Then, Group(grouped, VerificationKey));
    HeaderTerminated(testCaseName, description, tags);
    StepBlockLines(GV.Given, Group(grouped, SetupKey));
    StepBlockLines(GV.When, Group(grouped, ActionKey));
    StepBlockLines(GV.Then, Group(grouped, VerificationKey));
    TerminatedConcat(h + g + w, t);
    TerminatedConcat(h + g, w);
    TerminatedConcat(h, g);
  }

  /** No line holds the character c. */
  predicate LinesAvoid(lines: seq<string>, c: char) {
    forall k :: 0 <= k < |lines| ==> c !in lines[k]
  }

  /** The tag line holds no character that the tags do not hold. */
  lemma TagsAvoid(tags: string, c: char)
    requires c !in tags && c != ' ' && c != '@'
    ensures c !in Join(TagsOf(StripAll(Split(tags, ','))), " ")
  {
    var pieces := Split(tags, ',');
    var stripped := StripAll(pieces);
    SplitPiecesAvoid(tags, ',', c);
    forall k | 0 <= k < |TagsOf(stripped)| ensures c !in TagsOf(stripped)[k] {
      var tag := TagsOf(stripped)[k];
      TagsOfMeaning(stripped, tag);
      var i :| 0 <= i < |stripped| && stripped[i] != "" && tag == "@" + stripped[i];
      TrimAvoids(pieces[i], PyWhitespace, c);
    }
    JoinAvoids(TagsOf(stripped), " ", c);
  }

  /** A name, description and tags without line feeds give header lines without line feeds. */
  lemma HeaderLinesAvoid(testCaseName: string, description: string, tags: string)
    requires '\n' !in testCaseName && '\n' !in description && '\n' !in tags
    ensures LinesAvoid(HeaderLines(testCaseName, description, tags), '\n')
  {
    if tags != "" {
      TagsAvoid(tags, '\n');
    }
  }

  /** Read back line by line, the generated file is its header lines and one line per step,
      Given steps first, then When, then Then, and a final empty line after the last line feed. */
  lemma FeatureLayout(testCaseName: string, description: string,
                      grouped: map<string, seq<TestStep>>, tags: string)
    requires LinesAvoid(FeatureLines(testCaseName, description, grouped, tags), '\n')
    ensures Split(FeatureText(testCaseName, description, grouped, tags), '\n')
            == FeatureLines(testCaseName, description, grouped, tags) + [""]
  {
    var lines := FeatureLines(testCaseName, description, grouped, tags);
    FeatureTextTerminated(testCaseName, description, grouped, tags);
    TerminatedJoin(lines);
    SplitJoin(lines + [""], '\n');
  }

  // ---------------------------------------------------------------------------------------
  // Decorator.

  /** _get_step_decorator: the stored decorator without its '@' signs, or the keyword of the
      step's type in lower case, when as the fallback. */
  function StepDecorator(step: TestStep): (r: string)
    ensures '@' !in r
    ensures step.decorator != "" ==> r == Remove(step.decorator, '@')
    ensures step.decorator == "" ==>
              r == match step.stepType
                   case Some(Setup) => "given"
                   case Some(Verification) => "then"
                   case _ => "when"
  {
    if step.decorator != "" then Remove(step.decorator, '@')
    else match step.stepType
      case Some(Setup) => "given"
      case Some(Action) => "when"
      case Some(Verification) => "then"
      case None => "when"
  }

  /** The keyword a step's lines get in the feature file, by the step's type. */
  function KeywordFor(t: StepType): GV.StepKeyword {
    match t
    case Setup => GV.Given
    case Action => GV.When
    case Verification => GV.Then
  }

  predicate IsUpper(c: char) {
    'A' <= c <= 'Z'
  }

  /** ASCII lower case, as str.lower() acts on ASCII letters. */
  function LowerChar(c: char): (r: char)
    ensures !IsUpper(r)
  {
    if IsUpper(c) then (c as int + 32) as char else c
  }

  function Lower(s: string): (r: string)
    ensures |r| == |s|
    ensures forall i :: 0 <= i < |s| ==> r[i] == LowerChar(s[i])
  {
    seq(|s|, i requires 0 <= i < |s| => LowerChar(s[i]))
  }

  /** Without a stored decorator, a typed step's definition is decorated with the keyword its
      line has in the feature file, in lower case. */
  lemma DecoratorMatchesKeyword(step: TestStep, t: StepType)
    requires step.decorator == "" && step.stepType == Some(t)
    ensures StepDecorator(step) == Lower(GV.KeywordText(KeywordFor(t)))
  {
    var r := StepDecorator(step);
    var k := GV.KeywordText(KeywordFor(t));
    assert |Lower(k)| == |r|;
    forall i | 0 <= i < |r| ensures Lower(k)[i] == r[i] {
    }
  }

  /** Removing a character twice removes nothing more. */
  lemma {:induction false} RemoveIdempotent(s: string, c: char)
    ensures Remove(Remove(s, c), c) == Remove(s, c)
    decreases |s|
  {
    if s != [] {
      RemoveIdempotent(s[1..], c);
      RemoveNoOp(Remove(s, c), c);
    }
  }

  lemma {:induction false} RemoveNoOp(s: string, c: char)
    requires c !in s
    ensures Remove(s, c) == s
    decreases |s|
  {
    if s != [] {
      assert s[1..] <= s[1..];
      assert c !in s[1..] by { assert forall k :: 0 <= k < |s[1..]| ==> s[1..][k] == s[k + 1]; }
      RemoveNoOp(s[1..], c);
      assert [s[0]] + s[1..] == s;
    }
  }

  /** A decorator stored as "@" followed by a name is used as that name: "@given" gives
      "given". */
  lemma DecoratorDropsAt(step: TestStep, name: string)
    requires step.decorator == "@" + name && '@' !in name
    ensures StepDecorator(step) == name
  {
    RemoveConcat("@", name, '@');
    RemoveOne('@', '@');
    RemoveNoOp(name, '@');
  }

  /** Storing a step's derived decorator back on it changes nothing. */
  lemma DecoratorIdempotent(step: TestStep)
    requires StepDecorator(step) != ""
    ensures StepDecorator(step.(decorator := StepDecorator(step))) == StepDecorator(step)
  {
    var d := StepDecorator(step);
    RemoveNoOp(d, '@');
  }

  // ---------------------------------------------------------------------------------------
  // Function names and file names.

  /** The regular-expression class \w, over ASCII. */
  predicate IsWordChar(c: char) {
    ('a' <= c <= 'z') || IsUpper(c) || ('0' <= c <= '9') || c == '_'
  }

  /** The characters the first substitution keeps: [\w\s] for function names, [\w\s-] for file
      names. */
  predicate Kept(c: char, dashes: bool) {
    IsWordChar(c) || IsPySpace(c) || (dashes && c == '-')
  }

  /** The characters whose runs the second substitution replaces: \s for function names,
      [-\s] for file names. */
  predicate InRun(c: char, dashes: bool) {
    IsPySpace(c) || (dashes && c == '-')
  }

  /** re.sub of the complement class with '': deletes every character that is not kept. */
  function KeepOnly(s: string, dashes: bool): (r: string)
    ensures forall i :: 0 <= i < |r| ==> Kept(r[i], dashes)
    ensures |r| <= |s|
  {
    if s == [] then ""
    else (if Kept(s[0], dashes) then [s[0]] else "") + KeepOnly(s[1..], dashes)
  }

  /** re.sub of a run class followed by + with '_': every maximal run becomes one '_'.
      inRun says whether the character before s was part of a run already replaced. */
  function CollapseRuns(s: string, dashes: bool, inRun: bool): (r: string)
    ensures forall i :: 0 <= i < |r| ==> !InRun(r[i], dashes)
    ensures forall i :: 0 <= i < |r| ==> r[i] == '_' || r[i] in s
  {
    if s == [] then ""
    else if InRun(s[0], dashes) then (if inRun then "" else "_") + CollapseRuns(s[1..], dashes, true)
    else [s[0]] + CollapseRuns(s[1..], dashes, false)
  }

  /** _generate_function_name */
  function FunctionName(stepName: string): (r: string)
    ensures StartsWith(r, "step_")
  {
    "step_" + CollapseRuns(KeepOnly(Lower(stepName), false), false, false)
  }

  /** _sanitize_filename */
  function SanitizeFilename(name: string): string {
    CollapseRuns(KeepOnly(Lower(name), true), true, false)
  }

  /** The characters of a sanitised text: ASCII lower-case letters, digits and '_'. */
  predicate IsFileChar(c: char) {
    ('a' <= c <= 'z') || ('0' <= c <= '9') || c == '_'
  }

  predicate AllWordChars(s: string) {
    forall i :: 0 <= i < |s| ==> IsWordChar(s[i])
  }

  predicate AllFileChars(s: string) {
    forall i :: 0 <= i < |s| ==> IsFileChar(s[i])
  }

  predicate NoUpper(s: string) {
    forall i :: 0 <= i < |s| ==> !IsUpper(s[i])
  }

  /** What the collapse leaves is made of kept characters that are not in a run, and '_':
      word characters, and no upper-case letter where the input has none. */
  lemma CollapseKeepsClass(s: string, dashes: bool, inRun: bool)
    requires forall i :: 0 <= i < |s| ==> Kept(s[i], dashes)
    ensures AllWordChars(CollapseRuns(s, dashes, inRun))
    ensures NoUpper(s) ==> AllFileChars(CollapseRuns(s, dashes, inRun))
  {
    var r := CollapseRuns(s, dashes, inRun);
    forall i | 0 <= i < |r| ensures IsWordChar(r[i]) && (NoUpper(s) ==> IsFileChar(r[i])) {
      if r[i] != '_' {
        var j :| 0 <= j < |s| && s[j] == r[i];
        assert Kept(s[j], dashes) && !InRun(s[j], dashes);
      }
    }
  }

  /** A generated function name is made of word characters only, so it holds no whitespace. */
  lemma FunctionNameIsIdentifier(stepName: string)
    ensures AllWordChars(FunctionName(stepName))
    ensures forall i :: 0 <= i < |FunctionName(stepName)| ==> !IsPySpace(FunctionName(stepName)[i])
  {
    var body := CollapseRuns(KeepOnly(Lower(stepName), false), false, false);
    CollapseKeepsClass(KeepOnly(Lower(stepName), false), false, false);
    var r := FunctionName(stepName);
    assert r == "step_" + body;
    forall i | 0 <= i < |r| ensures IsWordChar(r[i]) {
      if i >= 5 {
        assert r[i] == body[i - 5];
      }
    }
  }

  /** A sanitised file name is made of ASCII lower-case letters, digits and '_': no
      whitespace, no '-'. */
  lemma SanitizedChars(name: string)
    ensures AllFileChars(SanitizeFilename(name))
  {
    var lowered := Lower(name);
    KeepOnlyLowered(lowered, true);
    CollapseKeepsClass(KeepOnly(lowered, true), true, false);
  }

  /** Keeping characters of a lower-cased text keeps no upper-case letter. */
  lemma {:induction false} KeepOnlyLowered(s: string, dashes: bool)
    requires NoUpper(s)
    ensures NoUpper(KeepOnly(s, dashes))
    decreases |s|
  {
    if s != [] {
      assert forall i :: 0 <= i < |s[1..]| ==> s[1..][i] == s[i + 1];
      KeepOnlyLowered(s[1..], dashes);
      var head: string := if Kept(s[0], dashes) then [s[0]] else "";
      var rest := KeepOnly(s[1..], dashes);
      var r := KeepOnly(s, dashes);
      assert r == head + rest;
      forall i | 0 <= i < |r| ensures !IsUpper(r[i]) {
        if i < |head| {
          assert r[i] == s[0];
        } else {
          assert r[i] == rest[i - |head|];
        }
      }
    }
  }

  /** Text of file characters passes through every step unchanged. */
  lemma SanitizeFixesFileChars(s: string)
    requires AllFileChars(s)
    ensures SanitizeFilename(s) == s
  {
    assert Lower(s) == s;
    KeepOnlyAll(s, true);
    CollapseNoRuns(s, true, false);
  }

  lemma {:induction false} KeepOnlyAll(s: string, dashes: bool)
    requires forall i :: 0 <= i < |s| ==> Kept(s[i], dashes)
    ensures KeepOnly(s, dashes) == s
    decreases |s|
  {
    if s != [] {
      KeepOnlyAll(s[1..], dashes);
      assert [s[0]] + s[1..] == s;
    }
  }

  lemma {:induction false} CollapseNoRuns(s: string, dashes: bool, inRun: bool)
    requires forall i :: 0 <= i < |s| ==> !InRun(s[i], dashes)
    ensures CollapseRuns(s, dashes, inRun) == s
    decreases |s|
  {
    if s != [] {
      CollapseNoRuns(s[1..], dashes, false);
      assert [s[0]] + s[1..] == s;
    }
  }

  /** Sanitising is idempotent. */
  lemma SanitizeIdempotent(name: string)
    ensures SanitizeFilename(SanitizeFilename(name)) == SanitizeFilename(name)
  {
    SanitizedChars(name);
    SanitizeFixesFileChars(SanitizeFilename(name));
  }

  /** For a name without '-', the function name is "step_" and the sanitised file name. */
  lemma FunctionNameIsSanitized(stepName: string)
    requires '-' !in stepName
    ensures FunctionName(stepName) == "step_" + SanitizeFilename(stepName)
  {
    var lowered := Lower(stepName);
    assert '-' !in lowered;
    KeepOnlyWithoutDash(lowered);
    CollapseWithoutDash(KeepOnly(lowered, false), false);
  }

  lemma {:induction false} KeepOnlyWithoutDash(s: string)
    requires '-' !in s
    ensures KeepOnly(s, true) == KeepOnly(s, false)
    ensures '-' !in KeepOnly(s, false)
    decreases |s|
  {
    if s != [] {
      assert '-' !in s[1..];
      KeepOnlyWithoutDash(s[1..]);
    }
  }

  lemma {:induction false} CollapseWithoutDash(s: string, inRun: bool)
    requires '-' !in s
    ensures CollapseRuns(s, true, inRun) == CollapseRuns(s, false, inRun)
    decreases |s|
  {
    if s != [] {
      assert '-' !in s[1..];
      CollapseWithoutDash(s[1..], true);
      CollapseWithoutDash(s[1..], false);
    }
  }
}
