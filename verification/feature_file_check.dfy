/** The backend's check of a feature file (the FEATURE branch of validate_file_content): it
    splits the content on line feeds and asks two order-blind questions, whether some stripped
    line starts with "Feature:" and whether some stripped line starts with "Scenario:". The
    file lookup and the HTTP error for a missing file are not part of this model. */
module FeatureFileCheck {
  import opened Wrappers
  import opened Strings
  import opened GherkinValidator
  import opened GherkinProperties

  /** The validation_result dictionary: the valid flag and the error messages in the order
      they were appended. */
  datatype FileValidation = FileValidation(valid: bool, errors: seq<string>)

  const FeatureRequired := "Feature file must contain a 'Feature:' declaration"
  const ScenarioRequired := "Feature file should contain at least one 'Scenario:'"

  /** file.content or "": a missing content reads as the empty text. */
  function ContentText(content: Option<string>): (text: string)
    ensures content.Some? ==> text == content.value
    ensures content.None? ==> text == ""
  {
    if content.Some? then content.value else ""
  }

  /** any(line.strip().startswith(prefix) for line in lines[from:]), front to back. */
  function AnyLineStartsWith(lines: seq<string>, prefix: string, from: nat): (r: bool)
    requires from <= |lines|
    ensures r <==> exists i :: from <= i < |lines| && StartsWith(PyStrip(lines[i]), prefix)
    decreases |lines| - from
  {
    if from == |lines| then false
    else StartsWith(PyStrip(lines[from]), prefix) || AnyLineStartsWith(lines, prefix, from + 1)
  }

  /** Whether some stripped line starts with prefix. */
  predicate HasLineStarting(lines: seq<string>, prefix: string) {
    exists i :: 0 <= i < |lines| && StartsWith(PyStrip(lines[i]), prefix)
  }

  /** The verdict for the lines of a feature file. */
  function CheckLines(lines: seq<string>): (r: FileValidation)
    ensures r.valid <==> r.errors == []
    ensures r.valid <==> HasLineStarting(lines, "Feature:") && HasLineStarting(lines, "Scenario:")
    ensures FeatureRequired in r.errors <==> !HasLineStarting(lines, "Feature:")
    ensures ScenarioRequired in r.errors <==> !HasLineStarting(lines, "Scenario:")
    ensures |r.errors| <= 2
    ensures |r.errors| == 2 ==> r.errors == [FeatureRequired, ScenarioRequired]
  {
    var hasFeature := AnyLineStartsWith(lines, "Feature:", 0);
    var hasScenario := AnyLineStartsWith(lines, "Scenario:", 0);
    FileValidation(hasFeature && hasScenario,
                   (if hasFeature then [] else [FeatureRequired])
                   + (if hasScenario then [] else [ScenarioRequired]))
  }

  /** The FEATURE branch: the result starts valid with no errors and each failed question
      clears the flag and appends its message. */
  method ValidateFeatureContent(content: Option<string>) returns (result: FileValidation)
    ensures result == CheckLines(Split(ContentText(content), '\n'))
  {
    result := FileValidation(true, []);
    var text := ContentText(content);
    var lines := Split(text, '\n');
    var hasFeature := AnyLineStartsWith(lines, "Feature:", 0);
    if !hasFeature {
      result := result.(valid := false, errors := result.errors + [FeatureRequired]);
    }
    var hasScenario := AnyLineStartsWith(lines, "Scenario:", 0);
    if !hasScenario {
      result := result.(valid := false, errors := result.errors + [ScenarioRequired]);
    }
  }

  /** Missing content is the empty text, a single empty line: both messages, Feature first. */
  lemma MissingContentFails()
    ensures CheckLines(Split(ContentText(None), '\n'))
            == FileValidation(false, [FeatureRequired, ScenarioRequired])
  {
    var lines := Split(ContentText(None), '\n');
    assert lines == [""];
    assert PyStrip("") == "";
  }

  /** Whether some stripped line starts with prefix does not depend on the order of the
      lines. */
  lemma HasLineStartingIgnoresOrder(lines1: seq<string>, lines2: seq<string>, prefix: string)
    requires multiset(lines1) == multiset(lines2)
    ensures HasLineStarting(lines1, prefix) <==> HasLineStarting(lines2, prefix)
  {
    if HasLineStarting(lines1, prefix) {
      var i :| 0 <= i < |lines1| && StartsWith(PyStrip(lines1[i]), prefix);
      assert lines1[i] in multiset(lines2);
      var j :| 0 <= j < |lines2| && lines2[j] == lines1[i];
    }
    if HasLineStarting(lines2, prefix) {
      var j :| 0 <= j < |lines2| && StartsWith(PyStrip(lines2[j]), prefix);
      assert lines2[j] in multiset(lines1);
      var i :| 0 <= i < |lines1| && lines1[i] == lines2[j];
    }
  }

  /** The check does not look at the order of the lines. */
  lemma CheckIgnoresOrder(lines1: seq<string>, lines2: seq<string>)
    requires multiset(lines1) == multiset(lines2)
    ensures CheckLines(lines1) == CheckLines(lines2)
  {
    HasLineStartingIgnoresOrder(lines1, lines2, "Feature:");
    HasLineStartingIgnoresOrder(lines1, lines2, "Scenario:");
  }

  /** "Scenario Outline:" does not start with "Scenario:", so outlines alone fail the
      scenario question. */
  lemma OutlineIsNoScenario(t: string)
    requires StartsWith(t, "Scenario Outline:")
    ensures !StartsWith(t, "Scenario:")
  {
    assert t[8] == ' ';
  }

  /** A text that does not start with "Scenario" does not start with "Scenario:" either. */
  lemma NoScenarioWord(t: string)
    requires !StartsWith(t, "Scenario")
    ensures !StartsWith(t, "Scenario:")
  {
    if |t| >= 9 {
      assert t[..8] == t[..9][..8];
    }
  }

  lemma OutlinesOnlyFail(lines: seq<string>)
    requires HasLineStarting(lines, "Feature:")
    requires forall i :: 0 <= i < |lines| && StartsWith(PyStrip(lines[i]), "Scenario")
                         ==> StartsWith(PyStrip(lines[i]), "Scenario Outline:")
    ensures CheckLines(lines) == FileValidation(false, [ScenarioRequired])
  {
    forall i | 0 <= i < |lines| ensures !StartsWith(PyStrip(lines[i]), "Scenario:") {
      var t := PyStrip(lines[i]);
      if StartsWith(t, "Scenario") {
        OutlineIsNoScenario(t);
      } else {
        NoScenarioWord(t);
      }
    }
  }

  // ---------------------------------------------------------------------------------------
  // Against the front end's validator.

  /** Whether a line reads as a Feature header in the front end. */
  lemma ReadFeatureSeenIff(lines: seq<string>, j: nat)
    requires j < |lines|
    ensures Read(lines, j).FeatureSeen? <==> StartsWith(JsTrim(lines[j]), "Feature:")
  {
    var t := JsTrim(lines[j]);
    if StartsWith(t, "Feature:") {
      assert t[0] == 'F';
      ReadFeature(lines, j);
    }
  }

  /** Where JavaScript's trim and Python's strip agree on every line, the two checks agree on
      whether the Feature declaration is missing. */
  lemma FeatureQuestionAgrees(content: string)
    requires var lines := LinesOf(content);
      forall i :: 0 <= i < |lines| ==> JsTrim(lines[i]) == PyStrip(lines[i])
    ensures FeatureRequired in CheckLines(LinesOf(content)).errors
            <==> Err(1, MissingFeature) in Diagnose(content).errors
  {
    var lines := LinesOf(content);
    MissingFeatureRule(content);
    forall j | 0 <= j < |lines|
      ensures Read(lines, j).FeatureSeen? <==> StartsWith(PyStrip(lines[j]), "Feature:")
    {
      ReadFeatureSeenIff(lines, j);
    }
  }

  /** A line that starts with "Scenario:" is neither blank, a comment nor a Feature line. */
  lemma ScenarioLineIsNoFeature(t: string)
    requires StartsWith(t, "Scenario:")
    ensures t != "" && !StartsWith(t, "#") && !StartsWith(t, "Feature:")
  {
    assert t[0] == 'S';
  }

  /** The front end rejects a document whose first line is a scenario header. */
  lemma ScenarioFirstRejected(content: string)
    requires var lines := LinesOf(content);
      |lines| >= 1 && StartsWith(JsTrim(lines[0]), "Scenario:")
    ensures Err(1, ScenarioBeforeFeature) in Diagnose(content).errors
    ensures !Diagnose(content).isValid
  {
    var lines := LinesOf(content);
    ScenarioLineIsNoFeature(JsTrim(lines[0]));
    ReadScenario(lines, 0);
    assert Read(lines, 0).ScenarioSeen?;
    ScenarioBeforeFeatureRule(content, 0);
  }

  /** A scenario header above the Feature line passes here, while the front end reports the
      header as coming before the Feature. */
  lemma ScenarioFirstDisagrees(content: string)
    requires var lines := LinesOf(content);
      |lines| >= 2 && JsTrim(lines[0]) == PyStrip(lines[0])
      && StartsWith(PyStrip(lines[0]), "Scenario:") && StartsWith(PyStrip(lines[1]), "Feature:")
    ensures CheckLines(LinesOf(content)).valid
    ensures Err(1, ScenarioBeforeFeature) in Diagnose(content).errors
    ensures !Diagnose(content).isValid
  {
    ScenarioFirstRejected(content);
  }
}
