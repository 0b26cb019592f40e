# QA management core, modelled in Dafny

This project models the self-contained logic of the QA management system:

- **The Gherkin structure validator of the editor front end** (`GherkinValidator.validate`, `validateStepOrder`, `isInDataTable` and `formatValidationResult`).
  - `validate` splits a feature text on line feeds and makes one forward pass. It keeps five scan variables and appends errors and warnings, each with a 1-based line number.
  - Module `GherkinValidator` states what each line reads as (`Read`), what it does to the scan variables (`Apply`) and what the whole pass returns (`Scan`, `Finish`, `Diagnose`).
  - Its methods do the same work with mutable locals and loops, as the front end does, and are proved equal to those functions.
  - Module `GherkinProperties` proves the validator's rules from them: which line draws which diagnostic, what the scan variables mean, and that one error can never fire.
- **The backend's feature-file check** (the `FEATURE` branch of `validate_file_content`). This is module `FeatureFileCheck`, with lemmas that compare it with the front end's validator.
- **The two Gherkin table parsers of the student-management step definitions** (`parse_table_data`, `parse_multiple_students_data`). This is module `TableParsers`.
- **The text builders of the test-case generator** (module `TestCaseGenerator`):
  - grouping steps by type;
  - the feature file;
  - step text and step patterns;
  - the decorator;
  - function-name and file-name sanitising.
- **The naming rule of stored test-case files** (`file_extension`, `full_name`). This is module `TestCaseFiles`.
- **The tree helpers shared by test cases, test-data nodes and trade templates** (`full_path`, `get_all_children`), and `TestData.update_record_count`. This is module `TreeNodes`.

`Strings` holds the string primitives the sources use: `split`, `join`, `strip`/`trim`, `startswith`, `endswith` and `replace`. `Wrappers` holds `Option`.

A missing optional text field, such as a description, decorator, usage example or tag string, is the empty string here. Every source expression that reads one (`x or ...`, `if x:`) treats `None` and `""` alike.

The front end's diagnostics are listed in scan order, not sorted by line. The end-of-scan diagnostics (missing Feature and no scenario, both at line 1, and a last scenario without steps at the last line) come after every per-line one, as the code appends them. A description of the validator as returning diagnostics in ascending line order would not match the code. The model follows the code.

## Model

| member | source | states |
|---|---|---|
| GherkinValidator.KeywordText | frontend/src/utils/gherkinValidator.ts:23 | each step keyword is at least three letters, with no space and no colon |
| GherkinValidator.FindStepKeyword | frontend/src/utils/gherkinValidator.ts:117-119 | the keyword found is one the trimmed line starts with, followed by a space; when none is found, no keyword followed by a space starts the line |
| GherkinValidator.FindIn | frontend/src/utils/gherkinValidator.ts:117-119 | `find` over a keyword list: the result is in the list and starts the line followed by a space, and a miss means no listed keyword does |
| GherkinValidator.Classify | frontend/src/utils/gherkinValidator.ts:44-177 | the first matching branch decides; a scenario header holds a colon, and a step line starts with its keyword and a space |
| GherkinValidator.HeaderHasColon | frontend/src/utils/gherkinValidator.ts:70-89 | a `Scenario:` or `Scenario Outline:` header always holds the ':' that `indexOf(':')` looks for |
| GherkinValidator.StepOrderWarnings | frontend/src/utils/gherkinValidator.ts:215-241 | the order check pushes at most one warning, at the step's line, of one of the two order kinds |
| GherkinValidator.StepOrderMeaning | frontend/src/utils/gherkinValidator.ts:221-240 | a warning is pushed exactly when the new keyword ranks below the one immediately before it in Given < When < Then; And and But never draw one |
| GherkinValidator.ValidateStepOrder | frontend/src/utils/gherkinValidator.ts:215-241 | the method appends to the warnings exactly the order warnings of the step list |
| GherkinValidator.IsInDataTable | frontend/src/utils/gherkinValidator.ts:246-263 | the reverse loop with continue and break returns the backward-scan verdict |
| GherkinValidator.InDataTablePassesTo | frontend/src/utils/gherkinValidator.ts:248-260 | lines that do not stop the scan hand the verdict to the lines above them |
| GherkinValidator.SkippedLinesExtend | frontend/src/utils/gherkinValidator.ts:250 | a blank or comment line extends a stretch of lines that do not stop the scan |
| GherkinValidator.SkippedLinesDoNotStop | frontend/src/utils/gherkinValidator.ts:250 | blank and comment lines never stop the backward scan |
| GherkinValidator.CommentIsNoHeader | frontend/src/utils/gherkinValidator.ts:250-259 | a comment line is no step, no Examples line and no Scenario line |
| GherkinValidator.InDataTableStep | frontend/src/utils/gherkinValidator.ts:248-260 | one step of the scan: a context line answers yes, a Scenario line answers no, any other line defers to the lines above |
| GherkinValidator.BackScanMeaning | frontend/src/utils/gherkinValidator.ts:248-262 | an abstract backward scan says yes exactly when a context line lies above with nothing that stops the scan in between |
| GherkinValidator.TablesOfLines | frontend/src/utils/gherkinValidator.ts:246-263 | the verdicts, context flags and stop flags of any document exist and agree with the scan line by line |
| GherkinValidator.TablesAreBackScan | frontend/src/utils/gherkinValidator.ts:246-263 | the scan over a document is a backward scan in the abstract sense |
| GherkinValidator.TableStepAt | frontend/src/utils/gherkinValidator.ts:248-260 | the verdict below line i is "line i is a context line, or line i does not stop the scan and the verdict below line i-1 holds" |
| GherkinValidator.InDataTableMeaning | frontend/src/utils/gherkinValidator.ts:246-263 | a row is inside a data table exactly when a step or Examples line lies above it with no Scenario line in between, blank and comment lines skipped |
| GherkinValidator.ReadSkipped | frontend/src/utils/gherkinValidator.ts:44-46 | a line that trims to nothing or starts with '#' reads as skipped |
| GherkinValidator.ReadFeature | frontend/src/utils/gherkinValidator.ts:49-67 | a `Feature:` line reads as a Feature header, bare exactly when it trims to `Feature:` |
| GherkinValidator.ReadScenario | frontend/src/utils/gherkinValidator.ts:70-101 | a non-Feature `Scenario:` or `Scenario Outline:` line reads as a header named by the trimmed text after its first colon |
| GherkinValidator.ReadExamples | frontend/src/utils/gherkinValidator.ts:104-114 | an `Examples:` line that passed the earlier tests reads as Examples |
| GherkinValidator.ReadStep | frontend/src/utils/gherkinValidator.ts:117-145 | a step line reads as a step with the first matching keyword, bare when nothing follows the keyword |
| GherkinValidator.ReadTableRow | frontend/src/utils/gherkinValidator.ts:148-157 | a line that starts and ends with a pipe character and passed the earlier tests reads as a table row carrying the backward-scan verdict |
| GherkinValidator.ReadTag | frontend/src/utils/gherkinValidator.ts:160-163 | an '@' line that passed the earlier tests reads as skipped |
| GherkinValidator.ReadOther | frontend/src/utils/gherkinValidator.ts:166-176 | any other line reads as an unknown keyword exactly when its first word ends in ':' and names no known keyword |
| GherkinValidator.Events | frontend/src/utils/gherkinValidator.ts:39-41 | the readings of all lines, line by line |
| GherkinValidator.WellFormedWiden | frontend/src/utils/gherkinValidator.ts:40 | a diagnostic naming one of the first n lines names one of the first n + 1 |
| GherkinValidator.WellFormedConcat | frontend/src/utils/gherkinValidator.ts:30-31 | appending well-formed diagnostics keeps a list well formed |
| GherkinValidator.JsTrimNoBreak | frontend/src/utils/gherkinValidator.ts:41 | trimming a line adds no line break |
| GherkinValidator.ReadOneLine | frontend/src/utils/gherkinValidator.ts:89-168 | what a line reads as (a scenario name, an unknown word) holds no line break |
| GherkinValidator.FirstPieceIsPrefix | frontend/src/utils/gherkinValidator.ts:166-168 | `split(' ')[0]` is a prefix of the line |
| GherkinValidator.ApplyWellFormed | frontend/src/utils/gherkinValidator.ts:39-177 | one line keeps every diagnostic on a line read so far, with its own severity and a one-line payload |
| GherkinValidator.ScanWellFormed | frontend/src/utils/gherkinValidator.ts:39-177 | after n lines every diagnostic is well formed for those n lines |
| GherkinValidator.DiagnoseWellFormed | frontend/src/utils/gherkinValidator.ts:180-209 | `isValid` holds exactly when there are no errors; errors and warnings carry their severities and name a line from 1 to `lines.length` |
| GherkinValidator.ReadLine | frontend/src/utils/gherkinValidator.ts:41-176 | the callback's tests, in order, return the line's reading |
| GherkinValidator.ApplyLine | frontend/src/utils/gherkinValidator.ts:49-176 | the callback's updates of the scan variables give the line's effect |
| GherkinValidator.Validate | frontend/src/utils/gherkinValidator.ts:28-210 | the forward pass with mutable scan variables returns the result the rules define |
| GherkinValidator.ScanLines | frontend/src/utils/gherkinValidator.ts:39-177 | the forEach loop leaves the scan variables the fold of the line readings gives |
| GherkinValidator.FinishScan | frontend/src/utils/gherkinValidator.ts:180-209 | the end-of-scan checks append the missing-Feature error, the no-scenario warning and the last scenario's no-steps warning at `lines.length`, then decide validity |
| GherkinValidator.FormatLines | frontend/src/utils/gherkinValidator.ts:268-286 | the report's lines: the pass or fail header, then one line per error, then one per warning, in list order |
| GherkinValidator.FormatValidationResult | frontend/src/utils/gherkinValidator.ts:268-286 | the pushed messages are joined by line feeds |
| GherkinProperties.ScanHasFeature | frontend/src/utils/gherkinValidator.ts:57 | `hasFeature` holds exactly when some line read so far is a Feature header |
| GherkinProperties.ScanHasScenario | frontend/src/utils/gherkinValidator.ts:88 | `hasScenario` holds exactly when some line read so far is a scenario header |
| GherkinProperties.InExamplesMeaning | frontend/src/utils/gherkinValidator.ts:91-112 | `inExamples` holds exactly when an Examples line came after the last scenario header |
| GherkinProperties.ApplyAppends | frontend/src/utils/gherkinValidator.ts:51-174 | a line keeps every earlier diagnostic and only appends |
| GherkinProperties.LineDiagnosticsAtLine | frontend/src/utils/gherkinValidator.ts:51-174 | a line's errors name the line itself; its warnings do too, except the no-steps warning, which names the line above; the empty step-description error needs a bare step, and the no-steps warning names a non-empty scenario |
| GherkinProperties.LineErrorsMeaning | frontend/src/utils/gherkinValidator.ts:50-143 | rule by rule, which error a line adds: duplicate Feature, bare Feature, scenario before Feature, unnamed scenario, Examples without a scenario, step before a scenario, bare step |
| GherkinProperties.LineWarningsMeaning | frontend/src/utils/gherkinValidator.ts:148-175 | a table row is warned exactly when it is outside a data table and outside Examples; an unknown keyword is warned with its word |
| GherkinProperties.ScanErrorLines | frontend/src/utils/gherkinValidator.ts:39-177 | every error of the scan names a line read so far |
| GherkinProperties.ScanErrorsAt | frontend/src/utils/gherkinValidator.ts:39-177 | the errors naming line i + 1 are exactly those that line added |
| GherkinProperties.ScanHasNoFinalKinds | frontend/src/utils/gherkinValidator.ts:180-194 | the missing-Feature error and the no-scenario warning are only added after the scan |
| GherkinProperties.DiagnoseErrorsAt | frontend/src/utils/gherkinValidator.ts:39-186 | an error at line i + 1, other than the missing Feature, is in the result exactly when that line added it |
| GherkinProperties.DuplicateFeatureRule | frontend/src/utils/gherkinValidator.ts:49-56 | every Feature line after the first draws the duplicate error at its own line, and only those |
| GherkinProperties.ScenarioBeforeFeatureRule | frontend/src/utils/gherkinValidator.ts:70-77 | a scenario header draws the ordering error exactly when no Feature line came before it |
| GherkinProperties.StepBeforeScenarioRule | frontend/src/utils/gherkinValidator.ts:121-128 | a step draws the ordering error exactly when no scenario header came before it |
| GherkinProperties.MissingFeatureRule | frontend/src/utils/gherkinValidator.ts:180-186 | the missing-Feature error at line 1 is present exactly when no line is a Feature header, and then it is the last error |
| GherkinProperties.NoScenarioRule | frontend/src/utils/gherkinValidator.ts:188-194 | the no-scenario warning at line 1 is present exactly when no line is a scenario header, and then it is the last warning |
| GherkinProperties.ScenarioNameNeedsHeader | frontend/src/utils/gherkinValidator.ts:88-89 | a current scenario is only ever set by a header |
| GherkinProperties.ScanWarningsAt | frontend/src/utils/gherkinValidator.ts:39-177 | the warnings naming line i + 1, other than no-steps, are exactly those that line added |
| GherkinProperties.ScanWarningLines | frontend/src/utils/gherkinValidator.ts:39-177 | every warning other than no-steps names a line read so far |
| GherkinProperties.ScanTableRowRule | frontend/src/utils/gherkinValidator.ts:148-157 | over readings: a row is warned exactly when it reads as outside a data table and no Examples line follows the last scenario header above it |
| GherkinProperties.TableRowRule | frontend/src/utils/gherkinValidator.ts:148-263 | a row is warned exactly when the backward scan finds no step or Examples line before a Scenario line and the row is outside an Examples block |
| GherkinProperties.ReadTableRowContext | frontend/src/utils/gherkinValidator.ts:149 | a table row carries the verdict of `isInDataTable` for its index |
| GherkinProperties.ReadNeverBareStep | frontend/src/utils/gherkinValidator.ts:117-137 | a trimmed line that starts with a keyword and a space always has a non-blank remainder |
| GherkinProperties.ScanNoBareStepError | frontend/src/utils/gherkinValidator.ts:136-143 | with no bare step among the readings, the scan draws no step-description error |
| GherkinProperties.StepDescriptionErrorUnreachable | frontend/src/utils/gherkinValidator.ts:136-143 | `validate` never reports a step without a description: that branch is dead |
| GherkinProperties.ScanNoStepsNamed | frontend/src/utils/gherkinValidator.ts:80-86 | every no-steps warning of the scan names a non-empty scenario |
| GherkinProperties.NoStepsWarningNamed | frontend/src/utils/gherkinValidator.ts:80-203 | a scenario with an empty name never draws the no-steps warning |
| GherkinProperties.LastHeader | frontend/src/utils/gherkinValidator.ts:88-90 | the index of the last scenario header among the lines read: a header, with no header after it; none when no header was read |
| GherkinProperties.StepsFrom | frontend/src/utils/gherkinValidator.ts:128-130 | the keywords of the step lines in a stretch of lines, empty exactly when the stretch holds no step line |
| GherkinProperties.ScanScenarioMeaning | frontend/src/utils/gherkinValidator.ts:35-130 | after n lines `currentScenario` is the name of the last header read, or null before the first, and `scenarioSteps` holds the keywords of the step lines read since that header |
| GherkinProperties.LastHeaderAt | frontend/src/utils/gherkinValidator.ts:88-90 | a header with no header after it is the last header |
| GherkinProperties.ScanNoStepsAt | frontend/src/utils/gherkinValidator.ts:80-86 | a no-steps warning naming line i is the one the header on line i + 1 added |
| GherkinProperties.ScanNoStepsLines | frontend/src/utils/gherkinValidator.ts:80-86 | every no-steps warning of the scan names a line above the last one read |
| GherkinProperties.ScanNoStepsRule | frontend/src/utils/gherkinValidator.ts:80-203 | the no-steps warning at line j comes from the header on line j + 1 or from the end of the document, in the state reached there |
| GherkinProperties.UnsteppedScenario | frontend/src/utils/gherkinValidator.ts:80-130 | the state calls for a no-steps warning about w exactly when the last header read is named w, w is not empty, and no step line follows it |
| GherkinProperties.NoStepsRule | frontend/src/utils/gherkinValidator.ts:80-203 | a scenario named w draws the no-steps warning at line j exactly when w is not empty, no step line lies between its header and line j + 1, and line j + 1 is the next header or j is the line count |
| GherkinProperties.LineOrderRule | frontend/src/utils/gherkinValidator.ts:128-133 | a step line draws an order warning exactly when its keyword ranks below the last step of the current scenario |
| GherkinProperties.ScanStepOrderRule | frontend/src/utils/gherkinValidator.ts:117-241 | over readings: a Given step is warned after a When or Then step of the same scenario, and a When step after a Then step, and nothing else draws these warnings |
| GherkinProperties.StepOrderRule | frontend/src/utils/gherkinValidator.ts:117-241 | in a document: a Given line is warned exactly when the step line before it since the last header is a When or Then line, and a When line exactly when that line is a Then line |
| GherkinProperties.ExamplesRule | frontend/src/utils/gherkinValidator.ts:104-114 | an Examples line is an error exactly when no header lies above it or the last header above it has an empty name |
| GherkinProperties.StepContentNonBlank | frontend/src/utils/gherkinValidator.ts:117-137 | after a keyword and a space, a trimmed step line always holds a non-blank description |
| GherkinProperties.BlankOrCommentLineInert | frontend/src/utils/gherkinValidator.ts:44-46 | a blank or comment line changes no scan variable and adds no diagnostic |
| GherkinProperties.ScenarioMessagesOneLine | frontend/src/utils/gherkinValidator.ts:49-101 | the Feature and Scenario messages hold no line break |
| GherkinProperties.StepMessagesOneLine | frontend/src/utils/gherkinValidator.ts:104-143 | the Examples and step messages and the Given-order message hold no line break |
| GherkinProperties.DocumentMessagesOneLine | frontend/src/utils/gherkinValidator.ts:147-194 | the table, missing-Feature and no-scenario messages and the When-order message hold no line break |
| GherkinProperties.MessageOneLine | frontend/src/utils/gherkinValidator.ts:83-172 | a message is one line unless the name or word it quotes holds a break |
| GherkinProperties.DiagnosticTextOneLine | frontend/src/utils/gherkinValidator.ts:278-282 | a rendered diagnostic of the scan is a single line |
| GherkinProperties.FormatLineCount | frontend/src/utils/gherkinValidator.ts:268-286 | the report splits back into its header and one line per diagnostic: 1 + errors + warnings lines |
| GherkinProperties.EmptyDocument | frontend/src/utils/gherkinValidator.ts:180-194 | the empty document (one empty line) has the missing-Feature error and the no-scenario warning, both at line 1 |
| FeatureFileCheck.ContentText | backend/app/api/api_v1/endpoints/test_case_files.py:239 | missing content reads as the empty text |
| FeatureFileCheck.AnyLineStartsWith | backend/app/api/api_v1/endpoints/test_case_files.py:242-247 | `any(...)` holds exactly when some stripped line starts with the prefix |
| FeatureFileCheck.CheckLines | backend/app/api/api_v1/endpoints/test_case_files.py:235-250 | valid exactly when there are no errors, and exactly when both a Feature and a Scenario line exist; each message is present exactly when its line is missing; at most two, the Feature message first |
| FeatureFileCheck.ValidateFeatureContent | backend/app/api/api_v1/endpoints/test_case_files.py:235-250 | the dictionary updated step by step gives that verdict for the content's lines |
| FeatureFileCheck.MissingContentFails | backend/app/api/api_v1/endpoints/test_case_files.py:239-250 | `None` content yields both errors, the Feature error first |
| FeatureFileCheck.HasLineStartingIgnoresOrder | backend/app/api/api_v1/endpoints/test_case_files.py:242-247 | whether some line starts with a prefix does not depend on the order of the lines |
| FeatureFileCheck.CheckIgnoresOrder | backend/app/api/api_v1/endpoints/test_case_files.py:242-250 | the verdict is the same for any reordering of the lines |
| FeatureFileCheck.OutlineIsNoScenario | backend/app/api/api_v1/endpoints/test_case_files.py:247 | a `Scenario Outline:` line does not start with `Scenario:` |
| FeatureFileCheck.NoScenarioWord | backend/app/api/api_v1/endpoints/test_case_files.py:247 | a line that does not start with `Scenario` does not start with `Scenario:` |
| FeatureFileCheck.OutlinesOnlyFail | backend/app/api/api_v1/endpoints/test_case_files.py:247-250 | a file with a Feature whose only scenarios are outlines fails with the Scenario error alone |
| FeatureFileCheck.ReadFeatureSeenIff | frontend/src/utils/gherkinValidator.ts:44-49 | the front end reads a line as a Feature header exactly when its trimmed text starts with `Feature:` |
| FeatureFileCheck.FeatureQuestionAgrees | backend/app/api/api_v1/endpoints/test_case_files.py:242-245 | where trim and strip agree, the backend's Feature error and the front end's missing-Feature error occur together |
| FeatureFileCheck.ScenarioLineIsNoFeature | frontend/src/utils/gherkinValidator.ts:44-49 | a `Scenario:` line is neither blank, a comment nor a Feature line |
| FeatureFileCheck.ScenarioFirstRejected | frontend/src/utils/gherkinValidator.ts:70-77 | the front end rejects a document whose first line is a scenario header |
| FeatureFileCheck.ScenarioFirstDisagrees | backend/app/api/api_v1/endpoints/test_case_files.py:242-250 | a scenario header above the Feature line passes the backend while the front end reports it |
| TableParsers.Inner | backend/app/test_execution/step_definitions/test_student_management_steps.py:181 | `[1:-1]` keeps everything but the first and last piece, and nothing of two or fewer |
| TableParsers.TableLines | backend/app/test_execution/step_definitions/test_student_management_steps.py:178 | the stripped text split on line feeds has at least one line |
| TableParsers.LineEntries | backend/app/test_execution/step_definitions/test_student_management_steps.py:180-183 | every line's entry: its first two cells when it holds a pipe character and two or more cells |
| TableParsers.ParseTableData | backend/app/test_execution/step_definitions/test_student_management_steps.py:175-184 | the dictionary is the entries of the lines after the first, stored in order |
| TableParsers.FillTable | backend/app/test_execution/step_definitions/test_student_management_steps.py:179-183 | the loop over `lines[1:]` stores each line's entry in turn |
| TableParsers.ReadEntry | backend/app/test_execution/step_definitions/test_student_management_steps.py:180-183 | the loop body yields the line's entry |
| TableParsers.DictionaryKeys | backend/app/test_execution/step_definitions/test_student_management_steps.py:179-183 | a key is present exactly when some line after the header yields an entry with that key |
| TableParsers.DictionaryLastWins | backend/app/test_execution/step_definitions/test_student_management_steps.py:183 | a later row with the same key overwrites an earlier one: the last entry's value is kept |
| TableParsers.BlankTableIsEmpty | backend/app/test_execution/step_definitions/test_student_management_steps.py:175-184 | empty or all-blank text gives `{}` |
| TableParsers.HeaderNeverRead | backend/app/test_execution/step_definitions/test_student_management_steps.py:179 | the first line never contributes, whatever it holds |
| TableParsers.LineRecords | backend/app/test_execution/step_definitions/test_student_management_steps.py:192-197 | every line's record: `dict(zip(headers, values))` when it holds a pipe character and as many cells as headers |
| TableParsers.ParseMultipleStudentsData | backend/app/test_execution/step_definitions/test_student_management_steps.py:186-199 | the records of the lines after the first, in order, under the first line's stripped cells as headers |
| TableParsers.CollectRecords | backend/app/test_execution/step_definitions/test_student_management_steps.py:192-197 | the loop appends each present record in line order |
| TableParsers.ReadRecord | backend/app/test_execution/step_definitions/test_student_management_steps.py:193-196 | the loop body yields the line's record |
| TableParsers.ZipMapKeys | backend/app/test_execution/step_definitions/test_student_management_steps.py:196 | each record has exactly the headers as keys |
| TableParsers.ZipMapColumn | backend/app/test_execution/step_definitions/test_student_management_steps.py:196 | a header not repeated later maps to the value in its column |
| TableParsers.CollectBound | backend/app/test_execution/step_definitions/test_student_management_steps.py:192-199 | at most `len(lines) - 1` records |
| TableParsers.CollectFromRows | backend/app/test_execution/step_definitions/test_student_management_steps.py:192-197 | every collected value comes from a line after the header |
| TableParsers.RecordsFromRows | backend/app/test_execution/step_definitions/test_student_management_steps.py:192-197 | every record has the header keys and is the record of some line after the header; rows of another width are dropped |
| TableParsers.BlankStudentsAreNone | backend/app/test_execution/step_definitions/test_student_management_steps.py:186-199 | empty or all-blank text gives `[]` |
| TestCaseGenerator.OfType | backend/app/services/test_case_generator.py:126-132 | the steps of one type, in input order, no more than the input |
| TestCaseGenerator.GroupStepsByType | backend/app/services/test_case_generator.py:118-134 | the result has exactly the keys setup, action and verification, each holding the steps of its type in input order |
| TestCaseGenerator.OfTypeConcat | backend/app/services/test_case_generator.py:126-132 | grouping keeps input order: it distributes over concatenation |
| TestCaseGenerator.OfTypeMembers | backend/app/services/test_case_generator.py:126-132 | a step is in a bucket exactly when it is one of the steps and has that type |
| TestCaseGenerator.GroupingPartitions | backend/app/services/test_case_generator.py:118-134 | when every step has a type, the three buckets together hold exactly the steps |
| TestCaseGenerator.GroupingOne | backend/app/services/test_case_generator.py:127-132 | a typed step lands in exactly one bucket |
| TestCaseGenerator.StepText | backend/app/services/test_case_generator.py:174-189 | a usage example is returned verbatim; otherwise the text starts with the step name |
| TestCaseGenerator.StepPattern | backend/app/services/test_case_generator.py:246-257 | a usage example is returned verbatim; otherwise the pattern starts with the step name |
| TestCaseGenerator.ConvertStepToGherkin | backend/app/services/test_case_generator.py:174-189 | the loop appending ` {param_<name>}` per parameter, `param<i+1>` as the fallback, gives the step text |
| TestCaseGenerator.PlaceholdersGrow | backend/app/services/test_case_generator.py:184-187 | each parameter appends its placeholder at the end, in order |
| TestCaseGenerator.GenerateStepPattern | backend/app/services/test_case_generator.py:246-257 | the loop appending placeholders, `value` as the fallback, gives the step pattern |
| TestCaseGenerator.PlaceholdersAgree | backend/app/services/test_case_generator.py:186-254 | where every parameter is named, the two fallbacks are never used |
| TestCaseGenerator.TextMatchesPattern | backend/app/services/test_case_generator.py:174-257 | where every parameter is named, a step's feature text and its definition pattern are equal |
| TestCaseGenerator.PlaceholderCount | backend/app/services/test_case_generator.py:185-187 | one placeholder per parameter: exactly one '{' each, when no name holds one |
| TestCaseGenerator.PlaceholderBrace | backend/app/services/test_case_generator.py:187 | a placeholder holds exactly one '{' when its name holds none |
| TestCaseGenerator.NameHasNoBrace | backend/app/services/test_case_generator.py:186-254 | the fallback names hold no '{' |
| TestCaseGenerator.TagLine | backend/app/services/test_case_generator.py:146-149 | empty tags give no tag line; any other tags give a line ending in a line feed |
| TestCaseGenerator.TagsOfMeaning | backend/app/services/test_case_generator.py:148 | a tag is listed exactly when some stripped comma piece is non-empty and the tag is '@' and that piece |
| TestCaseGenerator.TagSource | backend/app/services/test_case_generator.py:148 | every listed tag comes from a non-empty piece |
| TestCaseGenerator.TagListed | backend/app/services/test_case_generator.py:148 | every non-empty piece yields its tag |
| TestCaseGenerator.TagLineSplits | backend/app/services/test_case_generator.py:148-149 | without whitespace in the tags, the tag line splits on ' ' back into the tags |
| TestCaseGenerator.CommaOnlyTags | backend/app/services/test_case_generator.py:147-149 | `","` still gives the line `"\n"` |
| TestCaseGenerator.GenerateFeatureFile | backend/app/services/test_case_generator.py:136-172 | the header and three loops build the feature text |
| TestCaseGenerator.AddStepLines | backend/app/services/test_case_generator.py:158-170 | each loop appends `    <Keyword> <step text>\n` per step of its group, in order |
| TestCaseGenerator.StepBlockGrows | backend/app/services/test_case_generator.py:160-170 | one more step appends its line and a line feed |
| TestCaseGenerator.LineKeywords | backend/app/services/test_case_generator.py:158-170 | one keyword per generated step line |
| TestCaseGenerator.LineKeywordsInOrder | backend/app/services/test_case_generator.py:157-170 | no generated Given follows a When or Then, and no When follows a Then |
| TestCaseGenerator.GeneratedStepsDrawNoOrderWarning | backend/app/services/test_case_generator.py:157-170 | the front end's order check warns about no generated step |
| TestCaseGenerator.GroupLines | backend/app/services/test_case_generator.py:158-170 | one line per step of a group |
| TestCaseGenerator.StepBlockLines | backend/app/services/test_case_generator.py:158-170 | a group's text is its step lines, each followed by a line feed |
| TestCaseGenerator.TagLines | backend/app/services/test_case_generator.py:146-149 | at most one tag line |
| TestCaseGenerator.TagLineTerminated | backend/app/services/test_case_generator.py:146-149 | the tag text is the tag line, if any, followed by a line feed |
| TestCaseGenerator.HeaderBody | backend/app/services/test_case_generator.py:151-155 | the four header lines, the third empty, each end in a line feed |
| TestCaseGenerator.HeaderTerminated | backend/app/services/test_case_generator.py:146-155 | the header is the tag line, `Feature: <name>`, the description or `Automated test case for <name>`, an empty line and `  Scenario: <name>`, each followed by a line feed |
| TestCaseGenerator.FeatureTextTerminated | backend/app/services/test_case_generator.py:136-172 | the whole text is its lines, header first, then the Given, When and Then lines, each followed by a line feed |
| TestCaseGenerator.TagsAvoid | backend/app/services/test_case_generator.py:148-149 | the tag line holds no character the tags do not hold, other than ' ' and '@' |
| TestCaseGenerator.HeaderLinesAvoid | backend/app/services/test_case_generator.py:146-155 | a name, description and tags without line feeds give header lines without them |
| TestCaseGenerator.FeatureLayout | backend/app/services/test_case_generator.py:136-172 | split on line feeds, the file is exactly its header lines and one line per step in keyword order, then one empty line |
| TestCaseGenerator.StepDecorator | backend/app/services/test_case_generator.py:231-244 | the result holds no '@'; a stored decorator is returned with its '@' signs deleted; otherwise a Setup step gets given, a Verification step then, and an Action step or one without a type when |
| TestCaseGenerator.LowerChar | backend/app/services/test_case_generator.py:262-269 | a lower-cased character is no upper-case letter |
| TestCaseGenerator.Lower | backend/app/services/test_case_generator.py:262-269 | `lower()` maps each character and keeps the length |
| TestCaseGenerator.DecoratorMatchesKeyword | backend/app/services/test_case_generator.py:236-242 | without a stored decorator, a typed step is decorated with its feature-file keyword in lower case |
| TestCaseGenerator.RemoveIdempotent | backend/app/services/test_case_generator.py:234 | removing '@' twice removes nothing more |
| TestCaseGenerator.RemoveNoOp | backend/app/services/test_case_generator.py:234 | removing an absent character changes nothing |
| Strings.RemoveOne | backend/app/services/test_case_generator.py:234 | a single character is kept exactly when it is not the one being deleted |
| Strings.RemoveConcat | backend/app/services/test_case_generator.py:234 | deletion works piece by piece, so with RemoveOne it keeps every other character in order |
| TestCaseGenerator.DecoratorDropsAt | backend/app/services/test_case_generator.py:233-234 | a decorator stored as `@` followed by a name is used as that name |
| TestCaseGenerator.DecoratorIdempotent | backend/app/services/test_case_generator.py:231-244 | storing the derived decorator back on the step gives the same decorator |
| TestCaseGenerator.KeepOnly | backend/app/services/test_case_generator.py:262-269 | the first substitution leaves only kept characters and never lengthens the text |
| TestCaseGenerator.CollapseRuns | backend/app/services/test_case_generator.py:263-270 | the second substitution leaves no run character; every character is '_' or from the input |
| TestCaseGenerator.FunctionName | backend/app/services/test_case_generator.py:259-264 | the function name starts with `step_` |
| TestCaseGenerator.CollapseKeepsClass | backend/app/services/test_case_generator.py:262-270 | after both substitutions only word characters remain, and no upper-case letter when the input had none |
| TestCaseGenerator.FunctionNameIsIdentifier | backend/app/services/test_case_generator.py:259-264 | a function name is made of word characters and holds no whitespace |
| TestCaseGenerator.SanitizedChars | backend/app/services/test_case_generator.py:266-271 | a sanitised file name holds only lower-case letters, digits and '_': no whitespace, no '-' |
| TestCaseGenerator.KeepOnlyLowered | backend/app/services/test_case_generator.py:269 | deleting characters from lower-cased text keeps it lower case |
| TestCaseGenerator.SanitizeFixesFileChars | backend/app/services/test_case_generator.py:266-271 | text already made of file characters passes through unchanged |
| TestCaseGenerator.KeepOnlyAll | backend/app/services/test_case_generator.py:269 | text of kept characters passes the first substitution unchanged |
| TestCaseGenerator.CollapseNoRuns | backend/app/services/test_case_generator.py:270 | text without run characters passes the second substitution unchanged |
| TestCaseGenerator.SanitizeIdempotent | backend/app/services/test_case_generator.py:266-271 | sanitising twice equals sanitising once |
| TestCaseGenerator.FunctionNameIsSanitized | backend/app/services/test_case_generator.py:259-271 | for a name without '-', the function name is `step_` and the sanitised file name |
| TestCaseGenerator.KeepOnlyWithoutDash | backend/app/services/test_case_generator.py:262-269 | without '-', the two deletion classes agree |
| TestCaseGenerator.CollapseWithoutDash | backend/app/services/test_case_generator.py:263-270 | without '-', the two run classes agree |
| TestCaseFiles.FileExtension | backend/app/models/test_case_file.py:42-49 | no type gives no extension |
| TestCaseFiles.FullName | backend/app/models/test_case_file.py:51-56 | the full name ends with the extension and starts with the name; it is the name when that already ends with the extension, otherwise name + extension |
| TestCaseFiles.ExtensionNamesType | backend/app/models/test_case_file.py:10-49 | each type's extension is '.' and the type's stored value, never empty |
| TestCaseFiles.ExtensionDeterminesType | backend/app/models/test_case_file.py:42-49 | different types have different extensions |
| TestCaseFiles.FullNameIdempotent | backend/app/models/test_case_file.py:51-56 | recomputing the full name on its own output changes nothing |
| TestCaseFiles.FullNameLength | backend/app/models/test_case_file.py:51-56 | the extension is appended at most once |
| TreeNodes.RoutePrefixValid | backend/app/models/test_case.py:77-78 | every ancestor of a node exists: each prefix of a valid route is valid |
| TreeNodes.RouteFront | backend/app/models/test_case.py:84-86 | the subtree of a child is that child's own tree |
| TreeNodes.FullPath | backend/app/models/test_case.py:74-79 | the path ends with the node's own name |
| TreeNodes.NamesAlong | backend/app/models/test_case.py:74-79 | one name per node from the root down to the node |
| TreeNodes.FullPathJoinsNames | backend/app/models/test_case.py:74-79 | the path is the names from the root down, joined by '/' |
| TreeNodes.AncestorPathIsPrefix | backend/app/models/test_case.py:77-78 | every ancestor's path followed by '/' is a prefix of the node's path |
| TreeNodes.PathDepth | backend/app/models/test_case.py:74-79 | without '/' in the names, the path holds one '/' per level below the root |
| TreeNodes.Descendants | backend/app/models/test_case.py:81-87 | a leaf yields `[]` |
| TreeNodes.GetAllChildren | backend/app/models/test_case.py:81-87 | the loop appending each child and extending with its own list returns the preorder list |
| TreeNodes.DescendantCount | backend/app/models/test_data.py:54-60 | the list has the subtree size minus one entries: every node below, the node itself left out |
| TreeNodes.DescendantCountBefore | backend/app/models/trade_template.py:57-63 | after k children the list holds the sizes of those k subtrees |
| TreeNodes.DescendantsBeforeIsPrefix | backend/app/models/trade_template.py:59-62 | the loop only appends: the list so far is a prefix of the final list |
| TreeNodes.PreorderBlock | backend/app/models/test_case.py:84-86 | each child sits right after the blocks of the earlier children and is immediately followed by its own descendants |
| TreeNodes.DescendantsAreReachable | backend/app/models/test_case.py:81-87 | a node is listed exactly when it is reached from the node by a non-empty route |
| TreeNodes.RouteToListed | backend/app/models/test_case.py:84-86 | a node listed after k children lies below one of them |
| TreeNodes.ReachedIsListed | backend/app/models/test_case.py:81-87 | every node below is listed |
| TreeNodes.FirstStepIsChild | backend/app/models/test_case.py:84 | a route starts at one of the children |
| TreeNodes.RecordCountOf | backend/app/models/test_data.py:88-91 | a list counts its items, anything else counts 0 |
| TreeNodes.TestData.constructor | backend/app/models/test_data.py:68-78 | a freshly inserted row: the column defaults, which SQLAlchemy fills in at insert time, are version v1.0, record count 0, an empty list as data and an empty object as schema |
| TreeNodes.TestData.UpdateRecordCount | backend/app/models/test_data.py:86-91 | the record count becomes the list's length, or 0; no other field changes; a current count stays the same |

## Left out

- Reading the file from the database, the HTTP 404 for a missing file and the YAML branch of `validate_file_content`. These are I/O and a foreign parser (`yaml.safe_load`). Only the Feature branch is modelled.
- `generate_test_case_from_steps`, `get_available_steps` and `_generate_step_definitions` of the generator. The first two read and write the database. The third is not part of this model; its pieces (decorator, pattern, function name) are.
- The regular-expression class `\w` and `str.lower()` are modelled over ASCII. A non-ASCII letter, which Python keeps as a word character and may lower-case, is deleted by `KeepOnly` here. The class `\s` is Python's full `str.isspace` set (`IsPySpace`), as `re` matches it for text patterns.
- JavaScript strings are UTF-16 code units and Python strings are code points. Both are `seq<char>` here, with the whitespace sets of `trim()` and `strip()` modelled separately.
- `TreeNodes.FullPath`: parents are modelled by routes from a root through a `Node` value, not by SQLAlchemy parent links. Aliasing, cycles and lazy loading are not modelled. The three node classes share one model.
- `TreeNodes.GetAllChildren` works on values. The Python list is rebuilt, not shared, so aliasing is not modelled.
- `TreeNodes.RecordCountOf`: JSON numbers are integers here. Floats and the JSON column's serialisation are left out.
- `TestCaseFiles.FileExtension` accepts a missing type, which the `nullable=False` column rules out in stored rows. That only widens the model.
- `TableParsers.Dictionary` and `TableParsers.ZipMap` are Dafny maps, which have no order. The Python dicts keep insertion order, with a repeated key staying at its first position, and `fill_student_form` receives them in that order. The model keeps the keys and values but not that order.
- A parameter whose `name` key holds a non-string value is not modelled. `Parameter` holds an optional string.
- The front end's messages are kept as its Chinese strings, and the render of a diagnostic as text uses them. Unicode output formatting beyond that is not modelled.
