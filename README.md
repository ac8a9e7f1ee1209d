# Motor test bench — a Dafny model of its core

The motor test bench lets an engineer compose a test as a sequence of steps
(start the motor, set a speed, apply a load, wait, monitor limits, remove the
load, stop), save it as a YAML document, run it against a motor controller,
and read the resulting report. This project models the logic at the heart of
that system and proves what it promises:

- **Test builder transcoder** (`Transcoder`, `YamlRoundTrip`, `YamlBlocks`,
  `YamlDocument`): `stepsToYaml` renders a test name, description and step
  list through a fixed template; `yamlToSteps` reads them back with regular
  expressions. Each regular expression is written out as an anchored matcher
  and a leftmost scan. The round trip is proved for the reader as written
  (where the first step's kind comes back with its `- step:` marker
  attached) and for the corrected reader.
- **Test builder editor** (`Editor`): the page's state as a class whose
  methods are the page's handlers (`addStep`, `removeStep`, `moveStep`,
  `updateStepParam`, `updateStepDescription`, `handleYamlChange`, and the
  effect that refreshes the YAML pane), plus the save file name.
  `handleYamlChange` runs the reader as written, so a document pasted into
  the pane loads with the first step's kind still carrying its `- step: `
  marker, and the refreshed pane shows that marker twice;
  `HandleYamlChangeCorrected` is the same handler over the corrected
  reader.
- **Step catalogue** (`Catalog`): the `stepTypes` table with its kinds,
  captions, parameters and defaults.
- **Shared text and number helpers** (`Text`, `Decimal`, `Steps`,
  `Wrappers`): JavaScript white space and trimming, decimal printing and
  parsing, and parameter objects kept in insertion order.
- **Test runner** (`Engine`): `TestRunner.run`, `_execute_step` and
  `_monitor_step`. The controller is a log of commands. The clock and the
  abort flag are inputs.
- **Report builder** (`Reporting`): the report records with their defaults,
  and `ReportBuilder`'s `start_test`, `add_step_result` and `finish_test`,
  plus the report file name.
- **Event log** (`EventLog`): the singleton `SystemLogger`. It keeps a
  newest-first deque capped at 100 events and an id counter.
- **Completion notifications** (`TestStatus`): the toast decision of the
  status poll and its high-water mark `lastCompletedRef`.
- **Navigation** (`AppShell`): the active-route test of the app shell.

## Model

| member | source | states |
|---|---|---|
| YamlDocument.RoundTrip | frontend/app/test-builder/page.tsx:55-143 | Reading back a written document gives the name, the description and every step. The only change is that the steps get fresh consecutive identifiers. This holds with the section split corrected, for a quote- and break-free name and description, and for steps whose strings are quote-free and whose keys are words other than `description`. |
| YamlDocument.RoundTripAsWritten | frontend/app/test-builder/page.tsx:92-100 | With the reader as written, the same document comes back with the first step's kind turned into `- step: <kind>`. Everything else is recovered. |
| YamlDocument.ZeroStepsRejected | frontend/app/test-builder/page.tsx:66-94 | A test with no steps is written with an empty `sequence:` body, which both readers reject. |
| YamlDocument.NameOfDocument | frontend/app/test-builder/page.tsx:88 | The first `name: "…"` field of a written document is the test name. |
| YamlDocument.DescriptionOfDocument | frontend/app/test-builder/page.tsx:89 | The first `description: "…"` field of a written document is the test description. This requires that the name does not end in `description:`. |
| YamlDocument.SectionOfDocument | frontend/app/test-builder/page.tsx:66-92 | The text after the `sequence:` marker of a written document is exactly the joined step entries. |
| YamlDocument.BlocksOfBodies | frontend/app/test-builder/page.tsx:97-132 | Each step's entry, without its marker, is read back as that step under its new identifier. |
| YamlBlocks.BlockOfBody | frontend/app/test-builder/page.tsx:98-131 | One block is read back as the step that was written: its kind, its description (empty when no line was written), and its parameters in order. |
| YamlBlocks.FirstBlockAsWritten | frontend/app/test-builder/page.tsx:97-100 | A block that still carries the `  - step: ` marker reads back with that marker in its kind. |
| YamlBlocks.ParseValueText | frontend/app/test-builder/page.tsx:117-121 | The reader's coercion gives back every readable value as written: booleans, integers, and quoted strings. |
| YamlBlocks.NaNReadsAsText | frontend/app/test-builder/page.tsx:117-121 | A `NaN` parameter is written bare and comes back as the string `"NaN"`. |
| YamlBlocks.KeyValueLine | frontend/app/test-builder/page.tsx:110 | `(\w+):\s*(.+)` on a `key: value` line captures the key and the whole value. |
| YamlBlocks.FieldsOfParams | frontend/app/test-builder/page.tsx:106-124 | The block loop over the parameter lines adds every parameter, in order, to those read so far. |
| YamlRoundTrip.FieldSkip | frontend/app/test-builder/page.tsx:88-89 | A prefix that no field match can start in does not change the first quoted field found. |
| YamlRoundTrip.SplitSkip | frontend/app/test-builder/page.tsx:97 | A prefix that no separator can start in stays glued to the first piece of a split. |
| Transcoder.FirstQuotedField | frontend/app/test-builder/page.tsx:88-89 | A captured field is non-empty and free of quotes. |
| Transcoder.FirstQuotedFieldLeftmost | frontend/app/test-builder/page.tsx:88-89 | The capture is the one at the leftmost position of the text where `key\s*"([^"]+)"` matches. |
| Transcoder.FirstQuotedFieldNone | frontend/app/test-builder/page.tsx:88-89 | There is no capture exactly when the pattern matches at no position of the text. |
| Transcoder.NonEmpty | frontend/app/test-builder/page.tsx:97 | `filter(Boolean)` keeps exactly the non-empty pieces. |
| Transcoder.NonEmptyAppend | frontend/app/test-builder/page.tsx:97 | The filter distributes over concatenation and keeps a single piece exactly when it is non-empty, so the kept pieces keep their order and their repeats. |
| Editor.YamlToSteps | frontend/app/test-builder/page.tsx:85-143 | The block and line loops compute the reader as the page runs it, with the section split on the step marker as it stands, and the steps get the consecutive fresh identifiers. |
| Editor.YamlToStepsCorrected | frontend/app/test-builder/page.tsx:85-143 | The same loops compute the corrected reader, which splits the section after a leading line break. |
| Editor.ReadDocument | frontend/app/test-builder/page.tsx:86-143 | Once the blocks are cut, the block loop and the name and description captures with their fallbacks give the reader's test. |
| Editor.ParseBlock | frontend/app/test-builder/page.tsx:98-131 | The line loop, with its early stop and its description and parameter updates, computes the step of a block. |
| Transcoder.BlockStepsNumbered | frontend/app/test-builder/page.tsx:98-127 | The i-th block read gets identifier firstId + i, one fresh identifier per block in order. |
| Editor.ParseBlocks | frontend/app/test-builder/page.tsx:97-132 | The blocks are parsed in order, the i-th with identifier firstId + i. |
| Editor.TestBuilder.constructor | frontend/app/test-builder/page.tsx:146-157 | The initial four-step skeleton, the name and description, no selection, an empty pane, the visual tab. |
| Editor.TestBuilder.AddStep | frontend/app/test-builder/page.tsx:224-239 | Appends one fresh step with the catalogue defaults and the catalogue caption, and selects it. Identifiers stay distinct. |
| Editor.NewStepDefaults | frontend/app/test-builder/page.tsx:225-235 | A new step of a catalogued kind reads every catalogue parameter at its default, and its description is the caption. |
| Editor.NewStep | frontend/app/test-builder/page.tsx:225-236 | An unknown kind gets no parameters and an empty description. |
| Editor.TestBuilder.RemoveStep | frontend/app/test-builder/page.tsx:241-244 | Drops exactly the steps with that identifier and clears a selection that had it. Identifiers stay distinct. |
| Editor.WithoutId | frontend/app/test-builder/page.tsx:242 | The filter keeps exactly the steps with another identifier, and removing an unknown identifier changes nothing. |
| Editor.WithoutIdAppend | frontend/app/test-builder/page.tsx:242 | The filter distributes over concatenation and keeps a single step exactly when its identifier differs, so the kept steps keep their order. |
| Editor.TestBuilder.MoveStep | frontend/app/test-builder/page.tsx:246-252 | Swaps the slot with its neighbour in a copied array. Nothing changes when the neighbour is outside the list. |
| Editor.Moved | frontend/app/test-builder/page.tsx:246-252 | The moved list keeps its length and its multiset of steps. The two slots are exchanged and every other slot is kept. |
| Editor.MoveUpThenDown | frontend/app/test-builder/page.tsx:246-252 | Moving a step up and then back down restores the list. |
| Editor.TestBuilder.UpdateStepParam | frontend/app/test-builder/page.tsx:254-263 | Writes the parameter on the matching steps and on the selected copy. Nothing else changes. |
| Editor.WithParamReads | frontend/app/test-builder/page.tsx:257 | After the write, the key reads the new value on matching steps. Every other read is unchanged. |
| Editor.TestBuilder.UpdateStepDescription | frontend/app/test-builder/page.tsx:265-270 | Sets the description of the matching steps and of the selected copy. Nothing else changes. |
| Editor.TestBuilder.HandleYamlChange | frontend/app/test-builder/page.tsx:167-178 | The pane takes the text. A document the page's reader accepts replaces the name, description and steps, so the first step's kind keeps its `- step: ` marker. A rejected one sets "Invalid YAML syntax" and keeps the rest. |
| Editor.TestBuilder.HandleYamlChangeCorrected | frontend/app/test-builder/page.tsx:167-178 | The same handler over the corrected reader. |
| Editor.TestBuilder.Accept | frontend/app/test-builder/page.tsx:168-177 | The pane takes the text; a read test is loaded with the pane refreshed on the YAML tab, and a failed read sets the error and keeps the rest. |
| Editor.TestBuilder.SyncYaml | frontend/app/test-builder/page.tsx:160-164 | While the YAML tab is shown, the pane is re-rendered from the state. |
| Editor.TestBuilder.SelectStep | frontend/app/test-builder/page.tsx:382 | Selecting a card changes only the selection. |
| Editor.TestBuilder.SetTestName | frontend/app/test-builder/page.tsx:300 | The name field sets the name, and the pane is refreshed when it changed. |
| Editor.TestBuilder.SetTestDescription | frontend/app/test-builder/page.tsx:309 | The description field sets the description, and the pane is refreshed when it changed. |
| Editor.TestBuilder.SetActiveTab | frontend/app/test-builder/page.tsx:318 | Switching tabs renders the current test into the pane when the YAML tab is shown. |
| Editor.SaveFileName | frontend/app/test-builder/page.tsx:193 | The save name holds no white space and ends in `.yaml`. |
| Editor.SaveFileNameParts | frontend/app/test-builder/page.tsx:192-193 | The save name is the name with its white-space runs turned into `_`, then `_`, then digits that read back as the time stamp, then `.yaml`. |
| Steps.AssignLookup | frontend/app/test-builder/page.tsx:257 | After `obj[key] = v`, the key reads v and every other key reads what it did. |
| Steps.AssignKeys | frontend/app/test-builder/page.tsx:257 | The write keeps the keys and their order, and a new key goes at the end. |
| Steps.AssignNewKey | frontend/app/test-builder/page.tsx:257 | Writing a new key appends it, with its value, after every existing entry. |
| Steps.Lookup | frontend/app/test-builder/page.tsx:257 | A key reads a value exactly when the object has it. |
| Catalog.CatalogKinds | frontend/lib/mock-data.ts:293-307 | The catalogue has seven distinct kinds, and `find` returns each entry for its own kind. |
| Catalog.CatalogParamsWellFormed | frontend/lib/mock-data.ts:293-307 | Every parameter name is a `\w+` word other than `description`, the names of an entry are distinct, and every default has its declared type. |
| Catalog.DefaultParams | frontend/lib/mock-data.ts:293-307 | The default parameter object has one entry per catalogue parameter, holding its default, in order. |
| Catalog.FindIn | frontend/lib/mock-data.ts:293-307 | `find` gives an entry of that kind, or none when there is none. |
| Reporting.DefaultTestInfo | backend/app/services/reporting/models.py:4-8 | Version "1.0", author "Unknown", no description. |
| Reporting.DefaultExecutionInfo | backend/app/services/reporting/models.py:10-16 | No end time, duration 0.0, status "PENDING", environment "SIMULATION". |
| Reporting.DefaultStepResult | backend/app/services/reporting/models.py:18-26 | Status "PENDING", no input parameters, no observations and no failure details. |
| Reporting.PassCountAll | backend/app/services/reporting/generator.py:46-49 | Every result is a pass exactly when the pass count equals the number of results. |
| Reporting.ReportBuilder.StartTest | backend/app/services/reporting/generator.py:16-39 | A fresh running report with no results, zero counters, a pending overall result, and the id "test_" + 8 hex characters. |
| Reporting.ReportBuilder.AddStepResult | backend/app/services/reporting/generator.py:41-49 | Appends the result and bumps the counter its status selects, so passed + failed is the number of results. |
| Reporting.ReportBuilder.FinishTest | backend/app/services/reporting/generator.py:51-72 | Both statuses are set, and the reason is stored. Metrics are replaced only from a non-empty statistics map, with missing keys read as 0.0. Returns the file name. |
| Reporting.ReportFileName | backend/app/services/reporting/generator.py:74-77 | `report_`, then the name with every space turned into `_` and every other character kept, then `_`, the time stamp and `.json`. |
| Engine.TestRunner.Run | backend/app/services/engine/test_engine.py:28-104 | The report carries the test info with its defaults. Its records, statuses and reason are those of the step-by-step simulation. The metrics hold the peak temperature and the mean speed. A `null` sequence raises after finishing the report as a pass. |
| Engine.TestRunner.RunAsWritten | backend/app/services/engine/test_engine.py:39 | `run` as written raises `TypeError` at the `start_test` call. |
| Engine.StartTestBinding | backend/app/services/reporting/generator.py:16 | `start_test` accepts name, description and author, and rejects the keyword `db_test_id`. |
| Engine.BindKeywords | backend/app/services/engine/test_engine.py:39 | A keyword call binds exactly when every keyword names a parameter, and raises `TypeError` otherwise. |
| Engine.TestRunner.RunSequence | backend/app/services/engine/test_engine.py:46-95 | The step loop with its abort check, its records, its stop on the first raising step, and the status and reason it ends with. |
| Engine.TestRunner.Turn | backend/app/services/engine/test_engine.py:47-95 | One turn of the loop either stops, on the abort flag or on a raising step, with the records, status and reason the simulation ends with, or goes on exactly as the simulation does after the step. |
| Engine.TestRunner.RunStep | backend/app/services/engine/test_engine.py:54-95 | One step is executed and recorded once, as PASS or as FAIL with its error. A raising step stops the motor. |
| Engine.TestRunner.Finish | backend/app/services/engine/test_engine.py:97-104 | The report is finished with the peak temperature and the mean speed. |
| Engine.OutcomeShape | backend/app/services/engine/test_engine.py:46-95 | A completed run recorded every step as a pass. An aborted run recorded passes up to the abort. A failed run recorded passes and then exactly one failing step, which carries the error. |
| Engine.PassesConsistent | backend/app/services/engine/test_engine.py:60-83 | Every step is recorded as PASS when it does not raise and as FAIL with its error when it raises; a record that validation refuses raises a validation error. |
| Engine.SimulateOutcome | backend/app/services/engine/test_engine.py:46-95 | The run's records are the outcome's records, the command log only grows, and a failed run ends with a stop command. |
| Engine.TestRunner.ExecuteStep | backend/app/services/engine/test_engine.py:106-142 | The step kind selects the controller call; `end_test` and unknown kinds send nothing. |
| Engine.DispatchObservations | backend/app/services/engine/test_engine.py:106-142 | Only a monitor step observes anything or reads the controller status, and every other step sends at most one command. |
| Engine.ToFloat | backend/app/services/engine/test_engine.py:145 | `float()` keeps numbers and raises only `ValueError` or `TypeError`; which texts it reads is stated by the lemmas below. |
| Engine.PyStripStart | backend/app/services/engine/test_engine.py:115 | The text after its leading Python white space: what is dropped is all white space, and what is kept does not start with any. |
| Engine.PyStripEnd | backend/app/services/engine/test_engine.py:115 | The text before its trailing Python white space: what is dropped is all white space, and what is kept does not end with any. |
| Engine.PyStripPadded | backend/app/services/engine/test_engine.py:115 | Stripping Python white space from around a text without white space at its ends gives that text back. |
| Engine.PyStripKeeps | backend/app/services/engine/test_engine.py:115 | Every character that is not Python white space survives the strip. |
| Engine.ToFloatPadded | backend/app/services/engine/test_engine.py:115 | A printed integer, with any Python white space (U+0085 and U+001C to U+001F included) around it, is read by `float()` as that integer. |
| Engine.ToFloatGrouped | backend/app/services/engine/test_engine.py:115 | Two runs of digits joined by one underscore, as in `"1_000"`, are read as the digits without it. |
| Engine.ToFloatStrayCharacter | backend/app/services/engine/test_engine.py:115 | Text holding a character that is not white space, a digit, a sign or an underscore makes `float()` raise `ValueError`. |
| Engine.ByteOrderMarkRefused | backend/app/services/engine/test_engine.py:115 | `float("\ufeff5")` raises `ValueError`: U+FEFF is not Python white space. |
| Engine.NextLineStripped | backend/app/services/engine/test_engine.py:115 | `float("\x855")` is 5.0: U+0085 is Python white space. |
| Engine.FloatParam | backend/app/services/engine/test_engine.py:145 | A missing key reads its default. |
| Engine.TestRunner.MonitorStep | backend/app/services/engine/test_engine.py:144-191 | The monitor loop reads until the first violation or the end of the window, tracks the global samples and peak, and returns the local range. |
| Engine.TestRunner.Scan | backend/app/services/engine/test_engine.py:157-184 | The monitor loop takes readings until the window ends or a reading breaks a limit, and every earlier reading kept the limits. The local range, the speed samples, the peak temperature and the status reads cover exactly the readings taken. |
| Engine.Violation | backend/app/services/engine/test_engine.py:171-182 | A reading violates exactly when one of the limits present is broken. |
| Engine.FirstViolationIsFirst | backend/app/services/engine/test_engine.py:157-182 | The first violation found is a violating reading with none before it; when none is found, no reading violates. |
| Engine.MonitorVerdict | backend/app/services/engine/test_engine.py:157-191 | The monitor raises exactly when some reading violates. A passing window respects every limit. |
| Engine.NoCriteriaPasses | backend/app/services/engine/test_engine.py:146 | A step without criteria checks nothing. |
| Engine.MinSpeedIsMinimum | backend/app/services/engine/test_engine.py:167 | The reported minimum speed is a reading's speed, and no reading is slower. |
| Engine.MaxSpeedIsMaximum | backend/app/services/engine/test_engine.py:168 | The reported maximum speed is a reading's speed, and no reading is faster. |
| Engine.MaxTemperatureIsMaximum | backend/app/services/engine/test_engine.py:169 | No reading is hotter than the reported maximum temperature. |
| Engine.MaxTemperatureAttained | backend/app/services/engine/test_engine.py:169 | The reported maximum temperature is some reading's temperature. |
| EventLog.SystemLogger.constructor | backend/app/services/logger.py:21-28 | The first instance has an empty log and a zero counter. |
| EventLog.Instance | backend/app/services/logger.py:21-28 | Constructing the logger again returns the existing instance. |
| EventLog.SystemLogger.Log | backend/app/services/logger.py:30-40 | The counter goes up by one, and the event numbered with it goes in front of a log capped at 100. |
| EventLog.PushFront | backend/app/services/logger.py:26-39 | The new event is first, the older ones follow in order, and the oldest drops off when the log is full. |
| EventLog.IdsDistinct | backend/app/services/logger.py:32-34 | Event ids are pairwise distinct. |
| EventLog.LogManyBounded | backend/app/services/logger.py:26-39 | After any number of events, the log holds the newest `min(count, 100)` of the old and new events, newest first: the new ones in reverse order, then the old ones. |
| EventLog.Reversed | backend/app/services/logger.py:39 | The events in the opposite order, position by position. |
| EventLog.SystemLogger.LogInfo | backend/app/services/logger.py:42-43 | Logs one `info` event with the message unchanged. |
| EventLog.SystemLogger.LogWarning | backend/app/services/logger.py:45-46 | Logs one `warning` event with the message unchanged. |
| EventLog.SystemLogger.LogError | backend/app/services/logger.py:48-49 | Logs one `error` event with the message unchanged. |
| EventLog.SystemLogger.LogSuccess | backend/app/services/logger.py:51-52 | Logs one `success` event with the message unchanged. |
| EventLog.SystemLogger.GetLogs | backend/app/services/logger.py:54-58 | Returns the newest `limit` events (a negative limit counts from the end), newest first, and changes nothing. |
| EventLog.SystemLogger.GetDefaultLogs | backend/app/services/logger.py:54 | Without a limit, returns the newest 50 events, or all of them when there are fewer. |
| EventLog.SliceEnd | backend/app/services/logger.py:58 | The end of the slice `[:limit]`, for a positive or a negative limit. |
| TestStatus.StatusProvider.Poll | frontend/contexts/test-status-context.tsx:23-56 | A poll keeps the fetched state, shows the toast the rule selects, and advances the mark over a new completion. A failed fetch changes nothing. |
| TestStatus.Announcement | frontend/contexts/test-status-context.tsx:30-50 | A toast is shown exactly for a newer completion that is under 60 s old, and under 10 s old while the mark is 0. |
| TestStatus.NextMark | frontend/contexts/test-status-context.tsx:30-51 | The mark never decreases, and it changes only to the time of a newer completion, whether announced or not. |
| TestStatus.ToastFor | frontend/contexts/test-status-context.tsx:38-48 | "Test Passed" in the default style exactly for PASS, "Test Failed" in the destructive style otherwise, with a link to the reports. |
| TestStatus.SeenNeverAnnounced | frontend/contexts/test-status-context.tsx:30-51 | A completion at or before the mark is never announced, and after a poll it is not newer than the mark. |
| TestStatus.StaleNeverAnnounced | frontend/contexts/test-status-context.tsx:36 | A completion at least 60 s old is never announced. |
| TestStatus.MarkMonotone | frontend/contexts/test-status-context.tsx:30-51 | Over any series of polls, the mark never goes down. |
| TestStatus.AnnouncedOnce | frontend/contexts/test-status-context.tsx:30-51 | Over any series of polls, the announced times strictly increase and lie between the first and the last mark, so each completion is announced at most once. |
| AppShell.ActiveItems | frontend/components/app-shell.tsx:44-46 | One flag per navigation item, each the item's active test. |
| AppShell.ActiveOnOwnPath | frontend/components/app-shell.tsx:45-46 | An item is active on its own href. |
| AppShell.RootOnlyExact | frontend/components/app-shell.tsx:45-46 | The root item is active only on `/`. |
| AppShell.PrefixWithoutSeparator | frontend/components/app-shell.tsx:45-46 | `/reportsX` activates Reports, since there is no separator check. |
| AppShell.ActiveIsPrefix | frontend/components/app-shell.tsx:45-46 | An active item's href is a prefix of the path. |
| AppShell.AtMostOneActive | frontend/components/app-shell.tsx:45-46 | For any path, at most one of the four items is active. |
| Decimal.NatRoundTrip | backend/app/services/logger.py:34 | Reading back a printed counter gives the counter. |
| Decimal.IntRoundTrip | frontend/app/test-builder/page.tsx:120 | An integer printed by the template is read back by `Number()` as itself. |
| Text.Trim | frontend/app/test-builder/page.tsx:99-100 | `trim()` gives a piece of the text that is preceded and followed only by white space and neither starts nor ends with it, and is empty exactly for all-white-space text. |
| Text.UnderscoreSpaceRuns | frontend/app/test-builder/page.tsx:193 | `replace(/\s+/g, "_")` leaves no white space and leaves a name without any unchanged. |
| Text.UnderscoreRun | frontend/app/test-builder/page.tsx:193 | A non-empty white-space run becomes one `_`. |
| Text.UnderscoreJoin | frontend/app/test-builder/page.tsx:193 | Texts that do not meet inside a white-space run are rewritten separately, so every other character stays, in order. |
| Text.Without | frontend/app/test-builder/page.tsx:114 | `replace(/"/g, "")` removes every quote and keeps every other character. |
| Text.WithoutAppend | frontend/app/test-builder/page.tsx:114 | The removal distributes over concatenation and keeps a single character exactly when it is not the quote, so the kept characters stay in order. |

## Left out

- Numbers in builder parameters are integers or `NaN`. JavaScript `Number()` is modelled on integer numerals (trimmed, optional sign, empty text reads 0). Fractions, exponents, hexadecimal and `Infinity` are not modelled, and the reader's `Number(...)` for them is not captured.
- `Object.entries` order is modelled as insertion order. JavaScript lists array-index keys (such as `5` typed into the YAML pane as `5: 1`) first, in numeric order; `Assign` keeps them where they were written. No catalogue key is one.
- `Assign` stores a typed `__proto__` key like any other; JavaScript's `params[key] = value` sets the prototype instead and the key does not appear in the parameters.
- Integers are unbounded here. A JavaScript number is a double, so a typed integer beyond 2^53, such as `9007199254740993`, reads back rounded in the page (as `9007199254740992`) and exactly in the model.
- `generateId` (time and randomness) is modelled as a counter whose values are handed out once each. Only the distinctness of identifiers is modelled.
- Floating point in the backend is modelled as `real`: `float()`, the running averages and the infinities of the monitor loop (as an extended value).
- Engine.ToFloat: on text it accepts only integer numerals: Python white space stripped, an optional sign, ASCII digits with single underscores between them. Decimal fractions, exponents, `inf`, `nan` and non-ASCII decimal digits (such as `"٥"`, which Python reads as 5) are not modelled; a text using them reads as `ValueError` here.
- The clock, `uuid4` and `Date.now` are inputs: the start and end instants of the report, the monitor window (the sequence of readings taken before the deadline), and the abort flag (the index of the step before which another thread sets it). The `wait` step's `time.sleep` is logged as a `Sleep` command; the monitor loop's `time.sleep(0.1)` between readings is not logged.
- Reporting.StepResult: has no `started_at` and `ended_at`. The per-step `datetime.utcnow()` readings that fill them in backend/app/services/engine/test_engine.py:59-80 are not modelled, and neither is the required-field check on `started_at`.
- Reporting.ReportBuilder.StartTest: always takes an author. The default `author="Test Engineer"` of `start_test` is not modelled, because the runner always passes one (`"Unknown"` when the test info has none).
- Engine.Sequence: a `sequence` value is either `null` or a list. Any other value is not modelled. A number makes `enumerate` raise, which takes the same `UnboundLocalError` path as `null`. A string or a mapping is iterated by its characters or its keys.
- Exception texts are kept as fault values, not as the strings `str(e)` would give.
- Console output, file writes in `_save_to_disk`, loading the YAML file with PyYAML, the Supabase upload and insert in `handleSave`, the lock in the logger, and the network fetch of the status poll are not modelled.
- Sequence entries that are not mappings, and keys that are not strings, are not modelled.
- `TestConfig.testInfo` holds strings only. A `null` or non-string `name`, `author` or `description` makes the intended `start_test` raise a validation error when the test info is built, outside the step loop's `try`; that path is not modelled.
- `Criteria` holds its limits as numbers. A non-numeric limit, which makes the comparisons of backend/app/services/engine/test_engine.py:172-182 raise `TypeError`, and a `criteria: null`, which raises `TypeError` at the first reading, are not modelled.
- Editor.TestBuilder.MoveStep: requires an index inside the list, as every caller passes the index of a rendered card.
- Reporting.ReportBuilder.StartTest: requires at least 8 hex characters, as `uuid4().hex` always has 32.
- Reporting.ReportBuilder.AddStepResult: requires a started report; calling it before `start_test` raises `AttributeError`, which is not modelled.
- YamlDocument.RoundTrip: requires a non-empty name and description without quotes or line breaks, a name not ending in `description:`, and readable steps. The fallbacks "Untitled Test" and "", and the consequence that an empty test description is read back as the first step's description, are not proved.
- FirstQuotedField: its own contract states only the shape of a capture; that the capture is the leftmost match, and that there is none exactly when no position matches, is stated by FirstQuotedFieldLeftmost and FirstQuotedFieldNone.
- NonEmpty: its own contract states membership and length; the order and repeats of the kept pieces are stated by NonEmptyAppend.
- WithoutId: its own contract states membership and the no-op case; the order of the kept steps is stated by WithoutIdAppend.
- Without: its own contract states membership; the order of the kept characters is stated by WithoutAppend.
- UnderscoreSpaceRuns: its own contract states that no white space is left and that a name without any is unchanged; that each run becomes one `_` and every other character stays in order is stated by UnderscoreRun and UnderscoreJoin.
- SaveFileName: its own contract states the absence of white space and the `.yaml` ending; the parts of the name are stated by SaveFileNameParts.
- EventLog.SystemLogger: the bounded deque is modelled as a sequence that the methods reassign, not as a ring buffer updated in place.
- TestStatus.StatusProvider: the React state `execution` is kept as the last fetched state; rendering and the polling timer are not modelled.

## Findings

| source | as written | input that shows it | evidently intended | confidence | as-written member | corrected member |
|---|---|---|---|---|---|---|
| frontend/app/test-builder/page.tsx:97 | The section is split on `\n\s*-\s+step:\s+`. The first entry's `  - step: ` follows the `sequence:` marker's line break, which the previous split consumed, so it is never matched. | Any test with one step `start_motor`: the reader returns the kind `- step: start_motor`. | Every entry's marker is removed, so a written test reads back with its kinds unchanged. | not executed | Transcoder.ParseYamlAsWritten, YamlDocument.RoundTripAsWritten, Editor.TestBuilder.HandleYamlChange | Transcoder.ParseYaml, YamlDocument.RoundTrip, Editor.TestBuilder.HandleYamlChangeCorrected |
| backend/app/services/engine/test_engine.py:39 | `start_test` is called with the keyword `db_test_id`, which backend/app/services/reporting/generator.py:16 does not accept. | Any call of `run`: it raises `TypeError` before the report is started or any step executes. | `start_test` is called with the name, description and author only, and the sequence runs. | not executed | Engine.TestRunner.RunAsWritten | Engine.TestRunner.Run |
