# ical-gen-app in Dafny

This project models the core of ical-gen-app, a command-line tool that converts a JSON calendar file
into an iCalendar (`.ics`) file. The core runs in three stages:

1. The JSON document is checked against the application's JSON schema. The schema asks for:
   - a string `name`;
   - an optional `description`;
   - a non-empty list of events.

   Each event is either an all-day event (`allDayStart`, an RFC 3339 full-date) or a timed event
   (`start` and `end`, RFC 3339 date-times): exactly one of the two shapes. Each event must carry a string `summary`.
   It may also carry:
   - a description, categories and a location;
   - a recurrence rule matching `^RRULE:.+$`.
2. A valid document is turned into a calendar:
   - the product identifier `-//Paqrat76//ical-gen-app//EN` and the Gregorian scale;
   - one event record per source event, all sharing one time stamp, each with a fresh identifier.
3. The application checks its command-line options and derives the output path from the source path.
   It reads, validates, builds and writes, and reports either a message or an error.

Files:
- `wrappers.dfy`: `Option` and `Result`.
- `json.dfy`: JavaScript values as JSON gives them, with `undefined` for a missing key.
- `schema.dfy`: the schema that `tools/create-json-schema.ts` builds, stated two ways:
  - declaratively, as `ValidDocument`;
  - as the set of errors the validator reports, as `DocumentErrors`.

  It also holds the RFC 3339 section 5.6 formats and the recurrence-rule pattern.
- `validator.dfy`: `validateICalendarJson`, its shape guard and its result. It also holds the typed
  view of a validated document (`BaseData`, `EventInput`), with the round trip between that view
  and JSON.
- `generator.dfy`: `generateICalendarObject` and its helpers, with a `for` loop over the events.
- `paths.dfy`: the string operations on paths that the app uses:
  - POSIX `extname` and `basename`;
  - lower-casing;
  - the first-occurrence `String.prototype.replace`.
- `app.dfy`: `ICalGeneratorApp`:
  - its option checks;
  - the output path;
  - a `FileSystem` class standing in for `readFileSync` and `writeFileSync`;
  - `generate`, proved against the function `GenerateOutcome`.

Inputs the program takes from its environment become parameters:

| environment input | parameter |
|---|---|
| `JSON.parse` | `parse` |
| the calendar library's building of the events and their RFC 5545 text rendering, which may throw | `serialize`, returning the text or the error message |
| the generation instant | `stamp` |
| `randomUUID` | `uuid(i)`, the identifier of the `i`-th event |

## Model

| member | source | states |
|---|---|---|
| Json.Get | src/json-schema-validator.ts:86-90 | a property read yields the stored value for a key the object owns, and `undefined` for any other key or a non-object |
| Json.Strings | tools/create-json-schema.ts:37 | an all-string array's strings, same length, item by item |
| Schema.ValidEvent | tools/create-json-schema.ts:30-42 | definition `event`: an object with a string summary, typed optional fields, and exactly one of the two shapes |
| Schema.ValidDocument | tools/create-json-schema.ts:14-47 | the whole schema: only declared keys, a string name, an optional string description, and a non-empty array of valid events |
| Schema.DocumentErrors | tools/create-json-schema.ts:14-47 | the errors the validator reports: one per violated rule outside the branches of a `oneOf`; a non-object event gets both the `type` error and the `oneOf` error |
| Schema.DaysInMonth | tools/create-json-schema.ts:21 | the Gregorian month lengths of the full-date format: 30 days exactly for April, June, September and November, 31 for the other months but February, and February 29 days exactly in leap years, else 28 |
| Schema.LeadingDigits | tools/create-json-schema.ts:25 | the length of the run of digits opening a string (the date-time fraction) |
| Schema.NatToString | tools/create-json-schema.ts:46 | an array index as ajv writes it in an instance path: non-empty decimal digits that spell the index, with no leading zero |
| Schema.CategoryItemErrorsEmptyIff | tools/create-json-schema.ts:37 | the categories items draw no error exactly when all are strings |
| Schema.EventErrorsEmptyIff | tools/create-json-schema.ts:30-42 | an event draws no error exactly when it satisfies the `event` definition |
| Schema.EventItemErrorsEmptyIff | tools/create-json-schema.ts:46 | the event list draws no error exactly when every event is valid |
| Schema.AdditionalPropertyErrorsEmptyIff | tools/create-json-schema.ts:20 | no `additionalProperties` error exactly when every key is `name`, `description` or `events` |
| Schema.DocumentErrorsEmptyIff | tools/create-json-schema.ts:14-47 | the validator reports no error exactly on documents the schema accepts |
| Schema.EventErrorsOnlyOneOf | tools/create-json-schema.ts:33 | an event whose shared fields are right fails only through its `oneOf` |
| Schema.TopLevelErrorsAreEventErrors | tools/create-json-schema.ts:20-47 | with a string name and only declared keys, the document's errors are its description's and its events' |
| Schema.SingleEventErrors | tools/create-json-schema.ts:46 | the event list `[e]` reports exactly the errors of `e`, at `/events/0` |
| Schema.SingleEventDocumentErrors | tools/create-json-schema.ts:46 | a one-event document reports its event's errors at `/events/0` |
| Schema.OneEventDocumentErrors | tools/create-json-schema.ts:43-47 | a document with a string name, no description and one event reports that event's errors at `/events/0` |
| Schema.OneOfIsTheOnlyError | test/experiment.test.ts:194-219 | an event with both shapes, or neither, draws exactly one `oneOf` error at `/events/0`, with `passingSchemas` `[0, 1]` or null |
| Schema.OneValidEventNoErrors | tools/create-json-schema.ts:46 | a one-event list whose event is valid draws no error |
| Schema.DescriptionTypeError | tools/create-json-schema.ts:45 | a non-string `description` draws the `type` error at `/description` |
| Schema.NonStringDescriptionIsTheOnlyError | test/experiment.test.ts:222-251 | a document whose only fault is a non-string description is invalid, with exactly that `type` error |
| Schema.EmptyEventsIsTheOnlyError | tools/create-json-schema.ts:46 | an empty event list is rejected with exactly the `minItems` error |
| Schema.UndeclaredDocumentPropertyRejected | tools/create-json-schema.ts:20 | an undeclared top-level key makes any document invalid, and its error names that key |
| Schema.UndeclaredEventPropertyAllowed | tools/create-json-schema.ts:30-42 | events may carry undeclared keys (`id`, `recurrenceDates`, ...) and stay valid |
| Schema.FullDateExamples | test/json-schema-validator.test.ts:19 | `2026-02-23` (this test's date), `2026-02-24` (the date of test/app.test.ts:72) and the leap day `2024-02-29` are full-dates; `2025-02-29` and `invalid-date-format` are not |
| Schema.DateTimeExamples | test/json-schema-validator.test.ts:39-72 | `2026-02-23T10:30:00.123-04:00` is a date-time and `invalid-date-format` is not |
| Schema.UtcDateTimeExample | test/experiment.test.ts:159 | `2025-03-15T10:00:00Z` is a date-time |
| Schema.DateTimeOfParts | tools/create-json-schema.ts:25 | a full-date, `T` and a full-time make a date-time |
| Schema.FullTimeOfParts | tools/create-json-schema.ts:25 | `hh:mm:ss`, an optional fraction and an offset make a full-time |
| Schema.LeadingDigitsOfDigits | tools/create-json-schema.ts:25 | a fraction's digits end where the offset starts |
| Schema.FullDateIs | tools/create-json-schema.ts:21 | a `yyyy-mm-dd` string with a day of at most 28 is a full-date |
| Schema.RecurrencePatternExamples | tools/create-json-schema.ts:41 | `RRULE:FREQ=YEARLY` matches `^RRULE:.+$`; `RRULE:`, `FREQ=YEARLY` and a rule with a line break do not |
| Validator.ValidateICalendarJson | src/json-schema-validator.ts:98-118 | valid exactly on schema-valid documents. It returns the type error for a value failing the guard. Otherwise it returns the schema message with the validator's errors, which are non-empty |
| Validator.IsICalData | src/json-schema-validator.ts:86-90 | the shape guard: an object owning `name` and `events`, whose `events` is an array |
| Validator.ValidDocumentPassesGuard | src/json-schema-validator.ts:86-90 | every schema-valid document passes the shape guard |
| Validator.ValidatorExamples | test/json-schema-validator.test.ts:52-116 | null, undefined and a string `events` give the type error; an empty `events` gives exactly the `minItems` error |
| Validator.OptionalText | src/json-schema-validator.ts:29-37 | an optional string field read as an option: present exactly when the key has a value |
| Validator.ToEventInput | src/json-schema-validator.ts:20-37 | the typed view of a valid event, as the cast reads it: summary, description, location, recurrence rule, categories and the two date lists are the JSON event's own values, each optional one present exactly when the property is. Unlike src/ical-generator.ts:17-19, which tests for the `allDayStart` key, the view is all-day exactly when the event matched the schema's all-day branch (first Findings row) |
| Validator.ToBaseData | src/json-schema-validator.ts:38-42 | the typed view of a valid document: its name, its description (present exactly when the document has one, with the document's value) and the typed view of each event, in order |
| Validator.StringArray | src/json-schema-validator.ts:32 | a string list as a JSON array, item by item |
| Validator.StringsOfStringArray | src/json-schema-validator.ts:32 | reading back a written string array gives the strings |
| Validator.EventToJsonProperties | src/json-schema-validator.ts:20-37 | a typed event written as JSON has exactly its fields under the interface's keys |
| Validator.OptionalTextOfValue | src/json-schema-validator.ts:31-34 | an optional string written and read back is unchanged |
| Validator.EventToJsonTiming | src/json-schema-validator.ts:20-28 | the JSON form of a typed event has only its shape's timing properties: it owns `allDayStart` exactly when all-day |
| Validator.EventJsonValid | tools/create-json-schema.ts:30-42 | the JSON form of a well-formed typed event is a valid event matching the branch of its shape |
| Validator.EventRoundTrip | src/json-schema-validator.ts:20-37 | a well-formed typed event written as JSON is valid and reads back as itself |
| Validator.BaseDataRoundTrip | src/json-schema-validator.ts:38-42 | well-formed typed data with at least one event becomes a valid document, which the validator accepts and which reads back as itself |
| Generator.HasAllDayStartKey | src/ical-generator.ts:17-19 | the all-day test as written: the event object owns the key `allDayStart` |
| Generator.CreateEvent | src/ical-generator.ts:95-101 | a new public event with the given identifier, stamp, start and summary, and nothing else set |
| Generator.ApplyEventTiming | src/ical-generator.ts:55-64 | all-day events are marked all-day and transparent; timed events get their end and are opaque |
| Generator.MapEvent | src/ical-generator.ts:93-104 | the record one input event becomes: created, optional fields applied, then timing applied |
| Generator.NewCalendar | src/ical-generator.ts:77-81 | a calendar with the input name, the product identifier, the Gregorian scale and no events |
| Generator.ICalendarFor | src/ical-generator.ts:74-108 | the calendar the builder describes: header, description when non-empty, and the mapped events |
| Generator.EventStart | src/ical-generator.ts:93 | an event starts at `allDayStart` when all-day, else at `start` |
| Generator.ToCategories | src/ical-generator.ts:38 | one category per name, in order |
| Generator.ApplyOptionalFields | src/ical-generator.ts:28-45 | description, location and recurrence rule are set when non-empty. Categories are set when the list is non-empty. Nothing else changes |
| Generator.MapEventTiming | src/ical-generator.ts:55-64 | all-day events are all-day and transparent with no end; timed events end at `end` and are opaque |
| Generator.MapEventIdentity | src/ical-generator.ts:95-101 | each event gets the given identifier, the shared stamp, class PUBLIC and its summary |
| Generator.MapEventOptionalFields | src/ical-generator.ts:28-45 | optional fields appear exactly when non-empty, with the event's values |
| Generator.MapEventIgnoresRecurrenceDates | src/json-schema-validator.ts:35-36 | `recurrenceDates` and `exceptionDates` do not affect the event built |
| Generator.MapEvents | src/ical-generator.ts:92-105 | one record per source event |
| Generator.GenerateICalendarObject | src/ical-generator.ts:74-108 | fails with `sourceData is required.` without data. Otherwise the loop builds exactly the calendar `ICalendarFor` describes |
| Generator.CalendarHeader | src/ical-generator.ts:77-85 | the calendar has the source name, the product identifier and the Gregorian scale. It has a description exactly when the source's is non-empty |
| Generator.CalendarEventsInOrder | src/ical-generator.ts:92-105 | events in source order, the `i`-th with identifier `uuid(i)`, its summary, its start, and all-day exactly for all-day input |
| Generator.SharedStampAndClass | src/ical-generator.ts:90-98 | every event carries the one stamp computed before the loop and class PUBLIC |
| Generator.DistinctIdentifiers | src/ical-generator.ts:96 | distinct fresh identifiers give distinct event identifiers |
| Generator.KeyTestMisclassifiesTimedEvent | src/ical-generator.ts:17-19 | an event with a malformed `allDayStart` but valid `start`/`end` is valid, timed by its schema branch, yet has the `allDayStart` key |
| Generator.TimedBranchOnly | tools/create-json-schema.ts:21-33 | such an event matches the timed branch only |
| Generator.KeyTestRightOnTypedEvents | src/ical-generator.ts:17-19 | on the JSON form of a well-formed typed event, which owns only its shape's timing keys, the key test gives the schema branch |
| Generator.AllDayKeyAgreesWithBranch | src/ical-generator.ts:17-19 | when an `allDayStart` key implies a matching all-day branch, the key test and the branch agree |
| Paths.LastIndexOf | src/app.ts:95 | the last index holding a character, or none |
| Paths.LastIndexOfIs | src/app.ts:95 | the index holding the character with none after it is the last index |
| Paths.TrimTrailingSlashes | src/app.ts:95-98 | the path without its trailing slashes, a prefix of the path |
| Paths.SegmentStart | src/app.ts:95-98 | where the last segment starts: after a `/`, with none after it |
| Paths.Basename | src/app.ts:98 | `path.posix.basename`: the whole last segment of the path without trailing slashes. It has no `/`, ends that path, and is either all of it or preceded by a `/` |
| Paths.ExtStart | src/app.ts:95 | where `extname` starts. It is the last `.` of the last segment, after the segment's first character, unless the segment is `..`. There is no extension exactly when the segment is `..` or has no `.` after its first character |
| Paths.ExtName | src/app.ts:95 | `path.extname`: empty exactly when `ExtStart` finds no extension; otherwise a `.` with no other `.` after it, no `/`, shorter than the segment, ending the path without trailing slashes |
| Paths.ReplaceFirst | src/app.ts:58 | `String.prototype.replace` with a string pattern: only the first occurrence is replaced |
| Paths.ToLower | src/app.ts:95 | ASCII lower-casing, character by character |
| Paths.IndexOfFrom | src/app.ts:58 | the first occurrence at or after a start index, or none |
| Paths.IndexOf | src/app.ts:58 | the first occurrence of a string, or none |
| App.HasJsonExtension | src/app.ts:95-97 | the extension check: the lower-cased `extname` is `.json` |
| App.CliOptionsError | src/app.ts:90-100 | the checks in order, each with its own message: no options give `cliOptions is required`; a missing or empty `sourceFile` gives `sourceFile is required`; a missing file gives `sourceFile does not exist: <path>`; a wrong extension gives `sourceFile does not have a '.json' extension: <basename>`. None exactly when every check passes |
| App.LowerJsonIff | src/app.ts:95-96 | lower-casing gives `.json` exactly for `.json` spelled in any mix of cases |
| App.JsonExtensionIff | src/app.ts:95-96 | the extension check holds exactly for paths whose last segment ends, after trailing slashes, in `.json` in any case after at least one character |
| App.ExtensionGivesSuffix | src/app.ts:95-96 | the extension check implies that suffix |
| App.SuffixGivesExtension | src/app.ts:95-96 | that suffix implies the extension check, the extension being those five characters |
| App.JsonExtensionAtEnd | src/app.ts:95-96 | a path passing the check ends, after trailing slashes, in its extension |
| App.JsonPathLastChar | src/app.ts:95-96 | a path passing the check never ends in `s` |
| App.OutputPathAsWritten | src/app.ts:58 | the output path as written: a path without a lower-case `.json` is returned unchanged; otherwise its first `.json` becomes `.ics` |
| App.OutputPath | src/app.ts:29-30 | the intended output path: ends in `.ics`, puts `.ics` where the source's extension was, and differs from the source path |
| App.AsWrittenAgreesOnPlainPaths | src/app.ts:58 | for a path ending in `.json` with no earlier `.json`, the derivation as written gives the intended output path |
| App.NoOccurrence | src/app.ts:58 | no occurrence when the pattern's last character is absent |
| App.FirstOccurrence | src/app.ts:58 | the first occurrence is where the pattern occurs with none before |
| App.UppercaseExtensionKeepsPath | src/app.ts:58-98 | a path ending in `.JSON` with no lower-case `.json` passes the check, and the derivation as written returns the source path itself |
| App.FirstOccurrenceRenamesDirectory | src/app.ts:58 | with an earlier `.json`, the derivation as written rewrites that one and keeps the file's `.json` |
| App.OutputPathExamples | src/app.ts:58 | `cal.JSON` maps to itself; `a.json.d/cal.json` maps to `a.ics.d/cal.json` |
| App.CliOptionsErrorExamples | test/app.test.ts:34-46 | missing options give `cliOptions is required`; a missing `sourceFile` gives `sourceFile is required` |
| App.MissingFileExample | test/app.test.ts:49-50 | a missing `~/missing.json` gives `sourceFile does not exist: ~/missing.json` |
| App.TextFileSegment | test/app.test.ts:53-59 | `~/example.txt` has basename `example.txt` and fails the extension check |
| App.ExtensionMessage | src/app.ts:95-99 | an existing, non-empty path without a `.json` extension is refused with the extension message naming its basename |
| App.TextFileExtension | test/app.test.ts:53-59 | an existing `~/example.txt` is refused with `sourceFile does not have a '.json' extension: example.txt` |
| App.ToError | src/utils.ts:83-95 | an escaping error keeps its message, at the end, after the context prefix |
| App.ValidationMessage | src/app.ts:102-111 | the validation step's answer: nothing for a schema-valid document, else the invalid-data message naming the file |
| App.WriteStep | src/app.ts:82-84 | a write fails with an error on a read-only output path; otherwise the output path gets the text and the run reports success |
| App.GenerateOutcome | src/app.ts:72-88 | one run: a read error, a parse error, the validation message, a build or rendering error, or the write step, in that order |
| App.FileSystem.ReadFileSync | src/utils.ts:70 | a file's contents, or the `ENOENT` error naming the path |
| App.FileSystem.WriteFileSync | src/app.ts:82 | replaces exactly the written path; on a read-only path fails and changes nothing |
| App.ICalGeneratorApp.constructor | src/app.ts:54-63 | options passing every check give the source path, the version and `debug` defaulting to false. The output path stored is the corrected `OutputPath`, not what src/app.ts:58 computes (`OutputPathAsWritten`; second Findings row) |
| App.ICalGeneratorApp.Create | src/app.ts:54-100 | construction fails exactly when a check fails, with that check's message |
| App.ICalGeneratorApp.BuildICalendar | src/app.ts:113-116 | the calendar for the typed view of a validated document |
| App.ICalGeneratorApp.ValidateOrReturnMessage | src/app.ts:102-111 | nothing for a valid document, else the invalid-data message naming the file |
| App.ICalGeneratorApp.Generate | src/app.ts:72-88 | the result and the files afterwards are those `GenerateOutcome` gives for the files before; the source file keeps its contents |
| App.WritesOnlyOnSuccess | src/app.ts:76-84 | a run changes no file unless it reports success after validation and a successful rendering, and then only the output path, to the calendar text |
| App.InvalidDataWritesNothing | src/app.ts:76-111 | a source that parses but fails validation yields the invalid-data message and writes nothing |
| App.ErrorsPropagate | src/app.ts:73-87 | read, parse, calendar build or rendering, and write failures are errors carrying the original message, prefixed, and write nothing |
| App.ValidRunWrites | src/app.ts:76-84 | a readable, parseable, valid document whose calendar renders, with a writable output path, is written there as calendar text and the run reports success (the converse of `WritesOnlyOnSuccess`) |
| App.SourceSurvives | src/app.ts:58-82 | with the intended output path, no run changes the source file |
| App.AsWrittenOverwritesSource | src/app.ts:58-82 | with the output path as written, a valid `<stem>.JSON` whose calendar renders is replaced by its own calendar text, and the run reports success |

## Left out

- Parsing: `JSON.parse` is the parameter `parse`, which returns a value or an error message. JSON
  numbers are reals.
- The calendar library: `createEvent`'s parsing of dates and rules and the RFC 5545 rendering
  (`ICalCalendar.toString()`) are the parameter `serialize`, which returns the text or the message
  of what the library threw. Which inputs the library rejects is not modelled. The event record
  keeps each field as given.
- Clock and identifiers: `DateTime.utc()` is the parameter `stamp` and `randomUUID` is `uuid(i)`.
  Distinctness of identifiers is a hypothesis of `Generator.DistinctIdentifiers`.
- Logging: `logDebug`, `logValidationErrors`, `getDebugSource` and `console` output are left out.
  They do not affect results or files.
- `src/cli.ts`, the command-line parsing, is not part of this model. `CliOptions` is what it hands
  over.
- `getAjvValidateFunction`: reading and compiling the schema file is left out. The model takes the
  schema that `tools/create-json-schema.ts` writes as given.
- Error order: ajv's errors are modelled as a set, so their order is left out.
- Secondary errors: errors reported inside a failed `oneOf` branch are dropped. For one event the
  tests show exactly one `oneOf` error, and the model matches that. A non-object event gets its
  `type` error and the `oneOf` error with `passingSchemas` null, but not the errors of the two
  branches.
- Formats: `ajv-formats` `date` and `date-time` are modelled by the RFC 3339 section 5.6 grammar,
  with days per month and leap years.
- `readJsonFile`'s own extension assertion always holds for an app whose options passed the
  constructor's check, so it is not modelled separately.
- `existsSync`: it is the key set of the file map, so it is also true for paths that name a
  directory.
- `writeFileSync` failures are modelled only by a set of read-only paths. The `EACCES`/`ENOENT`
  texts are stand-ins for Node's messages.
- `toError` is modelled for the `Error` case only. Errors from reading, parsing and writing are
  strings, so the other branches of `src/utils.ts:83-95` never apply.
- Paths follow POSIX rules only (`path.extname` on Windows treats `\` as a separator too).
- Lower-casing is ASCII only. Non-ASCII case mappings of `toLowerCase` are left out.
- `OS_EOL` is fixed to `"\n"`.
- Schema.DateTimeExamples: the test's end instant `2026-02-23T11:15:00.456-04:00` is not checked
  separately, because it has the same form as the start instant.

## Findings

| source | as written | input that shows it | evidently intended | confidence | as-written member | corrected member |
|---|---|---|---|---|---|---|
| src/ical-generator.ts:17-19 | an event counts as all-day when it has the key `allDayStart` | `{summary: "S", allDayStart: "soon", start: "2025-03-15T10:00:00Z", end: "2025-03-15T10:00:00Z"}`. It passes the schema through the timed branch only, yet becomes an all-day event starting on `soon` | all-day exactly when the event matched the schema's all-day branch | not executed | Generator.KeyTestMisclassifiesTimedEvent | Validator.ToEventInput |
| src/app.ts:58 | the output path replaces the first `.json` anywhere in the source path, case-sensitively | `cal.JSON` passes the case-insensitive extension check, contains no `.json`, and so gets itself as output path; a successful run overwrites the source with the calendar. `a.json.d/cal.json` gives `a.ics.d/cal.json` | replace the extension at the end of the path by `.ics` | not executed | App.AsWrittenOverwritesSource | App.SourceSurvives |
