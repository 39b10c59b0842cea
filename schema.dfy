/**
 * The JSON schema the application validates its input against: a document with a `name`,
 * an optional `description` and a non-empty list of events, each of which is either an
 * all-day event or a timed event, never both.
 *
 * `ValidDocument` states the schema declaratively; `DocumentErrors` is what the compiled
 * validator (ajv, run with `allErrors`) reports, one entry per violated rule outside the branches
 * of a `oneOf` (errors inside a failed branch are not kept), and `DocumentErrorsEmptyIff` proves
 * that it reports nothing exactly on valid documents.
 */
module Schema {
  import opened Json

  /** ajv's error record: the failed keyword, where in the data, where in the schema. */
  datatype ErrorObject = ErrorObject(
    keyword: string,
    instancePath: string,
    schemaPath: string,
    params: map<string, Value>,
    message: string)

  /** The only properties a document may have (`additionalProperties(false)`). */
  const DOCUMENT_PROPERTIES: set<string> := {"name", "description", "events"}

  const RECURRENCE_RULE_PATTERN := "^RRULE:.+$"
  const RECURRENCE_RULE_PREFIX := "RRULE:"

  // ---------------------------------------------------------------------------
  // RFC 3339 section 5.6: full-date and date-time
  // ---------------------------------------------------------------------------

  predicate IsDigit(c: char) {
    '0' <= c <= '9'
  }

  function DigitValue(c: char): (d: nat)
    requires IsDigit(c)
    ensures d <= 9
  {
    c as int - '0' as int
  }

  /** The value of the two decimal digits at `s[i]` and `s[i + 1]`. */
  function TwoDigits(s: string, i: nat): (n: nat)
    requires i + 2 <= |s| && IsDigit(s[i]) && IsDigit(s[i + 1])
    ensures n <= 99
  {
    DigitValue(s[i]) * 10 + DigitValue(s[i + 1])
  }

  predicate IsLeapYear(year: nat) {
    year % 4 == 0 && (year % 100 != 0 || year % 400 == 0)
  }

  /** The largest `date-mday` of a month (RFC 3339 section 5.7). */
  function DaysInMonth(year: nat, month: nat): (days: nat)
    requires 1 <= month <= 12
    ensures 28 <= days <= 31
    ensures days < 30 <==> month == 2
    ensures month == 2 ==> (days == 29 <==> IsLeapYear(year))
    ensures days == 30 <==> month in {4, 6, 9, 11}
    ensures days == 31 <==> month in {1, 3, 5, 7, 8, 10, 12}
  {
    if month == 2 then (if IsLeapYear(year) then 29 else 28)
    else if month == 4 || month == 6 || month == 9 || month == 11 then 30
    else 31
  }

  /** `full-date = date-fullyear "-" date-month "-" date-mday`. */
  predicate IsFullDate(s: string) {
    |s| == 10
    && IsDigit(s[0]) && IsDigit(s[1]) && IsDigit(s[2]) && IsDigit(s[3]) && s[4] == '-'
    && IsDigit(s[5]) && IsDigit(s[6]) && s[7] == '-' && IsDigit(s[8]) && IsDigit(s[9])
    && var year, month, day := TwoDigits(s, 0) * 100 + TwoDigits(s, 2), TwoDigits(s, 5), TwoDigits(s, 8);
       1 <= month <= 12 && 1 <= day <= DaysInMonth(year, month)
  }

  /** `time-hour ":" time-minute ":" time-second`, the first eight characters of a partial-time. */
  predicate IsHourMinuteSecond(t: string) {
    |t| >= 8
    && IsDigit(t[0]) && IsDigit(t[1]) && t[2] == ':' && IsDigit(t[3]) && IsDigit(t[4])
    && t[5] == ':' && IsDigit(t[6]) && IsDigit(t[7])
    && TwoDigits(t, 0) <= 23 && TwoDigits(t, 3) <= 59 && TwoDigits(t, 6) <= 60
  }

  /** The length of the run of digits that starts `s`. */
  function LeadingDigits(s: string): (n: nat)
    ensures n <= |s|
    ensures forall i :: 0 <= i < n ==> IsDigit(s[i])
    ensures n < |s| ==> !IsDigit(s[n])
  {
    if s == [] || !IsDigit(s[0]) then 0 else 1 + LeadingDigits(s[1..])
  }

  /** `time-offset = "Z" / time-numoffset`, `time-numoffset = ("+" / "-") time-hour ":" time-minute`. */
  predicate IsTimeOffset(o: string) {
    o == "Z" || o == "z"
    || (|o| == 6 && (o[0] == '+' || o[0] == '-')
        && IsDigit(o[1]) && IsDigit(o[2]) && o[3] == ':' && IsDigit(o[4]) && IsDigit(o[5])
        && TwoDigits(o, 1) <= 23 && TwoDigits(o, 4) <= 59)
  }

  /** `full-time = partial-time time-offset`, with the optional `time-secfrac = "." 1*DIGIT`. */
  predicate IsFullTime(t: string) {
    |t| >= 9 && IsHourMinuteSecond(t)
    && var rest := t[8..];
       IsTimeOffset(rest)
       || (rest[0] == '.' && var n := LeadingDigits(rest[1..]); n >= 1 && IsTimeOffset(rest[1 + n..]))
  }

  /** `date-time = full-date "T" full-time` ("T" and "Z" may be written in lower case). */
  predicate IsDateTime(s: string) {
    |s| >= 20 && IsFullDate(s[..10]) && (s[10] == 'T' || s[10] == 't') && IsFullTime(s[11..])
  }

  // ---------------------------------------------------------------------------
  // The recurrence-rule pattern ^RRULE:.+$
  // ---------------------------------------------------------------------------

  /** The characters a regular-expression `.` does not match. */
  predicate IsLineTerminator(c: char) {
    c == '\n' || c == '\r' || c == '\U{2028}' || c == '\U{2029}'
  }

  predicate MatchesRecurrencePattern(s: string) {
    |s| > |RECURRENCE_RULE_PREFIX| && s[..|RECURRENCE_RULE_PREFIX|] == RECURRENCE_RULE_PREFIX
    && forall i :: |RECURRENCE_RULE_PREFIX| <= i < |s| ==> !IsLineTerminator(s[i])
  }

  // ---------------------------------------------------------------------------
  // The schema, stated declaratively
  // ---------------------------------------------------------------------------

  /** Definition `allDayEvent`: an object with a string `allDayStart` in full-date format. */
  predicate MatchesAllDayShape(e: Value) {
    e.Object? && Get(e, "allDayStart").String? && IsFullDate(Get(e, "allDayStart").str)
  }

  /** Definition `timedEvent`: an object with string `start` and `end` in date-time format. */
  predicate MatchesTimedShape(e: Value) {
    e.Object?
    && Get(e, "start").String? && IsDateTime(Get(e, "start").str)
    && Get(e, "end").String? && IsDateTime(Get(e, "end").str)
  }

  /** Property `categories`: when present, an array of strings. */
  predicate OptionalStringArray(e: Value, key: string) {
    !Present(e, key) || (Get(e, key).Array? && AllStrings(Get(e, key).items))
  }

  /** Property `recurrenceRule`: when present, a string matching the pattern. */
  predicate OptionalRecurrenceRule(e: Value) {
    !Present(e, "recurrenceRule")
    || (Get(e, "recurrenceRule").String? && MatchesRecurrencePattern(Get(e, "recurrenceRule").str))
  }

  /** Definition `event`: exactly one of the two shapes, and the fields every event shares. */
  predicate ValidEvent(e: Value) {
    EventFieldsValid(e) && (MatchesAllDayShape(e) != MatchesTimedShape(e))
  }

  /** Definition `event` apart from its `oneOf`: a string `summary` and typed optional fields. */
  predicate EventFieldsValid(e: Value) {
    e.Object?
    && Get(e, "summary").String?
    && OptionalString(e, "description")
    && OptionalStringArray(e, "categories")
    && OptionalString(e, "location")
    && OptionalRecurrenceRule(e)
  }

  /** The whole document. */
  predicate ValidDocument(doc: Value) {
    doc.Object?
    && doc.fields.Keys <= DOCUMENT_PROPERTIES
    && Get(doc, "name").String?
    && OptionalString(doc, "description")
    && Get(doc, "events").Array?
    && |Get(doc, "events").items| >= 1
    && forall i :: 0 <= i < |Get(doc, "events").items| ==> ValidEvent(Get(doc, "events").items[i])
  }

  // ---------------------------------------------------------------------------
  // The errors the validator reports
  // ---------------------------------------------------------------------------

  function DigitChar(d: nat): (c: char)
    requires d <= 9
    ensures IsDigit(c) && DigitValue(c) == d
  {
    ('0' as int + d) as char
  }

  /** The number a non-empty run of decimal digits spells, most significant first. */
  function DigitsValue(s: string): nat
    requires forall i :: 0 <= i < |s| ==> IsDigit(s[i])
  {
    if s == [] then 0 else DigitsValue(s[..|s| - 1]) * 10 + DigitValue(s[|s| - 1])
  }

  /**
   * The decimal digits of `n`, as a JSON pointer writes an array index: they spell `n`, with no
   * leading zero.
   */
  function NatToString(n: nat): (r: string)
    ensures |r| >= 1
    ensures forall i :: 0 <= i < |r| ==> IsDigit(r[i])
    ensures DigitsValue(r) == n
    ensures r[0] == '0' ==> r == "0"
  {
    if n < 10 then [DigitChar(n)]
    else
      var front := NatToString(n / 10);
      var r := front + [DigitChar(n % 10)];
      assert r[..|r| - 1] == front;
      r
  }

  function TypeError(instancePath: string, schemaPath: string, typeName: string): ErrorObject {
    ErrorObject("type", instancePath, schemaPath, map["type" := String(typeName)], "must be " + typeName)
  }

  function RequiredError(instancePath: string, property: string): ErrorObject {
    ErrorObject("required", instancePath, "#/required", map["missingProperty" := String(property)],
                "must have required property '" + property + "'")
  }

  function AdditionalPropertyError(property: string): ErrorObject {
    ErrorObject("additionalProperties", "", "#/additionalProperties",
                map["additionalProperty" := String(property)], "must NOT have additional properties")
  }

  const MIN_ITEMS_ERROR :=
    ErrorObject("minItems", "/events", "#/properties/events/minItems", map["limit" := Number(1.0)],
                "must NOT have fewer than 1 items")

  function PatternError(instancePath: string): ErrorObject {
    ErrorObject("pattern", instancePath, "#/properties/recurrenceRule/pattern",
                map["pattern" := String(RECURRENCE_RULE_PATTERN)],
                "must match pattern \"" + RECURRENCE_RULE_PATTERN + "\"")
  }

  /** `passingSchemas` is `[0, 1]` when both shapes match and `null` when neither does. */
  function OneOfError(instancePath: string, bothMatch: bool): ErrorObject {
    ErrorObject("oneOf", instancePath, "#/oneOf",
                map["passingSchemas" := if bothMatch then Array([Number(0.0), Number(1.0)]) else Null],
                "must match exactly one schema in oneOf")
  }

  function RequiredErrors(v: Value, path: string, property: string): set<ErrorObject> {
    if Present(v, property) then {} else {RequiredError(path, property)}
  }

  function StringPropertyErrors(v: Value, path: string, property: string): set<ErrorObject> {
    if Present(v, property) && !Get(v, property).String?
    then {TypeError(path + "/" + property, "#/properties/" + property + "/type", "string")}
    else {}
  }

  function CategoryItemErrors(items: seq<Value>, index: nat, path: string): set<ErrorObject>
    decreases |items|
  {
    if items == [] then {}
    else
      (if items[0].String? then {}
       else {TypeError(path + "/" + NatToString(index), "#/properties/categories/items/type", "string")})
      + CategoryItemErrors(items[1..], index + 1, path)
  }

  function CategoriesErrors(e: Value, path: string): set<ErrorObject> {
    if !Present(e, "categories") then {}
    else if !Get(e, "categories").Array? then
      {TypeError(path + "/categories", "#/properties/categories/type", "array")}
    else CategoryItemErrors(Get(e, "categories").items, 0, path + "/categories")
  }

  function RecurrenceRuleErrors(e: Value, path: string): set<ErrorObject> {
    if !Present(e, "recurrenceRule") then {}
    else if !Get(e, "recurrenceRule").String? then
      {TypeError(path + "/recurrenceRule", "#/properties/recurrenceRule/type", "string")}
    else if !MatchesRecurrencePattern(Get(e, "recurrenceRule").str) then {PatternError(path + "/recurrenceRule")}
    else {}
  }

  function OneOfErrors(e: Value, path: string): set<ErrorObject> {
    if MatchesAllDayShape(e) == MatchesTimedShape(e) then {OneOfError(path, MatchesAllDayShape(e))} else {}
  }

  function EventErrors(e: Value, path: string): set<ErrorObject> {
    if !e.Object? then {TypeError(path, "#/type", "object")} + OneOfErrors(e, path)
    else
      OneOfErrors(e, path)
      + RequiredErrors(e, path, "summary") + StringPropertyErrors(e, path, "summary")
      + StringPropertyErrors(e, path, "description")
      + CategoriesErrors(e, path)
      + StringPropertyErrors(e, path, "location")
      + RecurrenceRuleErrors(e, path)
  }

  function EventItemErrors(items: seq<Value>, index: nat): set<ErrorObject>
    decreases |items|
  {
    if items == [] then {}
    else EventErrors(items[0], "/events/" + NatToString(index)) + EventItemErrors(items[1..], index + 1)
  }

  function EventListErrors(doc: Value): set<ErrorObject> {
    if !Present(doc, "events") then {}
    else if !Get(doc, "events").Array? then {TypeError("/events", "#/properties/events/type", "array")}
    else
      (if Get(doc, "events").items == [] then {MIN_ITEMS_ERROR} else {})
      + EventItemErrors(Get(doc, "events").items, 0)
  }

  function AdditionalPropertyErrors(doc: Value): set<ErrorObject>
    requires doc.Object?
  {
    set k | k in doc.fields.Keys && k !in DOCUMENT_PROPERTIES :: AdditionalPropertyError(k)
  }

  /** Everything the validator reports about `doc`, in no particular order. */
  function DocumentErrors(doc: Value): set<ErrorObject> {
    if !doc.Object? then {TypeError("", "#/type", "object")}
    else
      RequiredErrors(doc, "", "name") + RequiredErrors(doc, "", "events")
      + AdditionalPropertyErrors(doc)
      + StringPropertyErrors(doc, "", "name")
      + StringPropertyErrors(doc, "", "description")
      + EventListErrors(doc)
  }

  // ---------------------------------------------------------------------------
  // The validator reports nothing exactly on valid documents
  // ---------------------------------------------------------------------------

  lemma {:induction false} CategoryItemErrorsEmptyIff(items: seq<Value>, index: nat, path: string)
    ensures CategoryItemErrors(items, index, path) == {} <==> AllStrings(items)
    decreases |items|
  {
    if items != [] {
      CategoryItemErrorsEmptyIff(items[1..], index + 1, path);
      assert AllStrings(items) <==> items[0].String? && AllStrings(items[1..]) by {
        if items[0].String? && AllStrings(items[1..]) {
          forall i | 0 <= i < |items| ensures items[i].String? {
            if i > 0 { assert items[i] == items[1..][i - 1]; }
          }
        }
      }
    }
  }

  lemma EventErrorsEmptyIff(e: Value, path: string)
    ensures EventErrors(e, path) == {} <==> ValidEvent(e)
  {
    if e.Object? && Present(e, "categories") && Get(e, "categories").Array? {
      CategoryItemErrorsEmptyIff(Get(e, "categories").items, 0, path + "/categories");
    }
  }

  lemma {:induction false} EventItemErrorsEmptyIff(items: seq<Value>, index: nat)
    ensures EventItemErrors(items, index) == {} <==> forall i :: 0 <= i < |items| ==> ValidEvent(items[i])
    decreases |items|
  {
    if items != [] {
      EventErrorsEmptyIff(items[0], "/events/" + NatToString(index));
      EventItemErrorsEmptyIff(items[1..], index + 1);
      if (forall i :: 0 <= i < |items[1..]| ==> ValidEvent(items[1..][i])) && ValidEvent(items[0]) {
        forall i | 0 <= i < |items| ensures ValidEvent(items[i]) {
          if i > 0 { assert items[i] == items[1..][i - 1]; }
        }
      }
    }
  }

  lemma AdditionalPropertyErrorsEmptyIff(doc: Value)
    requires doc.Object?
    ensures AdditionalPropertyErrors(doc) == {} <==> doc.fields.Keys <= DOCUMENT_PROPERTIES
  {
    if !(doc.fields.Keys <= DOCUMENT_PROPERTIES) {
      var k :| k in doc.fields.Keys && k !in DOCUMENT_PROPERTIES;
      assert AdditionalPropertyError(k) in AdditionalPropertyErrors(doc);
    }
  }

  /** The compiled validator accepts (reports no error) exactly the documents the schema describes. */
  lemma DocumentErrorsEmptyIff(doc: Value)
    ensures DocumentErrors(doc) == {} <==> ValidDocument(doc)
  {
    if doc.Object? {
      AdditionalPropertyErrorsEmptyIff(doc);
      if Present(doc, "events") && Get(doc, "events").Array? {
        EventItemErrorsEmptyIff(Get(doc, "events").items, 0);
      }
    }
  }

  // ---------------------------------------------------------------------------
  // What the schema accepts and rejects
  // ---------------------------------------------------------------------------

  /** An event whose shared fields are valid fails only on its `oneOf`, if at all. */
  lemma EventErrorsOnlyOneOf(e: Value, path: string)
    requires EventFieldsValid(e)
    ensures EventErrors(e, path) == OneOfErrors(e, path)
  {
    EventErrorsEmptyIff(e, path);
    if Present(e, "categories") {
      CategoryItemErrorsEmptyIff(Get(e, "categories").items, 0, path + "/categories");
    }
  }

  /** A document `{name, events: [e]}` with a string name. */
  function SingleEventDocument(name: string, e: Value): Value {
    Object(map["name" := String(name), "events" := Array([e])])
  }

  /** A document with a string name and no undeclared property fails only on its description and events. */
  lemma TopLevelErrorsAreEventErrors(doc: Value)
    requires doc.Object? && doc.fields.Keys <= DOCUMENT_PROPERTIES
    requires Get(doc, "name").String? && Present(doc, "events")
    ensures DocumentErrors(doc) == StringPropertyErrors(doc, "", "description") + EventListErrors(doc)
  {
    AdditionalPropertyErrorsEmptyIff(doc);
    assert RequiredErrors(doc, "", "name") == {} && RequiredErrors(doc, "", "events") == {};
    assert StringPropertyErrors(doc, "", "name") == {};
  }

  /** The event errors of a one-event document are those of its event, at `/events/0`. */
  lemma SingleEventErrors(e: Value)
    ensures EventItemErrors([e], 0) == EventErrors(e, "/events/0")
  {
    assert [e][1..] == [];
    assert NatToString(0) == "0" && "/events/" + NatToString(0) == "/events/0";
  }

  /** The errors of a one-event document are those of its event, at `/events/0`. */
  lemma SingleEventDocumentErrors(name: string, e: Value)
    ensures DocumentErrors(SingleEventDocument(name, e)) == EventErrors(e, "/events/0")
  {
    var doc := SingleEventDocument(name, e);
    assert doc.fields.Keys == {"name", "events"};
    assert Get(doc, "name") == String(name) && Get(doc, "events") == Array([e]);
    assert !Present(doc, "description");
    OneEventDocumentErrors(doc, e);
  }

  /** The errors of a document whose only event is `e`, with a string name and no description. */
  lemma OneEventDocumentErrors(doc: Value, e: Value)
    requires doc.Object? && doc.fields.Keys <= DOCUMENT_PROPERTIES
    requires Get(doc, "name").String? && !Present(doc, "description") && Get(doc, "events") == Array([e])
    ensures DocumentErrors(doc) == EventErrors(e, "/events/0")
  {
    TopLevelErrorsAreEventErrors(doc);
    assert StringPropertyErrors(doc, "", "description") == {};
    SingleEventErrors(e);
  }

  /**
   * An event carrying both shapes is rejected with exactly one `oneOf` error at its path,
   * and one carrying neither with exactly one `oneOf` error whose `passingSchemas` is null.
   */
  lemma OneOfIsTheOnlyError(name: string, e: Value)
    requires EventFieldsValid(e)
    requires MatchesAllDayShape(e) == MatchesTimedShape(e)
    ensures !ValidDocument(SingleEventDocument(name, e))
    ensures DocumentErrors(SingleEventDocument(name, e)) == {OneOfError("/events/0", MatchesAllDayShape(e))}
  {
    SingleEventDocumentErrors(name, e);
    EventErrorsOnlyOneOf(e, "/events/0");
    DocumentErrorsEmptyIff(SingleEventDocument(name, e));
  }

  /** A single valid event draws no error from the event list. */
  lemma OneValidEventNoErrors(doc: Value)
    requires Get(doc, "events").Array? && |Get(doc, "events").items| == 1
    requires ValidEvent(Get(doc, "events").items[0])
    ensures EventListErrors(doc) == {}
  {
    var e := Get(doc, "events").items[0];
    assert Get(doc, "events").items == [e];
    SingleEventErrors(e);
    EventErrorsEmptyIff(e, "/events/0");
  }

  /** A present, non-string description draws the one type error at `/description`. */
  lemma DescriptionTypeError(doc: Value)
    requires Present(doc, "description") && !Get(doc, "description").String?
    ensures StringPropertyErrors(doc, "", "description")
      == {TypeError("/description", "#/properties/description/type", "string")}
  {
    assert "" + "/" + "description" == "/description";
    assert "#/properties/" + "description" + "/type" == "#/properties/description/type";
  }

  /**
   * A non-string top-level description (`null`, say) in an otherwise valid one-event document is
   * rejected with exactly one type error at `/description`.
   */
  lemma NonStringDescriptionIsTheOnlyError(doc: Value)
    requires doc.Object? && doc.fields.Keys <= DOCUMENT_PROPERTIES && Get(doc, "name").String?
    requires Present(doc, "description") && !Get(doc, "description").String?
    requires Get(doc, "events").Array? && |Get(doc, "events").items| == 1
    requires ValidEvent(Get(doc, "events").items[0])
    ensures !ValidDocument(doc)
    ensures DocumentErrors(doc) == {TypeError("/description", "#/properties/description/type", "string")}
  {
    TopLevelErrorsAreEventErrors(doc);
    OneValidEventNoErrors(doc);
    DescriptionTypeError(doc);
  }

  /** An empty event list is rejected with exactly one `minItems` error. */
  lemma EmptyEventsIsTheOnlyError(name: string)
    ensures var doc := Object(map["name" := String(name), "events" := Array([])]);
      !ValidDocument(doc) && DocumentErrors(doc) == {MIN_ITEMS_ERROR}
  {
    var doc := Object(map["name" := String(name), "events" := Array([])]);
    AdditionalPropertyErrorsEmptyIff(doc);
  }

  /** Any top-level property other than `name`, `description` and `events` is rejected. */
  lemma UndeclaredDocumentPropertyRejected(doc: Value, key: string, v: Value)
    requires doc.Object? && key !in DOCUMENT_PROPERTIES
    ensures !ValidDocument(Object(doc.fields[key := v]))
    ensures AdditionalPropertyError(key) in DocumentErrors(Object(doc.fields[key := v]))
  {
  }

  /** The properties the `event` definition and its two shapes declare. */
  const EVENT_PROPERTIES: set<string> :=
    {"allDayStart", "start", "end", "summary", "description", "categories", "location", "recurrenceRule"}

  /** An event may carry undeclared properties (`id`, `recurrenceDates`, ...) and stay valid. */
  lemma UndeclaredEventPropertyAllowed(e: Value, key: string, v: Value)
    requires ValidEvent(e) && key !in EVENT_PROPERTIES
    ensures ValidEvent(Object(e.fields[key := v]))
  {
    var e' := Object(e.fields[key := v]);
    forall k | k in EVENT_PROPERTIES ensures Get(e', k) == Get(e, k) {
    }
  }

  /** The full-date format on the values the tests use, and the leap-year rule. */
  lemma FullDateExamples()
    ensures IsFullDate("2026-02-23") && IsFullDate("2026-02-24") && IsFullDate("2024-02-29")
    ensures !IsFullDate("2025-02-29") && !IsFullDate("invalid-date-format")
  {
    assert TwoDigits("2026-02-23", 0) == 20 && TwoDigits("2026-02-23", 2) == 26;
    assert TwoDigits("2026-02-24", 0) == 20 && TwoDigits("2026-02-24", 2) == 26;
    assert TwoDigits("2024-02-29", 0) == 20 && TwoDigits("2024-02-29", 2) == 24;
    assert TwoDigits("2025-02-29", 0) == 20 && TwoDigits("2025-02-29", 2) == 25;
  }

  /** The date-time format on the values the tests use: a fraction with a numeric offset. */
  lemma DateTimeExamples()
    ensures IsDateTime("2026-02-23" + "T" + ("10:30:00" + "." + "123" + "-04:00"))
    ensures !IsDateTime("invalid-date-format")
  {
    FullDateIs("2026-02-23", 2026, 2, 23);
    FullTimeOfParts("10:30:00", "123", "-04:00");
    DateTimeOfParts("2026-02-23", "10:30:00" + "." + "123" + "-04:00");
  }

  /** The date-time format on a UTC instant without a fraction. */
  lemma UtcDateTimeExample()
    ensures IsDateTime("2025-03-15" + "T" + ("10:00:00" + "Z"))
  {
    FullDateIs("2025-03-15", 2025, 3, 15);
    FullTimeOfParts("10:00:00", "", "Z");
    DateTimeOfParts("2025-03-15", "10:00:00" + "Z");
  }

  /** A full-date, a `T` and a full-time make a date-time. */
  lemma DateTimeOfParts(date: string, time: string)
    requires IsFullDate(date) && IsFullTime(time)
    ensures IsDateTime(date + "T" + time)
  {
    var s := date + "T" + time;
    assert s[..10] == date && s[11..] == time;
  }

  /** `hh:mm:ss`, an optional `.` and fraction digits, and an offset make a full-time. */
  lemma FullTimeOfParts(hms: string, fraction: string, offset: string)
    requires |hms| == 8 && IsHourMinuteSecond(hms) && IsTimeOffset(offset)
    requires forall i :: 0 <= i < |fraction| ==> IsDigit(fraction[i])
    ensures fraction == [] ==> IsFullTime(hms + offset)
    ensures fraction != [] ==> IsFullTime(hms + "." + fraction + offset)
  {
    if fraction == [] {
      assert (hms + offset)[8..] == offset;
    } else {
      var t := hms + "." + fraction + offset;
      var rest := t[8..];
      assert rest == "." + fraction + offset;
      assert rest[1..] == fraction + offset;
      LeadingDigitsOfDigits(fraction, offset);
      assert rest[1 + |fraction|..] == offset;
    }
  }

  lemma {:induction false} LeadingDigitsOfDigits(digits: string, rest: string)
    requires forall i :: 0 <= i < |digits| ==> IsDigit(digits[i])
    requires rest != [] && !IsDigit(rest[0])
    ensures LeadingDigits(digits + rest) == |digits|
  {
    if digits != [] {
      assert (digits + rest)[1..] == digits[1..] + rest;
      LeadingDigitsOfDigits(digits[1..], rest);
    }
  }

  lemma FullDateIs(s: string, year: nat, month: nat, day: nat)
    requires |s| == 10 && s[4] == '-' && s[7] == '-'
    requires year < 10000 && 1 <= month <= 12 && 1 <= day <= 28
    requires s[0] == DigitChar(year / 1000) && s[1] == DigitChar(year / 100 % 10)
    requires s[2] == DigitChar(year / 10 % 10) && s[3] == DigitChar(year % 10)
    requires s[5] == DigitChar(month / 10) && s[6] == DigitChar(month % 10)
    requires s[8] == DigitChar(day / 10) && s[9] == DigitChar(day % 10)
    ensures IsFullDate(s)
  {
  }

  /** The recurrence-rule pattern on the values the tests use. */
  lemma RecurrencePatternExamples()
    ensures MatchesRecurrencePattern("RRULE:FREQ=YEARLY")
    ensures !MatchesRecurrencePattern("RRULE:") && !MatchesRecurrencePattern("FREQ=YEARLY")
    ensures !MatchesRecurrencePattern("RRULE:FREQ=YEARLY\nX")
  {
    assert "RRULE:FREQ=YEARLY"[..6] == RECURRENCE_RULE_PREFIX;
    assert "FREQ=YEARLY"[..6] != RECURRENCE_RULE_PREFIX by { assert "FREQ=YEARLY"[0] == 'F'; }
    assert "RRULE:FREQ=YEARLY\nX"[17] == '\n';
  }
}
