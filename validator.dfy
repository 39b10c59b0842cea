/**
 * The validator in front of the generator: a shape guard, then the schema, and the typed view of a
 * document the schema accepts.
 */
module Validator {
  import opened Wrappers
  import opened Json
  import opened Schema

  const INVALID_ICAL_TYPE_ERROR_MESSAGE: string := "Provided JSON data is not a valid ICalBaseData object."
  const INVALID_ICAL_SCHEMA_VALIDATION_MESSAGE: string :=
    "Provided JSON data failed schema validation. See 'errors' for details."

  /** The single error reported when the shape guard fails. */
  const INVALID_ICAL_TYPE_ERROR: ErrorObject :=
    ErrorObject("type", "$", "$", map["type" := String("ICalBaseData")], INVALID_ICAL_TYPE_ERROR_MESSAGE)

  /** The validation result: `message` and `errors` are absent (`None`) on success. */
  datatype ValidationResult = ValidationResult(
    isValid: bool,
    message: Option<string>,
    errors: Option<set<ErrorObject>>)

  /** The result for anything that is not an object with `name` and an array `events`. */
  const TYPE_ERROR_RESULT: ValidationResult :=
    ValidationResult(false, Some(INVALID_ICAL_TYPE_ERROR_MESSAGE), Some({INVALID_ICAL_TYPE_ERROR}))

  /**
   * The shape guard: a non-null object owning the keys `name` and `events`, whose `events` is an
   * array. Owning a key is enough, whatever it holds; `name` is not inspected at all.
   */
  predicate IsICalData(v: Value) {
    v.Object? && HasKey(v, "name") && HasKey(v, "events") && Get(v, "events").Array?
  }

  /**
   * Validates a parsed JSON value: the guard first, then the schema with every error collected.
   * The result is valid exactly when the document satisfies the schema; a rejected document always
   * comes with a message and at least one error.
   */
  function ValidateICalendarJson(json: Value): (r: ValidationResult)
    ensures r.isValid <==> ValidDocument(json)
    ensures r.isValid ==> r.message.None? && r.errors.None?
    ensures !IsICalData(json) ==> r == TYPE_ERROR_RESULT
    ensures IsICalData(json) && !ValidDocument(json) ==>
      r.message == Some(INVALID_ICAL_SCHEMA_VALIDATION_MESSAGE)
      && r.errors == Some(DocumentErrors(json)) && r.errors.value != {}
  {
    if !IsICalData(json) then TYPE_ERROR_RESULT
    else
      var errors := DocumentErrors(json);
      DocumentErrorsEmptyIff(json);
      if errors == {} then ValidationResult(true, None, None)
      else ValidationResult(false, Some(INVALID_ICAL_SCHEMA_VALIDATION_MESSAGE), Some(errors))
  }

  /** The guard is implied by the schema: every document it lets through reaches the schema. */
  lemma ValidDocumentPassesGuard(json: Value)
    requires ValidDocument(json)
    ensures IsICalData(json)
  {
    assert Get(json, "name") != Undefined && Get(json, "events") != Undefined;
  }

  /** The validator's answers on the inputs its tests use. */
  lemma ValidatorExamples()
    ensures ValidateICalendarJson(Null) == TYPE_ERROR_RESULT
    ensures ValidateICalendarJson(Undefined) == TYPE_ERROR_RESULT
    ensures ValidateICalendarJson(Object(map["name" := String("Invalid Calendar"),
                                             "events" := String("this should be an array")]))
            == TYPE_ERROR_RESULT
    ensures var r := ValidateICalendarJson(Object(map["name" := String("Missing required events"),
                                                      "events" := Array([])]));
      r.message == Some(INVALID_ICAL_SCHEMA_VALIDATION_MESSAGE) && r.errors == Some({MIN_ITEMS_ERROR})
  {
    EmptyEventsIsTheOnlyError("Missing required events");
    var doc := Object(map["name" := String("Missing required events"), "events" := Array([])]);
    assert IsICalData(doc);
  }

  // ---------------------------------------------------------------------------
  // The typed view of a valid document
  // ---------------------------------------------------------------------------

  /** Which of the two event shapes an event has, with its timing fields. */
  datatype EventShape =
    | AllDayShape(allDayStart: string)
    | TimedShape(start: string, end: string)

  /**
   * An event as the generator reads it. `recurrenceDates` and `exceptionDates` are carried as the
   * raw values the document holds: the schema does not constrain them and nothing reads them.
   */
  datatype EventInput = EventInput(
    shape: EventShape,
    summary: string,
    description: Option<string>,
    categories: Option<seq<string>>,
    location: Option<string>,
    recurrenceRule: Option<string>,
    recurrenceDates: Value,
    exceptionDates: Value)

  /** The calendar data: a name, an optional description and the events, in document order. */
  datatype BaseData = BaseData(name: string, description: Option<string>, events: seq<EventInput>)

  /** An optional string property, `None` when it is absent or `undefined`. */
  function OptionalText(v: Value, key: string): (r: Option<string>)
    requires OptionalString(v, key)
    ensures r.Some? <==> Present(v, key)
    ensures r.Some? ==> Get(v, key) == String(r.value)
  {
    if Present(v, key) then Some(Get(v, key).str) else None
  }

  /**
   * The typed view of an event the schema accepts. Its shape is the one branch of the `oneOf` the
   * event matched, so the timing fields always hold the formats the schema checked.
   */
  function ToEventInput(e: Value): (r: EventInput)
    requires ValidEvent(e)
    ensures r.shape.AllDayShape? <==> MatchesAllDayShape(e)
    ensures r.shape.AllDayShape? ==>
      Get(e, "allDayStart") == String(r.shape.allDayStart) && IsFullDate(r.shape.allDayStart)
    ensures r.shape.TimedShape? ==>
      Get(e, "start") == String(r.shape.start) && IsDateTime(r.shape.start)
      && Get(e, "end") == String(r.shape.end) && IsDateTime(r.shape.end)
    ensures Get(e, "summary") == String(r.summary)
    ensures r.categories.Some? <==> Present(e, "categories")
    ensures r.categories.Some? ==>
      |r.categories.value| == |Get(e, "categories").items|
      && forall i :: 0 <= i < |r.categories.value| ==>
           Get(e, "categories").items[i] == String(r.categories.value[i])
    ensures r.description.Some? <==> Present(e, "description")
    ensures r.description.Some? ==> Get(e, "description") == String(r.description.value)
    ensures r.location.Some? <==> Present(e, "location")
    ensures r.location.Some? ==> Get(e, "location") == String(r.location.value)
    ensures r.recurrenceRule.Some? <==> Present(e, "recurrenceRule")
    ensures r.recurrenceRule.Some? ==>
      Get(e, "recurrenceRule") == String(r.recurrenceRule.value)
      && MatchesRecurrencePattern(r.recurrenceRule.value)
    ensures r.recurrenceDates == Get(e, "recurrenceDates") && r.exceptionDates == Get(e, "exceptionDates")
  {
    var shape :=
      if MatchesAllDayShape(e) then AllDayShape(Get(e, "allDayStart").str)
      else TimedShape(Get(e, "start").str, Get(e, "end").str);
    EventInput(
      shape,
      Get(e, "summary").str,
      OptionalText(e, "description"),
      if Present(e, "categories") then Some(Strings(Get(e, "categories").items)) else None,
      OptionalText(e, "location"),
      OptionalText(e, "recurrenceRule"),
      Get(e, "recurrenceDates"),
      Get(e, "exceptionDates"))
  }

  /** The typed view of a document the schema accepts: same name, description and events. */
  function ToBaseData(doc: Value): (r: BaseData)
    requires ValidDocument(doc)
    ensures Get(doc, "name") == String(r.name)
    ensures r.description.Some? <==> Present(doc, "description")
    ensures r.description.Some? ==> Get(doc, "description") == String(r.description.value)
    ensures |r.events| == |Get(doc, "events").items| >= 1
    ensures forall i :: 0 <= i < |r.events| ==> r.events[i] == ToEventInput(Get(doc, "events").items[i])
  {
    var items := Get(doc, "events").items;
    BaseData(
      Get(doc, "name").str,
      OptionalText(doc, "description"),
      seq(|items|, i requires 0 <= i < |items| => ToEventInput(items[i])))
  }

  // ---------------------------------------------------------------------------
  // The typed view is exact: every well-formed typed value is a valid document
  // ---------------------------------------------------------------------------

  /** The strings the schema's formats and pattern demand of a typed event. */
  predicate WellFormedEventInput(ev: EventInput) {
    (match ev.shape
     case AllDayShape(day) => IsFullDate(day)
     case TimedShape(start, end) => IsDateTime(start) && IsDateTime(end))
    && (ev.recurrenceRule.Some? ==> MatchesRecurrencePattern(ev.recurrenceRule.value))
  }

  function OptionalValue(o: Option<string>): Value {
    if o.Some? then String(o.value) else Undefined
  }

  /** The properties of `fields` that are defined: what remains of an object once `JSON.parse` has read it. */
  function Defined(fields: map<string, Value>): (m: map<string, Value>)
    ensures forall k :: k in m <==> k in fields && fields[k] != Undefined
    ensures forall k :: k in m ==> m[k] == fields[k]
  {
    map k | k in fields && fields[k] != Undefined :: fields[k]
  }

  function StringArray(strings: seq<string>): (r: Value)
    ensures r.Array? && |r.items| == |strings|
    ensures forall i :: 0 <= i < |strings| ==> r.items[i] == String(strings[i])
  {
    Array(seq(|strings|, i requires 0 <= i < |strings| => String(strings[i])))
  }

  /**
   * The JSON object a typed event stands for, as `JSON.parse` would give it: an absent field is an
   * absent property, so only the shape's own timing properties appear.
   */
  function EventToJson(ev: EventInput): Value {
    Object(Defined(EventFields(ev)))
  }

  /** Every property of the object a typed event stands for, absent ones as `undefined`. */
  function EventFields(ev: EventInput): map<string, Value> {
    map[
      "allDayStart" := if ev.shape.AllDayShape? then String(ev.shape.allDayStart) else Undefined,
      "start" := if ev.shape.TimedShape? then String(ev.shape.start) else Undefined,
      "end" := if ev.shape.TimedShape? then String(ev.shape.end) else Undefined,
      "summary" := String(ev.summary),
      "description" := OptionalValue(ev.description),
      "categories" := if ev.categories.Some? then StringArray(ev.categories.value) else Undefined,
      "location" := OptionalValue(ev.location),
      "recurrenceRule" := OptionalValue(ev.recurrenceRule),
      "recurrenceDates" := ev.recurrenceDates,
      "exceptionDates" := ev.exceptionDates]
  }

  /** A property of an object that keeps only its defined properties. */
  lemma GetDefined(fields: map<string, Value>, key: string)
    requires key in fields
    ensures Get(Object(Defined(fields)), key) == fields[key]
    ensures HasKey(Object(Defined(fields)), key) <==> fields[key] != Undefined
  {
  }

  lemma StringsOfStringArray(strings: seq<string>)
    ensures AllStrings(StringArray(strings).items)
    ensures Strings(StringArray(strings).items) == strings
  {
    var r := Strings(StringArray(strings).items);
    assert forall i :: 0 <= i < |strings| ==> String(r[i]) == String(strings[i]);
  }

  /**
   * The timing properties of the object a typed event stands for: only the shape's own, so the
   * object owns `allDayStart` exactly when the event is all-day.
   */
  lemma EventToJsonTiming(ev: EventInput)
    ensures var e := EventToJson(ev);
      && Get(e, "allDayStart") == (if ev.shape.AllDayShape? then String(ev.shape.allDayStart) else Undefined)
      && Get(e, "start") == (if ev.shape.TimedShape? then String(ev.shape.start) else Undefined)
      && Get(e, "end") == (if ev.shape.TimedShape? then String(ev.shape.end) else Undefined)
      && (HasKey(e, "allDayStart") <==> ev.shape.AllDayShape?)
  {
    var f := EventFields(ev);
    GetDefined(f, "allDayStart");
    GetDefined(f, "start");
    GetDefined(f, "end");
  }

  /** What each other property of the object a typed event stands for holds. */
  lemma EventToJsonProperties(ev: EventInput)
    ensures var e := EventToJson(ev);
      && Get(e, "summary") == String(ev.summary)
      && Get(e, "description") == OptionalValue(ev.description)
      && Get(e, "categories") == (if ev.categories.Some? then StringArray(ev.categories.value) else Undefined)
      && Get(e, "location") == OptionalValue(ev.location)
      && Get(e, "recurrenceRule") == OptionalValue(ev.recurrenceRule)
      && Get(e, "recurrenceDates") == ev.recurrenceDates
      && Get(e, "exceptionDates") == ev.exceptionDates
  {
    var f := EventFields(ev);
    GetDefined(f, "summary");
    GetDefined(f, "description");
    GetDefined(f, "categories");
    GetDefined(f, "location");
    GetDefined(f, "recurrenceRule");
    GetDefined(f, "recurrenceDates");
    GetDefined(f, "exceptionDates");
  }

  lemma OptionalTextOfValue(e: Value, key: string, o: Option<string>)
    requires Get(e, key) == OptionalValue(o)
    ensures OptionalString(e, key) && OptionalText(e, key) == o
  {
  }

  /**
   * A well-formed typed event is a valid event, and reading it back gives the same event: the
   * typed view loses nothing and the cast at the generator's input is total on what the schema
   * accepts.
   */
  lemma EventRoundTrip(ev: EventInput)
    requires WellFormedEventInput(ev)
    ensures ValidEvent(EventToJson(ev))
    ensures ToEventInput(EventToJson(ev)) == ev
  {
    EventJsonValid(ev);
    var e := EventToJson(ev);
    var r := ToEventInput(e);
    EventToJsonTiming(ev);
    EventToJsonProperties(ev);
    assert r.shape == ev.shape;
    assert r.description == ev.description;
    assert r.location == ev.location;
    assert r.recurrenceRule == ev.recurrenceRule;
    if ev.categories.Some? {
      StringsOfStringArray(ev.categories.value);
      assert r.categories.value == ev.categories.value;
    }
  }

  /** The object a well-formed typed event stands for is a valid event of the same shape. */
  lemma EventJsonValid(ev: EventInput)
    requires WellFormedEventInput(ev)
    ensures ValidEvent(EventToJson(ev))
    ensures MatchesAllDayShape(EventToJson(ev)) <==> ev.shape.AllDayShape?
  {
    var e := EventToJson(ev);
    EventToJsonTiming(ev);
    EventToJsonProperties(ev);
    if ev.categories.Some? {
      StringsOfStringArray(ev.categories.value);
    }
    assert OptionalStringArray(e, "categories");
    assert OptionalRecurrenceRule(e);
    assert EventFieldsValid(e);
    assert MatchesAllDayShape(e) <==> ev.shape.AllDayShape?;
    assert MatchesTimedShape(e) <==> ev.shape.TimedShape?;
  }

  /** The JSON document a typed calendar stands for. */
  function BaseDataToJson(data: BaseData): Value {
    Object(Defined(map[
      "name" := String(data.name),
      "description" := OptionalValue(data.description),
      "events" := Array(seq(|data.events|, i requires 0 <= i < |data.events| => EventToJson(data.events[i])))]))
  }

  /** A typed calendar with at least one well-formed event validates and reads back unchanged. */
  lemma BaseDataRoundTrip(data: BaseData)
    requires |data.events| >= 1
    requires forall i :: 0 <= i < |data.events| ==> WellFormedEventInput(data.events[i])
    ensures ValidDocument(BaseDataToJson(data))
    ensures ValidateICalendarJson(BaseDataToJson(data)).isValid
    ensures ToBaseData(BaseDataToJson(data)) == data
  {
    var doc := BaseDataToJson(data);
    var items := seq(|data.events|, i requires 0 <= i < |data.events| => EventToJson(data.events[i]));
    assert Get(doc, "name") == String(data.name);
    assert Get(doc, "events") == Array(items);
    OptionalTextOfValue(doc, "description", data.description);
    forall i | 0 <= i < |items|
      ensures ValidEvent(items[i]) && ToEventInput(items[i]) == data.events[i]
    {
      EventRoundTrip(data.events[i]);
    }
    assert doc.fields.Keys <= DOCUMENT_PROPERTIES;
    assert ValidDocument(doc);
    var r := ToBaseData(doc);
    assert r.events == data.events;
  }
}
