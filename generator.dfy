/**
 * The calendar builder: one event record per validated input event, in input order, under a fixed
 * timing and transparency policy. The identifier source and the generation stamp are parameters.
 */
module Generator {
  import opened Wrappers
  import opened Json
  import opened Schema
  import opened Validator

  const ICAL_PRODUCT_ID: string := "-//Paqrat76//ical-gen-app//EN"
  const ICAL_SCALE_GREGORIAN: string := "GREGORIAN"
  const SOURCE_DATA_REQUIRED: string := "sourceData is required."

  datatype EventClass = Public
  datatype Transparency = Transparent | Opaque
  datatype Category = Category(name: string)

  /**
   * An event as the calendar library holds it: `allDay` is false, `end` and `transparency` are
   * unset and `categories` is empty until the builder sets them.
   */
  datatype EventRecord = EventRecord(
    id: string,
    stamp: string,
    eventClass: EventClass,
    start: string,
    summary: string,
    allDay: bool,
    end: Option<string>,
    transparency: Option<Transparency>,
    description: Option<string>,
    location: Option<string>,
    categories: seq<Category>,
    repeating: Option<string>)

  /** The calendar: its name, fixed product identifier and scale, optional description and events. */
  datatype Calendar = Calendar(
    name: string,
    prodId: string,
    scale: string,
    description: Option<string>,
    events: seq<EventRecord>)

  /** A JavaScript truthiness test on an optional string: present and not the empty string. */
  predicate NonEmpty(o: Option<string>) {
    o.Some? && o.value != ""
  }

  // ---------------------------------------------------------------------------
  // Mapping one event
  // ---------------------------------------------------------------------------

  /** The start of an event: its day when all-day, its start instant when timed. */
  function EventStart(shape: EventShape): (r: string)
    ensures shape.AllDayShape? ==> r == shape.allDayStart
    ensures shape.TimedShape? ==> r == shape.start
  {
    match shape
    case AllDayShape(day) => day
    case TimedShape(start, _) => start
  }

  /** A fresh event from the calendar's event factory: public, with the given id, stamp and start. */
  function CreateEvent(id: string, stamp: string, start: string, summary: string): EventRecord {
    EventRecord(id, stamp, Public, start, summary, false, None, None, None, None, [], None)
  }

  /** One category per name, in order, duplicates kept. */
  function ToCategories(names: seq<string>): (r: seq<Category>)
    ensures |r| == |names|
    ensures forall i :: 0 <= i < |names| ==> r[i] == Category(names[i])
  {
    if names == [] then [] else [Category(names[0])] + ToCategories(names[1..])
  }

  /**
   * Copies the optional fields that are set and non-empty; categories only when the list is
   * non-empty. Nothing else of the record changes.
   */
  function ApplyOptionalFields(r: EventRecord, ev: EventInput): (s: EventRecord)
    ensures s.(description := r.description, location := r.location, categories := r.categories,
               repeating := r.repeating) == r
    ensures s.description == if NonEmpty(ev.description) then ev.description else r.description
    ensures s.location == if NonEmpty(ev.location) then ev.location else r.location
    ensures s.repeating == if NonEmpty(ev.recurrenceRule) then ev.recurrenceRule else r.repeating
    ensures ev.categories.Some? && ev.categories.value != [] ==>
      |s.categories| == |ev.categories.value|
      && forall i :: 0 <= i < |s.categories| ==> s.categories[i].name == ev.categories.value[i]
    ensures ev.categories.None? || ev.categories.value == [] ==> s.categories == r.categories
  {
    var r1 := if NonEmpty(ev.description) then r.(description := ev.description) else r;
    var r2 := if NonEmpty(ev.location) then r1.(location := ev.location) else r1;
    var r3 := if ev.categories.Some? && |ev.categories.value| > 0
              then r2.(categories := ToCategories(ev.categories.value)) else r2;
    if NonEmpty(ev.recurrenceRule) then r3.(repeating := ev.recurrenceRule) else r3
  }

  /** All-day: mark all-day and transparent. Timed: set the end and mark opaque. */
  function ApplyEventTiming(r: EventRecord, shape: EventShape): EventRecord {
    if shape.AllDayShape? then r.(allDay := true, transparency := Some(Transparent))
    else r.(end := Some(shape.end), transparency := Some(Opaque))
  }

  /** The record one input event becomes, given its id and the shared stamp. */
  function MapEvent(ev: EventInput, id: string, stamp: string): EventRecord {
    var created := CreateEvent(id, stamp, EventStart(ev.shape), ev.summary);
    ApplyEventTiming(ApplyOptionalFields(created, ev), ev.shape)
  }

  /**
   * The timing policy: an all-day event starts on its day, is all-day, transparent and has no
   * end; a timed event starts and ends at its instants, is not all-day and is opaque.
   */
  lemma MapEventTiming(ev: EventInput, id: string, stamp: string)
    ensures var r := MapEvent(ev, id, stamp);
      match ev.shape
      case AllDayShape(day) =>
        r.start == day && r.allDay && r.end.None? && r.transparency == Some(Transparent)
      case TimedShape(start, end) =>
        r.start == start && !r.allDay && r.end == Some(end) && r.transparency == Some(Opaque)
  {
  }

  /** Every record is public and carries the given id, stamp and summary. */
  lemma MapEventIdentity(ev: EventInput, id: string, stamp: string)
    ensures var r := MapEvent(ev, id, stamp);
      r.id == id && r.stamp == stamp && r.eventClass == Public && r.summary == ev.summary
  {
  }

  /**
   * Optional fields are copied only when non-empty: an absent or empty description, location or
   * recurrence rule leaves the record's field unset, and so does an absent or empty category list.
   */
  lemma MapEventOptionalFields(ev: EventInput, id: string, stamp: string)
    ensures var r := MapEvent(ev, id, stamp);
      && (r.description.Some? <==> NonEmpty(ev.description))
      && (r.description.Some? ==> r.description == ev.description)
      && (r.location.Some? <==> NonEmpty(ev.location))
      && (r.location.Some? ==> r.location == ev.location)
      && (r.repeating.Some? <==> NonEmpty(ev.recurrenceRule))
      && (r.repeating.Some? ==> r.repeating == ev.recurrenceRule)
      && (r.categories != [] <==> ev.categories.Some? && ev.categories.value != [])
      && (r.categories != [] ==>
            |r.categories| == |ev.categories.value|
            && forall i :: 0 <= i < |r.categories| ==> r.categories[i].name == ev.categories.value[i])
  {
    var created := CreateEvent(id, stamp, EventStart(ev.shape), ev.summary);
    var s := ApplyOptionalFields(created, ev);
    assert MapEvent(ev, id, stamp).(end := s.end, allDay := s.allDay, transparency := s.transparency) == s;
  }

  /** `recurrenceDates` and `exceptionDates` are never read. */
  lemma MapEventIgnoresRecurrenceDates(ev: EventInput, dates: Value, exceptions: Value, id: string, stamp: string)
    ensures MapEvent(ev.(recurrenceDates := dates, exceptionDates := exceptions), id, stamp)
         == MapEvent(ev, id, stamp)
  {
  }

  // ---------------------------------------------------------------------------
  // Building the calendar
  // ---------------------------------------------------------------------------

  /** A calendar with the input's name, the fixed product identifier and scale, and no events. */
  function NewCalendar(name: string): Calendar {
    Calendar(name, ICAL_PRODUCT_ID, ICAL_SCALE_GREGORIAN, None, [])
  }

  /** The records for `events`, the `i`-th identified by `uuid(i)` and all stamped `stamp`. */
  function MapEvents(events: seq<EventInput>, stamp: string, uuid: nat -> string): (r: seq<EventRecord>)
    ensures |r| == |events|
  {
    seq(|events|, i requires 0 <= i < |events| => MapEvent(events[i], uuid(i), stamp))
  }

  /**
   * The calendar the builder produces: the input's name, the fixed product identifier and scale,
   * the description when it is non-empty, and the mapped events.
   */
  function ICalendarFor(source: BaseData, stamp: string, uuid: nat -> string): Calendar {
    var header := NewCalendar(source.name);
    var described := if NonEmpty(source.description) then header.(description := source.description) else header;
    described.(events := MapEvents(source.events, stamp, uuid))
  }

  /**
   * Builds the calendar for `sourceData`, failing with `sourceData is required.` when there is
   * none. The `i`-th event's identifier is `uuid(i)`; `stamp` is computed once by the caller.
   */
  method GenerateICalendarObject(sourceData: Option<BaseData>, stamp: string, uuid: nat -> string)
    returns (r: Result<Calendar, string>)
    ensures sourceData.None? ==> r == Failure(SOURCE_DATA_REQUIRED)
    ensures sourceData.Some? ==> r == Success(ICalendarFor(sourceData.value, stamp, uuid))
  {
    if sourceData.None? {
      return Failure(SOURCE_DATA_REQUIRED);
    }
    var source := sourceData.value;
    var calendar := NewCalendar(source.name);
    if NonEmpty(source.description) {
      calendar := calendar.(description := source.description);
    }
    var events: seq<EventRecord> := [];
    for i := 0 to |source.events|
      invariant |events| == i
      invariant forall k :: 0 <= k < i ==> events[k] == MapEvent(source.events[k], uuid(k), stamp)
    {
      var event := source.events[i];
      var start := EventStart(event.shape);
      var record := CreateEvent(uuid(i), stamp, start, event.summary);
      record := ApplyOptionalFields(record, event);
      record := ApplyEventTiming(record, event.shape);
      events := events + [record];
    }
    assert events == MapEvents(source.events, stamp, uuid);
    calendar := calendar.(events := events);
    return Success(calendar);
  }

  // ---------------------------------------------------------------------------
  // What the builder promises
  // ---------------------------------------------------------------------------

  /** The calendar's identity: the input name, the product identifier, the Gregorian scale. */
  lemma CalendarHeader(source: BaseData, stamp: string, uuid: nat -> string)
    ensures var c := ICalendarFor(source, stamp, uuid);
      c.name == source.name && c.prodId == ICAL_PRODUCT_ID && c.scale == ICAL_SCALE_GREGORIAN
      && (c.description.Some? <==> NonEmpty(source.description))
      && (c.description.Some? ==> c.description == source.description)
  {
  }

  /**
   * One record per input event, in input order: record `i` is input event `i` under the mapping
   * policy, with identifier `uuid(i)`; no input events gives no records.
   */
  lemma CalendarEventsInOrder(source: BaseData, stamp: string, uuid: nat -> string)
    ensures var c := ICalendarFor(source, stamp, uuid);
      |c.events| == |source.events|
      && (source.events == [] ==> c.events == [])
      && forall i :: 0 <= i < |c.events| ==>
           c.events[i].id == uuid(i) && c.events[i].summary == source.events[i].summary
           && c.events[i].start == EventStart(source.events[i].shape)
           && (c.events[i].allDay <==> source.events[i].shape.AllDayShape?)
  {
    var c := ICalendarFor(source, stamp, uuid);
    forall i | 0 <= i < |c.events|
      ensures c.events[i].id == uuid(i) && c.events[i].summary == source.events[i].summary
           && c.events[i].start == EventStart(source.events[i].shape)
           && (c.events[i].allDay <==> source.events[i].shape.AllDayShape?)
    {
      MapEventIdentity(source.events[i], uuid(i), stamp);
      MapEventTiming(source.events[i], uuid(i), stamp);
    }
  }

  /** Every event is public and carries the one stamp computed before the loop. */
  lemma SharedStampAndClass(source: BaseData, stamp: string, uuid: nat -> string)
    ensures var c := ICalendarFor(source, stamp, uuid);
      forall i :: 0 <= i < |c.events| ==> c.events[i].stamp == stamp && c.events[i].eventClass == Public
  {
    var c := ICalendarFor(source, stamp, uuid);
    forall i | 0 <= i < |c.events|
      ensures c.events[i].stamp == stamp && c.events[i].eventClass == Public
    {
      MapEventIdentity(source.events[i], uuid(i), stamp);
    }
  }

  /** When the identifier source never repeats itself, no two events share an identifier. */
  lemma DistinctIdentifiers(source: BaseData, stamp: string, uuid: nat -> string)
    requires forall m: nat, n: nat :: m != n ==> uuid(m) != uuid(n)
    ensures var c := ICalendarFor(source, stamp, uuid);
      forall i, j :: 0 <= i < j < |c.events| ==> c.events[i].id != c.events[j].id
  {
    var c := ICalendarFor(source, stamp, uuid);
    forall i, j | 0 <= i < j < |c.events|
      ensures c.events[i].id != c.events[j].id
    {
      MapEventIdentity(source.events[i], uuid(i), stamp);
      MapEventIdentity(source.events[j], uuid(j), stamp);
    }
  }

  // ---------------------------------------------------------------------------
  // The all-day test as written
  // ---------------------------------------------------------------------------

  /**
   * The all-day test the builder applies to the validated JSON object: it owns an `allDayStart`
   * key. The model's builder tags events by the schema branch they matched instead.
   */
  predicate HasAllDayStartKey(e: Value) {
    HasKey(e, "allDayStart")
  }

  /** A timed event that also carries a malformed `allDayStart`. */
  function StrayAllDayStartEvent(): Value {
    Object(map[
      "summary" := String("S"),
      "allDayStart" := String("soon"),
      "start" := String("2025-03-15" + "T" + ("10:00:00" + "Z")),
      "end" := String("2025-03-15" + "T" + ("10:00:00" + "Z"))])
  }

  /**
   * The key test disagrees with the schema: this event validates through the timed branch only,
   * yet owns `allDayStart`, so the key test makes it an all-day event starting on `soon`.
   */
  lemma KeyTestMisclassifiesTimedEvent()
    ensures ValidEvent(StrayAllDayStartEvent())
    ensures HasAllDayStartKey(StrayAllDayStartEvent())
    ensures ToEventInput(StrayAllDayStartEvent()).shape.TimedShape?
  {
    var e := StrayAllDayStartEvent();
    var instant := "2025-03-15" + "T" + ("10:00:00" + "Z");
    UtcDateTimeExample();
    assert Get(e, "start") == String(instant) && Get(e, "end") == String(instant);
    assert Get(e, "allDayStart") == String("soon");
    TimedBranchOnly(e);
  }

  /** An object with a summary, timed-shape instants and a malformed `allDayStart` is a timed event. */
  lemma TimedBranchOnly(e: Value)
    requires e.Object? && e.fields.Keys == {"summary", "allDayStart", "start", "end"}
    requires Get(e, "summary").String?
    requires Get(e, "allDayStart").String? && !IsFullDate(Get(e, "allDayStart").str)
    requires Get(e, "start").String? && IsDateTime(Get(e, "start").str)
    requires Get(e, "end").String? && IsDateTime(Get(e, "end").str)
    ensures ValidEvent(e) && MatchesTimedShape(e) && !MatchesAllDayShape(e)
  {
  }

  /**
   * On the objects typed events stand for, which own only their shape's timing properties, the key
   * test gives the right answer.
   */
  lemma KeyTestRightOnTypedEvents(ev: EventInput)
    requires WellFormedEventInput(ev)
    ensures ValidEvent(EventToJson(ev))
    ensures HasAllDayStartKey(EventToJson(ev)) <==> ToEventInput(EventToJson(ev)).shape.AllDayShape?
  {
    EventRoundTrip(ev);
    EventToJsonTiming(ev);
  }

  /**
   * Where no event carries the other shape's key the two tests agree: an event owns `allDayStart`
   * exactly when it matched the all-day branch.
   */
  lemma AllDayKeyAgreesWithBranch(e: Value)
    requires ValidEvent(e)
    requires HasAllDayStartKey(e) ==> MatchesAllDayShape(e)
    ensures HasAllDayStartKey(e) <==> ToEventInput(e).shape.AllDayShape?
  {
    if MatchesAllDayShape(e) {
      assert Get(e, "allDayStart") != Undefined;
    }
  }
}
