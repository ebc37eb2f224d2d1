/**
 * The JSON resources of the Google Calendar API as the client reads and writes them, the
 * Calendar and Event records the client builds, and the exceptions it raises.
 *
 * A remote resource is a record whose `Option` fields say whether the key is present.
 * On the push path, a participant dict can hold a key with a null value, and
 * `_create_attendee` tests key presence, so those dicts use `Slot`.
 */
module GoogleData {
  import opened Wrappers

  /** One key of a JSON object: absent, present and null, or present with a value. */
  datatype Slot<T> = Missing | Null | Value(value: T) {
    /** `key in d`. */
    predicate Present() {
      !Missing?
    }

    /** `d.get(key)`: an absent key and a null value both read as None. */
    function Get(): (r: Option<T>)
      ensures r.Some? <==> Value?
    {
      if Value? then Some(value) else None
    }
  }

  /** The value of `d[key] = x` for an `x` that may be None. */
  function SlotOf<T>(x: Option<T>): (s: Slot<T>)
    ensures s.Present() && s.Get() == x
  {
    if x.Some? then Value(x.value) else Null
  }

  /** The exceptions that the modelled code raises. */
  datatype Error =
    | MissingKey(key: string)               // KeyError from `d[key]`
    | UnknownStatus(statusKey: Option<string>) // KeyError from STATUS_MAP or its inverse
    | HttpError(code: int)                  // requests.HTTPError from raise_for_status
    | ScriptExhausted                       // the scripted server has no more responses

  /** Remote dates are day numbers; instants are seconds. A date parses to its midnight. */
  const SECONDS_PER_DAY: int := 86400

  /** A calendarList resource. */
  datatype CalendarItem = CalendarItem(
    id: Option<string>,
    summary: Option<string>,
    accessRole: Option<string>,
    description: Option<string>,
    deleted: Option<bool>)

  /** The local Calendar record. */
  datatype Calendar = Calendar(
    uid: string,
    name: string,
    readOnly: bool,
    description: Option<string>)

  /** The `start` or `end` object of an event: an all-day `date` (a day number) or a `dateTime` (an instant). */
  datatype TimeSpec = TimeSpec(date: Option<int>, dateTime: Option<int>)

  /** The `creator` object of an event. */
  datatype Creator = Creator(
    id: Option<string>,
    email: Option<string>,
    displayName: Option<string>,
    isSelf: Option<bool>)

  /** One entry of an event's `attendees` as the server sends it. */
  datatype Attendee = Attendee(
    email: Option<string>,
    displayName: Option<string>,
    responseStatus: Option<string>,
    comment: Option<string>)

  /**
   * An events resource. `repr` is its textual rendering `str(event)`, kept as `raw_data`.
   */
  datatype EventItem = EventItem(
    id: Option<string>,
    repr: string,
    status: Option<string>,
    summary: Option<string>,
    start: Option<TimeSpec>,
    end: Option<TimeSpec>,
    description: Option<string>,
    location: Option<string>,
    transparency: Option<string>,
    creator: Option<Creator>,
    guestsCanModify: Option<bool>,
    attendees: Option<seq<Attendee>>)

  /** A participant dict of a local event, keys `email`, `name`, `status`, `notes`, `guests`. */
  datatype Participant = Participant(
    email: Slot<string>,
    name: Slot<string>,
    status: Slot<string>,
    notes: Slot<string>,
    guests: Slot<int>)

  /** The local Event record; `start` and `end` are instants. */
  datatype Event = Event(
    uid: string,
    rawData: string,
    title: string,
    description: Option<string>,
    location: Option<string>,
    busy: bool,
    start: int,
    end: int,
    allDay: bool,
    owner: string,
    readOnly: bool,
    participants: seq<Participant>,
    source: string)

  /** A `start` or `end` object of a pushed event; `None` fields are absent. */
  datatype TimeBody = TimeBody(date: Option<int>, dateTime: Option<int>, timeZone: Option<string>)

  /** An attendee dict of a pushed event; `responseStatus` is absent or a string. */
  datatype AttendeeBody = AttendeeBody(
    displayName: Slot<string>,
    responseStatus: Option<string>,
    email: Slot<string>,
    additionalGuests: Slot<int>)

  /** The dict `_dump_event` builds. The first four keys are always present; `end` and `attendees` may be absent. */
  datatype EventBody = EventBody(
    summary: string,
    description: Option<string>,
    location: Option<string>,
    transparency: string,
    start: TimeBody,
    end: Option<TimeBody>,
    attendees: Option<seq<AttendeeBody>>)
}
