/**
 * Translation between Google Calendar resources and local records: `parse_calendar_response`,
 * `parse_event_response` (remote to local), `_dump_event` and `_create_attendee` (local to
 * remote), and the attendee status table `STATUS_MAP` with its inverse.
 */
module GoogleTranslate {
  import opened Wrappers
  import opened GoogleData

  /** Attendee `responseStatus` of the Google API to local participant status. */
  const STATUS_MAP: map<string, string> :=
    map["accepted" := "yes", "needsAction" := "noreply", "declined" := "no", "tentative" := "maybe"]

  /** The table `_create_attendee` builds by swapping the keys and values of STATUS_MAP. */
  function InverseStatusMap(): map<string, string> {
    map k | k in STATUS_MAP :: STATUS_MAP[k] := k
  }

  /** No two remote statuses share a local status, so swapping the table loses nothing. */
  lemma StatusMapInjective()
    ensures forall a, b :: a in STATUS_MAP && b in STATUS_MAP && STATUS_MAP[a] == STATUS_MAP[b] ==> a == b
  {
  }

  /** The inverse table undoes STATUS_MAP in both directions, on exactly the four local statuses. */
  lemma InverseStatusMapRoundTrip()
    ensures InverseStatusMap().Keys == {"yes", "no", "maybe", "noreply"}
    ensures forall k :: k in STATUS_MAP ==> STATUS_MAP[k] in InverseStatusMap() && InverseStatusMap()[STATUS_MAP[k]] == k
    ensures forall v :: v in InverseStatusMap() ==> InverseStatusMap()[v] in STATUS_MAP && STATUS_MAP[InverseStatusMap()[v]] == v
  {
    var inv := InverseStatusMap();
    assert STATUS_MAP["accepted"] == "yes" && STATUS_MAP["needsAction"] == "noreply";
    assert STATUS_MAP["declined"] == "no" && STATUS_MAP["tentative"] == "maybe";
    assert inv.Keys == STATUS_MAP.Values;
  }

  // ---------------------------------------------------------------- calendars

  /** `parse_calendar_response`: `id`, `summary` and `accessRole` are required keys, `description` is optional. */
  function ParseCalendar(c: CalendarItem): (r: Result<Calendar, Error>)
    ensures r.Ok? <==> c.id.Some? && c.summary.Some? && c.accessRole.Some?
    ensures r.Err? ==> r.error == MissingKey(if c.id.None? then "id" else if c.summary.None? then "summary" else "accessRole")
    ensures r.Ok? ==> r.value.uid == c.id.value && r.value.name == c.summary.value && r.value.description == c.description
    ensures r.Ok? ==> (r.value.readOnly <==> c.accessRole == Some("reader"))
  {
    if c.id.None? then Err(MissingKey("id"))
    else if c.summary.None? then Err(MissingKey("summary"))
    else if c.accessRole.None? then Err(MissingKey("accessRole"))
    else Ok(Calendar(c.id.value, c.summary.value, c.accessRole.value == "reader", c.description))
  }

  // ---------------------------------------------------------------- events, remote to local

  /** An event blocks time unless its `transparency` is exactly `transparent`. */
  predicate Busy(transparency: Option<string>) {
    transparency != Some("transparent")
  }

  /** `if creator:` — an absent creator and an empty dict are both false. */
  predicate CreatorTruthy(creator: Option<Creator>) {
    creator.Some? && creator.value != Creator(None, None, None, None)
  }

  /** `"<displayName> <<email>>"` for a creator, the empty string otherwise. */
  function Owner(creator: Option<Creator>): string {
    if CreatorTruthy(creator) then
      creator.value.displayName.GetOr("") + " <" + creator.value.email.GetOr("") + ">"
    else ""
  }

  /** `not (is_owner or guestsCanModify)`. */
  predicate ReadOnly(creator: Option<Creator>, guestsCanModify: Option<bool>) {
    var isOwner := CreatorTruthy(creator) && creator.value.isSelf == Some(true);
    !(isOwner || guestsCanModify == Some(true))
  }

  /** `'date' in start and 'date' in end`. */
  predicate AllDay(start: TimeSpec, end: TimeSpec) {
    start.date.Some? && end.date.Some?
  }

  /**
   * The event's start and end instants. An all-day end date is exclusive, so one day is taken
   * off; otherwise both `dateTime` keys are required.
   */
  function Timing(start: TimeSpec, end: TimeSpec): Result<(int, int), Error> {
    if AllDay(start, end) then
      Ok((start.date.value * SECONDS_PER_DAY, end.date.value * SECONDS_PER_DAY - SECONDS_PER_DAY))
    else if start.dateTime.None? || end.dateTime.None? then Err(MissingKey("dateTime"))
    else Ok((start.dateTime.value, end.dateTime.value))
  }

  /** One participant dict from one attendee; the status goes through STATUS_MAP, with no default. */
  function ParticipantOf(a: Attendee): (r: Result<Participant, Error>)
    ensures r.Ok? <==> a.responseStatus.Some? && a.responseStatus.value in STATUS_MAP
    ensures r.Err? ==> r.error == UnknownStatus(a.responseStatus)
    ensures r.Ok? ==>
      r.value.status == Value(STATUS_MAP[a.responseStatus.value]) && r.value.email.Get() == a.email &&
      r.value.name.Get() == a.displayName && r.value.notes.Get() == a.comment && r.value.guests.Missing?
  {
    if a.responseStatus.None? || a.responseStatus.value !in STATUS_MAP then Err(UnknownStatus(a.responseStatus))
    else Ok(Participant(SlotOf(a.email), SlotOf(a.displayName), Value(STATUS_MAP[a.responseStatus.value]),
                        SlotOf(a.comment), Missing))
  }

  /** The participants list, built attendee by attendee; the first bad attendee raises. */
  function ParticipantsOf(atts: seq<Attendee>): Result<seq<Participant>, Error> {
    if atts == [] then Ok([])
    else match ParticipantsOf(atts[..|atts| - 1])
      case Err(e) => Err(e)
      case Ok(ps) =>
        match ParticipantOf(atts[|atts| - 1])
        case Err(e) => Err(e)
        case Ok(p) => Ok(ps + [p])
  }

  /** Exactly one participant per attendee, in order; translation fails iff some attendee's status is unknown. */
  lemma {:induction false} ParticipantsOneEach(atts: seq<Attendee>)
    ensures ParticipantsOf(atts).Ok? <==> forall i :: 0 <= i < |atts| ==> ParticipantOf(atts[i]).Ok?
    ensures ParticipantsOf(atts).Ok? ==>
      |ParticipantsOf(atts).value| == |atts| &&
      forall i :: 0 <= i < |atts| ==> ParticipantOf(atts[i]) == Ok(ParticipantsOf(atts).value[i])
  {
    if atts != [] {
      var init := atts[..|atts| - 1];
      ParticipantsOneEach(init);
      assert forall i :: 0 <= i < |init| ==> init[i] == atts[i];
    }
  }

  /** A failure on a prefix of the attendees is the failure of the whole list. */
  lemma {:induction false} ParticipantsPrefixErr(atts: seq<Attendee>, k: nat)
    requires k <= |atts|
    requires ParticipantsOf(atts[..k]).Err?
    ensures ParticipantsOf(atts) == ParticipantsOf(atts[..k])
    decreases |atts| - k
  {
    if k < |atts| {
      assert atts[..k + 1][..k] == atts[..k];
      ParticipantsPrefixErr(atts, k + 1);
    } else {
      assert atts[..k] == atts;
    }
  }

  /** `parse_event_response`. `id`, `start` and `end` are required keys. */
  function ParseEvent(e: EventItem): Result<Event, Error> {
    if e.id.None? then Err(MissingKey("id"))
    else if e.start.None? then Err(MissingKey("start"))
    else if e.end.None? then Err(MissingKey("end"))
    else match Timing(e.start.value, e.end.value)
      case Err(err) => Err(err)
      case Ok(times) =>
        match ParticipantsOf(e.attendees.GetOr([]))
        case Err(err) => Err(err)
        case Ok(ps) =>
          Ok(Event(e.id.value, e.repr, e.summary.GetOr(""), e.description, e.location, Busy(e.transparency),
                   times.0, times.1, AllDay(e.start.value, e.end.value), Owner(e.creator),
                   ReadOnly(e.creator, e.guestsCanModify), ps, "local"))
  }

  /** `parse_event_response`, with the appending loop over the attendees. */
  method ParseEventResponse(e: EventItem) returns (r: Result<Event, Error>)
    ensures r == ParseEvent(e)
  {
    if e.id.None? { return Err(MissingKey("id")); }
    if e.start.None? { return Err(MissingKey("start")); }
    if e.end.None? { return Err(MissingKey("end")); }
    var start, end := e.start.value, e.end.value;
    var times := Timing(start, end);
    if times.Err? { return Err(times.error); }
    var participants: seq<Participant> := [];
    var attendees := e.attendees.GetOr([]);
    for k := 0 to |attendees|
      invariant ParticipantsOf(attendees[..k]) == Ok(participants)
    {
      assert attendees[..k + 1][..k] == attendees[..k];
      var status := attendees[k].responseStatus;
      if status.None? || status.value !in STATUS_MAP {
        ParticipantsPrefixErr(attendees, k + 1);
        return Err(UnknownStatus(status));
      }
      participants := participants + [Participant(SlotOf(attendees[k].email), SlotOf(attendees[k].displayName),
                                                  Value(STATUS_MAP[status.value]), SlotOf(attendees[k].comment), Missing)];
    }
    assert attendees[..|attendees|] == attendees;
    r := Ok(Event(e.id.value, e.repr, e.summary.GetOr(""), e.description, e.location, Busy(e.transparency),
                  times.value.0, times.value.1, AllDay(start, end), Owner(e.creator),
                  ReadOnly(e.creator, e.guestsCanModify), participants, "local"));
  }

  /** When `parse_event_response` succeeds, and what it raises otherwise. */
  lemma ParseEventErrors(e: EventItem)
    ensures ParseEvent(e).Ok? <==>
      e.id.Some? && e.start.Some? && e.end.Some? &&
      (AllDay(e.start.value, e.end.value) || (e.start.value.dateTime.Some? && e.end.value.dateTime.Some?)) &&
      forall a :: a in e.attendees.GetOr([]) ==> a.responseStatus.Some? && a.responseStatus.value in STATUS_MAP
    ensures e.id.None? ==> ParseEvent(e) == Err(MissingKey("id"))
    ensures e.id.Some? && e.start.None? ==> ParseEvent(e) == Err(MissingKey("start"))
    ensures e.id.Some? && e.start.Some? && e.end.None? ==> ParseEvent(e) == Err(MissingKey("end"))
  {
    var atts := e.attendees.GetOr([]);
    ParticipantsOneEach(atts);
    assert (forall a :: a in atts ==> ParticipantOf(a).Ok?) <==> (forall i :: 0 <= i < |atts| ==> ParticipantOf(atts[i]).Ok?);
  }

  /** An attendee whose `responseStatus` is not one of the four keys makes the translation fail: there is no default. */
  lemma UnknownStatusFails(e: EventItem, i: nat)
    requires e.attendees.Some? && i < |e.attendees.value|
    requires e.attendees.value[i].responseStatus.None? || e.attendees.value[i].responseStatus.value !in STATUS_MAP
    ensures ParseEvent(e).Err?
  {
    ParseEventErrors(e);
    assert e.attendees.value[i] in e.attendees.GetOr([]);
  }

  /** The field rules of `parse_event_response`: timing, flags, owner and participants. */
  lemma ParseEventFields(e: EventItem)
    requires ParseEvent(e).Ok?
    ensures var ev := ParseEvent(e).value;
      ev.uid == e.id.value && ev.rawData == e.repr && ev.title == e.summary.GetOr("") &&
      ev.description == e.description && ev.location == e.location && ev.source == "local" &&
      (ev.allDay <==> e.start.value.date.Some? && e.end.value.date.Some?) &&
      (ev.allDay ==> ev.start == e.start.value.date.value * SECONDS_PER_DAY &&
                     ev.end + SECONDS_PER_DAY == e.end.value.date.value * SECONDS_PER_DAY) &&
      (!ev.allDay ==> Some(ev.start) == e.start.value.dateTime && Some(ev.end) == e.end.value.dateTime) &&
      (ev.busy <==> e.transparency != Some("transparent")) &&
      (ev.readOnly <==> !((CreatorTruthy(e.creator) && e.creator.value.isSelf == Some(true)) || e.guestsCanModify == Some(true))) &&
      (!CreatorTruthy(e.creator) ==> ev.owner == "") &&
      (CreatorTruthy(e.creator) ==>
        ev.owner == e.creator.value.displayName.GetOr("") + " <" + e.creator.value.email.GetOr("") + ">") &&
      |ev.participants| == |e.attendees.GetOr([])| &&
      forall i :: 0 <= i < |ev.participants| ==> ParticipantOf(e.attendees.GetOr([])[i]) == Ok(ev.participants[i])
  {
    ParticipantsOneEach(e.attendees.GetOr([]));
  }

  // ---------------------------------------------------------------- events, local to remote

  /** `_create_attendee`: each attendee key is present iff the participant key it comes from is. */
  function CreateAttendee(p: Participant): (r: Result<AttendeeBody, Error>)
    ensures r.Ok? <==> p.status.Missing? || (p.status.Value? && p.status.value in InverseStatusMap())
    ensures r.Err? ==> r.error == UnknownStatus(p.status.Get())
    ensures r.Ok? ==>
      r.value.displayName == p.name && r.value.email == p.email && r.value.additionalGuests == p.guests &&
      (r.value.responseStatus.Some? <==> p.status.Present())
    ensures r.Ok? && p.status.Value? ==> r.value.responseStatus == Some(InverseStatusMap()[p.status.value])
  {
    if p.status.Null? || (p.status.Value? && p.status.value !in InverseStatusMap()) then Err(UnknownStatus(p.status.Get()))
    else Ok(AttendeeBody(p.name, if p.status.Value? then Some(InverseStatusMap()[p.status.value]) else None,
                         p.email, p.guests))
  }

  /** `if attendee`: the dict is empty. */
  predicate IsEmptyAttendee(a: AttendeeBody) {
    !a.displayName.Present() && a.responseStatus.None? && !a.email.Present() && !a.additionalGuests.Present()
  }

  /** A participant that produces a non-empty attendee dict. */
  predicate HasAttendeeKey(p: Participant) {
    p.name.Present() || p.status.Present() || p.email.Present() || p.guests.Present()
  }

  /** `[_create_attendee(p) for p in participants]`; the first failure raises. */
  function AttendeesOf(ps: seq<Participant>): Result<seq<AttendeeBody>, Error> {
    if ps == [] then Ok([])
    else match AttendeesOf(ps[..|ps| - 1])
      case Err(e) => Err(e)
      case Ok(atts) =>
        match CreateAttendee(ps[|ps| - 1])
        case Err(e) => Err(e)
        case Ok(a) => Ok(atts + [a])
  }

  /** `[a for a in attendees if a]`. */
  function DropEmpty(atts: seq<AttendeeBody>): seq<AttendeeBody> {
    if atts == [] then []
    else DropEmpty(atts[..|atts| - 1]) + (if IsEmptyAttendee(atts[|atts| - 1]) then [] else [atts[|atts| - 1]])
  }

  /** The participants that contribute an attendee, in order. */
  function WithAttendeeKey(ps: seq<Participant>): (r: seq<Participant>)
    ensures forall p :: p in r ==> HasAttendeeKey(p)
    ensures forall p :: p in ps && HasAttendeeKey(p) ==> p in r
  {
    if ps == [] then []
    else
      assert ps == ps[..|ps| - 1] + [ps[|ps| - 1]];
      WithAttendeeKey(ps[..|ps| - 1]) + (if HasAttendeeKey(ps[|ps| - 1]) then [ps[|ps| - 1]] else [])
  }

  /** The `start` and `end` objects `_dump_event` emits: an all-day event gets a start date and no end. */
  function DumpTimes(e: Event): (TimeBody, Option<TimeBody>) {
    if e.allDay then (TimeBody(Some(e.start / SECONDS_PER_DAY), None, None), None)
    else (TimeBody(None, Some(e.start), Some("UTC")), Some(TimeBody(None, Some(e.end), Some("UTC"))))
  }

  /** The remote dict of an event with the given `start` and `end` objects. */
  function DumpWith(e: Event, times: (TimeBody, Option<TimeBody>)): Result<EventBody, Error> {
    var body := EventBody(e.title, e.description, e.location, if e.busy then "opaque" else "transparent",
                          times.0, times.1, None);
    if |e.participants| == 0 then Ok(body)
    else match AttendeesOf(e.participants)
      case Err(err) => Err(err)
      case Ok(atts) => Ok(body.(attendees := Some(DropEmpty(atts))))
  }

  /** `_dump_event`. */
  function DumpEvent(e: Event): Result<EventBody, Error> {
    DumpWith(e, DumpTimes(e))
  }

  /** One attendee dict per participant, in order; the list fails iff some participant's status has no inverse. */
  lemma {:induction false} AttendeesOneEach(ps: seq<Participant>)
    ensures AttendeesOf(ps).Ok? <==> forall i :: 0 <= i < |ps| ==> CreateAttendee(ps[i]).Ok?
    ensures AttendeesOf(ps).Ok? ==>
      |AttendeesOf(ps).value| == |ps| &&
      forall i :: 0 <= i < |ps| ==> CreateAttendee(ps[i]) == Ok(AttendeesOf(ps).value[i])
  {
    if ps != [] {
      var init := ps[..|ps| - 1];
      AttendeesOneEach(init);
      assert forall i :: 0 <= i < |init| ==> init[i] == ps[i];
    }
  }

  /** Dropping empty dicts keeps exactly the attendees of participants that have one of the four keys. */
  lemma {:induction false} DropEmptyKeeps(ps: seq<Participant>)
    requires AttendeesOf(ps).Ok?
    ensures var kept := WithAttendeeKey(ps); var atts := DropEmpty(AttendeesOf(ps).value);
      |atts| == |kept| && forall j :: 0 <= j < |kept| ==> CreateAttendee(kept[j]) == Ok(atts[j])
  {
    if ps != [] {
      var init := ps[..|ps| - 1];
      var last := ps[|ps| - 1];
      assert AttendeesOf(init).Ok?;
      DropEmptyKeeps(init);
      var atts := AttendeesOf(init).value;
      var a := CreateAttendee(last).value;
      assert AttendeesOf(ps).value == atts + [a];
      assert (atts + [a])[..|atts + [a]| - 1] == atts;
      assert IsEmptyAttendee(a) <==> !HasAttendeeKey(last);
    }
  }

  /** The output shape of `_dump_event`. */
  lemma DumpEventShape(e: Event)
    ensures DumpEvent(e).Ok? <==> forall i :: 0 <= i < |e.participants| ==> CreateAttendee(e.participants[i]).Ok?
    ensures DumpEvent(e).Ok? ==>
      var b := DumpEvent(e).value;
      b.summary == e.title && b.description == e.description && b.location == e.location &&
      (b.transparency == "opaque" <==> e.busy) && (b.transparency == "transparent" <==> !e.busy) &&
      (e.allDay ==> b.start == TimeBody(Some(e.start / SECONDS_PER_DAY), None, None) && b.end.None?) &&
      (!e.allDay ==> b.start == TimeBody(None, Some(e.start), Some("UTC")) &&
                     b.end == Some(TimeBody(None, Some(e.end), Some("UTC")))) &&
      (b.attendees.Some? <==> |e.participants| > 0)
    ensures DumpEvent(e).Ok? && |e.participants| > 0 ==>
      var atts := DumpEvent(e).value.attendees.value; var kept := WithAttendeeKey(e.participants);
      (forall a :: a in atts ==> !IsEmptyAttendee(a)) &&
      |atts| == |kept| && forall j :: 0 <= j < |kept| ==> CreateAttendee(kept[j]) == Ok(atts[j])
  {
    AttendeesOneEach(e.participants);
    if DumpEvent(e).Ok? && |e.participants| > 0 {
      DropEmptyKeeps(e.participants);
      var atts := DumpEvent(e).value.attendees.value;
      var kept := WithAttendeeKey(e.participants);
      forall a | a in atts ensures !IsEmptyAttendee(a) {
        var j :| 0 <= j < |atts| && atts[j] == a;
        assert HasAttendeeKey(kept[j]);
      }
    }
  }

  // ---------------------------------------------------------------- round trips through the server

  /** An attendee dict as the server sends it back: null reads as absent, and no comment. */
  function Received(a: AttendeeBody): Attendee {
    Attendee(a.email.Get(), a.displayName.Get(), a.responseStatus, None)
  }

  /** A time object as the server sends it back. */
  function ReceivedTime(t: TimeBody): TimeSpec {
    TimeSpec(t.date, t.dateTime)
  }

  /**
   * The events resource the server holds after storing a pushed body under the id `uid`:
   * the keys that were sent, and an id; `repr` is its textual rendering.
   */
  function Echo(uid: string, repr: string, b: EventBody): EventItem {
    EventItem(Some(uid), repr, None, Some(b.summary), Some(ReceivedTime(b.start)),
              if b.end.Some? then Some(ReceivedTime(b.end.value)) else None,
              b.description, b.location, Some(b.transparency), None, None,
              if b.attendees.Some?
              then Some(seq(|b.attendees.value|, i requires 0 <= i < |b.attendees.value| => Received(b.attendees.value[i])))
              else None)
  }

  /** Participants whose status is one of the four local statuses. */
  predicate ValidStatuses(ps: seq<Participant>) {
    forall i :: 0 <= i < |ps| ==> ps[i].status.Value? && ps[i].status.value in InverseStatusMap()
  }

  /** Pushing participants and reading them back keeps each one's status, email and name, in order. */
  lemma ParticipantsRoundTrip(ps: seq<Participant>)
    requires ValidStatuses(ps)
    ensures AttendeesOf(ps).Ok?
    ensures var atts := AttendeesOf(ps).value;
      DropEmpty(atts) == atts &&
      var back := ParticipantsOf(seq(|atts|, i requires 0 <= i < |atts| => Received(atts[i])));
      back.Ok? && |back.value| == |ps| &&
      forall i :: 0 <= i < |ps| ==>
        back.value[i].status == ps[i].status && back.value[i].email.Get() == ps[i].email.Get() &&
        back.value[i].name.Get() == ps[i].name.Get()
  {
    AttendeesOneEach(ps);
    InverseStatusMapRoundTrip();
    var atts := AttendeesOf(ps).value;
    assert WithAttendeeKey(ps) == ps by {
      WithAttendeeKeyAll(ps);
    }
    DropEmptyKeeps(ps);
    assert DropEmpty(atts) == atts by {
      var d := DropEmpty(atts);
      assert |d| == |atts|;
      forall j | 0 <= j < |atts| ensures d[j] == atts[j] {
        assert CreateAttendee(ps[j]) == Ok(d[j]);
      }
    }
    var rec := seq(|atts|, i requires 0 <= i < |atts| => Received(atts[i]));
    ParticipantsOneEach(rec);
    forall i | 0 <= i < |rec| ensures ParticipantOf(rec[i]).Ok? {
      assert CreateAttendee(ps[i]) == Ok(atts[i]);
    }
  }

  /** Every participant with a valid status has a key, so none is dropped. */
  lemma {:induction false} WithAttendeeKeyAll(ps: seq<Participant>)
    requires ValidStatuses(ps)
    ensures WithAttendeeKey(ps) == ps
  {
    if ps != [] {
      var init := ps[..|ps| - 1];
      assert ValidStatuses(init) by {
        assert forall i :: 0 <= i < |init| ==> init[i] == ps[i];
      }
      WithAttendeeKeyAll(init);
      assert init + [ps[|ps| - 1]] == ps;
    }
  }

  /** The attendees of a pushed body, read back, are the participants it was made from. */
  lemma EchoParticipants(e: Event, ps: seq<Participant>, uid: string, repr: string, times: (TimeBody, Option<TimeBody>))
    requires ps == e.participants && ValidStatuses(ps)
    ensures DumpWith(e, times).Ok?
    ensures var got := ParticipantsOf(Echo(uid, repr, DumpWith(e, times).value).attendees.GetOr([]));
      got.Ok? && |got.value| == |ps| &&
      forall i :: 0 <= i < |ps| ==>
        got.value[i].status == ps[i].status && got.value[i].email.Get() == ps[i].email.Get() &&
        got.value[i].name.Get() == ps[i].name.Get()
  {
    ParticipantsRoundTrip(ps);
    var b := DumpWith(e, times).value;
    if |ps| == 0 {
      assert b.attendees.None?;
    } else {
      var atts := AttendeesOf(ps).value;
      assert b.attendees == Some(atts);
      assert Echo(uid, repr, b).attendees.GetOr([]) == seq(|atts|, i requires 0 <= i < |atts| => Received(atts[i]));
    }
  }

  /** A timed event pushed with `_dump_event` and read back with `parse_event_response` keeps its data. */
  lemma TimedDumpRoundTrip(e: Event, uid: string, repr: string)
    requires !e.allDay && ValidStatuses(e.participants)
    ensures DumpEvent(e).Ok?
    ensures var r := ParseEvent(Echo(uid, repr, DumpEvent(e).value));
      r.Ok? && r.value.uid == uid && r.value.title == e.title && r.value.description == e.description &&
      r.value.location == e.location && r.value.busy == e.busy && !r.value.allDay &&
      r.value.start == e.start && r.value.end == e.end &&
      |r.value.participants| == |e.participants| &&
      forall i :: 0 <= i < |e.participants| ==>
        r.value.participants[i].status == e.participants[i].status &&
        r.value.participants[i].email.Get() == e.participants[i].email.Get() &&
        r.value.participants[i].name.Get() == e.participants[i].name.Get()
  {
    EchoParticipants(e, e.participants, uid, repr, DumpTimes(e));
  }

  /** An all-day event pushed with `_dump_event` has no `end`, so the stored resource cannot be read back. */
  lemma AllDayDumpLacksEnd(e: Event, uid: string, repr: string)
    requires e.allDay && DumpEvent(e).Ok?
    ensures DumpEvent(e).value.end.None?
    ensures ParseEvent(Echo(uid, repr, DumpEvent(e).value)) == Err(MissingKey("end"))
  {
  }

  /** `DumpTimes` with the corrected all-day end: the exclusive end date, one day after the inclusive end. */
  function DumpTimesWithEnd(e: Event): (TimeBody, Option<TimeBody>) {
    if e.allDay then
      (TimeBody(Some(e.start / SECONDS_PER_DAY), None, None), Some(TimeBody(Some(e.end / SECONDS_PER_DAY + 1), None, None)))
    else DumpTimes(e)
  }

  /** `_dump_event` with the corrected all-day end. */
  function DumpEventWithEnd(e: Event): Result<EventBody, Error> {
    DumpWith(e, DumpTimesWithEnd(e))
  }

  /** A multiple of a day survives conversion to a day number and back. */
  lemma DayAligned(x: int)
    requires x % SECONDS_PER_DAY == 0
    ensures (x / SECONDS_PER_DAY) * SECONDS_PER_DAY == x
  {
  }

  /**
   * With the corrected end, an all-day event whose bounds are midnights (as every parsed all-day
   * event's are) survives the push and read-back.
   */
  lemma AllDayDumpWithEndRoundTrip(e: Event, uid: string, repr: string)
    requires e.allDay && e.start % SECONDS_PER_DAY == 0 && e.end % SECONDS_PER_DAY == 0
    requires ValidStatuses(e.participants)
    ensures DumpEventWithEnd(e).Ok?
    ensures var r := ParseEvent(Echo(uid, repr, DumpEventWithEnd(e).value));
      r.Ok? && r.value.allDay && r.value.start == e.start && r.value.end == e.end &&
      r.value.busy == e.busy && r.value.title == e.title && |r.value.participants| == |e.participants|
  {
    EchoParticipants(e, e.participants, uid, repr, DumpTimesWithEnd(e));
    DayAligned(e.start);
    DayAligned(e.end);
  }

  /** Every parsed all-day event has midnight bounds, so the corrected push reads back as the same times. */
  lemma ParsedAllDayAligned(item: EventItem)
    requires ParseEvent(item).Ok? && ParseEvent(item).value.allDay
    ensures ParseEvent(item).value.start % SECONDS_PER_DAY == 0 && ParseEvent(item).value.end % SECONDS_PER_DAY == 0
  {
    var ev := ParseEvent(item).value;
    ParseEventFields(item);
    assert ev.end == (item.end.value.date.value - 1) * SECONDS_PER_DAY;
  }
}
