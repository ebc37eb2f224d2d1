/**
 * `get_calendars` and `get_events`: fetch the raw items, then split them into the ids to delete
 * and the records to upsert.
 */
module GoogleSync {
  import opened Wrappers
  import opened GoogleData
  import opened GoogleTranslate
  import opened GoogleFetch

  /** The `(deletes, updates)` pair both classifiers return. */
  datatype Split<U> = Split(deletes: seq<string>, updates: seq<U>)

  /**
   * The classification loop, item by item: an item marked deleted contributes its `id` (a
   * KeyError if it has none), any other item its parsed record; the first failure raises.
   */
  function Classify<T, U>(items: seq<T>, deleted: T -> bool, idOf: T -> Option<string>, parse: T -> Result<U, Error>)
    : Result<Split<U>, Error>
  {
    if items == [] then Ok(Split([], []))
    else match Classify(items[..|items| - 1], deleted, idOf, parse)
      case Err(e) => Err(e)
      case Ok(s) => Step(s, items[|items| - 1], deleted, idOf, parse)
  }

  /** One loop iteration: add item `x` to the split `s`. */
  function Step<T, U>(s: Split<U>, x: T, deleted: T -> bool, idOf: T -> Option<string>, parse: T -> Result<U, Error>)
    : Result<Split<U>, Error>
  {
    if deleted(x) then
      if idOf(x).None? then Err(MissingKey("id")) else Ok(Split(s.deletes + [idOf(x).value], s.updates))
    else
      match parse(x)
      case Err(e) => Err(e)
      case Ok(u) => Ok(Split(s.deletes, s.updates + [u]))
  }

  /** The classification of one more item. */
  lemma ClassifyNext<T, U>(items: seq<T>, k: nat, s: Split<U>, deleted: T -> bool, idOf: T -> Option<string>, parse: T -> Result<U, Error>)
    requires k < |items| && Classify(items[..k], deleted, idOf, parse) == Ok(s)
    ensures Classify(items[..k + 1], deleted, idOf, parse) == Step(s, items[k], deleted, idOf, parse)
  {
    assert items[..k + 1][..k] == items[..k];
  }

  /** Whether one item can be classified. */
  predicate ItemOk<T, U>(x: T, deleted: T -> bool, idOf: T -> Option<string>, parse: T -> Result<U, Error>) {
    if deleted(x) then idOf(x).Some? else parse(x).Ok?
  }

  /** The items whose `deleted(x)` is `want`, in order. */
  function Select<T>(items: seq<T>, deleted: T -> bool, want: bool): (r: seq<T>)
    ensures forall x :: x in r ==> deleted(x) == want
    ensures forall x :: x in items && deleted(x) == want ==> x in r
  {
    if items == [] then []
    else
      assert items == items[..|items| - 1] + [items[|items| - 1]];
      Select(items[..|items| - 1], deleted, want) + (if deleted(items[|items| - 1]) == want then [items[|items| - 1]] else [])
  }

  /** Every item is selected on exactly one side. */
  lemma {:induction false} SelectSplits<T>(items: seq<T>, deleted: T -> bool)
    ensures |Select(items, deleted, true)| + |Select(items, deleted, false)| == |items|
  {
    if items != [] {
      SelectSplits(items[..|items| - 1], deleted);
    }
  }

  /** A failure on a prefix is the failure of the whole list. */
  lemma {:induction false} ClassifyPrefixErr<T, U>(items: seq<T>, k: nat, deleted: T -> bool, idOf: T -> Option<string>, parse: T -> Result<U, Error>)
    requires k <= |items|
    requires Classify(items[..k], deleted, idOf, parse).Err?
    ensures Classify(items, deleted, idOf, parse) == Classify(items[..k], deleted, idOf, parse)
    decreases |items| - k
  {
    if k < |items| {
      assert items[..k + 1][..k] == items[..k];
      ClassifyPrefixErr(items, k + 1, deleted, idOf, parse);
    } else {
      assert items[..k] == items;
    }
  }

  /** Classification succeeds iff every item can be classified. */
  lemma {:induction false} ClassifyOk<T, U>(items: seq<T>, deleted: T -> bool, idOf: T -> Option<string>, parse: T -> Result<U, Error>)
    ensures Classify(items, deleted, idOf, parse).Ok? <==> forall i :: 0 <= i < |items| ==> ItemOk(items[i], deleted, idOf, parse)
  {
    if items != [] {
      var init := items[..|items| - 1];
      ClassifyOk(init, deleted, idOf, parse);
      assert forall i :: 0 <= i < |init| ==> init[i] == items[i];
    }
  }

  /**
   * The partition: the deletes are the ids of the deleted items and the updates the parsed other
   * items, each in input order, and every item contributes exactly one entry.
   */
  lemma {:induction false} ClassifyPartition<T, U>(items: seq<T>, deleted: T -> bool, idOf: T -> Option<string>, parse: T -> Result<U, Error>)
    requires Classify(items, deleted, idOf, parse).Ok?
    ensures var s := Classify(items, deleted, idOf, parse).value;
      var dels := Select(items, deleted, true); var keeps := Select(items, deleted, false);
      |s.deletes| == |dels| && (forall j :: 0 <= j < |dels| ==> idOf(dels[j]) == Some(s.deletes[j])) &&
      |s.updates| == |keeps| && (forall j :: 0 <= j < |keeps| ==> parse(keeps[j]) == Ok(s.updates[j])) &&
      |s.deletes| + |s.updates| == |items|
  {
    SelectSplits(items, deleted);
    if items != [] {
      var init := items[..|items| - 1];
      ClassifyPartition(init, deleted, idOf, parse);
    }
  }

  // ---------------------------------------------------------------- calendars

  /** `item.get('deleted')` is truthy. */
  predicate CalendarDeleted(c: CalendarItem) {
    c.deleted == Some(true)
  }

  function CalendarId(c: CalendarItem): Option<string> {
    c.id
  }

  /** `get_calendars` (with `_get_raw_calendars`): fetch the calendar list, then classify it. */
  method GetCalendars(script: seq<Response<CalendarItem>>)
    returns (result: Result<Split<Calendar>, Error>, sent: seq<Request>)
    ensures sent == Sent(CalendarList, NoParams, script)
    ensures Outcome(script).Err? ==> result == Err(Outcome(script).error)
    ensures Outcome(script).Ok? ==> result == Classify(Outcome(script).value, CalendarDeleted, CalendarId, ParseCalendar)
  {
    var fetched;
    fetched, sent := GetResourceList(CalendarList, NoParams, script);
    if fetched.Err? {
      return Err(fetched.error), sent;
    }
    var items := fetched.value;
    var deletes: seq<string> := [];
    var updates: seq<Calendar> := [];
    for k := 0 to |items|
      invariant Classify(items[..k], CalendarDeleted, CalendarId, ParseCalendar) == Ok(Split(deletes, updates))
    {
      ClassifyNext(items, k, Split(deletes, updates), CalendarDeleted, CalendarId, ParseCalendar);
      var item := items[k];
      if item.deleted == Some(true) {
        if item.id.None? {
          ClassifyPrefixErr(items, k + 1, CalendarDeleted, CalendarId, ParseCalendar);
          return Err(MissingKey("id")), sent;
        }
        deletes := deletes + [item.id.value];
      } else {
        var c := ParseCalendar(item);
        if c.Err? {
          ClassifyPrefixErr(items, k + 1, CalendarDeleted, CalendarId, ParseCalendar);
          return Err(c.error), sent;
        }
        updates := updates + [c.value];
      }
    }
    assert items[..|items|] == items;
    result := Ok(Split(deletes, updates));
  }

  /**
   * For calendars: each item marked deleted gives exactly its id to the deletes, each other item
   * exactly one Calendar, whose `read_only` holds iff its access role is `reader`.
   */
  lemma CalendarPartition(items: seq<CalendarItem>)
    requires Classify(items, CalendarDeleted, CalendarId, ParseCalendar).Ok?
    ensures var s := Classify(items, CalendarDeleted, CalendarId, ParseCalendar).value;
      var dels := Select(items, CalendarDeleted, true); var keeps := Select(items, CalendarDeleted, false);
      |s.deletes| + |s.updates| == |items| &&
      |s.deletes| == |dels| && (forall j :: 0 <= j < |dels| ==> dels[j].id == Some(s.deletes[j])) &&
      |s.updates| == |keeps| &&
      (forall j :: 0 <= j < |keeps| ==>
        keeps[j].id == Some(s.updates[j].uid) && (s.updates[j].readOnly <==> keeps[j].accessRole == Some("reader")))
  {
    ClassifyPartition(items, CalendarDeleted, CalendarId, ParseCalendar);
  }

  // ---------------------------------------------------------------- events

  /** `item.get('status') == 'cancelled'`. */
  predicate EventCancelled(e: EventItem) {
    e.status == Some("cancelled")
  }

  function EventId(e: EventItem): Option<string> {
    e.id
  }

  /** `get_events`: fetch the calendar's events (with the 410 fallback), then classify them. */
  method GetEvents(calendarUid: string, syncFrom: Option<string>, script: seq<Response<EventItem>>)
    returns (result: Result<Split<Event>, Error>, sent: seq<Request>)
    ensures var raw := if Gone(script) then Outcome(script[Consumed(script)..]) else Outcome(script);
      (raw.Err? ==> result == Err(raw.error)) &&
      (raw.Ok? ==> result == Classify(raw.value, EventCancelled, EventId, ParseEvent))
    ensures forall q :: q in sent ==>
      q.endpoint == CalendarEvents(calendarUid) && q.params.singleEvents == Some(true) && q.params.showDeleted == Some(true)
  {
    var fetched;
    fetched, sent := GetRawEvents(calendarUid, syncFrom, script);
    if fetched.Err? {
      return Err(fetched.error), sent;
    }
    var items := fetched.value;
    var deletes: seq<string> := [];
    var updates: seq<Event> := [];
    for k := 0 to |items|
      invariant Classify(items[..k], EventCancelled, EventId, ParseEvent) == Ok(Split(deletes, updates))
    {
      ClassifyNext(items, k, Split(deletes, updates), EventCancelled, EventId, ParseEvent);
      var item := items[k];
      if item.status == Some("cancelled") {
        if item.id.None? {
          ClassifyPrefixErr(items, k + 1, EventCancelled, EventId, ParseEvent);
          return Err(MissingKey("id")), sent;
        }
        deletes := deletes + [item.id.value];
      } else {
        var ev := ParseEventResponse(item);
        if ev.Err? {
          ClassifyPrefixErr(items, k + 1, EventCancelled, EventId, ParseEvent);
          return Err(ev.error), sent;
        }
        updates := updates + [ev.value];
      }
    }
    assert items[..|items|] == items;
    result := Ok(Split(deletes, updates));
  }

  /**
   * For events: each cancelled item gives exactly its id to the deletes and never an Event; every
   * other item gives exactly one Event, in order.
   */
  lemma EventPartition(items: seq<EventItem>)
    requires Classify(items, EventCancelled, EventId, ParseEvent).Ok?
    ensures var s := Classify(items, EventCancelled, EventId, ParseEvent).value;
      var dels := Select(items, EventCancelled, true); var keeps := Select(items, EventCancelled, false);
      |s.deletes| + |s.updates| == |items| &&
      |s.deletes| == |dels| && (forall j :: 0 <= j < |dels| ==> dels[j].id == Some(s.deletes[j])) &&
      |s.updates| == |keeps| &&
      (forall j :: 0 <= j < |keeps| ==> keeps[j].status != Some("cancelled") && ParseEvent(keeps[j]) == Ok(s.updates[j]))
  {
    ClassifyPartition(items, EventCancelled, EventId, ParseEvent);
  }
}
