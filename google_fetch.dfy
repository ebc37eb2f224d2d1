/**
 * The paginated GET loop `_get_resource_list` and the events fetch `_get_raw_events` with its
 * fallback to a full fetch on HTTP 410.
 *
 * The server is a script: the k-th request the client sends is answered by the k-th response of
 * the script. A request records its endpoint, its query parameters and which token authorises it.
 * Token acquisitions are numbered within one fetch: 0 is the token fetched when the fetch starts,
 * and each 401 fetches the next one.
 */
module GoogleFetch {
  import opened Wrappers
  import opened GoogleData

  /** The list endpoints: the user's calendar list, and the events of one calendar. */
  datatype Endpoint = CalendarList | CalendarEvents(calendarUid: string)

  /** The query parameters of a list request; a `None` parameter is not sent. */
  datatype Params = Params(
    showDeleted: Option<bool>,
    singleEvents: Option<bool>,
    updatedMin: Option<string>,
    pageToken: Option<string>)

  const NoParams := Params(None, None, None, None)

  datatype Request = Request(endpoint: Endpoint, params: Params, token: nat)

  /** An HTTP response: its status and, for a JSON body, its `items` and `nextPageToken` keys. */
  datatype Response<T> = Response(status: int, items: Option<seq<T>>, nextPageToken: Option<string>)

  /** `raise_for_status` raises for client and server errors only. */
  predicate RaisesForStatus(status: int) {
    400 <= status < 600
  }

  /** Whether the loop ends at this response: the last page, a body without `items`, or a raised status. */
  predicate Stops<T>(r: Response<T>) {
    if r.status == 200 then r.items.None? || r.nextPageToken.None?
    else r.status != 401 && RaisesForStatus(r.status)
  }

  /** The first response at which the loop ends, if any. */
  function StopIndex<T>(rs: seq<Response<T>>): (n: Option<nat>)
    ensures n.Some? ==> n.value < |rs| && Stops(rs[n.value]) && forall i :: 0 <= i < n.value ==> !Stops(rs[i])
    ensures n.None? ==> forall i :: 0 <= i < |rs| ==> !Stops(rs[i])
  {
    if rs == [] then None
    else if Stops(rs[0]) then Some(0)
    else match StopIndex(rs[1..])
      case None => None
      case Some(k) => Some(k + 1)
  }

  /** The items of the 200 responses among `done`, page after page. */
  function Pages<T>(done: seq<Response<T>>): seq<T> {
    if done == [] then []
    else
      var last := done[|done| - 1];
      Pages(done[..|done| - 1]) + (if last.status == 200 && last.items.Some? then last.items.value else [])
  }

  /** The page cursor after `done`: the `nextPageToken` of the last 200 response, else the initial one. */
  function Cursor<T>(initial: Option<string>, done: seq<Response<T>>): Option<string> {
    if done == [] then initial
    else
      var last := done[|done| - 1];
      if last.status == 200 && last.nextPageToken.Some? then last.nextPageToken
      else Cursor(initial, done[..|done| - 1])
  }

  /** The number of 401 responses among `done`, that is, the number of token refreshes. */
  function Refreshes<T>(done: seq<Response<T>>): nat {
    if done == [] then 0
    else Refreshes(done[..|done| - 1]) + (if done[|done| - 1].status == 401 then 1 else 0)
  }

  /** The request the loop sends after the responses `done`. */
  function RequestAt<T>(ep: Endpoint, p: Params, done: seq<Response<T>>): (q: Request)
    ensures q.endpoint == ep && q.params.showDeleted == Some(true)
    ensures q.params.singleEvents == p.singleEvents && q.params.updatedMin == p.updatedMin
  {
    Request(ep, p.(showDeleted := Some(true), pageToken := Cursor(p.pageToken, done)), Refreshes(done))
  }

  /** The number of responses the loop consumes. */
  function Consumed<T>(rs: seq<Response<T>>): (n: nat)
    ensures n <= |rs|
  {
    match StopIndex(rs)
    case None => |rs|
    case Some(k) => k + 1
  }

  /** The requests the loop sends, one per consumed response. */
  function Sent<T>(ep: Endpoint, p: Params, rs: seq<Response<T>>): (qs: seq<Request>)
    ensures |qs| == Consumed(rs)
  {
    seq(Consumed(rs), i requires 0 <= i < Consumed(rs) => RequestAt(ep, p, rs[..i]))
  }

  /** What the loop returns or raises when it ends at response `r`, having gathered `acc`. */
  function Conclude<T>(r: Response<T>, acc: seq<T>): Result<seq<T>, Error> {
    if r.status == 200 then
      if r.items.None? then Err(MissingKey("items")) else Ok(acc + r.items.value)
    else Err(HttpError(r.status))
  }

  /** What `_get_resource_list` returns or raises on the script `rs`. */
  function Outcome<T>(rs: seq<Response<T>>): Result<seq<T>, Error> {
    match StopIndex(rs)
    case None => Err(ScriptExhausted)
    case Some(n) => Conclude(rs[n], Pages(rs[..n]))
  }

  /** `_get_resource_list`: follow `nextPageToken` until the last page, refreshing the token on 401. */
  method GetResourceList<T>(ep: Endpoint, p: Params, script: seq<Response<T>>)
    returns (result: Result<seq<T>, Error>, sent: seq<Request>)
    ensures result == Outcome(script)
    ensures sent == Sent(ep, p, script)
  {
    var token: nat := 0;
    var items: seq<T> := [];
    var nextPageToken: Option<string> := None;
    var params := p.(showDeleted := Some(true));
    sent := [];
    var k := 0;
    while k < |script|
      invariant 0 <= k <= |script|
      invariant forall i :: 0 <= i < k ==> !Stops(script[i])
      invariant items == Pages(script[..k])
      invariant token == Refreshes(script[..k])
      invariant params.(pageToken := p.pageToken) == p.(showDeleted := Some(true))
      invariant (if nextPageToken.Some? then nextPageToken else params.pageToken) == Cursor(p.pageToken, script[..k])
      invariant |sent| == k && forall i :: 0 <= i < k ==> sent[i] == RequestAt(ep, p, script[..i])
    {
      if nextPageToken.Some? {
        params := params.(pageToken := nextPageToken);
      }
      var r := script[k];
      sent := sent + [Request(ep, params, token)];
      assert script[..k + 1][..k] == script[..k];
      k := k + 1;
      if r.status == 200 {
        if r.items.None? {
          result := Err(MissingKey("items"));
          return;
        }
        items := items + r.items.value;
        nextPageToken := r.nextPageToken;
        if nextPageToken.None? {
          result := Ok(items);
          return;
        }
      } else if r.status == 401 {
        token := token + 1;
      } else if RaisesForStatus(r.status) {
        result := Err(HttpError(r.status));
        return;
      }
    }
    assert script[..k] == script;
    result := Err(ScriptExhausted);
  }

  /** A 401 refreshes the token and changes neither the gathered items nor the cursor. */
  lemma RetryKeepsState<T>(ep: Endpoint, p: Params, rs: seq<Response<T>>, i: nat)
    requires i < |rs| && rs[i].status == 401
    ensures Pages(rs[..i + 1]) == Pages(rs[..i])
    ensures RequestAt(ep, p, rs[..i + 1]).params == RequestAt(ep, p, rs[..i]).params
    ensures RequestAt(ep, p, rs[..i + 1]).token == RequestAt(ep, p, rs[..i]).token + 1
  {
    assert rs[..i + 1][..i] == rs[..i];
  }

  /** A page that carries a `nextPageToken` adds its items, and the next request sends that token as `pageToken`. */
  lemma PageAdvancesCursor<T>(ep: Endpoint, p: Params, rs: seq<Response<T>>, i: nat)
    requires i < |rs| && rs[i].status == 200 && rs[i].items.Some? && rs[i].nextPageToken.Some?
    ensures Pages(rs[..i + 1]) == Pages(rs[..i]) + rs[i].items.value
    ensures RequestAt(ep, p, rs[..i + 1]).params.pageToken == rs[i].nextPageToken
    ensures RequestAt(ep, p, rs[..i + 1]).token == RequestAt(ep, p, rs[..i]).token
  {
    assert rs[..i + 1][..i] == rs[..i];
  }

  /** The items of a list of pages, concatenated. */
  function Concat<T>(pages: seq<seq<T>>): seq<T> {
    if pages == [] then [] else Concat(pages[..|pages| - 1]) + pages[|pages| - 1]
  }

  /** Pages linked by `nextPageToken`, the last one without: the fetch returns all their items in page order. */
  lemma {:induction false} LinkedPagesConcatenate<T>(rs: seq<Response<T>>, pages: seq<seq<T>>)
    requires |rs| == |pages| > 0
    requires forall i :: 0 <= i < |rs| ==> rs[i].status == 200 && rs[i].items == Some(pages[i])
    requires forall i :: 0 <= i < |rs| - 1 ==> rs[i].nextPageToken.Some?
    requires rs[|rs| - 1].nextPageToken.None?
    ensures StopIndex(rs) == Some(|rs| - 1)
    ensures Outcome(rs) == Ok(Concat(pages))
  {
    var n := |rs| - 1;
    PagesOfFullPages(rs[..n], pages[..n]);
    assert pages[..n] + [pages[n]] == pages;
  }

  lemma {:induction false} PagesOfFullPages<T>(rs: seq<Response<T>>, pages: seq<seq<T>>)
    requires |rs| == |pages|
    requires forall i :: 0 <= i < |rs| ==> rs[i].status == 200 && rs[i].items == Some(pages[i])
    ensures Pages(rs) == Concat(pages)
  {
    if rs != [] {
      var n := |rs| - 1;
      PagesOfFullPages(rs[..n], pages[..n]);
    }
  }

  /** Every request of a fetch asks for deleted items and carries the caller's other parameters. */
  lemma SentParams<T>(ep: Endpoint, p: Params, rs: seq<Response<T>>)
    ensures forall q :: q in Sent(ep, p, rs) ==>
      q.endpoint == ep && q.params.showDeleted == Some(true) &&
      q.params.singleEvents == p.singleEvents && q.params.updatedMin == p.updatedMin
  {
  }

  /** An error status other than 401 raises, and nothing gathered before it is returned. */
  lemma ErrorStatusRaises<T>(rs: seq<Response<T>>)
    requires StopIndex(rs).Some? && rs[StopIndex(rs).value].status != 200
    ensures Outcome(rs) == Err(HttpError(rs[StopIndex(rs).value].status))
    ensures RaisesForStatus(rs[StopIndex(rs).value].status) && rs[StopIndex(rs).value].status != 401
  {
  }

  // ---------------------------------------------------------------- events

  /** The parameters of the incremental events fetch: `updatedMin` with an explicit `Z`, when given. */
  function IncrementalParams(syncFrom: Option<string>): (p: Params)
    ensures p.singleEvents == Some(true) && p.pageToken.None?
    ensures syncFrom.Some? ==> p.updatedMin == Some(syncFrom.value + "Z")
    ensures syncFrom.None? ==> p.updatedMin.None?
  {
    Params(None, Some(true), if syncFrom.Some? then Some(syncFrom.value + "Z") else None, None)
  }

  /** The parameters of the full events fetch after a 410: no `updatedMin`. */
  const FullParams := Params(None, Some(true), None, None)

  /** Whether the incremental fetch fails with HTTP 410. */
  predicate Gone<T>(script: seq<Response<T>>) {
    Outcome(script) == Err(HttpError(410))
  }

  /** `_get_raw_events`: the incremental fetch; on a 410, one full fetch from the responses that follow. */
  method GetRawEvents(calendarUid: string, syncFrom: Option<string>, script: seq<Response<EventItem>>)
    returns (result: Result<seq<EventItem>, Error>, sent: seq<Request>)
    ensures var ep := CalendarEvents(calendarUid); var rest := script[Consumed(script)..];
      if Gone(script) then
        result == Outcome(rest) && sent == Sent(ep, IncrementalParams(syncFrom), script) + Sent(ep, FullParams, rest)
      else
        result == Outcome(script) && sent == Sent(ep, IncrementalParams(syncFrom), script)
    ensures forall q :: q in sent ==>
      q.endpoint == CalendarEvents(calendarUid) && q.params.singleEvents == Some(true) && q.params.showDeleted == Some(true)
  {
    var ep := CalendarEvents(calendarUid);
    var first := IncrementalParams(syncFrom);
    var r1, s1 := GetResourceList(ep, first, script);
    SentParams(ep, first, script);
    if r1 == Err(HttpError(410)) {
      var rest := script[|s1|..];
      var r2, s2 := GetResourceList(ep, FullParams, rest);
      SentParams(ep, FullParams, rest);
      result, sent := r2, s1 + s2;
    } else {
      result, sent := r1, s1;
    }
  }

  /** After a 410, the requests of the full fetch send no `updatedMin`; the incremental ones send the checkpoint. */
  lemma FallbackDropsUpdatedMin(calendarUid: string, syncFrom: Option<string>, script: seq<Response<EventItem>>)
    ensures var ep := CalendarEvents(calendarUid);
      (forall q :: q in Sent(ep, FullParams, script[Consumed(script)..]) ==> q.params.updatedMin.None?) &&
      (forall q :: q in Sent(ep, IncrementalParams(syncFrom), script) ==> q.params.updatedMin == IncrementalParams(syncFrom).updatedMin)
  {
    var ep := CalendarEvents(calendarUid);
    SentParams(ep, FullParams, script[Consumed(script)..]);
    SentParams(ep, IncrementalParams(syncFrom), script);
  }
}
