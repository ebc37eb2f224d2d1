# Google Calendar sync and outbound message headers, in Dafny

This project models two parts of the Inbox sync engine.

**Google Calendar provider** (`inbox/events/google.py`):
- the paginated, token-refreshing fetch of a resource list (`_get_resource_list`);
- the incremental event fetch, with its fall-back to a full fetch when Google answers HTTP 410 (`_get_raw_events`);
- the split of fetched items into deletions and updates (`get_calendars`, `get_events`);
- the translation from Google resources to local calendars and events (`parse_calendar_response`, `parse_event_response`, `STATUS_MAP`);
- the translation back from a local event to the JSON body that is pushed (`_dump_event`, `_create_attendee`).

**Outbound message composer** (`inbox/sendmail/message.py`):
- the headers `create_email` and `add_inbox_headers` set;
- `_rfc_transform`, which folds the References header of the rendered message.

Files:
- `wrappers.dfy`: `Option` and `Result`.
- `google_data.dfy`: the Google resources as they arrive, the local `Calendar`, `Event` and participant records, and the JSON body that is pushed. Participant and attendee dicts use `Slot` (missing, null or a value), because there the code tests whether a key is present.
- `google_fetch.dfy`: the fetch loop, as a method proved against specification functions over a scripted sequence of HTTP responses.
- `google_sync.dfy`: the classifying loops of `get_calendars` and `get_events`, proved against one generic `Classify` function.
- `google_translate.dfy`: parsing, dumping, and the round trips between them.
- `sendmail_message.dfy`: header composition on a `Message` object whose `headers` map is updated in place, and the folding of the References line.

How the environment is represented:
- **HTTP.** The server is a script. The k-th request consumes the k-th response, and each request is recorded with its endpoint, parameters and token.
- **Tokens.** The token of a request is the number of 401 refreshes that came before it in the same fetch.
- **Exhausted script.** A script that runs out yields `Err(ScriptExhausted)`. This keeps the otherwise unbounded retry loop finite.
- **Times.** A remote `date` is a day number and a `dateTime` is an instant in seconds. Parsing a date gives the day number times 86400. `strftime('%Y-%m-%d')` is the instant divided by 86400.
- **Composer inputs.** The MIME rendering, `full_spec()` formatting, the random public id and the package version are parameters of the composer.

How the code differs from a plain reading of it:
- **`_get_resource_list`, google.py:109-110.** `_get_resource_list` raises only when `raise_for_status` would raise, which is for status 400 to 599. For any other status besides 200 and 401 (a 204 or a 304, say), the code sends the same request again. The model follows the code (`RaisesForStatus`, `ErrorStatusRaises`). It does not follow the reading that any other status ends the fetch.
- **`create_email`, message.py:110-113.** `create_email` builds the Bcc header from `cc_addr`, not `bcc_addr`. A message with Bcc recipients and `cc_addr=None` therefore raises a TypeError. The model keeps this as written (`EmailHeaders`, `EmailHeaderValues`). The list holding these specs is named `full_bcc_specs` and fills the Bcc header, which points to `bcc_addr` as the intended source; the model nevertheless keeps the code as written.

## Model

| member | source | states |
|---|---|---|
| GoogleTranslate.StatusMapInjective | inbox/events/google.py:12-13 | no two Google response statuses map to the same local status, so the map can be inverted |
| GoogleTranslate.InverseStatusMapRoundTrip | inbox/events/google.py:262 | the inverted map is defined exactly on yes/no/maybe/noreply, and each map undoes the other in both directions |
| GoogleTranslate.InverseStatusMap | inbox/events/google.py:262 | the swapped STATUS_MAP (the constant of google.py:12-13); its keys and round trips are stated by InverseStatusMapRoundTrip |
| GoogleTranslate.ParseCalendar | inbox/events/google.py:137-158 | succeeds iff id, summary and accessRole are present, and otherwise names the first missing key; copies uid, name and description; read-only iff the access role is "reader" |
| GoogleTranslate.ParticipantOf | inbox/events/google.py:209-216 | an attendee converts iff its responseStatus is a key of STATUS_MAP; otherwise the error names the offending status (the KeyError); the participant's status is the mapped one, email, name and notes are copied, and it has no guests key |
| GoogleTranslate.ParticipantsOneEach | inbox/events/google.py:207-216 | the attendee list converts iff every attendee does; the participants are then the attendees' conversions, one each, in order |
| GoogleTranslate.ParticipantsPrefixErr | inbox/events/google.py:209-210 | once a prefix of the attendees fails, the whole list fails with the same error (the loop stops at the first bad status) |
| GoogleTranslate.ParticipantsOf | inbox/events/google.py:207-216 | the participants loop as a function; its contract is ParticipantsOneEach and ParticipantsPrefixErr |
| GoogleTranslate.ParseEventResponse | inbox/events/google.py:161-231 | the loop over attendees computes exactly the specification ParseEvent |
| GoogleTranslate.ParseEventErrors | inbox/events/google.py:175-189 | parsing succeeds iff id, start and end exist, the timing keys the all-day test selects are present, and every attendee has a known status; missing id, start and end give those KeyErrors in that order |
| GoogleTranslate.UnknownStatusFails | inbox/events/google.py:210 | one attendee with an unknown or absent responseStatus makes the whole event fail |
| GoogleTranslate.ParseEventFields | inbox/events/google.py:175-231 | uid, raw data, title default "", description, location, source "local"; all-day iff both ends carry a date; all-day end is one day before the exclusive end date; timed bounds are the dateTimes; busy iff transparency is not "transparent"; read-only iff neither self-created nor guestsCanModify; owner "displayName <email>" (each defaulting to "") for a non-empty creator and "" otherwise; one participant per attendee |
| GoogleTranslate.ParseEvent | inbox/events/google.py:175-231 | `parse_event_response` as a function; what it returns is stated by ParseEventErrors and ParseEventFields, and ParseEventResponse is its loop form |
| GoogleTranslate.Timing | inbox/events/google.py:181-189 | start and end instants; stated by ParseEventErrors (which keys are needed) and ParseEventFields (the values) |
| GoogleTranslate.AllDay | inbox/events/google.py:183 | all-day iff both start and end carry a date; stated by ParseEventFields |
| GoogleTranslate.Busy | inbox/events/google.py:193 | busy unless transparency is "transparent"; stated by ParseEventFields |
| GoogleTranslate.CreatorTruthy | inbox/events/google.py:196-198 | an absent creator and an empty creator dict are false; used by ParseEventFields |
| GoogleTranslate.Owner | inbox/events/google.py:198-202 | the owner string; stated by ParseEventFields |
| GoogleTranslate.ReadOnly | inbox/events/google.py:204-205 | read-only unless self-created or guestsCanModify; stated by ParseEventFields |
| GoogleTranslate.CreateAttendee | inbox/events/google.py:261-277 | fails iff the status is null or not a local status; each attendee key (displayName, responseStatus, email, additionalGuests) is present iff the participant key it comes from is, with its value copied, and the responseStatus is the status inverted through the status map |
| GoogleTranslate.WithAttendeeKey | inbox/events/google.py:255-256 | keeps a participant iff it gives a non-empty attendee dict (both directions), in order |
| GoogleTranslate.AttendeesOneEach | inbox/events/google.py:252-254 | the attendee list converts iff every participant does, one attendee per participant in order |
| GoogleTranslate.DropEmptyKeeps | inbox/events/google.py:255-256 | dropping empty dicts leaves exactly the attendees of the participants that have a name, status, email or guests key, in order |
| GoogleTranslate.DumpEventShape | inbox/events/google.py:234-258 | summary, description, location copied; transparency "opaque" iff busy; all-day start is the date and there is no end; timed start and end are UTC dateTimes; attendees present iff there are participants, and none of them is empty |
| GoogleTranslate.AttendeesOf | inbox/events/google.py:253-254 | the attendee comprehension; its contract is AttendeesOneEach |
| GoogleTranslate.DropEmpty | inbox/events/google.py:255-256 | the `if attendee` filter; its contract is DropEmptyKeeps |
| GoogleTranslate.DumpTimes | inbox/events/google.py:244-250 | the start and end objects; stated by DumpEventShape |
| GoogleTranslate.DumpWith | inbox/events/google.py:236-258 | the body for given start and end objects; stated by DumpEventShape, EchoParticipants and the round-trip lemmas |
| GoogleTranslate.DumpEvent | inbox/events/google.py:234-258 | `_dump_event` as written; its contract is DumpEventShape, TimedDumpRoundTrip and AllDayDumpLacksEnd |
| GoogleTranslate.Received | inbox/events/google.py:207-216 | the attendee resource the server returns for a pushed attendee dict (a stand-in for the Calendar API); used by ParticipantsRoundTrip |
| GoogleTranslate.ReceivedTime | inbox/events/google.py:181-189 | the time resource the server returns for a pushed start or end (a stand-in); used by the round-trip lemmas |
| GoogleTranslate.Echo | inbox/events/google.py:234-258 | the event resource the server stores for a pushed body, with the server's id and representation (a stand-in); used by the round-trip lemmas |
| GoogleTranslate.ParticipantsRoundTrip | inbox/events/google.py:207-216 | participants with valid statuses survive being pushed as attendees and read back: same count, status, email and name |
| GoogleTranslate.TimedDumpRoundTrip | inbox/events/google.py:244-250 | a timed event pushed with `_dump_event` and read back has the same title, description, location, busy flag, start, end and participants |
| GoogleTranslate.AllDayDumpLacksEnd | inbox/events/google.py:244-245 | an all-day event pushed with `_dump_event` has no end, and the stored resource fails to parse with KeyError 'end' |
| GoogleTranslate.AllDayDumpWithEndRoundTrip | inbox/events/google.py:183-186 | with the corrected end date (the day after the inclusive end), a midnight-aligned all-day event reads back with the same start, end, busy flag, title and participant count |
| GoogleTranslate.DumpEventWithEnd | inbox/events/google.py:244-250 | `_dump_event` with the all-day end added; its contract is AllDayDumpWithEndRoundTrip |
| GoogleTranslate.ParsedAllDayAligned | inbox/events/google.py:184-186 | every parsed all-day event has midnight start and end, so the corrected round trip applies to it |
| GoogleFetch.StopIndex | inbox/events/google.py:95-110 | the index of the first response that ends the loop (a 200 without `nextPageToken` or without an `items` key, or a 400..599 status other than 401; an empty `items` list with a `nextPageToken` does not end it), or none if no response does |
| GoogleFetch.RaisesForStatus | inbox/events/google.py:110 | `raise_for_status` raises for 400..599 only; used by ErrorStatusRaises |
| GoogleFetch.Stops | inbox/events/google.py:99-110 | whether one response ends the loop; used by StopIndex |
| GoogleFetch.Pages | inbox/events/google.py:101 | the items gathered so far; stated by PagesOfFullPages, RetryKeepsState and PageAdvancesCursor |
| GoogleFetch.Cursor | inbox/events/google.py:96-97 | the page token the next request carries; stated by PageAdvancesCursor |
| GoogleFetch.Refreshes | inbox/events/google.py:105-108 | the number of token refreshes so far; stated by RetryKeepsState |
| GoogleFetch.Conclude | inbox/events/google.py:99-110 | the result of the response that ends the loop; stated by LinkedPagesConcatenate and ErrorStatusRaises |
| GoogleFetch.Outcome | inbox/events/google.py:90-110 | the result of the whole fetch; GetResourceList is proved equal to it, and LinkedPagesConcatenate and ErrorStatusRaises state its cases |
| GoogleFetch.RequestAt | inbox/events/google.py:94-98 | every request goes to the given endpoint with showDeleted set and the caller's other parameters unchanged |
| GoogleFetch.Sent | inbox/events/google.py:98 | one request per consumed response |
| GoogleFetch.GetResourceList | inbox/events/google.py:90-110 | the loop's result and the requests it sends are exactly the specification Outcome and Sent of the scripted responses |
| GoogleFetch.RetryKeepsState | inbox/events/google.py:105-108 | a 401 keeps the collected items and the parameters and moves to a fresh token |
| GoogleFetch.PageAdvancesCursor | inbox/events/google.py:96-104 | a 200 page with a next-page token appends its items and sends that token next, with the same access token |
| GoogleFetch.LinkedPagesConcatenate | inbox/events/google.py:95-104 | a chain of 200 pages linked by next-page tokens yields the concatenation of their items |
| GoogleFetch.PagesOfFullPages | inbox/events/google.py:101 | the collected items are the pages' items concatenated in order |
| GoogleFetch.SentParams | inbox/events/google.py:94-98 | every request sent carries the endpoint, showDeleted, singleEvents and updatedMin of the call |
| GoogleFetch.ErrorStatusRaises | inbox/events/google.py:109-110 | a non-200 response that ends the loop is an HTTP error with its own status, and only 400..599 other than 401 do that |
| GoogleFetch.IncrementalParams | inbox/events/google.py:67-75 | singleEvents is set, and updatedMin is the sync time with "Z" appended, or absent without one |
| GoogleFetch.GetRawEvents | inbox/events/google.py:66-83 | on HTTP 410 the fetch is repeated without updatedMin on the remaining responses, and any other outcome is returned as is; every request goes to the calendar's events with singleEvents and showDeleted set |
| GoogleFetch.FallbackDropsUpdatedMin | inbox/events/google.py:74-81 | the fall-back fetch sends no updatedMin, while the first fetch sends the caller's |
| GoogleSync.Select | inbox/events/google.py:30-34 | an item is selected iff it is on the chosen side of the test (both directions), in order |
| GoogleSync.SelectSplits | inbox/events/google.py:30-34 | every item goes to exactly one side |
| GoogleSync.Classify | inbox/events/google.py:30-34 | the classifying loop as a function; its contract is ClassifyOk, ClassifyPrefixErr and ClassifyPartition |
| GoogleSync.Step | inbox/events/google.py:31-34 | one iteration of that loop; used by ClassifyNext and the loops of GetCalendars and GetEvents |
| GoogleSync.ClassifyNext | inbox/events/google.py:30-34 | classifying one more item is one Step on the result so far |
| GoogleSync.ClassifyPrefixErr | inbox/events/google.py:30-34 | the first failing item decides the error of the whole list |
| GoogleSync.ClassifyOk | inbox/events/google.py:30-34 | classification succeeds iff each deleted item has an id and each other item parses |
| GoogleSync.ClassifyPartition | inbox/events/google.py:30-34 | deletions are the ids of the deleted items and updates the parses of the others, each in order, and together they account for every item |
| GoogleSync.GetCalendars | inbox/events/google.py:26-36 | requests the calendar list without extra parameters; a fetch error is passed on, otherwise the loop's result is the classification of the fetched items |
| GoogleSync.CalendarPartition | inbox/events/google.py:26-36 | calendars flagged deleted give their ids, the others their parsed calendars with matching uid and read-only flag |
| GoogleSync.CalendarDeleted | inbox/events/google.py:31 | `item.get('deleted')` is truthy only for true; used by CalendarPartition |
| GoogleSync.GetEvents | inbox/events/google.py:53-61 | the loop's result is the classification of the fetched events (after the 410 fall-back), or the fetch error; each request has the events endpoint, singleEvents and showDeleted |
| GoogleSync.EventPartition | inbox/events/google.py:53-61 | cancelled events give their ids, the others their parsed events, each in order |
| GoogleSync.EventCancelled | inbox/events/google.py:57 | status is exactly "cancelled"; used by EventPartition |
| SendmailMessage.Find | inbox/sendmail/message.py:160-165 | `str.find`: the first occurrence at or after the start position, or -1 if there is none |
| SendmailMessage.ReplaceTabs | inbox/sendmail/message.py:169-170 | each tab gains a preceding newline: the length grows by the number of tabs, every tab follows a newline, and text without tabs is unchanged |
| SendmailMessage.UnfoldReplaceTabs | inbox/sendmail/message.py:169-170 | folding is lossless: unfolding the folded text gives the original |
| SendmailMessage.RfcTransformNoReferences | inbox/sendmail/message.py:160-163 | a message without "References: " is returned unchanged |
| SendmailMessage.RfcTransform | inbox/sendmail/message.py:150-173 | `_rfc_transform` on the rendered text; its contract is RfcTransformNoReferences, RfcTransformSpan and RfcTransformFolds |
| SendmailMessage.RfcTransformSpan | inbox/sendmail/message.py:160-171 | the folded span runs from the first "References: " to the next CRLF, or to one character before the end when there is none |
| SendmailMessage.RfcTransformFolds | inbox/sendmail/message.py:150-173 | text before and after the span is unchanged, the span is folded, the length grows by its tab count, and unfolding gives the original span back |
| SendmailMessage.ReferencesSplitBack | inbox/sendmail/message.py:119-120 | the tab-joined References value splits back into the message ids, when none contains a tab |
| SendmailMessage.Join | inbox/sendmail/message.py:105 | `sep.join(parts)`; ReferencesSplitBack states that the tab join can be split back |
| SendmailMessage.InboxId | inbox/sendmail/message.py:143-144 | X-INBOX-ID is the given inbox uid when it is non-empty, otherwise the generated public id |
| SendmailMessage.AddInboxHeaders | inbox/sendmail/message.py:127-147 | sets X-INBOX-ID and User-Agent "Inbox/" + version on the message and leaves every other header as it was |
| SendmailMessage.EmailHeaderNames | inbox/sendmail/message.py:90-120 | composing fails iff there are Bcc recipients and cc is None; otherwise the header names are Subject, From, X-INBOX-ID and User-Agent plus To, Cc, Bcc, In-Reply-To and References exactly when their argument is non-empty |
| SendmailMessage.HeaderNames | inbox/sendmail/message.py:90-120 | the header names composing sets; stated as the key set by EmailHeaderNames |
| SendmailMessage.EmailHeaders | inbox/sendmail/message.py:90-120 | the headers `create_email` sets, or its TypeError; stated by EmailHeaderNames and EmailHeaderValues, and CreateEmail is proved equal to it |
| SendmailMessage.EmailHeaderValues | inbox/sendmail/message.py:90-120 | Subject defaults to ""; From is the sender's full spec; To and Cc are the comma-joined specs; Bcc the comma-joined Cc specs; In-Reply-To copied; References tab-joined |
| SendmailMessage.CreateEmail | inbox/sendmail/message.py:90-124 | updating the message header by header yields exactly the EmailHeaders specification, or its error, and the text is the folded rendering of those headers |

## Left out

- OAuth, the token manager and the database session (`_get_access_token`, `OAuth`): outside the model; a token is identified by how many refreshes preceded it.
- `_make_event_request`, `create_remote_event`, `update_remote_event`, `delete_remote_event`: thin wrappers that send `_dump_event`'s body over HTTP; only the body is modelled.
- `requests`, the URLs, `urllib.quote` of the calendar id: a request is its endpoint datatype and parameters; a body that is not JSON (`r.json()` failing) is not modelled.
- JSON `null` values inside Google resources: a key is either absent or has a value; nulls are modelled only in participant and attendee dicts, where the code tests for key presence.
- `str(event)` (the raw data) and `parse_datetime`, `isoformat`, `strftime`: the raw representation is an input, dates are day numbers and instants are seconds, and time zones are not modelled.
- GoogleFetch.GetResourceList: a server that keeps answering 401 (or 204) forever is cut short by the end of the script, which yields `ScriptExhausted`, whereas the code would loop forever.
- The Google Calendar API itself: the server echo of a pushed body (`Echo`) assumes Google stores the fields as sent.
- MIME tree construction, HTML to text conversion and attachments in `create_email` (message.py:29-88), and `msg.to_string()`: the library's rendering is a parameter.
- Header order and case-insensitive header names of the MIME library: headers are a map keyed by an enumeration.
- `generate_public_id()` and the package VERSION: parameters of the composer.
- The migration `145_drop_event_constraint.py` is not part of this model (schema change only).

## Findings

| source | as written | input that shows it | evidently intended | confidence | as-written member | corrected member |
|---|---|---|---|---|---|---|
| inbox/events/google.py:244-250 | for an all-day event `_dump_event` emits only `start`, so the pushed resource has no `end`; reading the event back (`parse_event_response`, line 182) raises KeyError 'end' | any local event with `all_day` true, e.g. start = end = day 0 | emit `end` as the exclusive end date, one day after the inclusive end that parsing produced (lines 185-186) | not executed | GoogleTranslate.AllDayDumpLacksEnd | GoogleTranslate.AllDayDumpWithEndRoundTrip |
