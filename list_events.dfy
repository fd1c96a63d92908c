/** The list-events tool: the upcoming events of the primary calendar,
    recurring events expanded, in start order. */
module ListEvents {
  import opened Js
  import opened Replies

  datatype ListEventsArgs = ListEventsArgs(count: Option<int>)

  /** A start or end as the calendar view returns it. */
  datatype EventTime = EventTime(dateTime: string, timeZone: string)

  datatype Location = Location(displayName: Option<string>)

  /** The fields of an event the listing shows; a None field renders as
      `undefined`. */
  datatype Event = Event(
    id: Option<string>,
    subject: Option<string>,
    start: EventTime,
    end: EventTime,
    location: Location,
    bodyPreview: Option<string>)

  /** The calendar view request: the endpoint and its query parameters. */
  datatype ViewRequest = ViewRequest(
    verb: Verb,
    endpoint: string,
    startDateTime: string,
    endDateTime: string,
    top: int,
    orderBy: string,
    select: string)

  const CALENDAR_VIEW := "me/calendar/calendarView"
  const DEFAULT_COUNT := 10
  const ORDER_BY_START := "start/dateTime"
  const NO_EVENTS_TEXT := "No calendar events found."
  const LIST_EVENTS_ERROR_PREFIX := "Error listing events: "

  /** `Math.min(count || 10, maxCount)`: the number of events asked for. */
  function Top(count: Option<int>, maxCount: int): (top: int)
    ensures top <= maxCount
    ensures TruthyNumber(count) ==> top == count.value || top == maxCount
    ensures TruthyNumber(count) && count.value <= maxCount ==> top == count.value
    ensures !TruthyNumber(count) ==> top == DEFAULT_COUNT || top == maxCount
    ensures !TruthyNumber(count) && DEFAULT_COUNT <= maxCount ==> top == DEFAULT_COUNT
  {
    var asked := if TruthyNumber(count) then count.value else DEFAULT_COUNT;
    if asked < maxCount then asked else maxCount
  }

  /** With the cap of 50: a missing count and a count of 0 both ask for 10,
      and a count above the cap asks for the cap. */
  lemma TopWithCapOfFifty(count: int)
    ensures Top(None, 50) == 10 && Top(Some(0), 50) == 10
    ensures 0 < count <= 50 ==> Top(Some(count), 50) == count
    ensures count > 50 ==> Top(Some(count), 50) == 50
  {
  }

  /** One event's entry; `localeString(dateTime, zone)` stands for
      `new Date(dateTime).toLocaleString(zone)`, which passes the zone
      string where `toLocaleString` expects a locale. */
  function EventEntry(number: nat, event: Event, localeString: (string, string) -> string): string {
    NatToString(number) + ". " + EventDetails(event, localeString) + IdLine(event.id)
  }

  /** The subject, location, times and preview of an entry. */
  function EventDetails(event: Event, localeString: (string, string) -> string): string {
    Render(event.subject)
      + " - Location: " + OrElse(event.location.displayName, "No location")
      + "\nStart: " + localeString(event.start.dateTime, event.start.timeZone)
      + "\nEnd: " + localeString(event.end.dateTime, event.end.timeZone)
      + "\nSubject: " + Render(event.subject)
      + "\nSummary: " + Render(event.bodyPreview)
  }

  function IdLine(id: Option<string>): string {
    "\nID: " + Render(id) + "\n"
  }

  /** The entries, numbered from 1 in the order the events came. */
  function EventEntries(events: seq<Event>, localeString: (string, string) -> string): seq<string> {
    MapIndexed(events, 0, (index: nat, event: Event) => EventEntry(index + 1, event, localeString))
  }

  function Header(n: nat): string {
    "Found " + NatToString(n) + " events:\n\n"
  }

  /** The text for a non-empty listing. */
  function EventsText(events: seq<Event>, localeString: (string, string) -> string): string {
    Header(|events|) + Join(EventEntries(events, localeString), "\n")
  }

  /** Entry `i` starts with the number `i + 1`, which reads back from it,
      followed by ". ", and ends with the event's ID line. */
  lemma EntriesNumberedFromOne(events: seq<Event>, localeString: (string, string) -> string, i: nat)
    requires i < |events|
    ensures var entries := EventEntries(events, localeString);
      && |entries| == |events|
      && TakeNumber(entries[i]) == (i + 1, ". " + EventDetails(events[i], localeString) + IdLine(events[i].id))
      && EndsWith(entries[i], IdLine(events[i].id))
  {
    var entries := EventEntries(events, localeString);
    assert entries[i] == EventEntry(i + 1, events[i], localeString);
    NumberedEntry(i + 1, EventDetails(events[i], localeString), IdLine(events[i].id));
  }

  /** The header reports as many events as the listing returned. */
  lemma HeaderCounts(events: seq<Event>, localeString: (string, string) -> string)
    ensures var text := EventsText(events, localeString);
      && "Found " <= text
      && TakeNumber(text[6..]) == (|events|, text[6 + |NatToString(|events|)|..])
      && text[6 + |NatToString(|events|)|..][..10] == " events:\n\n"
  {
    var rest := " events:\n\n" + Join(EventEntries(events, localeString), "\n");
    assert EventsText(events, localeString) == "Found " + NatToString(|events|) + rest;
    NumberAfter("Found ", |events|, rest);
  }

  /** `handleListEvents`. `maxCount` and `select` are the configured result
      cap and field list, `window` the ISO start and end of the next thirty
      days, `auth` the outcome of the token request and `response` that of
      the view request (whose `value` array may be missing). */
  function HandleListEvents(args: ListEventsArgs, maxCount: int, select: string, window: (string, string),
                            localeString: (string, string) -> string,
                            auth: Remote<()>, response: Remote<Option<seq<Event>>>): (r: Reply<ViewRequest>)
    ensures auth.Err? ==> r == Reply(ErrorText(auth.message, None, LIST_EVENTS_ERROR_PREFIX), [])
    ensures auth.Ok? ==>
              r.sent == [ViewRequest(Get, CALENDAR_VIEW, window.0, window.1, Top(args.count, maxCount), ORDER_BY_START, select)]
    ensures auth.Ok? && response.Err? ==> r.text == ErrorText(response.message, None, LIST_EVENTS_ERROR_PREFIX)
    ensures auth.Ok? && response.Ok? ==>
              (r.text == NO_EVENTS_TEXT <==> response.value.None? || response.value.value == [])
    ensures auth.Ok? && response.Ok? && response.value.Some? && response.value.value != [] ==>
              r.text == EventsText(response.value.value, localeString)
  {
    if auth.Err? then Reply(ErrorText(auth.message, None, LIST_EVENTS_ERROR_PREFIX), [])
    else
      var request := ViewRequest(Get, CALENDAR_VIEW, window.0, window.1, Top(args.count, maxCount), ORDER_BY_START, select);
      if response.Err? then Reply(ErrorText(response.message, None, LIST_EVENTS_ERROR_PREFIX), [request])
      else if response.value.None? || response.value.value == [] then Reply(NO_EVENTS_TEXT, [request])
      else
        var events := response.value.value;
        assert EventsText(events, localeString)[0] == 'F';
        Reply(EventsText(events, localeString), [request])
  }
}
