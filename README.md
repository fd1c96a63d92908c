# outlook-mcp tool handlers, modelled in Dafny

This project models how the calendar and draft tools of the Outlook MCP server shape and check their requests. It covers six handlers: create-event, respond-to-event, save-draft, send-draft, list-events and list-calendars. The model covers:

- the argument guards, in the order the handlers check them;
- the recurrence validator, where the first failing rule wins;
- calendar references resolved through a process-wide name cache;
- the requests each handler sends to Microsoft Graph, in order;
- the reply texts, including the classification of thrown errors.

Each handler takes the outcome of every awaited remote call as a parameter. That outcome is a value or the message of the thrown error. The handler replies with the text and the list of requests it issued, so "which call happens, with what, in which order" is a proved property.

Modules:

- `Js` (`js.dfy`): optional values, truthiness and the string built-ins the handlers use. These are `toLowerCase`, `trim`, `split`, `join`, `includes`, rendering a number, and `map` with an index. The module also defines `EndsWith` and a reader for decimal numbers, which only the lemmas use.
- `Replies` (`replies.dfy`): the reply shape, and the catch block the handlers share.
- `CalendarUtils` (`calendar_utils.dfy`): calendar references and the name cache, as a class with a `cache` map. Its two methods are proved equal to pure functions of the old cache.
- `CalendarCreate`, `Respond`, `SaveDraft`, `SendDraft`, `ListEvents`, `ListCalendars`: one module per handler.

## Model

| member | source | states |
|---|---|---|
| `Js.ToLower` | calendar/calendar-utils.js:64-66 | lower-cases every character in place; the length is kept |
| `Js.ToLowerIdempotent` | calendar/respond.js:48-49 | lower-casing twice is lower-casing once |
| `Js.Trim` | email/save-draft.js:16 | the result is the input with only white space removed before it and after it, and its own ends are not white space |
| `Js.TrimOfUnpadded` | email/save-draft.js:16 | trimming a string without surrounding white space changes nothing |
| `Js.Split` | email/save-draft.js:14 | at least one piece, and no piece holds the separator |
| `Js.JoinSplit` | email/save-draft.js:14 | joining the pieces with the separator gives back the input |
| `Js.SplitCount` | email/save-draft.js:14 | there is one more piece than separators |
| `Js.Join` | email/send-draft.js:38-43 | `join`: the pieces with the separator between each two; its properties are in `JoinSplit` and `JoinLast` |
| `Js.JoinLast` | email/send-draft.js:38-43 | the last of two or more joined pieces ends the text, right after a separator |
| `Js.ContainsInfix` | calendar/respond.js:99 | a string contains every infix of itself |
| `Js.Contains` | calendar/respond.js:99 | `includes`: the text has the other as a prefix of itself or of one of its tails; its property is in `ContainsInfix` |
| `Js.NatToString` | email/save-draft.js:95-97 | the decimal text of a count is non-empty and all digits |
| `Js.ParseNatToString` | email/save-draft.js:95-97 | the decimal text reads back as the number |
| `Js.NatToStringInjective` | email/save-draft.js:95-97 | different counts render differently |
| `Js.DigitRun` | email/send-draft.js:42 | the length of the leading digit run: digits before it, a non-digit after it |
| `Js.TakeNumberOf` | email/send-draft.js:42 | a number written before a non-digit reads back with the rest of the text |
| `Js.NumberAfter` | calendar/list.js:60 | the same, for a number written after some leading text |
| `Js.NumberedEntry` | calendar/list.js:54 | a numbered entry "n. …" reads its number back and ends with its tail |
| `Js.MapIndexed` | calendar/list.js:49-55 | `map` with an index: one result per element, each made from its element and its position |
| `Js.OrElse` | email/send-draft.js:41 | the string when non-empty, otherwise the fallback |
| `Replies.ErrorText` | calendar/respond.js:88-113 | the auth message gets the auth text; a handler with a not-found text gives it for any message containing "404"; every other message follows the handler's prefix |
| `Replies.ErrorTextKeepsMessage` | calendar/create.js:142-147 | without a not-found text, the message can be recovered from the reply |
| `Replies.NotFoundWherever` | calendar/respond.js:99-106 | "404" anywhere in the message selects the not-found text |
| `CalendarUtils.FindByName` | calendar/calendar-utils.js:64-67 | `find`: the first entry whose name equals the given name case-insensitively, or none when no entry matches |
| `CalendarUtils.IdByName` | calendar/calendar-utils.js:46-86 | the listing is fetched exactly when the name is not cached as typed; a returned id is the one cached under the name; only that name is ever added |
| `CalendarUtils.ResolvePath` | calendar/calendar-utils.js:18-38 | the path is the primary calendar or starts with `me/calendars/`; the listing is fetched exactly for a non-empty reference of at most 50 characters that is not cached |
| `CalendarUtils.CacheHit` | calendar/calendar-utils.js:48-51 | a name cached exactly as typed is answered from the cache; nothing is fetched and the cache does not change |
| `CalendarUtils.CacheMiss` | calendar/calendar-utils.js:53-85 | on a miss the listing is fetched; the first match is returned and cached under the name as typed; no match, a failed fetch, or a listing without a `value` array returns null and leaves the cache as it was |
| `CalendarUtils.LookupKeepsCacheConsistent` | calendar/calendar-utils.js:72-75 | the cache only gains the looked-up name, keeps every other entry, and stays consistent with the listings it came from |
| `CalendarUtils.ResolveShape` | calendar/calendar-utils.js:18-27 | the path is the primary calendar or a calendar by id; without a reference, or with one over 50 characters, nothing is fetched |
| `CalendarUtils.ResolveByName` | calendar/calendar-utils.js:29-37 | a reference of at most 50 characters goes through the name lookup; when that finds nothing the path falls back to the primary calendar |
| `CalendarUtils.SecondResolutionUsesCache` | calendar/calendar-utils.js:46-76 | after a successful lookup, resolving the same name again fetches nothing and yields the same path, whatever the listing would return |
| `CalendarUtils.AllCalendars` | calendar/calendar-utils.js:93-115 | the listing's calendars; none when the call failed or returned no `value` |
| `CalendarUtils.CalendarResolver.constructor` | calendar/calendar-utils.js:10 | the cache starts empty |
| `CalendarUtils.CalendarResolver.GetCalendarIdByName` | calendar/calendar-utils.js:46-86 | the id returned, the new cache and whether the listing was fetched equal the lookup function applied to the old cache |
| `CalendarUtils.CalendarResolver.ResolveCalendarPath` | calendar/calendar-utils.js:18-38 | the path, the new cache and whether the listing was fetched equal the resolution function applied to the old cache |
| `CalendarCreate.ValidateRecurrence` | calendar/create.js:14-68 | no recurrence is valid; a recurrence is valid exactly when it is well-formed field by field |
| `CalendarCreate.ValidatePattern` | calendar/create.js:19-48 | the pattern checks find nothing exactly when the pattern is well-formed field by field |
| `CalendarCreate.ValidateRange` | calendar/create.js:50-65 | the range checks find nothing exactly when the range is well-formed field by field |
| `CalendarCreate.FirstFailing` | calendar/create.js:14-68 | the position of the first rule in the table that fails: every earlier rule holds, and the rule at that position fails |
| `CalendarCreate.FirstFailureWins` | calendar/create.js:14-68 | the validator reports the message of the first failing rule in table order, and nothing when every rule holds |
| `CalendarCreate.PatternFailure` | calendar/create.js:19-48 | when the first failing rule is a pattern rule, its message is the one reported |
| `CalendarCreate.PatternRulesPass` | calendar/create.js:19-48 | a pattern that meets every pattern rule passes the pattern checks |
| `CalendarCreate.RangeFailure` | calendar/create.js:50-68 | when every pattern rule holds, the first failing range rule's message is reported, or nothing when all hold |
| `CalendarCreate.MessagesDistinct` | calendar/create.js:20-64 | the eleven messages are pairwise different |
| `CalendarCreate.IntervalRules` | calendar/create.js:20-26 | an interval of 0 counts as missing; a negative interval fails the "at least 1" rule |
| `CalendarCreate.OccurrenceRules` | calendar/create.js:58-65 | a numbered range with 0 occurrences passes the presence rule and fails "at least 1"; a missing count fails the presence rule |
| `CalendarCreate.CreatePrecheck` | calendar/create.js:78-98 | a missing subject, start or end gives the required-fields text; otherwise an invalid recurrence gives its message after the prefix; otherwise there is no early reply |
| `CalendarCreate.SlotFor` | calendar/create.js:111-112 | start and end take the given `dateTime` when non-empty (else the argument itself) and the given `timeZone` when non-empty (else the default) |
| `CalendarCreate.BuildEventBody` | calendar/create.js:109-120 | the body has the subject, both slots, one required attendee per address in order, the HTML body ("" when absent), and the recurrence exactly when one was given |
| `CalendarCreate.CreatedText` | calendar/create.js:125-129 | the reply names the subject after "Recurring event" or "Event" |
| `CalendarCreate.CreatedTextWording` | calendar/create.js:125-129 | the reply starts with "Recurring event" exactly for a recurring event |
| `CalendarCreate.HandleCreateEvent` | calendar/create.js:75-149 | early replies send nothing and leave the cache alone; otherwise the `id,name` listing request goes first exactly when the name lookup fetched it, then one POST goes to the resolved calendar's events with the shaped body; the cache becomes the resolution's cache, and the text is the success text or the classified error |
| `Respond.ParseResponse` | calendar/respond.js:9-13 | exactly the three keys accept, decline and tentative are known |
| `Respond.EndpointName` | calendar/respond.js:9-13 | the endpoint of each response kind: accept, decline, tentativelyAccept |
| `Respond.Label` | calendar/respond.js:15-19 | the past-tense label of each response kind |
| `Respond.ResponseTablesDistinct` | calendar/respond.js:9-19 | different response kinds have different endpoints and different labels |
| `Respond.RespondPrecheck` | calendar/respond.js:30-56 | a missing event id is reported first, then a missing response, then a response that is none of the three keys once lower-cased |
| `Respond.CaseInsensitiveResponse` | calendar/respond.js:48-49 | lookup is by the lower-cased spelling, and lower-casing it again changes nothing |
| `Respond.UpperCaseAccept` | calendar/respond.js:48-49 | "ACCEPT" is read as accept |
| `Respond.MixedCaseTentative` | calendar/respond.js:48-49 | "Tentative" is read as tentative |
| `Respond.BuildResponseBody` | calendar/respond.js:66-73 | the body always carries `sendResponse`, and carries the comment exactly when it is non-empty |
| `Respond.NotifiedNote` | calendar/respond.js:80-85 | the reply ends with the not-notified note exactly when no response is sent |
| `Respond.RespondedText` | calendar/respond.js:78-85 | the headline naming the response label, then the comment note, then the not-notified note; its properties are in `CommentLine`, `NotesStartWithComment` and `NotifiedNote` |
| `Respond.CommentLine` | calendar/respond.js:79-85 | a comment line follows the first sentence exactly when a non-empty comment was given |
| `Respond.NotesStartWithComment` | calendar/respond.js:79-85 | the notes after the headline begin with the comment line exactly when a non-empty comment was given |
| `Respond.HandleRespondToEvent` | calendar/respond.js:26-115 | early replies send nothing; otherwise one POST goes to the event's accept, decline or tentativelyAccept endpoint with the body, and the text is the success text or the classified error |
| `SaveDraft.ParseRecipients` | email/save-draft.js:12-19 | no recipients for a missing or empty argument; otherwise one trimmed address per comma-separated piece |
| `SaveDraft.RecipientsFromPieces` | email/save-draft.js:12-19 | there is one recipient more than commas, and no address holds a comma or starts or ends with white space |
| `SaveDraft.BuildMessageObject` | email/save-draft.js:44-75 | the object meets `MessageFor`: subject and body only when given; recipient arrays only when non-empty; defaults "text" and "normal" |
| `SaveDraft.KeepTruthy` | email/save-draft.js:90-100 | `filter(Boolean)`: no empty line is kept, and a line is kept exactly when it is non-empty and present; order and count are in `KeepTruthyAppend` and `KeepTruthyOne` |
| `SaveDraft.KeepTruthyAppend` | email/save-draft.js:100 | filtering a concatenation filters each part, so the kept lines keep their order |
| `SaveDraft.KeepTruthyOne` | email/save-draft.js:100 | one line is kept, once, exactly when it is neither null nor empty |
| `SaveDraft.DraftLines` | email/save-draft.js:90-99 | the nine candidate lines in order, with null for a missing subject and for a zero count |
| `SaveDraft.UpdateWithoutFields` | email/save-draft.js:31 | an update names no field when every field, the two defaulted ones included, is missing or empty |
| `SaveDraft.OnlyLineStartingWith` | email/save-draft.js:90-100 | a line whose first character no other line shares is shown exactly when its own entry holds it |
| `SaveDraft.CountLineFor` | email/save-draft.js:95-97 | a count line shows a given count exactly when that is the count and it is not 0 |
| `SaveDraft.OthersDoNotStartWith` | email/save-draft.js:90-100 | the To, CC and BCC lines each start with a character no other line starts with |
| `SaveDraft.CountLineShown` | email/save-draft.js:95-97 | the reply shows "To/CC/BCC: n recipient(s)" exactly when there are n > 0 recipients of that kind |
| `SaveDraft.HandleSaveDraft` | email/save-draft.js:26-126 | an update naming no field sends nothing; otherwise one PATCH of the draft (update) or POST to `me/messages` (create), carrying a message that meets `MessageFor`; the reply lists the kept lines, or gives the classified error |
| `SendDraft.CountOf` | email/send-draft.js:34-36 | a missing recipient array counts as 0 |
| `SendDraft.RecipientsLine` | email/send-draft.js:42 | the To count, then " + n CC" and " + n BCC" only for counts above 0; its round trip is `RecipientsLineReadsBack` |
| `SendDraft.SentText` | email/send-draft.js:38-43 | the four confirmation lines joined by newlines; its property is in `SentTextReportsCounts` |
| `SendDraft.SentTextReportsCounts` | email/send-draft.js:34-43 | the confirmation ends with the recipients line, from which the draft's three counts read back |
| `SendDraft.RecipientsLineReadsBack` | email/send-draft.js:42 | the To, CC and BCC counts can all be read back from the recipients line |
| `SendDraft.ToCountOnly` | email/send-draft.js:42 | without CC or BCC recipients the line shows only the To count |
| `SendDraft.EmptyDraftText` | email/send-draft.js:38-43 | a draft with no subject and no recipient arrays reports "(no subject)" and 0 recipients |
| `SendDraft.HandleSendDraft` | email/send-draft.js:12-78 | a missing id sends nothing; otherwise the GET of the draft comes first, the POST of `/send` with `{}` only after a successful GET; the text is the confirmation or the classified error of the first failing call |
| `SendDraft.FetchBeforeSend` | email/send-draft.js:28-32 | every send is preceded by the fetch of the draft, which succeeded |
| `ListEvents.Top` | calendar/list.js:14 | never above the cap; the count when it is non-zero and within the cap; 10 for a missing or 0 count |
| `ListEvents.TopWithCapOfFifty` | calendar/list.js:14 | with a cap of 50: a missing count and a count of 0 ask for 10; a count above 50 asks for 50 |
| `ListEvents.EventEntry` | calendar/list.js:49-54 | one event's entry: its number, subject, location, times, preview and ID; its property is in `EntriesNumberedFromOne` |
| `ListEvents.EventsText` | calendar/list.js:55-60 | the header, then the entries joined by newlines; its properties are in `HeaderCounts` and `EntriesNumberedFromOne` |
| `ListEvents.EventEntries` | calendar/list.js:49-55 | the index `map`: entry i is the event entry numbered i + 1; its properties are in `EntriesNumberedFromOne` |
| `ListEvents.EntriesNumberedFromOne` | calendar/list.js:49-55 | one entry per event; entry i starts with the number i + 1, which can be read back, and ends with the event's ID line |
| `ListEvents.HeaderCounts` | calendar/list.js:60 | the header's number, read back, is the number of events |
| `ListEvents.HandleListEvents` | calendar/list.js:13-80 | one GET of the calendar view with the clamped top, start order and the configured fields; "No calendar events found." exactly for a missing or empty `value`; otherwise the header and entries; errors classified without a not-found text |
| `ListCalendars.CollectPermissions` | calendar/list-calendars.js:34-37 | the pushes build exactly the permission list |
| `ListCalendars.Permissions` | calendar/list-calendars.js:34-37 | the granted labels; its properties are in `PermissionsInOrder` |
| `ListCalendars.PermissionsInOrder` | calendar/list-calendars.js:34-38 | a label is listed exactly when its flag is set, only the three labels occur, and they keep the order edit, share, view-private |
| `ListCalendars.PermissionsSuffix` | calendar/list-calendars.js:38 | the permissions suffix is left out exactly when no flag is set |
| `ListCalendars.TagsInOrder` | calendar/list-calendars.js:32-38 | " [DEFAULT]" comes first exactly for the default calendar, then the owner suffix exactly when there is an owner, then the permissions |
| `ListCalendars.SuffixesAfterDefault` | calendar/list-calendars.js:32-38 | what follows the default tag starts with the owner suffix exactly when there is an owner, and never with " [" |
| `ListCalendars.Tags` | calendar/list-calendars.js:32-40 | the default tag, the owner suffix and the permissions suffix; their order is in `TagsInOrder` |
| `ListCalendars.CalendarEntryText` | calendar/list-calendars.js:40 | one calendar's entry: its number, name, tags and ID line; its properties are in `EntriesNumberedFromOne` |
| `ListCalendars.CalendarEntries` | calendar/list-calendars.js:31-41 | the index `map`: entry i is the calendar entry numbered i + 1; its properties are in `EntriesNumberedFromOne` |
| `ListCalendars.CalendarsText` | calendar/list-calendars.js:31-46 | the header, then the entries joined by newlines; its properties are in `HeaderCounts` and `EntriesNumberedFromOne` |
| `ListCalendars.EntriesNumberedFromOne` | calendar/list-calendars.js:31-41 | one entry per calendar; entry i starts with the number i + 1, which can be read back, and ends with its ID line |
| `ListCalendars.HeaderCounts` | calendar/list-calendars.js:46 | the header's number, read back, is the number of calendars |
| `ListCalendars.HandleListCalendars` | calendar/list-calendars.js:13-64 | one listing request; "No calendars found." exactly when the listing gives no calendars; otherwise the header and entries; auth errors classified |
| `ListCalendars.ListingFailureLooksEmpty` | calendar/calendar-utils.js:111-114 | a failed listing request reads as an empty listing, not as an error |

## Left out

- Authentication and `callGraphAPI` are not modelled. The handlers take each call's outcome as a parameter: the payload, or the thrown message. The token value, HTTP, retries and paging are not part of this model.
- Time is not modelled. The dates of the list-events window (`new Date()`, `Date.now`, `toISOString`) are a parameter. `toLocaleString` is a function parameter.
- The configuration constants `DEFAULT_TIMEZONE`, `MAX_RESULT_COUNT` and `CALENDAR_SELECT_FIELDS` are parameters.
- `console.error` logging is not modelled.
- Concurrency is not modelled. Two awaited handlers sharing `calendarCache` could interleave. The model runs one handler to completion at a time.
- Js.ToLower: lower-cases ASCII letters only, not the full Unicode case mapping of `toLowerCase`.
- Respond.ParseResponse: the model knows only the three keys. The JavaScript object lookup would also accept inherited property names such as "constructor".
- CalendarUtils.IdByName: a cache key that is an inherited property name (such as "constructor") is not modelled. In the source such a name is always a cache hit.
- Values of the wrong JavaScript type are outside the model. Examples are a count that is a string, or an interval that is not a number. Telling `null` from `undefined` is also outside the model. Every missing argument is `undefined`, so the defaulted parameters (`sendResponse`, `contentType`, `importance`) always apply to it.
- Pattern and range types outside the schema's lists are kept by name, as a non-empty name that is none of the listed ones. Days of the week and the week index are limited to the schema's values.
- TypeErrors from malformed payloads are not modelled. An event without `location` makes list-events throw, and its catch block replies "Error listing events: <message>". In the name lookup, a listed calendar without `name` throws inside `find`; that function's own catch swallows it, so resolution falls back to `me/calendar`.
- ListCalendars.CalendarEntryText: a calendar's `name` and `id` are always strings here. In the source a listed calendar without them shows "undefined" in its entry.
- calendar/list.js: the code lists the primary calendar's view and never resolves a calendar. The model follows the code. A test in the repository expects `resolveCalendarPath` to be called.
- CalendarCreate.ShapedFrom: a start or end object without `dateTime` is carried as the whole argument (`WholeArgument`). Its JSON serialisation is not modelled.
- CalendarUtils.ResolvePath: a reference's length is counted in Unicode scalar values, not in the UTF-16 code units of JavaScript's `length`. A reference of at most 50 scalar values but over 50 code units (26 emoji, say) is taken as an opaque id by the source and looked up by name in the model.
- CalendarCreate.ValidateRecurrence: numbers are integers. A fractional or NaN `interval`, `dayOfMonth`, `month` or `numberOfOccurrences` cannot be written. The source rejects an `interval` or `numberOfOccurrences` of 0.5 as below 1.
- ListEvents.Top: `count` is an integer. A fractional count such as 2.5 is not modelled; the source passes it on to the `$top` query parameter. NaN cannot be written either; it is falsy, so the source asks for 10.
- ListEvents.EventEntry: the date rendering is a total function parameter. In the source, `toLocaleString` receives the preferred time zone as its locale argument; a zone name that is not a valid language tag (such as "Pacific Standard Time") makes it throw a RangeError, which the catch block reports as "Error listing events: <message>". The model does not capture that throw.
