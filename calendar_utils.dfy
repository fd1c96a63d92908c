/** Calendar references: the primary calendar, an opaque calendar id, or a
    display name looked up in the account's calendar listing through a
    process-wide cache keyed by the name as typed. */
module CalendarUtils {
  import opened Js
  import opened Replies

  /** A calendar as the `id,name` listing returns it, and as the cache keeps it. */
  datatype CalendarEntry = CalendarEntry(id: string, name: string)

  datatype Owner = Owner(name: string)

  /** A calendar with the fields the full listing selects. */
  datatype Calendar = Calendar(
    id: string,
    name: string,
    canEdit: bool,
    canShare: bool,
    canViewPrivateItems: bool,
    owner: Option<Owner>,
    isDefaultCalendar: bool)

  /** The listing's response: an error, or a payload whose `value` array may be missing. */
  type Listing<T> = Remote<Option<seq<T>>>

  /** A request for the account's calendar listing: the fields selected
      and the page size, when one is asked for. */
  datatype ListingRequest = ListingRequest(verb: Verb, endpoint: string, select: string, top: Option<nat>)

  /** The listing `getCalendarIdByName` asks for. */
  const NAME_LOOKUP_REQUEST := ListingRequest(Get, "me/calendars", "id,name", None)

  /** The listing `getAllCalendars` asks for. */
  const ALL_CALENDARS_REQUEST :=
    ListingRequest(Get, "me/calendars", "id,name,canEdit,canShare,canViewPrivateItems,owner,isDefaultCalendar", Some(50))

  const PRIMARY_CALENDAR := "me/calendar"
  const CALENDAR_BY_ID := "me/calendars/"
  /** References longer than this are taken to be calendar ids. */
  const OPAQUE_ID_MIN_EXCLUSIVE := 50

  /** Every cached entry came from a listing entry whose name matched its key
      case-insensitively. */
  ghost predicate CacheConsistent(cache: map<string, CalendarEntry>) {
    forall key :: key in cache ==> ToLower(cache[key].name) == ToLower(key)
  }

  /** `listing.find(cal => cal.name.toLowerCase() === name.toLowerCase())`,
      as the index of the entry found. */
  function FindByName(listing: seq<CalendarEntry>, name: string): (r: Option<nat>)
    ensures r.Some? ==> r.value < |listing| && ToLower(listing[r.value].name) == ToLower(name)
    ensures r.Some? ==> forall j :: 0 <= j < r.value ==> ToLower(listing[j].name) != ToLower(name)
    ensures r.None? ==> forall j :: 0 <= j < |listing| ==> ToLower(listing[j].name) != ToLower(name)
  {
    if listing == [] then None
    else if ToLower(listing[0].name) == ToLower(name) then Some(0)
    else
      match FindByName(listing[1..], name)
      case None => None
      case Some(k) => Some(k + 1)
  }

  /** Entry `k` is the first whose name equals `name` case-insensitively. */
  predicate IsFirstMatch(listing: seq<CalendarEntry>, name: string, k: int) {
    && 0 <= k < |listing|
    && ToLower(listing[k].name) == ToLower(name)
    && forall j :: 0 <= j < k ==> ToLower(listing[j].name) != ToLower(name)
  }

  /** The entry a name lookup settles on, if the listing call succeeded and
      returned a matching entry. */
  function MatchIn(listing: Listing<CalendarEntry>, name: string): Option<CalendarEntry> {
    if listing.Err? || listing.value.None? then None
    else
      match FindByName(listing.value.value, name)
      case None => None
      case Some(k) => Some(listing.value.value[k])
  }

  /** The outcome of `getCalendarIdByName`: the id found, the cache after
      the call, and whether the listing was fetched. */
  datatype Lookup = Lookup(id: Option<string>, cache: map<string, CalendarEntry>, fetched: bool)

  /** `getCalendarIdByName` as a function of the cache it starts from and
      of what the listing call would return. */
  function IdByName(cache: map<string, CalendarEntry>, name: string, listing: Listing<CalendarEntry>): (r: Lookup)
    ensures r.fetched <==> name !in cache
    ensures r.id.Some? ==> name in r.cache && r.cache[name].id == r.id.value
    ensures r.cache.Keys <= cache.Keys + {name}
  {
    if name in cache then Lookup(Some(cache[name].id), cache, false)
    else
      match MatchIn(listing, name)
      case None => Lookup(None, cache, true)
      case Some(entry) => Lookup(Some(entry.id), cache[name := CalendarEntry(entry.id, entry.name)], true)
  }

  /** The outcome of `resolveCalendarPath`: the endpoint path, the cache
      after the call, and whether the listing was fetched. */
  datatype Resolution = Resolution(path: string, cache: map<string, CalendarEntry>, fetched: bool)

  /** `resolveCalendarPath` as a function of the cache it starts from and of
      what the listing call would return. */
  function ResolvePath(cache: map<string, CalendarEntry>, calendar: Option<string>, listing: Listing<CalendarEntry>)
    : (r: Resolution)
    ensures r.path == PRIMARY_CALENDAR || CALENDAR_BY_ID <= r.path
    ensures r.fetched <==> Truthy(calendar) && |calendar.value| <= OPAQUE_ID_MIN_EXCLUSIVE && calendar.value !in cache
  {
    if !Truthy(calendar) then Resolution(PRIMARY_CALENDAR, cache, false)
    else if |calendar.value| > OPAQUE_ID_MIN_EXCLUSIVE then Resolution(CALENDAR_BY_ID + calendar.value, cache, false)
    else
      var found := IdByName(cache, calendar.value, listing);
      if Truthy(found.id) then Resolution(CALENDAR_BY_ID + found.id.value, found.cache, found.fetched)
      else Resolution(PRIMARY_CALENDAR, found.cache, found.fetched)
  }

  // ---------------------------------------------------------------------
  // Properties of the lookup and of the resolution

  /** A hit on the name exactly as typed answers from the cache: no fetch,
      no change. */
  lemma CacheHit(cache: map<string, CalendarEntry>, name: string, listing: Listing<CalendarEntry>)
    requires name in cache
    ensures IdByName(cache, name, listing) == Lookup(Some(cache[name].id), cache, false)
  {
  }

  /** On a miss the listing is fetched; the first case-insensitive match is
      the answer and is cached under the name as typed, and nothing else is
      cached; no match, a failed fetch and a listing without a `value`
      array all answer null and leave the cache alone. */
  lemma {:induction false} CacheMiss(cache: map<string, CalendarEntry>, name: string, listing: Listing<CalendarEntry>)
    requires name !in cache
    ensures var r := IdByName(cache, name, listing);
      && r.fetched
      && (listing.Err? ==> r.id.None? && r.cache == cache)
      && (listing.Ok? && listing.value.None? ==> r.id.None? && r.cache == cache)
      && (listing.Ok? && listing.value.Some? ==>
            var cals := listing.value.value;
            && ((forall j :: 0 <= j < |cals| ==> ToLower(cals[j].name) != ToLower(name)) ==> r.id.None? && r.cache == cache)
            && (forall k :: IsFirstMatch(cals, name, k) ==>
                  r.id == Some(cals[k].id) && r.cache == cache[name := cals[k]]))
  {
    if listing.Ok? && listing.value.Some? {
      var cals := listing.value.value;
      var found := FindByName(cals, name);
      forall k | IsFirstMatch(cals, name, k)
        ensures found == Some(k)
      {
      }
    }
  }

  /** A lookup keeps the cache consistent with the listings it came from,
      and only ever adds the name looked up. */
  lemma {:induction false} LookupKeepsCacheConsistent(cache: map<string, CalendarEntry>, name: string, listing: Listing<CalendarEntry>)
    requires CacheConsistent(cache)
    ensures CacheConsistent(IdByName(cache, name, listing).cache)
    ensures IdByName(cache, name, listing).cache.Keys <= cache.Keys + {name}
    ensures forall key :: key in cache ==> key in IdByName(cache, name, listing).cache
                                             && IdByName(cache, name, listing).cache[key] == cache[key]
  {
    var r := IdByName(cache, name, listing);
    if name !in cache && MatchIn(listing, name).Some? {
      var k := FindByName(listing.value.value, name).value;
      assert ToLower(r.cache[name].name) == ToLower(name);
    }
  }

  /** Resolution never fails: it yields the primary calendar or a calendar
      by id. Without a reference, or with one longer than fifty
      characters, nothing is fetched and the cache is untouched. */
  lemma ResolveShape(cache: map<string, CalendarEntry>, calendar: Option<string>, listing: Listing<CalendarEntry>)
    ensures var r := ResolvePath(cache, calendar, listing);
      r.path == PRIMARY_CALENDAR || (CALENDAR_BY_ID <= r.path && |r.path| > |CALENDAR_BY_ID|)
    ensures !Truthy(calendar) ==> ResolvePath(cache, calendar, listing) == Resolution(PRIMARY_CALENDAR, cache, false)
    ensures Truthy(calendar) && |calendar.value| > OPAQUE_ID_MIN_EXCLUSIVE ==>
                ResolvePath(cache, calendar, listing) == Resolution(CALENDAR_BY_ID + calendar.value, cache, false)
  {
  }

  /** A name of at most fifty characters goes through the lookup; when the
      lookup finds nothing (no match, or the listing failed) the path falls
      back to the primary calendar. */
  lemma {:induction false} ResolveByName(cache: map<string, CalendarEntry>, name: string, listing: Listing<CalendarEntry>)
    requires name != "" && |name| <= OPAQUE_ID_MIN_EXCLUSIVE
    ensures var r := ResolvePath(cache, Some(name), listing);
      var l := IdByName(cache, name, listing);
      && r.cache == l.cache && r.fetched == l.fetched
      && r.path == (if Truthy(l.id) then CALENDAR_BY_ID + l.id.value else PRIMARY_CALENDAR)
    ensures name !in cache && MatchIn(listing, name).None? ==>
                ResolvePath(cache, Some(name), listing) == Resolution(PRIMARY_CALENDAR, cache, true)
  {
  }

  /** Resolving a name a second time, after a successful lookup, fetches
      nothing and yields the same path, whatever the listing would return
      by then. */
  lemma {:induction false} SecondResolutionUsesCache(cache: map<string, CalendarEntry>, name: string,
                                                    first: Listing<CalendarEntry>, second: Listing<CalendarEntry>)
    requires name != "" && |name| <= OPAQUE_ID_MIN_EXCLUSIVE
    requires IdByName(cache, name, first).id.Some?
    ensures var r1 := ResolvePath(cache, Some(name), first);
      var r2 := ResolvePath(r1.cache, Some(name), second);
      r2 == Resolution(r1.path, r1.cache, false)
  {
    var l1 := IdByName(cache, name, first);
    assert name in l1.cache && l1.cache[name].id == l1.id.value;
  }

  // ---------------------------------------------------------------------
  // getAllCalendars

  /** `getAllCalendars`: the listing's calendars, or none when the call
      failed or returned no `value` array. */
  function AllCalendars(listing: Listing<Calendar>): (r: seq<Calendar>)
    ensures listing.Ok? && listing.value.Some? ==> r == listing.value.value
    ensures listing.Err? || listing.value.None? ==> r == []
  {
    if listing.Err? || listing.value.None? then [] else listing.value.value
  }

  // ---------------------------------------------------------------------
  // The process-wide cache

  /** The module-level `calendarCache` and the two functions that use it. */
  class CalendarResolver {
    var cache: map<string, CalendarEntry>

    ghost predicate Valid()
      reads this
    {
      CacheConsistent(cache)
    }

    constructor ()
      ensures Valid() && cache == map[]
    {
      cache := map[];
    }

    /** `getCalendarIdByName`; `listing` is what the listing call would return. */
    method GetCalendarIdByName(calendarName: string, listing: Listing<CalendarEntry>)
      returns (id: Option<string>, fetched: bool)
      requires Valid()
      modifies this
      ensures Valid()
      ensures Lookup(id, cache, fetched) == IdByName(old(cache), calendarName, listing)
    {
      LookupKeepsCacheConsistent(cache, calendarName, listing);
      if calendarName in cache {
        return Some(cache[calendarName].id), false;
      }
      fetched := true;
      id := None;
      if listing.Ok? && listing.value.Some? {
        var calendars := listing.value.value;
        var found := FindByName(calendars, calendarName);
        if found.Some? {
          var matching := calendars[found.value];
          cache := cache[calendarName := CalendarEntry(matching.id, matching.name)];
          id := Some(matching.id);
        }
      }
    }

    /** `resolveCalendarPath`; `listing` is what the listing call would
        return if the name lookup needs it. */
    method ResolveCalendarPath(calendar: Option<string>, listing: Listing<CalendarEntry>)
      returns (path: string, fetched: bool)
      requires Valid()
      modifies this
      ensures Valid()
      ensures Resolution(path, cache, fetched) == ResolvePath(old(cache), calendar, listing)
    {
      if !Truthy(calendar) {
        return PRIMARY_CALENDAR, false;
      }
      if |calendar.value| > OPAQUE_ID_MIN_EXCLUSIVE {
        return CALENDAR_BY_ID + calendar.value, false;
      }
      var calendarId;
      calendarId, fetched := GetCalendarIdByName(calendar.value, listing);
      if Truthy(calendarId) {
        path := CALENDAR_BY_ID + calendarId.value;
      } else {
        path := PRIMARY_CALENDAR;
      }
    }
  }
}
