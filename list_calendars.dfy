/** The list-calendars tool: every calendar of the account, with its
    default tag, owner and permissions. */
module ListCalendars {
  import opened Js
  import opened Replies
  import opened CalendarUtils

  const NO_CALENDARS_TEXT := "No calendars found."
  const LIST_CALENDARS_ERROR_PREFIX := "Error listing calendars: "
  const DEFAULT_TAG := " [DEFAULT]"

  /** The permission labels, in the order they are listed. */
  const PERMISSION_ORDER := ["edit", "share", "view-private"]

  /** Whether the calendar grants the permission at `k` in `PERMISSION_ORDER`. */
  function Grants(calendar: Calendar, k: nat): bool
    requires k < 3
  {
    if k == 0 then calendar.canEdit else if k == 1 then calendar.canShare else calendar.canViewPrivateItems
  }

  /** The labels of the granted permissions, in the order edit, share,
      view-private. */
  function Permissions(calendar: Calendar): seq<string> {
    (if calendar.canEdit then ["edit"] else [])
      + (if calendar.canShare then ["share"] else [])
      + (if calendar.canViewPrivateItems then ["view-private"] else [])
  }

  /** The `permissions` array the handler fills with `push`. */
  method CollectPermissions(calendar: Calendar) returns (permissions: seq<string>)
    ensures permissions == Permissions(calendar)
  {
    permissions := [];
    if calendar.canEdit {
      permissions := permissions + ["edit"];
    }
    if calendar.canShare {
      permissions := permissions + ["share"];
    }
    if calendar.canViewPrivateItems {
      permissions := permissions + ["view-private"];
    }
  }

  /** The position of a permission label in `PERMISSION_ORDER`. */
  function Rank(name: string): nat {
    if name == "edit" then 0 else if name == "share" then 1 else 2
  }

  /** A label is listed exactly when its flag is set, and the labels keep
      the order edit, share, view-private, so none is listed twice. */
  lemma PermissionsInOrder(calendar: Calendar)
    ensures forall k :: 0 <= k < 3 ==> (PERMISSION_ORDER[k] in Permissions(calendar) <==> Grants(calendar, k))
    ensures forall name :: name in Permissions(calendar) ==> name in PERMISSION_ORDER
    ensures forall i, j :: 0 <= i < j < |Permissions(calendar)| ==>
              Rank(Permissions(calendar)[i]) < Rank(Permissions(calendar)[j])
  {
  }

  /** The " - Permissions: …" suffix, left out when nothing is granted. */
  function PermissionsSuffix(calendar: Calendar): (r: string)
    ensures r == "" <==> !calendar.canEdit && !calendar.canShare && !calendar.canViewPrivateItems
  {
    var permissions := Permissions(calendar);
    if |permissions| > 0 then " - Permissions: " + Join(permissions, ", ") else ""
  }

  function DefaultTag(calendar: Calendar): string {
    if calendar.isDefaultCalendar then DEFAULT_TAG else ""
  }

  function OwnerSuffix(calendar: Calendar): string {
    if calendar.owner.Some? then " (Owner: " + calendar.owner.value.name + ")" else ""
  }

  /** The tags after the name: the default tag, the owner, the permissions. */
  function Tags(calendar: Calendar): string {
    DefaultTag(calendar) + OwnerSuffix(calendar) + PermissionsSuffix(calendar)
  }

  /** The tags begin with " [DEFAULT]" exactly for the default calendar,
      and after it come the owner suffix, exactly when there is an owner,
      and the permissions suffix. */
  lemma TagsInOrder(calendar: Calendar)
    ensures calendar.isDefaultCalendar <==> DEFAULT_TAG <= Tags(calendar)
    ensures var afterDefault := Tags(calendar)[|DefaultTag(calendar)|..];
      && (calendar.owner.Some? <==> " (Owner: " <= afterDefault)
      && (calendar.owner.Some? ==> afterDefault == " (Owner: " + calendar.owner.value.name + ")" + PermissionsSuffix(calendar))
      && (calendar.owner.None? ==> afterDefault == PermissionsSuffix(calendar))
  {
    var afterDefault := OwnerSuffix(calendar) + PermissionsSuffix(calendar);
    assert Tags(calendar) == DefaultTag(calendar) + afterDefault;
    assert Tags(calendar)[|DefaultTag(calendar)|..] == afterDefault;
    SuffixesAfterDefault(calendar);
    if !calendar.isDefaultCalendar {
      assert Tags(calendar) == afterDefault;
      assert DEFAULT_TAG[1] == '[';
    }
  }

  /** What may follow the default tag starts with " (" or " -", or is empty. */
  lemma SuffixesAfterDefault(calendar: Calendar)
    ensures var afterDefault := OwnerSuffix(calendar) + PermissionsSuffix(calendar);
      && (afterDefault == "" || afterDefault[1] == '(' || afterDefault[1] == '-')
      && (calendar.owner.Some? <==> " (Owner: " <= afterDefault)
  {
    var ps := PermissionsSuffix(calendar);
    assert ps == "" || ps[1] == '-';
    if calendar.owner.None? {
      assert OwnerSuffix(calendar) + ps == ps;
      assert " (Owner: "[1] == '(';
    }
  }

  /** One calendar's entry. */
  function CalendarEntryText(number: nat, calendar: Calendar): string {
    NatToString(number) + ". " + (calendar.name + Tags(calendar)) + IdLine(calendar.id)
  }

  function IdLine(id: string): string {
    "\nID: " + id + "\n"
  }

  /** The entries, numbered from 1 in listing order. */
  function CalendarEntries(calendars: seq<Calendar>): seq<string> {
    MapIndexed(calendars, 0, (index: nat, calendar: Calendar) => CalendarEntryText(index + 1, calendar))
  }

  /** The text for a non-empty listing. */
  function CalendarsText(calendars: seq<Calendar>): string {
    "Found " + NatToString(|calendars|) + " calendars:\n\n" + Join(CalendarEntries(calendars), "\n")
  }

  /** Entry `i` starts with the number `i + 1`, which reads back from it,
      followed by ". ", and ends with the calendar's ID line. */
  lemma EntriesNumberedFromOne(calendars: seq<Calendar>, i: nat)
    requires i < |calendars|
    ensures var entries := CalendarEntries(calendars);
      && |entries| == |calendars|
      && TakeNumber(entries[i]) == (i + 1, ". " + (calendars[i].name + Tags(calendars[i])) + IdLine(calendars[i].id))
      && EndsWith(entries[i], IdLine(calendars[i].id))
  {
    var entries := CalendarEntries(calendars);
    assert entries[i] == CalendarEntryText(i + 1, calendars[i]);
    NumberedEntry(i + 1, calendars[i].name + Tags(calendars[i]), IdLine(calendars[i].id));
  }

  /** The header reports as many calendars as the listing returned. */
  lemma HeaderCounts(calendars: seq<Calendar>)
    ensures var text := CalendarsText(calendars);
      TakeNumber(text[|"Found "|..]) == (|calendars|, " calendars:\n\n" + Join(CalendarEntries(calendars), "\n"))
  {
    var rest := " calendars:\n\n" + Join(CalendarEntries(calendars), "\n");
    assert CalendarsText(calendars) == "Found " + NatToString(|calendars|) + rest;
    NumberAfter("Found ", |calendars|, rest);
  }

  /** `handleListCalendars`. `auth` is the outcome of the token request and
      `listing` that of the listing request. */
  function HandleListCalendars(auth: Remote<()>, listing: Listing<Calendar>): (r: Reply<ListingRequest>)
    ensures auth.Err? ==> r == Reply(ErrorText(auth.message, None, LIST_CALENDARS_ERROR_PREFIX), [])
    ensures auth.Ok? ==> r.sent == [ALL_CALENDARS_REQUEST]
    ensures auth.Ok? ==> (r.text == NO_CALENDARS_TEXT <==> AllCalendars(listing) == [])
    ensures auth.Ok? && AllCalendars(listing) != [] ==> r.text == CalendarsText(AllCalendars(listing))
  {
    if auth.Err? then Reply(ErrorText(auth.message, None, LIST_CALENDARS_ERROR_PREFIX), [])
    else
      var calendars := AllCalendars(listing);
      if calendars == [] then Reply(NO_CALENDARS_TEXT, [ALL_CALENDARS_REQUEST])
      else
        assert CalendarsText(calendars)[0] == 'F';
        Reply(CalendarsText(calendars), [ALL_CALENDARS_REQUEST])
  }

  /** A failed listing request is swallowed by `getAllCalendars`: the
      reply is the empty-listing text, never an error text. */
  lemma ListingFailureLooksEmpty(message: string)
    ensures HandleListCalendars(Ok(()), Err(message)) == Reply(NO_CALENDARS_TEXT, [ALL_CALENDARS_REQUEST])
  {
  }
}
