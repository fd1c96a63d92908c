/** The create-event tool: the recurrence validator, the guard in front of
    the remote call, the request body, and the reply wording. */
module CalendarCreate {
  import opened Js
  import opened Replies
  import opened CalendarUtils

  // ---------------------------------------------------------------------
  // Recurrence, as the tool schema declares it

  /** The pattern types the validator knows by name. */
  const LISTED_PATTERN_TYPES: set<string> :=
    {"daily", "weekly", "absoluteMonthly", "relativeMonthly", "absoluteYearly", "relativeYearly"}

  /** The range types the validator knows by name. */
  const LISTED_RANGE_TYPES: set<string> := {"endDate", "noEnd", "numbered"}

  /** A non-empty pattern type that is none of the listed ones. */
  type UnlistedPatternName = s: string | s != "" && s !in LISTED_PATTERN_TYPES witness "hourly"

  /** A non-empty range type that is none of the listed ones. */
  type UnlistedRangeName = s: string | s != "" && s !in LISTED_RANGE_TYPES witness "forever"

  /** `pattern.type`; a value outside the schema's list is kept by name,
      since the validator lets it through. */
  datatype PatternType =
    | Daily | Weekly | AbsoluteMonthly | RelativeMonthly | AbsoluteYearly | RelativeYearly
    | UnlistedPattern(name: UnlistedPatternName)

  datatype DayOfWeek = Sunday | Monday | Tuesday | Wednesday | Thursday | Friday | Saturday

  datatype WeekIndex = First | Second | Third | Fourth | Last

  /** `range.type`; a value outside the schema's list is kept by name. */
  datatype RangeType = EndDate | NoEnd | Numbered | UnlistedRange(name: UnlistedRangeName)

  /** A recurrence pattern as the caller passed it. `patternType` is None
      when the type is missing or empty. */
  datatype Pattern = Pattern(
    patternType: Option<PatternType>,
    interval: Option<int>,
    daysOfWeek: Option<seq<DayOfWeek>>,
    dayOfMonth: Option<int>,
    month: Option<int>,
    firstDayOfWeek: Option<DayOfWeek>,
    index: Option<WeekIndex>)

  /** A recurrence range as the caller passed it. `rangeType` is None when
      the type is missing or empty. */
  datatype Range = Range(
    rangeType: Option<RangeType>,
    startDate: Option<string>,
    endDate: Option<string>,
    numberOfOccurrences: Option<int>)

  datatype Recurrence = Recurrence(pattern: Option<Pattern>, range: Option<Range>)

  const PATTERN_BASE_ERROR := "Recurrence pattern must include 'type' and 'interval'"
  const INTERVAL_ERROR := "Recurrence interval must be at least 1"
  const WEEKLY_ERROR := "Weekly recurrence requires 'daysOfWeek' to be specified"
  const ABSOLUTE_MONTHLY_ERROR := "Absolute monthly recurrence requires 'dayOfMonth' to be specified"
  const RELATIVE_MONTHLY_ERROR := "Relative monthly recurrence requires 'daysOfWeek' and 'index' to be specified"
  const ABSOLUTE_YEARLY_ERROR := "Absolute yearly recurrence requires 'dayOfMonth' and 'month' to be specified"
  const RELATIVE_YEARLY_ERROR := "Relative yearly recurrence requires 'daysOfWeek', 'index', and 'month' to be specified"
  const RANGE_BASE_ERROR := "Recurrence range must include 'type' and 'startDate'"
  const END_DATE_ERROR := "Recurrence range type 'endDate' requires 'endDate' to be specified"
  const OCCURRENCES_MISSING_ERROR := "Recurrence range type 'numbered' requires 'numberOfOccurrences' to be specified"
  const OCCURRENCES_ERROR := "Number of occurrences must be at least 1"

  /** What the validator's rules ask of a pattern, stated field by field:
      a type and an interval of at least 1, and the fields its type needs. */
  ghost predicate PatternWellFormed(pattern: Option<Pattern>) {
    && pattern.Some?
    && var p := pattern.value;
    && p.patternType.Some?
    && p.interval.Some? && p.interval.value >= 1
    && match p.patternType.value
       case Weekly => p.daysOfWeek.Some? && |p.daysOfWeek.value| > 0
       case AbsoluteMonthly => TruthyNumber(p.dayOfMonth)
       case RelativeMonthly => p.daysOfWeek.Some? && p.index.Some?
       case AbsoluteYearly => TruthyNumber(p.dayOfMonth) && TruthyNumber(p.month)
       case RelativeYearly => p.daysOfWeek.Some? && p.index.Some? && TruthyNumber(p.month)
       case _ => true
  }

  /** What the validator's rules ask of a range: a type and a start date,
      and the field its type needs. */
  ghost predicate RangeWellFormed(range: Option<Range>) {
    && range.Some?
    && var g := range.value;
    && g.rangeType.Some?
    && Truthy(g.startDate)
    && match g.rangeType.value
       case EndDate => Truthy(g.endDate)
       case Numbered => g.numberOfOccurrences.Some? && g.numberOfOccurrences.value >= 1
       case _ => true
  }

  ghost predicate WellFormed(rec: Recurrence) {
    PatternWellFormed(rec.pattern) && RangeWellFormed(rec.range)
  }

  /** The pattern checks of `validateRecurrence`, in order. */
  function ValidatePattern(pattern: Option<Pattern>): (r: Option<string>)
    ensures r.None? <==> PatternWellFormed(pattern)
  {
    if pattern.None? || pattern.value.patternType.None? || !TruthyNumber(pattern.value.interval) then
      Some(PATTERN_BASE_ERROR)
    else
      var p := pattern.value;
      if p.interval.value < 1 then Some(INTERVAL_ERROR)
      else if p.patternType == Some(Weekly) && (p.daysOfWeek.None? || |p.daysOfWeek.value| == 0) then
        Some(WEEKLY_ERROR)
      else if p.patternType == Some(AbsoluteMonthly) && !TruthyNumber(p.dayOfMonth) then
        Some(ABSOLUTE_MONTHLY_ERROR)
      else if p.patternType == Some(RelativeMonthly) && (p.daysOfWeek.None? || p.index.None?) then
        Some(RELATIVE_MONTHLY_ERROR)
      else if p.patternType == Some(AbsoluteYearly) && (!TruthyNumber(p.dayOfMonth) || !TruthyNumber(p.month)) then
        Some(ABSOLUTE_YEARLY_ERROR)
      else if p.patternType == Some(RelativeYearly)
              && (p.daysOfWeek.None? || p.index.None? || !TruthyNumber(p.month)) then
        Some(RELATIVE_YEARLY_ERROR)
      else None
  }

  /** The range checks of `validateRecurrence`, in order. */
  function ValidateRange(range: Option<Range>): (r: Option<string>)
    ensures r.None? <==> RangeWellFormed(range)
  {
    if range.None? || range.value.rangeType.None? || !Truthy(range.value.startDate) then
      Some(RANGE_BASE_ERROR)
    else
      var g := range.value;
      if g.rangeType == Some(EndDate) && !Truthy(g.endDate) then Some(END_DATE_ERROR)
      else if g.rangeType == Some(Numbered) && g.numberOfOccurrences.None? then Some(OCCURRENCES_MISSING_ERROR)
      else if g.rangeType == Some(Numbered) && g.numberOfOccurrences.value < 1 then Some(OCCURRENCES_ERROR)
      else None
  }

  /** `validateRecurrence`: None when valid (or when there is no
      recurrence), otherwise the message of the first check that fails,
      the pattern's checks before the range's. */
  function ValidateRecurrence(recurrence: Option<Recurrence>): (r: Option<string>)
    ensures recurrence.None? ==> r.None?
    ensures recurrence.Some? ==> (r.None? <==> WellFormed(recurrence.value))
  {
    match recurrence
    case None => None
    case Some(rec) =>
      var patternError := ValidatePattern(rec.pattern);
      if patternError.Some? then patternError else ValidateRange(rec.range)
  }

  // ---------------------------------------------------------------------
  // The validator as an ordered table of independent rules

  datatype Rule =
    | PatternBase | IntervalAtLeastOne
    | WeeklyDays | AbsoluteMonthlyDay | RelativeMonthlyFields | AbsoluteYearlyFields | RelativeYearlyFields
    | RangeBase | EndDateGiven | OccurrencesGiven | OccurrencesAtLeastOne

  /** The rules in the order they are checked. */
  const RULES: seq<Rule> := [
    PatternBase, IntervalAtLeastOne,
    WeeklyDays, AbsoluteMonthlyDay, RelativeMonthlyFields, AbsoluteYearlyFields, RelativeYearlyFields,
    RangeBase, EndDateGiven, OccurrencesGiven, OccurrencesAtLeastOne]

  function Message(rule: Rule): string {
    match rule
    case PatternBase => PATTERN_BASE_ERROR
    case IntervalAtLeastOne => INTERVAL_ERROR
    case WeeklyDays => WEEKLY_ERROR
    case AbsoluteMonthlyDay => ABSOLUTE_MONTHLY_ERROR
    case RelativeMonthlyFields => RELATIVE_MONTHLY_ERROR
    case AbsoluteYearlyFields => ABSOLUTE_YEARLY_ERROR
    case RelativeYearlyFields => RELATIVE_YEARLY_ERROR
    case RangeBase => RANGE_BASE_ERROR
    case EndDateGiven => END_DATE_ERROR
    case OccurrencesGiven => OCCURRENCES_MISSING_ERROR
    case OccurrencesAtLeastOne => OCCURRENCES_ERROR
  }

  /** Each rule on its own; a rule about a part or a type that is not there
      holds vacuously. */
  predicate Holds(rule: Rule, rec: Recurrence) {
    var p := rec.pattern;
    var g := rec.range;
    match rule
    case PatternBase => p.Some? && p.value.patternType.Some? && TruthyNumber(p.value.interval)
    case IntervalAtLeastOne => p.None? || p.value.interval.None? || p.value.interval.value >= 1
    case WeeklyDays =>
      p.None? || p.value.patternType != Some(Weekly)
      || (p.value.daysOfWeek.Some? && |p.value.daysOfWeek.value| > 0)
    case AbsoluteMonthlyDay =>
      p.None? || p.value.patternType != Some(AbsoluteMonthly) || TruthyNumber(p.value.dayOfMonth)
    case RelativeMonthlyFields =>
      p.None? || p.value.patternType != Some(RelativeMonthly)
      || (p.value.daysOfWeek.Some? && p.value.index.Some?)
    case AbsoluteYearlyFields =>
      p.None? || p.value.patternType != Some(AbsoluteYearly)
      || (TruthyNumber(p.value.dayOfMonth) && TruthyNumber(p.value.month))
    case RelativeYearlyFields =>
      p.None? || p.value.patternType != Some(RelativeYearly)
      || (p.value.daysOfWeek.Some? && p.value.index.Some? && TruthyNumber(p.value.month))
    case RangeBase => g.Some? && g.value.rangeType.Some? && Truthy(g.value.startDate)
    case EndDateGiven => g.None? || g.value.rangeType != Some(EndDate) || Truthy(g.value.endDate)
    case OccurrencesGiven => g.None? || g.value.rangeType != Some(Numbered) || g.value.numberOfOccurrences.Some?
    case OccurrencesAtLeastOne =>
      g.None? || g.value.rangeType != Some(Numbered) || g.value.numberOfOccurrences.None?
      || g.value.numberOfOccurrences.value >= 1
  }

  /** The position of the first rule in `rules` that fails, or |rules|. */
  function FirstFailing(rules: seq<Rule>, rec: Recurrence): (k: nat)
    ensures k <= |rules|
    ensures forall j :: 0 <= j < k ==> Holds(rules[j], rec)
    ensures k < |rules| ==> !Holds(rules[k], rec)
  {
    if rules == [] || !Holds(rules[0], rec) then 0 else 1 + FirstFailing(rules[1..], rec)
  }

  /** First failure wins: the validator reports exactly the message of the
      first rule, in table order, that fails, and nothing when all hold. */
  lemma FirstFailureWins(rec: Recurrence)
    ensures var k := FirstFailing(RULES, rec);
      ValidateRecurrence(Some(rec)) == if k < |RULES| then Some(Message(RULES[k])) else None
  {
    var k := FirstFailing(RULES, rec);
    if k < 7 {
      PatternFailure(rec, k);
    } else {
      RangeFailure(rec, k);
    }
  }

  /** The case of a failing pattern rule. */
  lemma PatternFailure(rec: Recurrence, k: nat)
    requires k < 7
    requires forall j :: 0 <= j < k ==> Holds(RULES[j], rec)
    requires !Holds(RULES[k], rec)
    ensures ValidateRecurrence(Some(rec)) == Some(Message(RULES[k]))
  {
    assert RULES[0] == PatternBase && RULES[1] == IntervalAtLeastOne && RULES[2] == WeeklyDays;
    assert RULES[3] == AbsoluteMonthlyDay && RULES[4] == RelativeMonthlyFields;
    assert RULES[5] == AbsoluteYearlyFields && RULES[6] == RelativeYearlyFields;
    if k > 0 {
      assert Holds(RULES[0], rec);
    }
    if k > 1 {
      assert Holds(RULES[1], rec);
    }
    assert ValidatePattern(rec.pattern) == Some(Message(RULES[k]));
  }

  /** A pattern that passes every pattern rule passes the pattern checks. */
  lemma PatternRulesPass(rec: Recurrence)
    requires forall j :: 0 <= j < 7 ==> Holds(RULES[j], rec)
    ensures ValidatePattern(rec.pattern).None?
  {
    assert Holds(PatternBase, rec) && Holds(IntervalAtLeastOne, rec) && Holds(WeeklyDays, rec) by {
      assert RULES[0] == PatternBase && RULES[1] == IntervalAtLeastOne && RULES[2] == WeeklyDays;
    }
    assert Holds(AbsoluteMonthlyDay, rec) && Holds(RelativeMonthlyFields, rec) by {
      assert RULES[3] == AbsoluteMonthlyDay && RULES[4] == RelativeMonthlyFields;
    }
    assert Holds(AbsoluteYearlyFields, rec) && Holds(RelativeYearlyFields, rec) by {
      assert RULES[5] == AbsoluteYearlyFields && RULES[6] == RelativeYearlyFields;
    }
  }

  /** The case of a pattern that passes every pattern rule. */
  lemma RangeFailure(rec: Recurrence, k: nat)
    requires 7 <= k <= |RULES|
    requires forall j :: 0 <= j < k ==> Holds(RULES[j], rec)
    requires k < |RULES| ==> !Holds(RULES[k], rec)
    ensures ValidateRecurrence(Some(rec)) == if k < |RULES| then Some(Message(RULES[k])) else None
  {
    PatternRulesPass(rec);
    assert RULES[7] == RangeBase && RULES[8] == EndDateGiven;
    assert RULES[9] == OccurrencesGiven && RULES[10] == OccurrencesAtLeastOne;
    if k > 7 {
      assert Holds(RangeBase, rec);
    }
    assert ValidateRange(rec.range) == if k < |RULES| then Some(Message(RULES[k])) else None;
  }

  /** The messages are pairwise distinct, so a message names its rule. */
  lemma MessagesDistinct(a: Rule, b: Rule)
    requires a != b
    ensures Message(a) != Message(b)
  {
    assert |Message(a)| != |Message(b)|;
  }

  /** An interval of 0 counts as missing and fails the first rule; a
      negative one passes it and fails the "at least 1" rule. */
  lemma IntervalRules(rec: Recurrence)
    requires rec.pattern.Some? && rec.pattern.value.patternType.Some?
    ensures rec.pattern.value.interval == Some(0) ==> ValidateRecurrence(Some(rec)) == Some(PATTERN_BASE_ERROR)
    ensures rec.pattern.value.interval.Some? && rec.pattern.value.interval.value < 0 ==>
              ValidateRecurrence(Some(rec)) == Some(INTERVAL_ERROR)
  {
  }

  /** For a numbered range past the earlier rules, 0 occurrences counts as
      given and fails only the "at least 1" rule, while a missing count
      fails the presence rule. */
  lemma OccurrenceRules(rec: Recurrence)
    requires forall j :: 0 <= j < 7 ==> Holds(RULES[j], rec)
    requires rec.range.Some? && rec.range.value.rangeType == Some(Numbered) && Truthy(rec.range.value.startDate)
    ensures rec.range.value.numberOfOccurrences == Some(0) ==> ValidateRecurrence(Some(rec)) == Some(OCCURRENCES_ERROR)
    ensures rec.range.value.numberOfOccurrences.None? ==> ValidateRecurrence(Some(rec)) == Some(OCCURRENCES_MISSING_ERROR)
  {
    FirstFailureWins(rec);
  }

  // ---------------------------------------------------------------------
  // The request

  /** A start or end argument: a bare date-time string, or an object with
      optional `dateTime` and `timeZone`. */
  datatype TimeArg = Bare(text: string) | Zoned(dateTime: Option<string>, timeZone: Option<string>)

  /** What `start.dateTime || start` yields: a string, or (for an object
      without a date-time) the argument object itself. */
  datatype DateTimeValue = Text(text: string) | WholeArgument(arg: TimeArg)

  datatype TimeSlot = TimeSlot(dateTime: DateTimeValue, timeZone: string)

  datatype Attendee = Attendee(address: string, attendeeType: string)

  datatype ItemBody = ItemBody(contentType: string, content: string)

  datatype EventBody = EventBody(
    subject: string,
    start: TimeSlot,
    end: TimeSlot,
    attendees: Option<seq<Attendee>>,
    body: ItemBody,
    recurrence: Option<Recurrence>)

  datatype EventRequest = EventRequest(verb: Verb, endpoint: string, body: EventBody)

  /** A remote request the handler issues: the name lookup's listing, or
      the create request itself. */
  datatype CreateCall = LookupCall(listing: ListingRequest) | EventCall(event: EventRequest)

  datatype CreateEventArgs = CreateEventArgs(
    subject: Option<string>,
    start: Option<TimeArg>,
    end: Option<TimeArg>,
    calendar: Option<string>,
    attendees: Option<seq<string>>,
    body: Option<string>,
    recurrence: Option<Recurrence>)

  const REQUIRED_FIELDS_TEXT := "Subject, start, and end times are required to create an event."
  const INVALID_RECURRENCE_PREFIX := "Invalid recurrence pattern: "
  const CREATE_ERROR_PREFIX := "Error creating event: "

  predicate TruthyTime(t: Option<TimeArg>) {
    t.Some? && t.value != Bare("")
  }

  /** The replies given before any remote call: the missing-field text, or
      the validator's message behind its prefix. */
  function CreatePrecheck(args: CreateEventArgs): (r: Option<string>)
    ensures !Truthy(args.subject) || !TruthyTime(args.start) || !TruthyTime(args.end) ==>
              r == Some(REQUIRED_FIELDS_TEXT)
    ensures Truthy(args.subject) && TruthyTime(args.start) && TruthyTime(args.end) ==>
              (r.None? <==> args.recurrence.None? || WellFormed(args.recurrence.value))
    ensures Truthy(args.subject) && TruthyTime(args.start) && TruthyTime(args.end) && r.Some? ==>
              r == Some(INVALID_RECURRENCE_PREFIX + ValidateRecurrence(args.recurrence).value)
  {
    if !Truthy(args.subject) || !TruthyTime(args.start) || !TruthyTime(args.end) then Some(REQUIRED_FIELDS_TEXT)
    else if args.recurrence.Some? && ValidateRecurrence(args.recurrence).Some? then
      Some(INVALID_RECURRENCE_PREFIX + ValidateRecurrence(args.recurrence).value)
    else None
  }

  /** `{ dateTime: t.dateTime || t, timeZone: t.timeZone || defaultTimeZone }`. */
  function SlotFor(t: TimeArg, defaultTimeZone: string): (s: TimeSlot)
    ensures t.Bare? ==> s == TimeSlot(Text(t.text), defaultTimeZone)
    ensures t.Zoned? && Truthy(t.dateTime) ==> s.dateTime == Text(t.dateTime.value)
    ensures t.Zoned? && !Truthy(t.dateTime) ==> s.dateTime == WholeArgument(t)
    ensures t.Zoned? ==> s.timeZone == OrElse(t.timeZone, defaultTimeZone)
  {
    match t
    case Bare(text) => TimeSlot(Text(text), defaultTimeZone)
    case Zoned(dt, tz) =>
      TimeSlot(if Truthy(dt) then Text(dt.value) else WholeArgument(t), OrElse(tz, defaultTimeZone))
  }

  /** The body the create request carries, described field by field. */
  ghost predicate ShapedFrom(b: EventBody, args: CreateEventArgs, defaultTimeZone: string)
    requires args.subject.Some? && args.start.Some? && args.end.Some?
  {
    && b.subject == args.subject.value
    && b.start == SlotFor(args.start.value, defaultTimeZone)
    && b.end == SlotFor(args.end.value, defaultTimeZone)
    && (b.attendees.Some? <==> args.attendees.Some?)
    && (args.attendees.Some? ==>
          && |b.attendees.value| == |args.attendees.value|
          && forall i :: 0 <= i < |args.attendees.value| ==>
               b.attendees.value[i] == Attendee(args.attendees.value[i], "required"))
    && b.body == ItemBody("HTML", OrElse(args.body, ""))
    && b.recurrence == args.recurrence
  }

  /** Builds the request body, then attaches the recurrence when there is one. */
  method BuildEventBody(args: CreateEventArgs, defaultTimeZone: string) returns (b: EventBody)
    requires args.subject.Some? && args.start.Some? && args.end.Some?
    ensures ShapedFrom(b, args, defaultTimeZone)
  {
    var attendees: Option<seq<Attendee>> := None;
    if args.attendees.Some? {
      var emails := args.attendees.value;
      attendees := Some(seq(|emails|, i requires 0 <= i < |emails| => Attendee(emails[i], "required")));
    }
    b := EventBody(
      args.subject.value,
      SlotFor(args.start.value, defaultTimeZone),
      SlotFor(args.end.value, defaultTimeZone),
      attendees,
      ItemBody("HTML", OrElse(args.body, "")),
      None);
    if args.recurrence.Some? {
      b := b.(recurrence := args.recurrence);
    }
  }

  /** The success text. */
  function CreatedText(subject: string, recurring: bool): (r: string)
    ensures recurring ==> "Recurring event '" + subject + "'" <= r
    ensures !recurring ==> "Event '" + subject + "'" <= r
  {
    (if recurring then "Recurring event" else "Event") + " '" + subject + "' has been successfully created."
  }

  /** The success text begins "Recurring event" exactly for a recurring event. */
  lemma CreatedTextWording(subject: string, recurring: bool)
    ensures "Recurring event" <= CreatedText(subject, recurring) <==> recurring
    ensures "Event" <= CreatedText(subject, recurring) <==> !recurring
  {
    var r := CreatedText(subject, recurring);
    assert recurring ==> r[0] == 'R';
    assert !recurring ==> r[0] == 'E';
  }

  /** `handleCreateEvent`. `auth` is the outcome of the token request,
      `listing` what the calendar listing would return if the calendar
      name must be looked up, and `created` the outcome of the create
      request. A name not yet cached costs one listing request before the
      create request; a failed lookup falls back to the primary calendar
      and the create request still goes out. */
  method HandleCreateEvent(args: CreateEventArgs, resolver: CalendarResolver, defaultTimeZone: string,
                           auth: Remote<()>, listing: Listing<CalendarEntry>, created: Remote<()>)
    returns (reply: Reply<CreateCall>)
    requires resolver.Valid()
    modifies resolver
    ensures resolver.Valid()
    ensures CreatePrecheck(args).Some? ==>
              reply == Reply(CreatePrecheck(args).value, []) && resolver.cache == old(resolver.cache)
    ensures CreatePrecheck(args).None? && auth.Err? ==>
              reply == Reply(ErrorText(auth.message, None, CREATE_ERROR_PREFIX), [])
              && resolver.cache == old(resolver.cache)
    ensures CreatePrecheck(args).None? && auth.Ok? ==>
              var resolved := ResolvePath(old(resolver.cache), args.calendar, listing);
              && resolver.cache == resolved.cache
              && |reply.sent| == (if resolved.fetched then 2 else 1)
              && (resolved.fetched ==> reply.sent[0] == LookupCall(NAME_LOOKUP_REQUEST))
              && var post := reply.sent[|reply.sent| - 1];
              && post.EventCall?
              && post.event.verb == Post
              && post.event.endpoint == resolved.path + "/events"
              && ShapedFrom(post.event.body, args, defaultTimeZone)
              && reply.text == (if created.Ok? then CreatedText(args.subject.value, args.recurrence.Some?)
                                else ErrorText(created.message, None, CREATE_ERROR_PREFIX))
  {
    var early := CreatePrecheck(args);
    if early.Some? {
      return Reply(early.value, []);
    }
    if auth.Err? {
      return Reply(ErrorText(auth.message, None, CREATE_ERROR_PREFIX), []);
    }
    var calendarPath, fetched := resolver.ResolveCalendarPath(args.calendar, listing);
    var sent: seq<CreateCall> := if fetched then [LookupCall(NAME_LOOKUP_REQUEST)] else [];
    var endpoint := calendarPath + "/events";
    var bodyContent := BuildEventBody(args, defaultTimeZone);
    sent := sent + [EventCall(EventRequest(Post, endpoint, bodyContent))];
    if created.Err? {
      return Reply(ErrorText(created.message, None, CREATE_ERROR_PREFIX), sent);
    }
    reply := Reply(CreatedText(args.subject.value, args.recurrence.Some?), sent);
  }
}
