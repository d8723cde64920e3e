/** Named periods of `app/agents/query_contracts.py`: what is accepted, and which local days each covers. */
module QueryWindows {
  import opened Prelude
  import opened Gregorian
  import WallTime

  const DAY := 86_400_000_000
  const DEFAULT_UPCOMING_DAYS := 14
  const MAX_DATE_RANGE_DAYS := 31

  datatype Scope =
    Today | Tomorrow | ThisWeek | NextWeek | ThisMonth | NextMonth | Upcoming | Overdue | DateRange | All

  datatype Query = Query(scope: Scope, startDate: Option<Date>, endDate: Option<Date>,
                         startAt: Option<int>, endAt: Option<int>, upcomingDays: int)

  datatype Refusal =
    BothForms | InstantsTogether | InstantsReversed | DatesRequired | DatesReversed | TooLong
    | OnlyForDateRange | UpcomingOnly | UpcomingOutOfBounds

  predicate DatesValid(q: Query) {
    (q.startDate.Some? ==> Valid(q.startDate.value)) && (q.endDate.Some? ==> Valid(q.endDate.value))
  }

  /** The field bound on `upcoming_days`, then `validate_scope_fields`. */
  function Refused(q: Query): Option<Refusal>
    requires DatesValid(q)
  {
    var hasDates := q.startDate.Some? || q.endDate.Some?;
    var hasInstants := q.startAt.Some? || q.endAt.Some?;
    if !(1 <= q.upcomingDays <= MAX_DATE_RANGE_DAYS) then Some(UpcomingOutOfBounds)
    else if q.scope == DateRange && hasDates && hasInstants then Some(BothForms)
    else if q.scope == DateRange && hasInstants then
      if q.startAt.None? || q.endAt.None? then Some(InstantsTogether)
      else if q.endAt.value <= q.startAt.value then Some(InstantsReversed)
      else if q.endAt.value - q.startAt.value > MAX_DATE_RANGE_DAYS * DAY then Some(TooLong)
      else Unused(q)
    else if q.scope == DateRange then
      if q.startDate.None? || q.endDate.None? then Some(DatesRequired)
      else if Before(q.endDate.value, q.startDate.value) then Some(DatesReversed)
      else if Ordinal(q.endDate.value) - Ordinal(q.startDate.value) >= MAX_DATE_RANGE_DAYS then Some(TooLong)
      else Unused(q)
    else if hasDates || hasInstants then Some(OnlyForDateRange)
    else Unused(q)
  }

  function Unused(q: Query): Option<Refusal> {
    if q.scope != Upcoming && q.upcomingDays != DEFAULT_UPCOMING_DAYS then Some(UpcomingOnly) else None
  }

  /** Local days from `start` up to but not including `end`. */
  datatype Window = Window(start: Option<Date>, end: Option<Date>)

  predicate Days(w: Window) {
    w.start.Some? && w.end.Some? && Valid(w.start.value) && Valid(w.end.value)
  }

  ghost predicate Covers(w: Window, d: Date)
    requires Valid(d)
  {
    && (w.start.Some? ==> !Before(d, w.start.value))
    && (w.end.Some? ==> Before(d, w.end.value))
  }

  function Bind(d: Option<Date>, k: int): (r: Option<Date>)
    requires d.Some? ==> Valid(d.value)
    ensures r.Some? ==> Valid(r.value)
    ensures r.Some? <==> d.Some? && 1 <= Ordinal(d.value) + k <= MAX_ORDINAL
    ensures r.Some? ==> Ordinal(r.value) == Ordinal(d.value) + k
  {
    hide Ordinal, Valid, AddDays;
    if d.None? then None else AddDays(d.value, k)
  }

  /** `resolve_local_date_range` of an exclusive end stepped back one day; None is Python's OverflowError. */
  function Range(start: Option<Date>, end: Option<Date>): Option<Window>
    requires (start.Some? ==> Valid(start.value)) && (end.Some? ==> Valid(end.value))
  {
    hide Ordinal, Valid, AddDays;
    var last := Bind(end, -1);
    if start.None? || last.None? || Before(last.value, start.value) then None
    else
      var again := Bind(last, 1);
      if again.None? then None else Some(Window(start, again))
  }

  /** Stepping the exclusive end back and forth changes nothing. */
  lemma RangeIs(start: Option<Date>, end: Option<Date>)
    requires (start.Some? ==> Valid(start.value)) && (end.Some? ==> Valid(end.value))
    requires start.Some? && end.Some? ==> Ordinal(start.value) < Ordinal(end.value)
    ensures Range(start, end) == if start.None? || end.None? then None else Some(Window(start, end))
  {
    if start.Some? && end.Some? {
      OrdinalRange(start.value);
      OrdinalRange(end.value);
      var last := Bind(end, -1);
      OrdinalsAscend(last.value, start.value);
      var again := Bind(last, 1);
      OrdinalsAscend(again.value, end.value);
      hide Ordinal, Valid, Bind, Before;
    }
  }

  function Monday(today: Date): (r: Date)
    requires Valid(today)
    ensures Valid(r) && Ordinal(r) == Ordinal(today) - Weekday(today)
  {
    OrdinalRange(today);
    FromOrdinal(Ordinal(today) - Weekday(today))
  }

  function FirstOf(d: Option<Date>): (r: Option<Date>)
    requires d.Some? ==> Valid(d.value)
    ensures r.Some? ==> Valid(r.value)
  {
    if d.None? then None else FirstOfNextMonth(d.value)
  }

  function DateOf(wall: int): (d: Option<Date>)
    ensures d.Some? ==> Valid(d.value) && Ordinal(d.value) == wall / DAY
  {
    if 1 <= wall / DAY <= MAX_ORDINAL then Some(FromOrdinal(wall / DAY)) else None
  }

  /** `resolve_temporal_window` on an accepted query, given the owner's local today. */
  function Resolve(q: Query, zone: WallTime.Zone, today: Date): Option<Window>
    requires DatesValid(q) && Refused(q) == None && Valid(today)
  {
    hide Ordinal, Valid, Range, Bind, AddDays;
    match q.scope
    case All => Some(Window(None, None))
    case Overdue => Some(Window(None, Some(today)))
    case Upcoming =>
      var end := AddDays(today, q.upcomingDays + 1);
      if end.None? then None else Some(Window(Some(today), end))
    case Today => Range(Some(today), AddDays(today, 1))
    case Tomorrow => Range(AddDays(today, 1), AddDays(today, 2))
    case ThisWeek => Range(Some(Monday(today)), AddDays(Monday(today), 7))
    case NextWeek => Range(AddDays(Monday(today), 7), Bind(AddDays(Monday(today), 7), 7))
    case ThisMonth => Range(Some(FirstOfMonth(today)), FirstOfNextMonth(FirstOfMonth(today)))
    case NextMonth => Range(FirstOfNextMonth(today), FirstOf(FirstOfNextMonth(today)))
    case DateRange =>
      if q.startAt.Some? then InstantRange(zone.ToWall(q.startAt.value), zone.ToWall(q.endAt.value))
      else Range(q.startDate, AddDays(q.endDate.value, 1))
  }

  /** The legacy form: a local-midnight end is exclusive, a later end includes its day. */
  function InstantRange(startWall: int, endWall: int): Option<Window> {
    var start, last := DateOf(startWall), DateOf(endWall);
    var end := if endWall % DAY == 0 then last else Bind(last, 1);
    if start.None? || end.None? then None else Some(Window(start, end))
  }

  // ----- single days, the past, everything

  /** Today is today alone; it is refused exactly on the calendar's last day. */
  lemma TodayIsToday(zone: WallTime.Zone, today: Date, d: Date)
    requires Valid(today) && Valid(d)
    ensures var r := Resolve(Named(Today), zone, today);
            && (r.None? <==> today == Date(9999, 12, 31))
            && (r.Some? ==> Days(r.value) && r.value.start.value == today && (Covers(r.value, d) <==> d == today))
  {
    hide Ordinal, Before, Range, AddDays, Resolve, Refused, Covers, Valid;
    DayQueries(zone, today);
    OneDay(today, 0, d);
    LastDay9999(today);
    OrdinalsAscend(today, d);
    var r := Resolve(Named(Today), zone, today);
    if r.Some? { OrdinalsAscend(r.value.start.value, today); }
  }

  /** Tomorrow is the day after today alone; it is refused exactly when the day after it is outside the calendar. */
  lemma TomorrowIsTheDayAfter(zone: WallTime.Zone, today: Date, d: Date)
    requires Valid(today) && Valid(d)
    ensures var r := Resolve(Named(Tomorrow), zone, today);
            && (r.None? <==> Ordinal(today) + 2 > MAX_ORDINAL)
            && (r.Some? ==> Days(r.value) && Ordinal(r.value.start.value) == Ordinal(today) + 1
                            && (Covers(r.value, d) <==> Ordinal(d) == Ordinal(today) + 1))
  {
    hide Ordinal, Before, Range, AddDays, Resolve, Refused, Covers, Valid;
    DayQueries(zone, today);
    OneDay(today, 1, d);
  }

  lemma DayQueries(zone: WallTime.Zone, today: Date)
    requires Valid(today)
    ensures Refused(Named(Today)) == None && Refused(Named(Tomorrow)) == None
    ensures AddDays(today, 0) == Some(today) ==>
              Resolve(Named(Today), zone, today) == Range(AddDays(today, 0), AddDays(today, 1))
    ensures Resolve(Named(Tomorrow), zone, today) == Range(AddDays(today, 1), AddDays(today, 2))
  {
    hide AddDays, Range, Ordinal, Before;
  }

  lemma LastDay9999(today: Date)
    requires Valid(today)
    ensures today == Date(9999, 12, 31) <==> Ordinal(today) + 1 > MAX_ORDINAL
  {
    LastOrdinal();
    OrdinalRange(today);
    OrdinalsAscend(today, Date(MAX_YEAR, 12, 31));
    hide Ordinal, Before;
  }

  /** The range of the one day `k` days on. */
  lemma OneDay(today: Date, k: nat, d: Date)
    requires Valid(today) && Valid(d)
    ensures var r := Range(AddDays(today, k), AddDays(today, k + 1));
            && (r.None? <==> Ordinal(today) + k + 1 > MAX_ORDINAL)
            && (r.Some? ==> Days(r.value) && Ordinal(r.value.start.value) == Ordinal(today) + k
                            && (Covers(r.value, d) <==> Ordinal(d) == Ordinal(today) + k))
    ensures AddDays(today, 0) == Some(today)
  {
    OrdinalRange(today);
    var start, end, zero := AddDays(today, k), AddDays(today, k + 1), AddDays(today, 0);
    OrdinalsAscend(today, zero.value);
    hide AddDays;
    RangeIs(start, end);
    hide Range;
    if start.Some? && end.Some? { CoversByOrdinal(Window(start, end), d); }
    hide Ordinal, Before, Covers;
  }

  /** Overdue is every day before today and all is every day; neither is ever refused. */
  lemma OverdueIsThePast(zone: WallTime.Zone, today: Date, d: Date)
    requires Valid(today) && Valid(d)
    ensures var past, all := Resolve(Named(Overdue), zone, today), Resolve(Named(All), zone, today);
            && past.Some? && (Covers(past.value, d) <==> Ordinal(d) < Ordinal(today))
            && all.Some? && Covers(all.value, d)
  {
    OrdinalsAscend(d, today);
    hide Ordinal, Before;
  }

  /** What a query must satisfy to be accepted, field by field. */
  lemma AcceptedIff(q: Query)
    requires DatesValid(q)
    ensures Refused(q) == None <==>
            && 1 <= q.upcomingDays <= 31 && (q.scope != Upcoming ==> q.upcomingDays == 14)
            && if q.scope != DateRange then q.startDate.None? && q.endDate.None? && q.startAt.None? && q.endAt.None?
               else
                 || (&& q.startDate.None? && q.endDate.None? && q.startAt.Some? && q.endAt.Some?
                     && 0 < q.endAt.value - q.startAt.value <= 31 * 86_400_000_000)
                 || (&& q.startAt.None? && q.endAt.None? && q.startDate.Some? && q.endDate.Some?
                     && 0 <= Ordinal(q.endDate.value) - Ordinal(q.startDate.value) <= 30)
  {
    if q.startDate.Some? && q.endDate.Some? { OrdinalsAscend(q.endDate.value, q.startDate.value); }
    hide Ordinal, Before, Valid;
  }

  /** Why a query is refused, each reason in turn: the bound on the days comes first, then what the scope takes. */
  lemma RefusedWhy(q: Query)
    requires DatesValid(q)
    ensures var anyDate, anyInstant := q.startDate.Some? || q.endDate.Some?, q.startAt.Some? || q.endAt.Some?;
            var bothDates, bothInstants := q.startDate.Some? && q.endDate.Some?, q.startAt.Some? && q.endAt.Some?;
            && (Refused(q) == Some(UpcomingOutOfBounds) <==> q.upcomingDays < 1 || q.upcomingDays > 31)
            && (1 <= q.upcomingDays <= 31 ==>
                  && (Refused(q) == Some(OnlyForDateRange) <==> q.scope != DateRange && (anyDate || anyInstant))
                  && (Refused(q) == Some(UpcomingOnly) ==> q.scope != Upcoming && q.upcomingDays != 14)
                  && (q.scope == DateRange ==>
                        && (Refused(q) == Some(BothForms) <==> anyDate && anyInstant)
                        && (Refused(q) == Some(InstantsTogether) <==> !anyDate && anyInstant && !bothInstants)
                        && (Refused(q) == Some(InstantsReversed) <==> !anyDate && bothInstants && q.endAt.value <= q.startAt.value)
                        && (Refused(q) == Some(DatesRequired) <==> !anyInstant && !bothDates)
                        && (Refused(q) == Some(DatesReversed) <==>
                              !anyInstant && bothDates && Ordinal(q.endDate.value) < Ordinal(q.startDate.value))
                        && (Refused(q) == Some(TooLong) <==>
                              || (!anyDate && bothInstants && q.endAt.value - q.startAt.value > 31 * 86_400_000_000)
                              || (!anyInstant && bothDates && Ordinal(q.endDate.value) - Ordinal(q.startDate.value) > 30))))
  {
    if q.startDate.Some? && q.endDate.Some? { OrdinalsAscend(q.endDate.value, q.startDate.value); }
    hide Ordinal, Before, Valid;
  }

  // ----- weeks

  lemma CoversByOrdinal(w: Window, d: Date)
    requires Days(w) && Valid(d)
    ensures Covers(w, d) <==> Ordinal(w.start.value) <= Ordinal(d) < Ordinal(w.end.value)
  {
    OrdinalsAscend(d, w.start.value);
    OrdinalsAscend(d, w.end.value);
  }

  function Named(scope: Scope): Query { Query(scope, None, None, None, None, DEFAULT_UPCOMING_DAYS) }

  /** This week is the seven days from a Monday that include today; it is refused exactly when that Sunday is
      the calendar's last day or lies past it. */
  lemma ThisWeekIsOwnWeek(zone: WallTime.Zone, today: Date)
    requires Valid(today)
    ensures var r := Resolve(Named(ThisWeek), zone, today);
            && (r.None? <==> Ordinal(today) - Weekday(today) + 7 > MAX_ORDINAL)
            && (r.Some? ==> Days(r.value) && Covers(r.value, today) && Weekday(r.value.start.value) == 0
                            && Ordinal(r.value.end.value) == Ordinal(r.value.start.value) + 7)
  {
    MondayStartsTheWeek(today);
    WeekRange(Monday(today), today);
    hide Ordinal, Before, Valid, Monday, Range, Covers, Weekday, AddDays, Days;
  }

  lemma MondayStartsTheWeek(today: Date)
    requires Valid(today)
    ensures Weekday(Monday(today)) == 0 && Ordinal(Monday(today)) <= Ordinal(today) < Ordinal(Monday(today)) + 7
  {
    hide Ordinal, Valid, Monday;
  }

  lemma WeekRange(start: Date, d: Date)
    requires Valid(start) && Valid(d)
    ensures var r := Range(Some(start), AddDays(start, 7));
            && (r.None? <==> Ordinal(start) + 7 > MAX_ORDINAL)
            && (r.Some? ==>
                  && Days(r.value) && r.value == Window(Some(start), AddDays(start, 7))
                  && Ordinal(r.value.end.value) == Ordinal(start) + 7
                  && (Covers(r.value, d) <==> Ordinal(start) <= Ordinal(d) < Ordinal(start) + 7))
  {
    OrdinalRange(start);
    var end := AddDays(start, 7);
    hide AddDays;
    RangeIs(Some(start), end);
    hide Range;
    if end.Some? { CoversByOrdinal(Window(Some(start), end), d); }
    hide Ordinal, Valid, Before, Covers;
  }

  /** Next week starts on the Monday that ends this week, and is a week. */
  lemma NextWeekFollows(zone: WallTime.Zone, today: Date)
    requires Valid(today)
    ensures var r := Resolve(Named(NextWeek), zone, today);
            && (r.None? <==> Ordinal(today) - Weekday(today) + 14 > MAX_ORDINAL)
            && (r.Some? ==> Days(r.value) && Weekday(r.value.start.value) == 0
                            && Ordinal(r.value.end.value) == Ordinal(r.value.start.value) + 7
                            && Resolve(Named(ThisWeek), zone, today).Some?
                            && Resolve(Named(ThisWeek), zone, today).value.end == r.value.start)
  {
    WeekQueries(zone, today);
    MondayStartsTheWeek(today);
    hide AddDays, Ordinal, Before, Valid, Monday, Covers, Weekday, Range, Resolve, Refused, Bind;
    WeekRange(Monday(today), today);
    FollowingWeek(Monday(today));
  }

  lemma WeekQueries(zone: WallTime.Zone, today: Date)
    requires Valid(today)
    ensures Resolve(Named(ThisWeek), zone, today) == Range(Some(Monday(today)), AddDays(Monday(today), 7))
    ensures Resolve(Named(NextWeek), zone, today) == Range(AddDays(Monday(today), 7), Bind(AddDays(Monday(today), 7), 7))
  {
    hide AddDays, Monday, Range, Bind, Ordinal;
  }

  lemma FollowingWeek(monday: Date)
    requires Valid(monday) && Weekday(monday) == 0
    ensures var start := AddDays(monday, 7);
            var r := Range(start, Bind(start, 7));
            && (r.None? <==> Ordinal(monday) + 14 > MAX_ORDINAL)
            && (r.Some? ==>
                  Days(r.value) && r.value.start == start && Weekday(r.value.start.value) == 0
                  && Ordinal(r.value.end.value) == Ordinal(r.value.start.value) + 7)
  {
    OrdinalRange(monday);
    var start := AddDays(monday, 7);
    hide AddDays, Range;
    if start.Some? {
      WeekRange(start.value, monday);
      SevenDaysOn(monday, start.value);
    } else {
      RangeIs(start, Bind(start, 7));
    }
    hide Ordinal, Before, Valid, Covers, Weekday, Bind;
    if start.Some? { BindIs(start, 7); }
  }

  lemma BindIs(d: Option<Date>, k: int)
    requires d.Some? && Valid(d.value)
    ensures Bind(d, k) == AddDays(d.value, k)
  {}

  lemma SevenDaysOn(a: Date, b: Date)
    requires Valid(a) && Valid(b) && Ordinal(b) == Ordinal(a) + 7
    ensures Weekday(a) == Weekday(b)
  {
    hide Ordinal, Valid;
  }

  // ----- months

  /** This month is exactly the dates that carry today's year and month: day 1 up to the next day 1. */
  lemma ThisMonthIsOwnMonth(zone: WallTime.Zone, today: Date, d: Date)
    requires Valid(today) && Valid(d)
    ensures var r := Resolve(Named(ThisMonth), zone, today);
            && (r.None? <==> today.year == MAX_YEAR && today.month == 12)
            && (r.Some? ==>
                  && Days(r.value) && r.value.start.value.day == 1 && r.value.end.value.day == 1
                  && (Covers(r.value, d) <==> d.year == today.year && d.month == today.month)
                  && Ordinal(r.value.end.value) - Ordinal(r.value.start.value) == DaysInMonth(today.year, today.month))
  {
    MonthRange(today.(day := 1), d);
    hide Ordinal, Before, Range, FirstOfNextMonth;
  }

  /** The range from a first of the month to the next one. */
  lemma MonthRange(first: Date, d: Date)
    requires Valid(first) && first.day == 1 && Valid(d)
    ensures var r := Range(Some(first), FirstOfNextMonth(first));
            && (r.None? <==> first.year == MAX_YEAR && first.month == 12)
            && (r.Some? ==>
                  && r.value == Window(Some(first), FirstOfNextMonth(first)) && Days(r.value) && r.value.end.value.day == 1
                  && (Covers(r.value, d) <==> d.year == first.year && d.month == first.month)
                  && Ordinal(r.value.end.value) - Ordinal(first) == DaysInMonth(first.year, first.month))
  {
    var end := FirstOfNextMonth(first);
    if end.Some? {
      MonthLength(first);
      hide Ordinal, DaysInMonth, Range;
      RangeIs(Some(first), end);
      MonthCovers(first, d);
    } else {
      hide Ordinal, DaysInMonth, Range;
      RangeIs(Some(first), end);
    }
  }

  lemma MonthCovers(first: Date, d: Date)
    requires Valid(first) && first.day == 1 && Valid(d) && FirstOfNextMonth(first).Some?
    ensures Covers(Window(Some(first), FirstOfNextMonth(first)), d) <==> d.year == first.year && d.month == first.month
    ensures FirstOfNextMonth(first).value.day == 1
  {
    hide DaysInMonth;
  }

  /** Next month starts where this month ends and is a whole month; December leads to January. */
  lemma NextMonthFollows(zone: WallTime.Zone, today: Date, d: Date)
    requires Valid(today) && Valid(d)
    ensures var r := Resolve(Named(NextMonth), zone, today);
            && (r.None? <==> today.year == MAX_YEAR && today.month >= 11)
            && (r.Some? ==>
                  && Days(r.value) && r.value.start.value.day == 1 && r.value.end.value.day == 1
                  && Resolve(Named(ThisMonth), zone, today).Some?
                  && Resolve(Named(ThisMonth), zone, today).value.end == r.value.start
                  && (Covers(r.value, d) <==>
                      d.year * 12 + d.month == today.year * 12 + today.month + 1)
                  && 28 <= Ordinal(r.value.end.value) - Ordinal(r.value.start.value) <= 31)
  {
    hide Ordinal, Before, Range, Covers, DaysInMonth;
    MonthRange(today.(day := 1), d);
    SameNextMonth(today);
    var next := FirstOfNextMonth(today);
    if next.Some? {
      MonthRange(next.value, d);
    } else {
      RangeIs(next, FirstOf(next));
    }
  }

  lemma SameNextMonth(d: Date)
    requires Valid(d)
    ensures FirstOfNextMonth(d) == FirstOfNextMonth(d.(day := 1))
  {}

  // ----- ranges

  /** Calendar-date ranges: exactly the inclusive ranges of 1 to 31 days are accepted. */
  lemma AcceptedRanges(start: Date, end: Date)
    requires Valid(start) && Valid(end)
    ensures Refused(Named(DateRange).(startDate := Some(start), endDate := Some(end))) == None
            <==> 1 <= Ordinal(end) - Ordinal(start) + 1 <= 31
  {
    OrdinalsAscend(end, start);
    hide Ordinal, Before;
  }

  /** An accepted calendar-date range covers exactly the days from its first to its last, both included: 1 to
      31 of them. Only a range up to the calendar's very last day is refused. */
  lemma RangeCoversItsDays(q: Query, zone: WallTime.Zone, today: Date, d: Date)
    requires DatesValid(q) && Refused(q) == None && q.scope == DateRange && q.startAt.None? && Valid(today) && Valid(d)
    ensures var r := Resolve(q, zone, today);
            && (r.None? <==> Ordinal(q.endDate.value) == MAX_ORDINAL)
            && (r.Some? ==>
                  && Days(r.value)
                  && (Covers(r.value, d) <==> !Before(d, q.startDate.value) && !Before(q.endDate.value, d))
                  && 1 <= Ordinal(r.value.end.value) - Ordinal(r.value.start.value) <= 31)
  {
    AcceptedDates(q, zone, today);
    hide Refused, Resolve, Ordinal, Before, Valid, Range, AddDays;
    var start, end := q.startDate.value, q.endDate.value;
    OrdinalRange(end);
    RangeIs(q.startDate, AddDays(end, 1));
    if AddDays(end, 1).Some? { CoversByOrdinal(Window(q.startDate, AddDays(end, 1)), d); }
    OrdinalsAscend(d, start);
    OrdinalsAscend(end, d);
  }

  lemma AcceptedDates(q: Query, zone: WallTime.Zone, today: Date)
    requires DatesValid(q) && Refused(q) == None && q.scope == DateRange && q.startAt.None? && Valid(today)
    ensures q.startDate.Some? && q.endDate.Some?
    ensures 0 <= Ordinal(q.endDate.value) - Ordinal(q.startDate.value) < 31
    ensures Resolve(q, zone, today) == Range(q.startDate, AddDays(q.endDate.value, 1))
  {
    OrdinalsAscend(q.endDate.value, q.startDate.value);
    hide Ordinal, Before, Valid, Range, AddDays;
  }

  /** Upcoming covers today and the next `upcoming_days` days: 2 to 32 in all. */
  lemma UpcomingCoversItsDays(q: Query, zone: WallTime.Zone, today: Date, d: Date)
    requires DatesValid(q) && Refused(q) == None && q.scope == Upcoming && Valid(today) && Valid(d)
    ensures var r := Resolve(q, zone, today);
            && (r.None? <==> Ordinal(today) + q.upcomingDays >= MAX_ORDINAL)
            && (r.Some? ==> Days(r.value) && (Covers(r.value, d) <==> 0 <= Ordinal(d) - Ordinal(today) <= q.upcomingDays))
  {
    OrdinalRange(today);
    var r := Resolve(q, zone, today);
    hide Ordinal, Before, Valid;
    if r.Some? { CoversByOrdinal(r.value, d); }
  }

  // ----- the legacy form, over instants

  /** The local day that an instant shows. */
  function DayAt(zone: WallTime.Zone, u: int): int { zone.ToWall(u) / DAY }

  /** The last local day of a window that ends at instant `e`: a local-midnight end belongs to the day before. */
  function LastDay(zone: WallTime.Zone, e: int): int { (zone.ToWall(e) - 1) / DAY }

  ghost predicate ShowsDay(zone: WallTime.Zone, s: int, e: int, n: int) { exists u :: s <= u < e && DayAt(zone, u) == n }

  ghost predicate InDays(w: Window, n: int)
    requires Days(w)
  {
    Ordinal(w.start.value) <= n < Ordinal(w.end.value)
  }

  /** A change of the clock at instant `t` inside the interval from `s` to `e`: it leaves no day after the last one behind,
      it does not go back before the first day, and it does not go over a whole day; at the very end it does not move on
      to another day. */
  predicate ChangeTame(zone: WallTime.Zone, s: int, e: int, t: int) {
    && DayAt(zone, t - 1) <= LastDay(zone, e)
    && if t < e then DayAt(zone, s) <= DayAt(zone, t) <= DayAt(zone, t - 1) + 1 else LastDay(zone, e) <= DayAt(zone, t - 1)
  }

  ghost predicate Changes(zone: WallTime.Zone, t: int) {
    exists k: nat :: k < |zone.transitions| && zone.UtcMark(k) == t
  }

  ghost predicate ClockTame(zone: WallTime.Zone, s: int, e: int) {
    forall t :: s < t <= e && Changes(zone, t) ==> ChangeTame(zone, s, e, t)
  }

  lemma DaysAscend(a: int, b: int)
    requires a <= b
    ensures a / DAY <= b / DAY
  {}

  /** Between changes the clock runs evenly. */
  lemma EvenClock(zone: WallTime.Zone, u: int, v: int)
    requires zone.Spaced() && u <= v && forall t :: u < t <= v ==> !Changes(zone, t)
    ensures zone.ToWall(v) - zone.ToWall(u) == v - u
  {
    var n := |zone.transitions|;
    WallTime.UtcIndexMarks(zone, u, n);
    WallTime.UtcIndexMarks(zone, v, n);
    var i, j := zone.UtcIndex(u, n), zone.UtcIndex(v, n);
    if i < n { assert Changes(zone, zone.UtcMark(i)); }
    if j < n { assert v < zone.UtcMark(j); }
  }

  /** Every wall time before a change is shown before every wall time after it - up to the change itself. */
  lemma WallsBefore(zone: WallTime.Zone, k: nat, v: int)
    requires zone.Spaced() && k < |zone.transitions| && v < zone.UtcMark(k)
    ensures zone.ToWall(v) <= zone.ToWall(zone.UtcMark(k) - 1)
  {
    var n, t := |zone.transitions|, zone.UtcMark(k);
    WallTime.UtcIndexMarks(zone, v, n);
    WallTime.UtcIndexMarks(zone, t - 1, n);
    var i, j := zone.UtcIndex(v, n), zone.UtcIndex(t - 1, n);
    hide WallTime.Zone.UtcIndex, WallTime.Zone.Spaced;
    assert j <= k && t <= zone.UtcMark(j);
    WallTime.MarksAscend(zone, j, k);
    assert i <= j;
    if i < j {
      assert v < zone.UtcMark(i);
      WallTime.MarksAscend(zone, i, j);
      assert zone.ToWall(v) < zone.WallMark(0, i);
    }
  }

  lemma WallsAfter(zone: WallTime.Zone, k: nat, v: int)
    requires zone.Spaced() && k < |zone.transitions| && zone.UtcMark(k) <= v
    ensures zone.ToWall(zone.UtcMark(k)) <= zone.ToWall(v)
  {
    hide WallTime.Zone.UtcIndex, WallTime.Zone.Spaced, WallTime.Zone.Offset;
    var n, t := |zone.transitions|, zone.UtcMark(k);
    WallTime.UtcIndexMarks(zone, v, n);
    WallTime.UtcIndexMarks(zone, t, n);
    var l, m := zone.UtcIndex(t, n), zone.UtcIndex(v, n);
    assert k < l;
    WallTime.MarksAscend(zone, k, l - 1);
    assert zone.UtcMark(l - 1) == t;
    assert l <= m;
    if l < m {
      MarkedWalls(zone, l - 1, m - 1);
    }
  }

  /** What the clock shows at a change comes before what it shows at a later one. */
  lemma MarkedWalls(zone: WallTime.Zone, i: nat, j: nat)
    requires zone.Spaced() && i < j < |zone.transitions|
    ensures zone.UtcMark(i) + zone.Offset(i + 1) <= zone.UtcMark(j) + zone.Offset(j + 1)
  {
    hide WallTime.Zone.Spaced;
    WallTime.MarksAscend(zone, i, j);
    assert zone.UtcMark(i) + zone.Offset(i + 1) <= zone.WallMark(0, i);
    assert zone.WallMark(1, j) <= zone.UtcMark(j) + zone.Offset(j + 1);
  }

  /** The last change up to an instant, when there is one since another. */
  lemma LastChange(zone: WallTime.Zone, u: int, v: int) returns (t: int)
    requires zone.Spaced() && u <= v && exists x :: u < x <= v && Changes(zone, x)
    ensures u < t <= v && Changes(zone, t) && forall x :: t < x <= v ==> !Changes(zone, x)
    decreases v - u
  {
    if Changes(zone, v) && u < v {
      t := v;
    } else {
      t := LastChange(zone, u, v - 1);
    }
  }

  lemma FirstChange(zone: WallTime.Zone, u: int, v: int) returns (t: int)
    requires zone.Spaced() && u <= v && exists x :: u < x <= v && Changes(zone, x)
    ensures u < t <= v && Changes(zone, t) && forall x :: u < x < t ==> !Changes(zone, x)
    decreases v - u
  {
    if Changes(zone, u + 1) {
      t := u + 1;
    } else {
      t := FirstChange(zone, u + 1, v);
    }
  }

  lemma ShownLiesWithin(zone: WallTime.Zone, s: int, e: int, u: int)
    requires zone.Spaced() && s <= u < e && ClockTame(zone, s, e)
    ensures DayAt(zone, s) <= DayAt(zone, u) <= LastDay(zone, e)
  {
    hide WallTime.Zone.ToWall, WallTime.Zone.Spaced, Changes;
    if exists x :: s < x <= u && Changes(zone, x) {
      var t := LastChange(zone, s, u);
      EvenClock(zone, t, u);
      DaysAscend(zone.ToWall(t), zone.ToWall(u));
      assert ChangeTame(zone, s, e, t);
    } else {
      EvenClock(zone, s, u);
      DaysAscend(zone.ToWall(s), zone.ToWall(u));
    }
    if exists x :: u < x <= e && Changes(zone, x) {
      var t := FirstChange(zone, u, e);
      EvenClock(zone, u, t - 1);
      DaysAscend(zone.ToWall(u), zone.ToWall(t - 1));
      assert ChangeTame(zone, s, e, t);
    } else {
      EvenClock(zone, u, e);
      DaysAscend(zone.ToWall(u), zone.ToWall(e) - 1);
    }
  }

  /** Going on from the first day no day up to the present one is left out. */
  lemma {:induction false} NoDayLeftOut(zone: WallTime.Zone, s: int, e: int, v: int, n: int)
    requires zone.Spaced() && s < v <= e && ClockTame(zone, s, e) && DayAt(zone, s) <= n <= DayAt(zone, v - 1)
    ensures ShowsDay(zone, s, v, n)
    decreases v - s
  {
    hide WallTime.Zone.ToWall, WallTime.Zone.Spaced, Changes;
    if v == s + 1 {
      assert DayAt(zone, s) == n;
    } else if n <= DayAt(zone, v - 2) {
      NoDayLeftOut(zone, s, e, v - 1, n);
      var u :| s <= u < v - 1 && DayAt(zone, u) == n;
      assert s <= u < v;
    } else {
      if Changes(zone, v - 1) {
        assert ChangeTame(zone, s, e, v - 1);
      } else {
        EvenClock(zone, v - 2, v - 1);
        DaysAscend(zone.ToWall(v - 1), zone.ToWall(v - 2) + DAY);
      }
      assert DayAt(zone, v - 1) == n;
    }
  }

  lemma EndReached(zone: WallTime.Zone, s: int, e: int)
    requires zone.Spaced() && s < e && ClockTame(zone, s, e)
    ensures LastDay(zone, e) <= DayAt(zone, e - 1)
  {
    hide WallTime.Zone.ToWall, WallTime.Zone.Spaced, Changes;
    if Changes(zone, e) {
      assert ChangeTame(zone, s, e, e);
    } else {
      EvenClock(zone, e - 1, e);
    }
  }

  /** The days from the first to the last are the shown ones. */
  ghost predicate DaysMatch(zone: WallTime.Zone, s: int, e: int) {
    forall n :: DayAt(zone, s) <= n <= LastDay(zone, e) <==> ShowsDay(zone, s, e, n)
  }

  lemma TameMatches(zone: WallTime.Zone, s: int, e: int)
    requires zone.Spaced() && s < e && ClockTame(zone, s, e)
    ensures DaysMatch(zone, s, e)
  {
    hide ClockTame, DayAt, LastDay;
    EndReached(zone, s, e);
    forall n
      ensures DayAt(zone, s) <= n <= LastDay(zone, e) <==> ShowsDay(zone, s, e, n)
    {
      if ShowsDay(zone, s, e, n) {
        var u :| s <= u < e && DayAt(zone, u) == n;
        ShownLiesWithin(zone, s, e, u);
      }
      if DayAt(zone, s) <= n <= LastDay(zone, e) {
        NoDayLeftOut(zone, s, e, e, n);
      }
    }
  }

  lemma MatchingIsTame(zone: WallTime.Zone, s: int, e: int, k: nat)
    requires zone.Spaced() && DaysMatch(zone, s, e) && k < |zone.transitions| && s < zone.UtcMark(k) <= e
    ensures ChangeTame(zone, s, e, zone.UtcMark(k))
  {
    hide WallTime.Zone.ToWall, WallTime.Zone.Spaced;
    var t := zone.UtcMark(k);
    var before, after, last := DayAt(zone, t - 1), DayAt(zone, t), LastDay(zone, e);
    assert s <= t - 1 < e && ShowsDay(zone, s, e, before);
    WallsBefore(zone, k, s);
    DaysAscend(zone.ToWall(s), zone.ToWall(t - 1));
    if t < e {
      assert ShowsDay(zone, s, e, after);
      WallsAfter(zone, k, e);
      if after > before + 1 {
        assert ShowsDay(zone, s, e, before + 1) by { assert before + 1 <= last; }
        NotShownAcross(zone, s, e, k, before + 1);
      }
    } else if last > before {
      assert ShowsDay(zone, s, e, last);
      NotShownAcross(zone, s, e, k, last);
    }
  }

  /** A day the clock goes over is shown by no instant of the interval. */
  lemma NotShownAcross(zone: WallTime.Zone, s: int, e: int, k: nat, n: int)
    requires zone.Spaced() && k < |zone.transitions| && s < zone.UtcMark(k) <= e
    requires DayAt(zone, zone.UtcMark(k) - 1) < n && (zone.UtcMark(k) < e ==> n < DayAt(zone, zone.UtcMark(k)))
    ensures !ShowsDay(zone, s, e, n)
  {
    hide WallTime.Zone.ToWall, WallTime.Zone.Spaced;
    var t := zone.UtcMark(k);
    forall u | s <= u < e
      ensures DayAt(zone, u) != n
    {
      if u < t {
        WallsBefore(zone, k, u);
        DaysAscend(zone.ToWall(u), zone.ToWall(t - 1));
      } else {
        WallsAfter(zone, k, u);
        DaysAscend(zone.ToWall(t), zone.ToWall(u));
      }
    }
  }

  lemma MatchIffTame(zone: WallTime.Zone, s: int, e: int)
    requires zone.Spaced() && s < e
    ensures DaysMatch(zone, s, e) <==> ClockTame(zone, s, e)
  {
    hide ChangeTame;
    if ClockTame(zone, s, e) { TameMatches(zone, s, e); }
    if DaysMatch(zone, s, e) {
      forall t | s < t <= e && Changes(zone, t)
        ensures ChangeTame(zone, s, e, t)
      {
        var k: nat :| k < |zone.transitions| && zone.UtcMark(k) == t;
        MatchingIsTame(zone, s, e, k);
      }
    }
  }

  /** Which window an accepted interval of instants resolves to: from the local day of its start to that of its end, which
      is left out when the end is a local midnight; refused exactly outside the calendar. */
  lemma InstantRangeResolved(q: Query, zone: WallTime.Zone, today: Date)
    requires DatesValid(q) && Refused(q) == None && q.scope == DateRange && q.startAt.Some? && Valid(today)
    ensures q.endAt.Some? && q.startAt.value < q.endAt.value <= q.startAt.value + 31 * DAY
    ensures var r, s, e := Resolve(q, zone, today), q.startAt.value, q.endAt.value;
            && (r.Some? <==> 1 <= DayAt(zone, s) <= MAX_ORDINAL && 1 <= DayAt(zone, e) <= MAX_ORDINAL && LastDay(zone, e) < MAX_ORDINAL)
            && (r.Some? ==> Days(r.value) && Ordinal(r.value.start.value) == DayAt(zone, s)
                            && Ordinal(r.value.end.value) == LastDay(zone, e) + 1)
  {
    hide Ordinal, Valid, WallTime.Zone.ToWall, FromOrdinal, AddDays;
    var endWall := zone.ToWall(q.endAt.value);
    assert endWall % DAY == 0 ==> (endWall - 1) / DAY == endWall / DAY - 1;
    assert endWall % DAY != 0 ==> (endWall - 1) / DAY == endWall / DAY;
  }

  /** When an accepted interval of instants covers exactly the local days that its instants show: if and only if every
      change of the clock within it is tame. */
  lemma InstantRangeCoversItsDays(q: Query, zone: WallTime.Zone, today: Date)
    requires DatesValid(q) && Refused(q) == None && q.scope == DateRange && q.startAt.Some? && Valid(today)
    requires zone.Spaced() && Resolve(q, zone, today).Some?
    ensures Days(Resolve(q, zone, today).value) && q.endAt.Some?
    ensures (forall n :: InDays(Resolve(q, zone, today).value, n) <==> ShowsDay(zone, q.startAt.value, q.endAt.value, n))
            <==> ClockTame(zone, q.startAt.value, q.endAt.value)
  {
    InstantRangeResolved(q, zone, today);
    hide Resolve, Refused, Ordinal, Valid, ClockTame, ShowsDay, DayAt, LastDay;
    MatchIffTame(zone, q.startAt.value, q.endAt.value);
    var w := Resolve(q, zone, today).value;
    assert forall n :: InDays(w, n) <==> DayAt(zone, q.startAt.value) <= n <= LastDay(zone, q.endAt.value);
  }

  const HOUR := 3_600_000_000

  /** The witness: a clock that goes back from one to midnight on day `n`. The half hour before it resolves to a window
      without days, though its instants show day `n`; the hour and a half before it misses day `n`. */
  lemma FoldAcrossMidnight(n: int)
    requires 2 <= n < MAX_ORDINAL
    ensures var t := n * DAY + HOUR;
            var zone := WallTime.Zone(0, [WallTime.Transition(t, -HOUR)]);
            && DayAt(zone, t - HOUR / 2) == n && LastDay(zone, t) == n - 1
            && (forall u :: t - HOUR / 2 <= u < t ==> DayAt(zone, u) == n)
            && DayAt(zone, t - HOUR - HOUR / 2) == n - 1
            && !ClockTame(zone, t - HOUR / 2, t) && !ClockTame(zone, t - HOUR - HOUR / 2, t)
  {
    var t := n * DAY + HOUR;
    var zone := WallTime.Zone(0, [WallTime.Transition(t, -HOUR)]);
    assert zone.UtcMark(0) == t;
    assert Changes(zone, t);
    forall u
      ensures zone.ToWall(u) == if u < t then u else u - HOUR
    {
      assert zone.UtcIndex(u, 1) == if t <= u then 1 else zone.UtcIndex(u, 0);
    }
    hide WallTime.Zone.ToWall;
    assert (t - 1) / DAY == n && (t - HOUR - 1) / DAY == n - 1;
    assert !ChangeTame(zone, t - HOUR / 2, t, t) && !ChangeTame(zone, t - HOUR - HOUR / 2, t, t);
  }

  /** Through the resolver: the accepted half hour before that change covers no day at all. */
  lemma FoldedWindowIsEmpty(n: int, today: Date, d: Date)
    requires 2 <= n < MAX_ORDINAL && Valid(today) && Valid(d)
    ensures var t := n * DAY + HOUR;
            var zone := WallTime.Zone(0, [WallTime.Transition(t, -HOUR)]);
            var q := Query(DateRange, None, None, Some(t - HOUR / 2), Some(t), DEFAULT_UPCOMING_DAYS);
            && DatesValid(q) && Refused(q) == None
            && Resolve(q, zone, today).Some? && !Covers(Resolve(q, zone, today).value, d)
  {
    hide Refused, Resolve, Valid, Ordinal, WallTime.Zone.ToWall, Covers, DayAt;
    var t := n * DAY + HOUR;
    var zone := WallTime.Zone(0, [WallTime.Transition(t, -HOUR)]);
    var q := Query(DateRange, None, None, Some(t - HOUR / 2), Some(t), DEFAULT_UPCOMING_DAYS);
    HalfHourAccepted(t);
    FoldAcrossMidnight(n);
    DayAtEnd(zone, t, n);
    InstantRangeResolved(q, zone, today);
    CoversByOrdinal(Resolve(q, zone, today).value, d);
  }

  lemma HalfHourAccepted(t: int)
    ensures var q := Query(DateRange, None, None, Some(t - HOUR / 2), Some(t), DEFAULT_UPCOMING_DAYS);
            DatesValid(q) && Refused(q) == None
  {}

  lemma DayAtEnd(zone: WallTime.Zone, e: int, n: int)
    requires zone == WallTime.Zone(0, [WallTime.Transition(e, -HOUR)]) && e == n * DAY + HOUR
    ensures DayAt(zone, e) == n
  {
    assert zone.UtcMark(0) == e && zone.UtcIndex(e, 1) == 1;
    assert zone.ToWall(e) == n * DAY;
  }
}
