/** An action item's temporal value, written to a Notion date property and parsed back
    (`app/connectors/notion.py`, `app/agents/action_items.py`). Texts of dates and of instants are taken as
    the values they spell. */
module NotionTemporal {
  import opened Prelude
  import opened Gregorian
  import WallTime

  datatype TemporalValue =
    | DateOnly(startDate: Date, endDateExclusive: Option<Date>)
    | Timed(startAt: int, endAt: Option<int>, timezone: string)

  datatype Part = Day(date: Date) | Time(moment: WallTime.Moment)

  /** `{"start": ..., "end": ..., "time_zone": ...}`. */
  datatype DateProperty = DateProperty(start: Part, end: Option<Part>, timeZone: Option<string>)

  datatype ParseError =
    UnknownZone | EndMustBeDate | EndMustBeTimed | BadWallTime(error: WallTime.TimeError) | PastLastDay | NotOrdered

  /** The zones `ZoneInfo` knows. */
  type Zones = map<string, WallTime.Zone>

  predicate PartValid(p: Part) { p.Day? ==> Valid(p.date) }

  /** The models' own validators. */
  predicate Legal(zones: Zones, v: TemporalValue) {
    match v
    case DateOnly(start, end) => Valid(start) && (end.Some? ==> Valid(end.value) && Before(start, end.value))
    case Timed(start, end, timezone) => (end.Some? ==> start < end.value) && timezone in zones && timezone != ""
  }

  /** `_action_item_temporal_property_value`. */
  function Write(zones: Zones, v: TemporalValue): (p: DateProperty)
    requires Legal(zones, v)
  {
    match v
    case DateOnly(start, None) => DateProperty(Day(start), None, None)
    case DateOnly(start, Some(end)) =>
      InclusiveEnd(start, end);
      DateProperty(Day(start), Some(Day(AddDays(end, -1).value)), None)
    case Timed(start, end, timezone) =>
      DateProperty(Time(WallTime.Aware(start)), if end.None? then None else Some(Time(WallTime.Aware(end.value))), Some(timezone))
  }

  lemma InclusiveEnd(start: Date, end: Date)
    requires Valid(start) && Valid(end) && Before(start, end)
    ensures AddDays(end, -1).Some? && Ordinal(start) <= Ordinal(AddDays(end, -1).value)
  {
    OrdinalsAscend(start, end);
    OrdinalRange(start);
    OrdinalRange(end);
    hide Ordinal, Before, Valid;
  }

  /** `parse_notion_temporal_value`. */
  function Parse(zones: Zones, p: DateProperty, defaultZone: string): Result<TemporalValue, ParseError>
    requires PartValid(p.start) && (p.end.Some? ==> PartValid(p.end.value))
  {
    var name := if p.timeZone.None? || p.timeZone.value == "" then defaultZone else p.timeZone.value;
    if name !in zones then Err(UnknownZone)
    else match p.start
      case Day(start) =>
        if p.end.None? then Ok(DateOnly(start, None))
        else if p.end.value.Time? then Err(EndMustBeDate)
        else ParseDays(start, p.end.value.date)
      case Time(start) =>
        if p.end.Some? && p.end.value.Day? then Err(EndMustBeTimed)
        else ParseTimes(zones[name], start, if p.end.None? then None else Some(p.end.value.moment), name)
  }

  function ParseDays(start: Date, end: Date): Result<TemporalValue, ParseError>
    requires Valid(start) && Valid(end)
  {
    var exclusive := AddDays(end, 1);
    if exclusive.None? then Err(PastLastDay)
    else if !Before(start, exclusive.value) then Err(NotOrdered)
    else Ok(DateOnly(start, exclusive))
  }

  function ParseTimes(zone: WallTime.Zone, start: WallTime.Moment, end: Option<WallTime.Moment>, name: string)
      : Result<TemporalValue, ParseError>
  {
    match WallTime.ToUtc(zone, start)
    case Err(e) => Err(BadWallTime(e))
    case Ok(startAt) =>
      match end
      case None => Ok(Timed(startAt, None, name))
      case Some(m) =>
        match WallTime.ToUtc(zone, m)
        case Err(e) => Err(BadWallTime(e))
        case Ok(endAt) => if endAt <= startAt then Err(NotOrdered) else Ok(Timed(startAt, Some(endAt), name))
  }

  /** What is parsed is legal, so it can be written again. */
  lemma ParsedIsLegal(zones: Zones, p: DateProperty, defaultZone: string)
    requires PartValid(p.start) && (p.end.Some? ==> PartValid(p.end.value)) && defaultZone != ""
    ensures Parse(zones, p, defaultZone).Ok? ==> Legal(zones, Parse(zones, p, defaultZone).value)
  {
    hide Ordinal, Valid, Before, AddDays, WallTime.ToUtc;
  }

  /** Every legal value written to Notion parses back to itself: the day-shifted end of a date-only range and
      back, or the same instants and zone. */
  lemma WrittenReadsBack(zones: Zones, v: TemporalValue, defaultZone: string)
    requires Legal(zones, v) && defaultZone in zones
    ensures PartValid(Write(zones, v).start) && (Write(zones, v).end.Some? ==> PartValid(Write(zones, v).end.value))
    ensures Parse(zones, Write(zones, v), defaultZone) == Ok(v)
  {
    if v.DateOnly? && v.endDateExclusive.Some? {
      var start, end := v.startDate, v.endDateExclusive.value;
      InclusiveEnd(start, end);
      OrdinalRange(end);
      var last := AddDays(end, -1).value;
      var again := AddDays(last, 1);
      OrdinalsAscend(again.value, end);
      hide Ordinal, Valid, Before, AddDays;
    } else {
      hide Ordinal, Valid, Before, AddDays;
    }
  }

  /** A date-only range is accepted exactly when its end is not before its start and is not the calendar's
      last day; the value then covers the days from start to end, both included. */
  lemma DaysAccepted(start: Date, end: Date, d: Date)
    requires Valid(start) && Valid(end) && Valid(d)
    ensures ParseDays(start, end).Ok? <==> !Before(end, start) && end != Date(MAX_YEAR, 12, 31)
    ensures ParseDays(start, end).Ok? ==>
              var v := ParseDays(start, end).value;
              v.DateOnly? && v.startDate == start && v.endDateExclusive.Some? && Valid(v.endDateExclusive.value)
              && (Before(d, v.endDateExclusive.value) <==> !Before(end, d))
  {
    OrdinalRange(start);
    OrdinalRange(end);
    LastOrdinal();
    LastDateIsValid();
    OrdinalsAscend(end, Date(MAX_YEAR, 12, 31));
    OrdinalsAscend(end, start);
    OrdinalsAscend(end, d);
    var exclusive := AddDays(end, 1);
    if exclusive.Some? {
      OrdinalsAscend(start, exclusive.value);
      OrdinalsAscend(d, exclusive.value);
    }
    hide Ordinal, Valid, Before, AddDays;
  }

  /** The zone a property is read in: its own when it names one, else the default. */
  lemma ReadInItsZone(zones: Zones, p: DateProperty, defaultZone: string)
    requires PartValid(p.start) && (p.end.Some? ==> PartValid(p.end.value))
    requires p.start.Time? && forall name :: name in zones ==> zones[name].Spaced()
    ensures var r := Parse(zones, p, defaultZone);
            var name := if p.timeZone.Some? && p.timeZone.value != "" then p.timeZone.value else defaultZone;
            && (r == Err(UnknownZone) <==> name !in zones)
            && (r == Err(EndMustBeTimed) <==> name in zones && p.end.Some? && p.end.value.Day?)
            && (r.Ok? ==>
                  && r.value.Timed? && r.value.timezone == name && Names(zones[name], p.start.moment, r.value.startAt)
                  && (r.value.endAt.Some? <==> p.end.Some?)
                  && (p.end.Some? ==> Names(zones[name], p.end.value.moment, r.value.endAt.value) && r.value.startAt < r.value.endAt.value))
            && (r.Ok? <==>
                  && name in zones && (p.end.Some? ==> p.end.value.Time?)
                  && exists s :: Names(zones[name], p.start.moment, s)
                       && (p.end.Some? ==> exists e :: Names(zones[name], p.end.value.moment, e) && s < e))
  {
    var name := if p.timeZone.Some? && p.timeZone.value != "" then p.timeZone.value else defaultZone;
    if name in zones {
      MomentIsDecided(zones[name], p.start.moment);
      NamedOnce(zones[name], p.start.moment);
      if p.end.Some? && p.end.value.Time? {
        MomentIsDecided(zones[name], p.end.value.moment);
        NamedOnce(zones[name], p.end.value.moment);
      }
    }
    hide WallTime.ToUtc, Names, Ordinal, Valid, WallTime.Zone.Spaced;
  }

  /** The instant a moment names: its own, or the only one that shows its wall time in the zone. */
  ghost predicate Names(zone: WallTime.Zone, m: WallTime.Moment, u: int) {
    match m
    case Aware(instant) => u == instant
    case Naive(wall, _) => zone.ToWall(u) == wall && forall v :: zone.ToWall(v) == wall ==> v == u
  }

  lemma NamedOnce(zone: WallTime.Zone, m: WallTime.Moment)
    ensures forall u, v :: Names(zone, m, u) && Names(zone, m, v) ==> u == v
  {}

  lemma MomentIsDecided(zone: WallTime.Zone, m: WallTime.Moment)
    requires zone.Spaced()
    ensures WallTime.ToUtc(zone, m).Ok? <==> exists u :: Names(zone, m, u)
    ensures WallTime.ToUtc(zone, m).Ok? ==> Names(zone, m, WallTime.ToUtc(zone, m).value)
  {
    match m
    case Aware(u) =>
      assert Names(zone, m, u);
    case Naive(w, fold) =>
      WallTime.WallTimeIsDecided(zone, w, fold);
      hide WallTime.ToUtc;
      if WallTime.ToUtc(zone, m).Ok? { assert Names(zone, m, WallTime.ToUtc(zone, m).value); }
      if u :| Names(zone, m, u) { assert WallTime.ToUtc(zone, m) == Ok(u); }
  }

  /** A date-only property reads as its days; its parts must be of one kind. */
  lemma DaysAreRead(zones: Zones, p: DateProperty, defaultZone: string)
    requires PartValid(p.start) && (p.end.Some? ==> PartValid(p.end.value)) && p.start.Day?
    ensures var r := Parse(zones, p, defaultZone);
            var name := if p.timeZone.Some? && p.timeZone.value != "" then p.timeZone.value else defaultZone;
            && (r == Err(UnknownZone) <==> name !in zones)
            && (name in zones ==>
                  && (p.end.None? ==> r == Ok(DateOnly(p.start.date, None)))
                  && (p.end.Some? && p.end.value.Time? ==> r == Err(EndMustBeDate))
                  && (p.end.Some? && p.end.value.Day? ==>
                        && (r.Ok? <==> !Before(p.end.value.date, p.start.date) && p.end.value.date != Date(9999, 12, 31))
                        && (r == Err(PastLastDay) <==> p.end.value.date == Date(9999, 12, 31))
                        && (r.Err? && r != Err(PastLastDay) ==> r == Err(NotOrdered))))
  {
    if p.end.Some? && p.end.value.Day? {
      DaysAccepted(p.start.date, p.end.value.date, p.start.date);
      OnlyTheLastDay(p.end.value.date);
    }
    hide Ordinal, Valid, Before, AddDays;
  }

  lemma OnlyTheLastDay(d: Date)
    requires Valid(d)
    ensures AddDays(d, 1).None? <==> d == Date(9999, 12, 31)
  {
    OrdinalRange(d);
    LastOrdinal();
    LastDateIsValid();
    OrdinalsAscend(d, Date(MAX_YEAR, 12, 31));
    hide Ordinal, Valid, Before;
  }

  /** Why two times are refused: the first of them that names no instant, as nonexistent when none shows it and as
      ambiguous when two do; else that the end is not after the start. */
  lemma TimesRefused(zone: WallTime.Zone, start: WallTime.Moment, end: Option<WallTime.Moment>, name: string)
    requires zone.Spaced()
    ensures var r := ParseTimes(zone, start, end, name);
            && (forall u, v :: Names(zone, start, u) && end.Some? && Names(zone, end.value, v) ==>
                  if u < v then r == Ok(Timed(u, Some(v), name)) else r == Err(NotOrdered))
            && (Refused(zone, start) ==> RefusedAs(zone, start, r))
            && (!Refused(zone, start) && end.Some? && Refused(zone, end.value) ==> RefusedAs(zone, end.value, r))
  {
    MomentIsRefused(zone, start);
    if end.Some? { MomentIsRefused(zone, end.value); }
    hide WallTime.ToUtc, Names, RefusedAs, WallTime.Zone.Spaced;
  }

  ghost predicate Refused(zone: WallTime.Zone, m: WallTime.Moment) { forall u :: !Names(zone, m, u) }

  /** A wall time is refused as nonexistent when no instant shows it, and as ambiguous when two do. */
  ghost predicate RefusedAs(zone: WallTime.Zone, m: WallTime.Moment, r: Result<TemporalValue, ParseError>) {
    && m.Naive?
    && ((forall u :: zone.ToWall(u) != m.wall) ==> r == Err(BadWallTime(WallTime.DoesNotExist)))
    && (forall u, v :: u != v && zone.ToWall(u) == m.wall == zone.ToWall(v) ==> r == Err(BadWallTime(WallTime.IsAmbiguous)))
  }

  lemma MomentIsRefused(zone: WallTime.Zone, m: WallTime.Moment)
    requires zone.Spaced()
    ensures var answer := WallTime.ToUtc(zone, m);
            && (answer.Err? <==> Refused(zone, m))
            && (forall u :: Names(zone, m, u) ==> answer == Ok(u))
            && (answer.Err? ==> forall value: Result<TemporalValue, ParseError> :: value == Err(BadWallTime(answer.error)) ==> RefusedAs(zone, m, value))
  {
    MomentIsDecided(zone, m);
    NamedOnce(zone, m);
    if m.Naive? {
      WallTime.WallTimeIsDecided(zone, m.wall, m.fold);
    }
    hide WallTime.ToUtc, WallTime.Zone.Spaced;
  }

  lemma LastDateIsValid()
    ensures Valid(Date(MAX_YEAR, 12, 31))
  {}
}
