/** VEVENT brackets (section 3.6.1 of RFC 5545) and the whole reader: printing any calendar with
    any folding and reading it back returns exactly the properties of each event. */
module IcsEvents {
  import opened Prelude
  import opened IcsText

  // ----- one event: its properties, grouped by name

  /** `_RawEvent.properties`: the properties of each name, in order. */
  function Group(props: seq<Property>): map<string, seq<Property>> {
    if props == [] then map[]
    else
      var before, last := Group(props[..|props| - 1]), props[|props| - 1];
      Add(before, last)
  }

  function ParseLines(up: Casing, lines: seq<string>): Option<seq<Property>> {
    if lines == [] then Some([])
    else match ParseLines(up, lines[..|lines| - 1])
      case None => None
      case Some(props) =>
        match ParseProperty(up, lines[|lines| - 1])
        case None => None
        case Some(prop) => Some(props + [prop])
  }

  function Add(properties: map<string, seq<Property>>, prop: Property): map<string, seq<Property>> {
    properties[prop.name := (if prop.name in properties then properties[prop.name] else []) + [prop]]
  }

  lemma ReadOneMore(up: Casing, lines: seq<string>, i: nat, props: seq<Property>)
    requires i < |lines| && ParseLines(up, lines[..i]) == Some(props)
    ensures match ParseProperty(up, lines[i]) {
              case None => ParseLines(up, lines[..i + 1]) == None
              case Some(p) => ParseLines(up, lines[..i + 1]) == Some(props + [p]) && Group(props + [p]) == Add(Group(props), p)
            }
  {
    hide ParseProperty;
    assert lines[..i + 1][..i] == lines[..i];
    if ParseProperty(up, lines[i]).Some? {
      assert (props + [ParseProperty(up, lines[i]).value])[..|props|] == props;
    }
  }

  method ReadEvent(up: Casing, lines: seq<string>) returns (r: Option<map<string, seq<Property>>>)
    ensures r == match ParseLines(up, lines) { case None => None case Some(props) => Some(Group(props)) }
  {
    hide ParseProperty, ParseLines, Group, Add;
    assert ParseLines(up, lines[..0]) == Some([]) && Group([]) == map[] by {
      NothingRead(up, lines);
    }
    var properties: map<string, seq<Property>> := map[];
    ghost var props: seq<Property> := [];
    for i := 0 to |lines|
      invariant ParseLines(up, lines[..i]) == Some(props) && properties == Group(props)
    {
      ReadOneMore(up, lines, i, props);
      var prop := ReadProperty(up, lines[i]);
      if prop.None? {
        FailedPrefix(up, lines, i + 1);
        return None;
      }
      properties := Add(properties, prop.value);
      props := props + [prop.value];
    }
    assert lines[..|lines|] == lines;
    return Some(properties);
  }

  lemma NothingRead(up: Casing, lines: seq<string>)
    ensures ParseLines(up, lines[..0]) == Some([]) && Group([]) == map[]
  {
  }

  lemma {:induction false} FailedPrefix(up: Casing, lines: seq<string>, n: nat)
    requires n <= |lines| && ParseLines(up, lines[..n]) == None
    ensures ParseLines(up, lines) == None
    decreases |lines|
  {
    if n < |lines| {
      var init := lines[..|lines| - 1];
      assert init[..n] == lines[..n];
      FailedPrefix(up, init, n);
    } else {
      assert lines[..n] == lines;
    }
  }

  /** Grouping loses nothing: under each name stand exactly its properties, in order. */
  function Named(props: seq<Property>, name: string): seq<Property> {
    if props == [] then []
    else
      var before, last := Named(props[..|props| - 1], name), props[|props| - 1];
      if last.name == name then before + [last] else before
  }

  lemma {:induction false} GroupIsNamed(props: seq<Property>, name: string)
    ensures (if name in Group(props) then Group(props)[name] else []) == Named(props, name)
    ensures name in Group(props) <==> Named(props, name) != []
    decreases |props|
  {
    if props != [] {
      GroupIsNamed(props[..|props| - 1], name);
    }
  }

  // ----- brackets

  datatype Keyword = BeginCalendar | EndCalendar | BeginEvent | EndEvent | Plain

  function KeywordOf(up: Casing, line: string): Keyword {
    var upper := up(line);
    if upper == "BEGIN:VCALENDAR" then BeginCalendar
    else if upper == "END:VCALENDAR" then EndCalendar
    else if upper == "BEGIN:VEVENT" then BeginEvent
    else if upper == "END:VEVENT" then EndEvent
    else Plain
  }

  /** The flags and lists of the bracket loop. `events` holds the lines of finished events. */
  datatype Brackets = Brackets(inCalendar: bool, inEvent: bool, lines: seq<string>, events: seq<seq<string>>)

  function Step(up: Casing, b: Brackets, line: string): Option<Brackets> {
    match KeywordOf(up, line)
    case BeginCalendar => if b.inCalendar then None else Some(b.(inCalendar := true))
    case EndCalendar => if !b.inCalendar || b.inEvent then None else Some(b.(inCalendar := false))
    case BeginEvent => if !b.inCalendar || b.inEvent then None else Some(b.(inEvent := true, lines := []))
    case EndEvent =>
      if !b.inCalendar || !b.inEvent then None
      else Some(b.(inEvent := false, lines := [], events := b.events + [b.lines]))
    case Plain =>
      if !b.inCalendar then None else if b.inEvent then Some(b.(lines := b.lines + [line])) else Some(b)
  }

  function Steps(up: Casing, b: Brackets, lines: seq<string>): Option<Brackets>
    decreases |lines|
  {
    if lines == [] then Some(b)
    else match Step(up, b, lines[0]) case None => None case Some(next) => Steps(up, next, lines[1..])
  }

  const OUTSIDE := Brackets(false, false, [], [])

  /** The lines of each event, or nothing for malformed brackets. */
  function EventLines(up: Casing, lines: seq<string>): Option<seq<seq<string>>> {
    if lines == [] || KeywordOf(up, lines[0]) != BeginCalendar then None
    else match Steps(up, OUTSIDE, lines)
      case None => None
      case Some(b) => if b.inCalendar || b.inEvent then None else Some(b.events)
  }

  method ReadBrackets(up: Casing, lines: seq<string>) returns (r: Option<seq<seq<string>>>)
    ensures r == EventLines(up, lines)
  {
    hide KeywordOf;
    if lines == [] || KeywordOf(up, lines[0]) != BeginCalendar {
      return None;
    }
    var inCalendar, inEvent := false, false;
    var eventLines: seq<string>, events: seq<seq<string>> := [], [];
    for i := 0 to |lines|
      invariant Steps(up, OUTSIDE, lines) == Steps(up, Brackets(inCalendar, inEvent, eventLines, events), lines[i..])
    {
      var line := lines[i];
      assert lines[i..][0] == line && lines[i..][1..] == lines[i + 1..];
      var keyword := KeywordOf(up, line);
      if keyword == BeginCalendar {
        if inCalendar {
          return None;
        }
        inCalendar := true;
      } else if keyword == EndCalendar {
        if !inCalendar || inEvent {
          return None;
        }
        inCalendar := false;
      } else if !inCalendar {
        return None;
      } else if keyword == BeginEvent {
        if inEvent {
          return None;
        }
        inEvent, eventLines := true, [];
      } else if keyword == EndEvent {
        if !inEvent {
          return None;
        }
        events, inEvent, eventLines := events + [eventLines], false, [];
      } else if inEvent {
        eventLines := eventLines + [line];
      }
    }
    if inCalendar || inEvent {
      return None;
    }
    return Some(events);
  }

  // ----- the grammar of brackets

  /** An event as it is written: other lines, the opening line, its own lines, the closing line. */
  datatype Entry = Entry(before: seq<string>, begin: string, event: seq<string>, end: string)

  datatype Calendar = Calendar(open: string, entries: seq<Entry>, after: seq<string>, close: string)

  ghost predicate PlainLine(up: Casing, line: string) {
    up(line) !in {"BEGIN:VCALENDAR", "END:VCALENDAR", "BEGIN:VEVENT", "END:VEVENT"}
  }

  ghost predicate AllPlain(up: Casing, lines: seq<string>) {
    forall i :: 0 <= i < |lines| ==> PlainLine(up, lines[i])
  }

  ghost predicate GoodEntry(up: Casing, e: Entry) {
    AllPlain(up, e.before) && up(e.begin) == "BEGIN:VEVENT" && AllPlain(up, e.event) && up(e.end) == "END:VEVENT"
  }

  ghost predicate GoodEntries(up: Casing, entries: seq<Entry>) {
    forall i :: 0 <= i < |entries| ==> GoodEntry(up, entries[i])
  }

  /** Opened, closed, and in between plain lines and events that are opened, closed and hold plain lines only. */
  ghost predicate GoodCalendar(up: Casing, c: Calendar) {
    up(c.open) == "BEGIN:VCALENDAR" && GoodEntries(up, c.entries) && AllPlain(up, c.after) && up(c.close) == "END:VCALENDAR"
  }

  ghost predicate GoodCalendars(up: Casing, cs: seq<Calendar>) {
    forall i :: 0 <= i < |cs| ==> GoodCalendar(up, cs[i])
  }

  function EntryLines(entries: seq<Entry>): seq<string> {
    if entries == [] then []
    else entries[0].before + [entries[0].begin] + entries[0].event + [entries[0].end] + EntryLines(entries[1..])
  }

  function CalendarLines(c: Calendar): seq<string> {
    [c.open] + EntryLines(c.entries) + c.after + [c.close]
  }

  function EventsOf(entries: seq<Entry>): seq<seq<string>> {
    if entries == [] then [] else [entries[0].event] + EventsOf(entries[1..])
  }

  /** Calendars laid end to end, and the lines of all their events. */
  function AllLines(cs: seq<Calendar>): seq<string> {
    if cs == [] then [] else CalendarLines(cs[0]) + AllLines(cs[1..])
  }

  function AllEvents(cs: seq<Calendar>): seq<seq<string>> {
    if cs == [] then [] else EventsOf(cs[0].entries) + AllEvents(cs[1..])
  }

  lemma {:induction false} StepsConcat(up: Casing, b: Brackets, x: seq<string>, y: seq<string>)
    requires Steps(up, b, x).Some?
    ensures Steps(up, b, x + y) == Steps(up, Steps(up, b, x).value, y)
    decreases |x|
  {
    hide KeywordOf;
    if x == [] {
      assert x + y == y;
    } else {
      assert (x + y)[1..] == x[1..] + y;
      StepsConcat(up, Step(up, b, x[0]).value, x[1..], y);
    }
  }

  lemma {:induction false} PlainSteps(up: Casing, b: Brackets, lines: seq<string>)
    requires b.inCalendar && AllPlain(up, lines)
    ensures Steps(up, b, lines) == Some(if b.inEvent then b.(lines := b.lines + lines) else b)
    decreases |lines|
  {
    if lines != [] { KeywordsRead(up, lines[0]); }
    hide KeywordOf, PlainLine;
    if lines == [] {
      assert b.lines + lines == b.lines;
    } else {
      var next := if b.inEvent then b.(lines := b.lines + [lines[0]]) else b;
      PlainSteps(up, next, lines[1..]);
      assert b.lines + [lines[0]] + lines[1..] == b.lines + lines;
    }
  }

  /** The four keywords are in upper case already. */
  ghost predicate KeepsKeywords(up: Casing) {
    && up("BEGIN:VCALENDAR") == "BEGIN:VCALENDAR" && up("END:VCALENDAR") == "END:VCALENDAR"
    && up("BEGIN:VEVENT") == "BEGIN:VEVENT" && up("END:VEVENT") == "END:VEVENT"
  }

  lemma KeywordsRead(up: Casing, line: string)
    ensures KeywordOf(up, line) == BeginCalendar <==> up(line) == "BEGIN:VCALENDAR"
    ensures KeywordOf(up, line) == EndCalendar <==> up(line) == "END:VCALENDAR"
    ensures KeywordOf(up, line) == BeginEvent <==> up(line) == "BEGIN:VEVENT"
    ensures KeywordOf(up, line) == EndEvent <==> up(line) == "END:VEVENT"
    ensures KeywordOf(up, line) == Plain <==> PlainLine(up, line)
  {}

  lemma StepOne(up: Casing, b: Brackets, line: string)
    ensures Steps(up, b, [line]) == Step(up, b, line)
  {
    hide KeywordOf;
    var one := [line];
    assert one[1..] == [];
  }

  lemma OneEntrySteps(up: Casing, b: Brackets, e: Entry)
    requires b.inCalendar && !b.inEvent && b.lines == [] && GoodEntry(up, e)
    ensures Steps(up, b, e.before + [e.begin] + e.event + [e.end]) == Some(b.(events := b.events + [e.event]))
  {
    hide KeywordOf, AllPlain, Steps;
    KeywordsRead(up, e.begin);
    KeywordsRead(up, e.end);
    var begun := b.(inEvent := true, lines := []);
    PlainSteps(up, b, e.before);
    StepOne(up, b, e.begin);
    StepsConcat(up, b, e.before, [e.begin]);
    PlainSteps(up, begun, e.event);
    assert [] + e.event == e.event;
    StepsConcat(up, b, e.before + [e.begin], e.event);
    StepOne(up, begun.(lines := e.event), e.end);
    StepsConcat(up, b, e.before + [e.begin] + e.event, [e.end]);
  }

  lemma {:induction false} EntrySteps(up: Casing, b: Brackets, entries: seq<Entry>)
    requires b.inCalendar && !b.inEvent && b.lines == [] && GoodEntries(up, entries)
    ensures Steps(up, b, EntryLines(entries)) == Some(b.(events := b.events + EventsOf(entries)))
    decreases |entries|
  {
    hide GoodEntry;
    if entries == [] {
      assert b.events + [] == b.events;
    } else {
      hide Steps;
      var e := entries[0];
      var lines, next := e.before + [e.begin] + e.event + [e.end], b.(events := b.events + [e.event]);
      OneEntrySteps(up, b, e);
      StepsConcat(up, b, lines, EntryLines(entries[1..]));
      EntrySteps(up, next, entries[1..]);
      assert b.events + [e.event] + EventsOf(entries[1..]) == b.events + EventsOf(entries);
    }
  }

  /** Outside any calendar, with these events read. */
  function Outside(events: seq<seq<string>>): Brackets { Brackets(false, false, [], events) }

  /** Inside a calendar and outside its events. */
  function Inside(events: seq<seq<string>>): Brackets { Brackets(true, false, [], events) }

  lemma CalendarSteps(up: Casing, events: seq<seq<string>>, c: Calendar)
    requires GoodCalendar(up, c)
    ensures Steps(up, Outside(events), CalendarLines(c)) == Some(Outside(events + EventsOf(c.entries)))
  {
    hide KeywordOf, GoodEntries, AllPlain, Steps;
    KeywordsRead(up, c.open);
    KeywordsRead(up, c.close);
    var start, begun := Outside(events), Inside(events);
    var read := begun.(events := events + EventsOf(c.entries));
    StepOne(up, start, c.open);
    StepsConcat(up, start, [c.open], EntryLines(c.entries));
    EntrySteps(up, begun, c.entries);
    StepsConcat(up, start, [c.open] + EntryLines(c.entries), c.after);
    PlainSteps(up, read, c.after);
    StepsConcat(up, start, [c.open] + EntryLines(c.entries) + c.after, [c.close]);
    StepOne(up, read, c.close);
  }

  lemma {:induction false} CalendarsSteps(up: Casing, events: seq<seq<string>>, cs: seq<Calendar>)
    requires GoodCalendars(up, cs)
    ensures Steps(up, Outside(events), AllLines(cs)) == Some(Outside(events + AllEvents(cs)))
    decreases |cs|
  {
    hide GoodCalendar, CalendarLines, KeywordOf, EventsOf;
    if cs == [] {
      assert events + [] == events;
    } else {
      hide Steps;
      CalendarSteps(up, events, cs[0]);
      CalendarsSteps(up, events + EventsOf(cs[0].entries), cs[1..]);
      StepsConcat(up, Outside(events), CalendarLines(cs[0]), AllLines(cs[1..]));
      assert events + EventsOf(cs[0].entries) + AllEvents(cs[1..]) == events + AllEvents(cs);
    }
  }

  // ----- and back: what closed brackets consist of

  /** The rest of an open calendar, and the calendars behind it. */
  datatype Rest = Rest(entries: seq<Entry>, after: seq<string>, close: string, more: seq<Calendar>)

  function RestLines(r: Rest): seq<string> { EntryLines(r.entries) + AfterEntries(r) }

  function AfterEntries(r: Rest): seq<string> { r.after + [r.close] + AllLines(r.more) }

  function RestEvents(r: Rest): seq<seq<string>> { EventsOf(r.entries) + AllEvents(r.more) }

  ghost predicate GoodRest(up: Casing, r: Rest) {
    GoodEntries(up, r.entries) && AllPlain(up, r.after) && up(r.close) == "END:VCALENDAR" && GoodCalendars(up, r.more)
  }

  /** Steps that end outside everything. */
  ghost predicate Closes(up: Casing, b: Brackets, lines: seq<string>) {
    var r := Steps(up, b, lines); r.Some? && !r.value.inCalendar && !r.value.inEvent
  }

  lemma ClosesOn(up: Casing, b: Brackets, lines: seq<string>)
    requires Closes(up, b, lines) && lines != []
    ensures Step(up, b, lines[0]).Some? && Closes(up, Step(up, b, lines[0]).value, lines[1..])
    ensures Steps(up, b, lines) == Steps(up, Step(up, b, lines[0]).value, lines[1..])
  {
    hide KeywordOf;
  }

  lemma {:induction false} ReadOutside(up: Casing, events: seq<seq<string>>, lines: seq<string>) returns (cs: seq<Calendar>)
    requires Closes(up, Outside(events), lines)
    ensures GoodCalendars(up, cs) && lines == AllLines(cs)
    ensures Steps(up, Outside(events), lines).value.events == events + AllEvents(cs)
    decreases |lines|, 1
  {
    cs := [];
    if lines == [] {
      assert events + [] == events;
    } else {
      ClosesOn(up, Outside(events), lines);
      KeywordsRead(up, lines[0]);
      hide KeywordOf, Steps, Closes, GoodEntries, AllPlain;
      var r := ReadInside(up, events, lines[1..]);
      var c := Calendar(lines[0], r.entries, r.after, r.close);
      cs := [c] + r.more;
      RestFollows(lines, r, c);
      assert events + RestEvents(r) == events + AllEvents(cs);
    }
  }

  lemma RestFollows(lines: seq<string>, r: Rest, c: Calendar)
    requires lines != [] && lines[1..] == RestLines(r) && c == Calendar(lines[0], r.entries, r.after, r.close)
    ensures lines == AllLines([c] + r.more) && AllEvents([c] + r.more) == RestEvents(r)
  {
    var cs := [c] + r.more;
    assert cs[1..] == r.more;
    hide EntryLines, EventsOf;
    assert lines == [lines[0]] + lines[1..];
    assert [c.open] + (EntryLines(c.entries) + (c.after + [c.close] + AllLines(r.more))) == CalendarLines(c) + AllLines(r.more);
  }

  lemma {:induction false} ReadInside(up: Casing, events: seq<seq<string>>, lines: seq<string>) returns (r: Rest)
    requires Closes(up, Inside(events), lines)
    ensures GoodRest(up, r) && lines == RestLines(r) && Steps(up, Inside(events), lines).value.events == events + RestEvents(r)
    decreases |lines|, 1
  {
    assert lines != [];
    ClosesOn(up, Inside(events), lines);
    KeywordsRead(up, lines[0]);
    var keyword := KeywordOf(up, lines[0]);
    hide KeywordOf, Steps, Closes, GoodRest, PlainLine, RestLines, RestEvents;
    if keyword == EndCalendar {
      var more := ReadOutside(up, events, lines[1..]);
      r := Rest([], [], lines[0], more);
      CloseFollows(up, lines, more);
    } else if keyword == BeginEvent {
      r := ReadBegun(up, events, lines);
    } else {
      var rest := ReadInside(up, events, lines[1..]);
      r := PlainFollows(up, lines, rest);
    }
  }

  lemma {:induction false} ReadBegun(up: Casing, events: seq<seq<string>>, lines: seq<string>) returns (r: Rest)
    requires lines != [] && up(lines[0]) == "BEGIN:VEVENT" && Closes(up, Brackets(true, true, [], events), lines[1..])
    ensures GoodRest(up, r) && lines == RestLines(r)
    ensures Steps(up, Brackets(true, true, [], events), lines[1..]).value.events == events + RestEvents(r)
    decreases |lines|, 0
  {
    hide Steps, Closes, GoodRest, PlainLine, RestLines, RestEvents;
    var body, end, rest := ReadInEvent(up, events, [], lines[1..]);
    assert [] + body == body;
    var e := Entry([], lines[0], body, end);
    r := rest.(entries := [e] + rest.entries);
    EntryFollows(up, lines, e, rest);
    assert events + [body] + RestEvents(rest) == events + ([body] + RestEvents(rest));
  }

  lemma CloseFollows(up: Casing, lines: seq<string>, more: seq<Calendar>)
    requires lines != [] && up(lines[0]) == "END:VCALENDAR" && GoodCalendars(up, more) && lines[1..] == AllLines(more)
    ensures var r := Rest([], [], lines[0], more);
            GoodRest(up, r) && lines == RestLines(r) && RestEvents(r) == AllEvents(more)
  {
    hide GoodCalendars;
    assert lines == [lines[0]] + lines[1..];
    assert EventsOf([]) + AllEvents(more) == AllEvents(more);
  }

  lemma EntryFollows(up: Casing, lines: seq<string>, e: Entry, rest: Rest)
    requires lines != [] && lines[1..] == e.event + [e.end] + RestLines(rest) && e.before == [] && e.begin == lines[0]
    requires GoodEntry(up, e) && GoodRest(up, rest)
    ensures GoodRest(up, rest.(entries := [e] + rest.entries))
    ensures lines == RestLines(rest.(entries := [e] + rest.entries))
    ensures RestEvents(rest.(entries := [e] + rest.entries)) == [e.event] + RestEvents(rest)
  {
    hide GoodEntry, GoodCalendars, AllLines, AllEvents, AfterEntries, EntryLines, EventsOf;
    var entries := [e] + rest.entries;
    var own := [e.begin] + e.event + [e.end];
    FirstEntry(e, rest.entries);
    assert e.before + [e.begin] + e.event + [e.end] == own;
    SameAfter(rest, entries);
    assert lines == [lines[0]] + lines[1..] && [lines[0]] + (e.event + [e.end] + RestLines(rest)) == own + RestLines(rest);
    assert own + (EntryLines(rest.entries) + AfterEntries(rest)) == own + EntryLines(rest.entries) + AfterEntries(rest);
    assert [e.event] + (EventsOf(rest.entries) + AllEvents(rest.more)) == [e.event] + EventsOf(rest.entries) + AllEvents(rest.more);
  }

  lemma FirstEntry(e: Entry, entries: seq<Entry>)
    ensures EntryLines([e] + entries) == e.before + [e.begin] + e.event + [e.end] + EntryLines(entries)
    ensures EventsOf([e] + entries) == [e.event] + EventsOf(entries)
  {
    assert ([e] + entries)[1..] == entries;
  }

  lemma SameAfter(r: Rest, entries: seq<Entry>)
    ensures AfterEntries(r.(entries := entries)) == AfterEntries(r)
  {}

  /** A plain line before the next event, or after the last one. */
  lemma PlainFollows(up: Casing, lines: seq<string>, rest: Rest) returns (r: Rest)
    requires lines != [] && PlainLine(up, lines[0]) && GoodRest(up, rest) && lines[1..] == RestLines(rest)
    ensures GoodRest(up, r) && lines == RestLines(r) && RestEvents(r) == RestEvents(rest)
  {
    hide PlainLine, GoodCalendars, AllLines, AllEvents;
    var line := lines[0];
    assert lines == [line] + lines[1..];
    if rest.entries == [] {
      r := rest.(after := [line] + rest.after);
      assert AfterEntries(r) == [line] + AfterEntries(rest);
    } else {
      hide AfterEntries;
      var e := rest.entries[0];
      var first := e.(before := [line] + e.before);
      r := rest.(entries := [first] + rest.entries[1..]);
      SameAfter(rest, r.entries);
      assert r.entries[1..] == rest.entries[1..] && GoodEntry(up, first);
      LongerEntry(line, e, rest.entries);
      hide EntryLines, EventsOf;
      assert [line] + (EntryLines(rest.entries) + AfterEntries(rest)) == [line] + EntryLines(rest.entries) + AfterEntries(rest);
    }
  }

  lemma LongerEntry(line: string, e: Entry, entries: seq<Entry>)
    requires entries != [] && entries[0] == e
    ensures var longer := [e.(before := [line] + e.before)] + entries[1..];
            EntryLines(longer) == [line] + EntryLines(entries) && EventsOf(longer) == EventsOf(entries)
  {
    var longer := [e.(before := [line] + e.before)] + entries[1..];
    assert longer[1..] == entries[1..];
    var own, rest := e.before + [e.begin] + e.event + [e.end], EntryLines(entries[1..]);
    hide EntryLines, EventsOf;
    assert [line] + e.before + [e.begin] + e.event + [e.end] == [line] + own;
    assert [line] + own + rest == [line] + (own + rest);
  }

  /** The next line of an open event that is closed later: its end, or one more plain line. */
  lemma EventGoesOn(up: Casing, events: seq<seq<string>>, read: seq<string>, lines: seq<string>)
    requires Closes(up, Brackets(true, true, read, events), lines)
    ensures lines != [] && (up(lines[0]) == "END:VEVENT" || PlainLine(up, lines[0]))
    ensures var next := if up(lines[0]) == "END:VEVENT" then Inside(events + [read]) else Brackets(true, true, read + [lines[0]], events);
            Closes(up, next, lines[1..]) && Steps(up, next, lines[1..]) == Steps(up, Brackets(true, true, read, events), lines)
  {
    ClosesOn(up, Brackets(true, true, read, events), lines);
    KeywordsRead(up, lines[0]);
    hide KeywordOf, PlainLine, Steps, Closes;
  }

  lemma {:induction false} ReadInEvent(up: Casing, events: seq<seq<string>>, read: seq<string>, lines: seq<string>)
      returns (body: seq<string>, end: string, rest: Rest)
    requires Closes(up, Brackets(true, true, read, events), lines)
    ensures AllPlain(up, body) && up(end) == "END:VEVENT" && GoodRest(up, rest) && lines == body + [end] + RestLines(rest)
    ensures Steps(up, Brackets(true, true, read, events), lines).value.events == events + [read + body] + RestEvents(rest)
    decreases |lines|, 1
  {
    hide Steps, Closes, GoodRest, PlainLine, RestLines, RestEvents;
    EventGoesOn(up, events, read, lines);
    assert lines == [lines[0]] + lines[1..];
    if up(lines[0]) == "END:VEVENT" {
      body, end := [], lines[0];
      assert read + body == read;
      rest := ReadInside(up, events + [read], lines[1..]);
      assert body + [end] + RestLines(rest) == [lines[0]] + RestLines(rest);
    } else {
      var more;
      more, end, rest := ReadInEvent(up, events, read + [lines[0]], lines[1..]);
      body := [lines[0]] + more;
      assert read + [lines[0]] + more == read + body;
      assert [lines[0]] + (more + [end] + RestLines(rest)) == body + [end] + RestLines(rest);
    }
  }

  /** Exactly what the reader accepts, and what it reads: one or more calendars end to end, each opened and closed, with
      plain lines and properly closed, unnested events inside; it reads the lines between the events' brackets.
      Everything else is refused. */
  lemma BracketsIff(up: Casing, lines: seq<string>, events: seq<seq<string>>)
    ensures EventLines(up, lines) == Some(events) <==>
            exists cs :: cs != [] && GoodCalendars(up, cs) && lines == AllLines(cs) && events == AllEvents(cs)
  {
    hide Steps, GoodCalendar;
    if EventLines(up, lines) == Some(events) {
      OutsideCloses(up, lines);
      var cs := ReadOutside(up, [], lines);
      assert [] + AllEvents(cs) == AllEvents(cs);
      assert cs != [];
    }
    if cs :| cs != [] && GoodCalendars(up, cs) && lines == AllLines(cs) && events == AllEvents(cs) {
      CalendarsSteps(up, [], cs);
      assert [] + AllEvents(cs) == AllEvents(cs);
      FirstOpens(up, cs);
    }
  }

  lemma OutsideCloses(up: Casing, lines: seq<string>)
    requires EventLines(up, lines).Some?
    ensures Closes(up, Outside([]), lines) && EventLines(up, lines) == Some(Steps(up, Outside([]), lines).value.events)
  {}

  lemma FirstOpens(up: Casing, cs: seq<Calendar>)
    requires cs != [] && GoodCalendars(up, cs)
    ensures AllLines(cs) != [] && KeywordOf(up, AllLines(cs)[0]) == BeginCalendar
  {
    assert GoodCalendar(up, cs[0]) && AllLines(cs)[0] == cs[0].open;
  }

  /** A feed that breaks off inside an event or a calendar is refused, whatever came before. */
  lemma TruncatedIsRefused(up: Casing, cs: seq<Calendar>, c: Calendar, n: nat)
    requires GoodCalendars(up, cs) && GoodCalendar(up, c) && 0 < n < |CalendarLines(c)|
    ensures EventLines(up, AllLines(cs) + CalendarLines(c)[..n]) == None
  {
    hide Steps, GoodCalendars, KeywordOf, CalendarLines;
    var part, lines := CalendarLines(c)[..n], AllLines(cs) + CalendarLines(c)[..n];
    var events := AllEvents(cs);
    assert [] + events == events;
    CalendarsSteps(up, [], cs);
    CalendarSteps(up, events, c);
    assert CalendarLines(c) == part + CalendarLines(c)[n..];
    StepsSplit(up, Outside(events), part, CalendarLines(c)[n..]);
    StepsConcat(up, Outside([]), AllLines(cs), part);
    StillOpen(up, events, c, n);
  }

  lemma StillOpen(up: Casing, events: seq<seq<string>>, c: Calendar, n: nat)
    requires GoodCalendar(up, c) && 0 < n < |CalendarLines(c)| && Steps(up, Outside(events), CalendarLines(c)[..n]).Some?
    ensures Steps(up, Outside(events), CalendarLines(c)[..n]).value.inCalendar
  {
    var part := CalendarLines(c)[..n];
    InnerLines(up, c);
    KeywordsRead(up, c.open);
    hide KeywordOf, CalendarLines;
    assert part[0] == CalendarLines(c)[0] == c.open;
    assert forall i :: 0 <= i < |part[1..]| ==> part[1..][i] == CalendarLines(c)[i + 1];
    StaysOpen(up, Inside(events), part[1..]);
  }

  lemma {:induction false} StaysOpen(up: Casing, b: Brackets, lines: seq<string>)
    requires b.inCalendar && (forall i :: 0 <= i < |lines| ==> up(lines[i]) != "END:VCALENDAR") && Steps(up, b, lines).Some?
    ensures Steps(up, b, lines).value.inCalendar
    decreases |lines|
  {
    if lines != [] {
      KeywordsRead(up, lines[0]);
      hide KeywordOf;
      StaysOpen(up, Step(up, b, lines[0]).value, lines[1..]);
    }
  }

  /** Only the last line of a calendar closes it. */
  lemma InnerLines(up: Casing, c: Calendar)
    requires GoodCalendar(up, c)
    ensures CalendarLines(c)[0] == c.open
    ensures forall i :: 0 <= i < |CalendarLines(c)| - 1 ==> up(CalendarLines(c)[i]) != "END:VCALENDAR"
  {
    NoneCloses(up, c.entries);
    var lines := [c.open] + EntryLines(c.entries) + c.after;
    assert CalendarLines(c) == lines + [c.close];
    hide EntryLines;
    assert forall i :: 0 <= i < |lines| ==> up(lines[i]) != "END:VCALENDAR";
  }

  lemma {:induction false} NoneCloses(up: Casing, entries: seq<Entry>)
    requires GoodEntries(up, entries)
    ensures forall i :: 0 <= i < |EntryLines(entries)| ==> up(EntryLines(entries)[i]) != "END:VCALENDAR"
    decreases |entries|
  {
    if entries != [] {
      assert GoodEntry(up, entries[0]);
      NoneCloses(up, entries[1..]);
    }
  }

  lemma {:induction false} StepsSplit(up: Casing, b: Brackets, x: seq<string>, y: seq<string>)
    requires Steps(up, b, x + y).Some?
    ensures Steps(up, b, x).Some?
    decreases |x|
  {
    hide KeywordOf;
    if x != [] {
      assert (x + y)[1..] == x[1..] + y;
      StepsSplit(up, Step(up, b, x[0]).value, x[1..], y);
    }
  }

  // ----- the whole reader

  function ParseAll(up: Casing, events: seq<seq<string>>): Option<seq<seq<Property>>>
    decreases |events|
  {
    if events == [] then Some([])
    else match ParseLines(up, events[0])
      case None => None
      case Some(props) => match ParseAll(up, events[1..]) case None => None case Some(rest) => Some([props] + rest)
  }

  lemma {:induction false} LinesParsedIff(up: Casing, lines: seq<string>, props: seq<Property>)
    ensures ParseLines(up, lines) == Some(props) <==>
            |props| == |lines| && forall i :: 0 <= i < |lines| ==> ParseProperty(up, lines[i]) == Some(props[i])
    decreases |lines|
  {
    hide ParseProperty;
    if lines != [] && props != [] {
      var n := |lines| - 1;
      LinesParsedIff(up, lines[..n], props[..|props| - 1]);
      assert props == props[..|props| - 1] + [props[|props| - 1]];
    }
    if lines != [] && ParseLines(up, lines) == Some(props) {
      var n := |lines| - 1;
      LinesParsedIff(up, lines[..n], ParseLines(up, lines[..n]).value);
    }
  }

  lemma {:induction false} EventsParsedIff(up: Casing, events: seq<seq<string>>, all: seq<seq<Property>>)
    ensures ParseAll(up, events) == Some(all) <==>
            |all| == |events| && forall i :: 0 <= i < |events| ==> ParseLines(up, events[i]) == Some(all[i])
    decreases |events|
  {
    hide ParseLines;
    if events != [] {
      if ParseAll(up, events) == Some(all) {
        EventsParsedIff(up, events[1..], all[1..]);
      } else if |all| == |events| {
        EventsParsedIff(up, events[1..], all[1..]);
        assert all == [all[0]] + all[1..];
      }
    }
  }

  /** `_parse_ics_events`, giving each event's properties in order. */
  function ReadCalendar(up: Casing, text: string): Option<seq<seq<Property>>> {
    match Unfold(text)
    case None => None
    case Some(lines) => match EventLines(up, lines) case None => None case Some(events) => ParseAll(up, events)
  }

  /** Exactly which feeds are read: those whose lines unfold to calendars end to end in which every line of an event is a
      property. The answer is each event's properties, in order. */
  lemma CalendarIff(up: Casing, text: string, all: seq<seq<Property>>)
    ensures ReadCalendar(up, text) == Some(all) <==>
            Unfold(text).Some? && exists cs ::
              && cs != [] && GoodCalendars(up, cs) && Unfold(text).value == AllLines(cs) && |AllEvents(cs)| == |all|
              && forall i :: 0 <= i < |all| ==> PropertiesOf(up, AllEvents(cs)[i], all[i])
  {
    hide Unfold, EventLines, GoodCalendars, AllLines, ParseAll, ParseLines, ParseProperty;
    if Unfold(text).Some? {
      var lines := Unfold(text).value;
      forall events
        ensures ParseAll(up, events) == Some(all) <==>
                |all| == |events| && forall i :: 0 <= i < |events| ==> PropertiesOf(up, events[i], all[i])
        ensures EventLines(up, lines) == Some(events) <==>
                exists cs :: cs != [] && GoodCalendars(up, cs) && lines == AllLines(cs) && events == AllEvents(cs)
      {
        BracketsIff(up, lines, events);
        EventsParsedIff(up, events, all);
        forall i | 0 <= i < |events| && |all| == |events|
          ensures ParseLines(up, events[i]) == Some(all[i]) <==> PropertiesOf(up, events[i], all[i])
        {
          LinesParsedIff(up, events[i], all[i]);
        }
      }
    }
  }

  ghost predicate PropertiesOf(up: Casing, lines: seq<string>, props: seq<Property>) {
    |props| == |lines| && forall i :: 0 <= i < |lines| ==> ParseProperty(up, lines[i]) == Some(props[i])
  }

  method ReadIcsEvents(up: Casing, text: string) returns (r: Option<seq<map<string, seq<Property>>>>)
    ensures r == match ReadCalendar(up, text) { case None => None case Some(events) => Some(GroupAll(events)) }
  {
    hide Group, ParseLines, EventLines, Unfold;
    var lines := UnfoldIcsLines(text);
    if lines.None? {
      return None;
    }
    var events := ReadBrackets(up, lines.value);
    if events.None? {
      return None;
    }
    var read: seq<map<string, seq<Property>>> := [];
    for i := 0 to |events.value|
      invariant GroupedAll(up, events.value, []) == GroupedAll(up, events.value[i..], read)
    {
      assert events.value[i..][0] == events.value[i] && events.value[i..][1..] == events.value[i + 1..];
      var event := ReadEvent(up, events.value[i]);
      if event.None? {
        GroupedMeansParsed(up, events.value, []);
        return None;
      }
      read := read + [event.value];
    }
    GroupedMeansParsed(up, events.value, []);
    ghost var all := ParseAll(up, events.value);
    assert all.Some? && [] + GroupAll(all.value) == GroupAll(all.value);
    return Some(read);
  }

  function GroupAll(events: seq<seq<Property>>): seq<map<string, seq<Property>>> {
    if events == [] then [] else [Group(events[0])] + GroupAll(events[1..])
  }

  /** The loop over finished events, with what it has read so far. */
  function GroupedAll(up: Casing, events: seq<seq<string>>, read: seq<map<string, seq<Property>>>)
      : Option<seq<map<string, seq<Property>>>>
    decreases |events|
  {
    if events == [] then Some(read)
    else match ParseLines(up, events[0])
      case None => None
      case Some(props) => GroupedAll(up, events[1..], read + [Group(props)])
  }

  lemma {:induction false} GroupedMeansParsed(up: Casing, events: seq<seq<string>>, read: seq<map<string, seq<Property>>>)
    ensures GroupedAll(up, events, read) ==
            match ParseAll(up, events) { case None => None case Some(all) => Some(read + GroupAll(all)) }
    decreases |events|
  {
    hide Group, ParseLines;
    if events == [] {
      assert read + [] == read;
    } else if ParseLines(up, events[0]).Some? {
      var first := [Group(ParseLines(up, events[0]).value)];
      GroupedMeansParsed(up, events[1..], read + first);
      if ParseAll(up, events[1..]).Some? {
        assert read + first + GroupAll(ParseAll(up, events[1..]).value) == read + (first + GroupAll(ParseAll(up, events[1..]).value));
      }
    }
  }

  datatype Line = Line(name: string, params: seq<Param>, value: string)

  ghost predicate Printable(up: Casing, l: Line) {
    && up(l.name) != "" && FreeOf(l.name, ":;") && (forall i :: 0 <= i < |l.params| ==> PlainParam(l.params[i]))
    && PlainLine(up, PrintLine(l))
  }

  function PrintLine(l: Line): string {
    PrintProperty(l.name, l.params, l.value)
  }

  function PrintLines(lines: seq<Line>): seq<string> {
    seq(|lines|, i requires 0 <= i < |lines| => PrintLine(lines[i]))
  }

  function Read(up: Casing, l: Line): Property {
    Property(up(l.name), ParamMap(up, l.params, map[]), l.value)
  }

  function ReadLines(up: Casing, lines: seq<Line>): seq<Property> {
    seq(|lines|, i requires 0 <= i < |lines| => Read(up, lines[i]))
  }

  /** Each event behind some other plain lines. */
  datatype Event = Event(before: seq<string>, lines: seq<Line>)

  function Entries(events: seq<Event>): seq<Entry> {
    seq(|events|, i requires 0 <= i < |events| => Entry(events[i].before, "BEGIN:VEVENT", PrintLines(events[i].lines), "END:VEVENT"))
  }

  function Properties(up: Casing, events: seq<Event>): seq<seq<Property>> {
    seq(|events|, i requires 0 <= i < |events| => ReadLines(up, events[i].lines))
  }

  lemma {:induction false} LinesReadBack(up: Casing, lines: seq<Line>)
    requires forall i :: 0 <= i < |lines| ==> Printable(up, lines[i])
    ensures ParseLines(up, PrintLines(lines)) == Some(ReadLines(up, lines))
    decreases |lines|
  {
    hide PrintLine, Read, ParseProperty, Printable;
    if lines != [] {
      var n := |lines| - 1;
      LinesReadBack(up, lines[..n]);
      LineReadsBack(up, lines[n]);
      assert PrintLines(lines)[..n] == PrintLines(lines[..n]);
      assert ReadLines(up, lines[..n]) + [Read(up, lines[n])] == ReadLines(up, lines);
    }
  }

  lemma LineReadsBack(up: Casing, l: Line)
    requires Printable(up, l)
    ensures ParseProperty(up, PrintLine(l)) == Some(Read(up, l))
  {
    PropertyReadsBack(up, l.name, l.params, l.value);
  }

  lemma {:induction false} AllReadBack(up: Casing, events: seq<Event>)
    requires forall i, j :: 0 <= i < |events| && 0 <= j < |events[i].lines| ==> Printable(up, events[i].lines[j])
    ensures ParseAll(up, EventsOf(Entries(events))) == Some(Properties(up, events))
    decreases |events|
  {
    hide Printable, PrintLines, ReadLines, ParseLines;
    if events != [] {
      LinesReadBack(up, events[0].lines);
      assert Entries(events)[1..] == Entries(events[1..]);
      AllReadBack(up, events[1..]);
      assert [ReadLines(up, events[0].lines)] + Properties(up, events[1..]) == Properties(up, events);
    }
  }

  /** A calendar as it is printed. */
  function Printed(events: seq<Event>, after: seq<string>): Calendar {
    Calendar("BEGIN:VCALENDAR", Entries(events), after, "END:VCALENDAR")
  }

  /** Printing a calendar with any folding and reading it back returns every event's properties. */
  lemma CalendarReadsBack(up: Casing, events: seq<Event>, after: seq<string>, folded: seq<FoldedLine>)
    requires forall i, j :: 0 <= i < |events| && 0 <= j < |events[i].lines| ==> Printable(up, events[i].lines[j])
    requires KeepsKeywords(up) && AllPlain(up, after) && forall i :: 0 <= i < |events| ==> AllPlain(up, events[i].before)
    requires forall i :: 0 <= i < |folded| ==> WellFolded(folded[i])
    requires Logical(folded) == CalendarLines(Printed(events, after))
    ensures ReadCalendar(up, PrintFolded(folded)) == Some(Properties(up, events))
  {
    hide WellFolded, CalendarLines, Printable, AllPlain, KeepsKeywords, EventLines, ParseAll, Properties, EventsOf, Logical, PrintFolded,
         GoodCalendar;
    UnfoldInvertsFolding(folded);
    PrintedIsGood(up, events, after);
    OneCalendar(up, Printed(events, after));
    AllReadBack(up, events);
  }

  lemma OneCalendar(up: Casing, c: Calendar)
    requires GoodCalendar(up, c)
    ensures EventLines(up, CalendarLines(c)) == Some(EventsOf(c.entries))
  {
    hide CalendarLines, EventLines, GoodCalendar;
    var cs := [c];
    assert cs[1..] == [];
    assert AllLines(cs) == CalendarLines(cs[0]) + AllLines(cs[1..]) && AllEvents(cs) == EventsOf(cs[0].entries) + AllEvents(cs[1..]);
    assert AllLines([]) == [] && AllEvents([]) == [];
    assert AllLines(cs) == CalendarLines(c) && AllEvents(cs) == EventsOf(c.entries);
    assert GoodCalendars(up, cs);
    BracketsIff(up, CalendarLines(c), EventsOf(c.entries));
  }

  lemma PrintableIsPlain(up: Casing, l: Line)
    requires Printable(up, l)
    ensures PlainLine(up, PrintLine(l))
  {}

  lemma PrintedIsGood(up: Casing, events: seq<Event>, after: seq<string>)
    requires forall i, j :: 0 <= i < |events| && 0 <= j < |events[i].lines| ==> Printable(up, events[i].lines[j])
    requires KeepsKeywords(up) && AllPlain(up, after) && forall i :: 0 <= i < |events| ==> AllPlain(up, events[i].before)
    ensures GoodCalendar(up, Printed(events, after))
  {
    hide PrintLine, Printable;
    forall i | 0 <= i < |events|
      ensures GoodEntry(up, Entries(events)[i])
    {
      var lines := events[i].lines;
      forall j | 0 <= j < |lines|
        ensures PlainLine(up, PrintLines(lines)[j])
      {
        PrintableIsPlain(up, lines[j]);
      }
      assert AllPlain(up, PrintLines(lines));
      var e := Entries(events)[i];
      assert AllPlain(up, e.before) && AllPlain(up, e.event);
    }
    hide Entries;
    GoodWhenClosed(up, Entries(events), after);
  }

  lemma GoodWhenClosed(up: Casing, entries: seq<Entry>, after: seq<string>)
    requires KeepsKeywords(up) && GoodEntries(up, entries) && AllPlain(up, after)
    ensures GoodCalendar(up, Calendar("BEGIN:VCALENDAR", entries, after, "END:VCALENDAR"))
  {
    hide GoodEntries, AllPlain;
  }

  /** A TEXT value comes back as the text: escaped, printed, folded, read and unescaped (section 3.3.11 of RFC 5545). */
  lemma TextReadsBack(up: Casing, events: seq<Event>, after: seq<string>, folded: seq<FoldedLine>, i: nat, j: nat, text: string)
    requires forall i, j :: 0 <= i < |events| && 0 <= j < |events[i].lines| ==> Printable(up, events[i].lines[j])
    requires KeepsKeywords(up) && AllPlain(up, after) && forall i :: 0 <= i < |events| ==> AllPlain(up, events[i].before)
    requires forall i :: 0 <= i < |folded| ==> WellFolded(folded[i])
    requires Logical(folded) == CalendarLines(Printed(events, after))
    requires i < |events| && j < |events[i].lines| && events[i].lines[j].value == Escape(text)
    ensures var read := ReadCalendar(up, PrintFolded(folded));
            && read.Some? && |read.value| == |events| && |read.value[i]| == |events[i].lines|
            && read.value[i][j].name == up(events[i].lines[j].name) && Unescape(read.value[i][j].value) == text
  {
    CalendarReadsBack(up, events, after, folded);
    UnescapeInvertsEscape(text);
  }
}
