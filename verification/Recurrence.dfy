/** The two-pass recurrence expansion of `app/connectors/google_calendar.py`, with overrides and
    cancellations, compared with a declarative statement of what a window should show. The connector compares and
    subtracts what its one clock shows, but names occurrences by instants. */
module Recurrence {
  import opened Prelude

  const DAY := 86_400
  const MAX_EVENTS := 5_000

  /** A zoned time: what the clock shows, and the instant it names. Both readings of a fold hour show one wall time;
      a wall time of a gap names the instant of a later one. */
  datatype Time = Time(wall: int, utc: int)

  /** One VEVENT. `occurs` is its recurrence set (rules and dates less exceptions): the instant of the occurrence at a
      wall time, if there is one. The recurrence library yields what shows one wall time once. */
  datatype RawEvent = RawEvent(uid: string, recurrenceId: Option<Time>, cancelled: bool, recurring: bool,
                               start: Time, end: Option<int>, isDate: bool, occurs: int -> Option<int>, body: string)
  {
    function Duration(): int {
      match end case Some(e) => e - start.wall case None => if isDate then DAY else 0
    }

    predicate Occurs(s: Time) { occurs(s.wall) == Some(s.utc) }
  }

  datatype Event = Event(uid: string, original: int, startsAt: Time, endsAt: int, isAllDay: bool, body: string)

  datatype Window = Window(start: int, end: int)

  predicate Intersects(e: Event, w: Window) {
    e.startsAt.wall < w.end && e.endsAt > w.start
  }

  /** `_build_event`: an occurrence moves the event's times unless it is an override. */
  function Build(raw: RawEvent, occurrence: Option<Time>): Event {
    var original := match occurrence
      case Some(s) => s
      case None => match raw.recurrenceId case Some(r) => r case None => raw.start;
    var startsAt := if occurrence.Some? && raw.recurrenceId.None? then occurrence.value else raw.start;
    Event(raw.uid, original.utc, startsAt, startsAt.wall + raw.Duration(), raw.isDate, raw.body)
  }

  /** What an emitted event stands for. */
  datatype Source = Occurrence(master: nat, start: Time) | Single(master: nat) | Override(index: nat)

  datatype Emission = Emission(source: Source, event: Event)

  ghost predicate NoDup<T>(s: seq<T>) {
    forall i, j :: 0 <= i < j < |s| ==> s[i] != s[j]
  }

  // ----- first pass: who overrides, who cancels

  datatype Group = Group(uid: string, members: seq<nat>)

  /** `masters.setdefault(uid, []).append(event)`. */
  function AddMaster(groups: seq<Group>, uid: string, i: nat): seq<Group> {
    if groups == [] then [Group(uid, [i])]
    else if groups[0].uid == uid then [groups[0].(members := groups[0].members + [i])] + groups[1..]
    else [groups[0]] + AddMaster(groups[1..], uid, i)
  }

  function Members(groups: seq<Group>): seq<nat> {
    if groups == [] then [] else groups[0].members + Members(groups[1..])
  }

  /** What the first pass collects; events are named by their position in the file. */
  datatype Index = Index(masters: seq<Group>, overrides: map<(string, int), nat>, cancelled: set<(string, int)>, loose: seq<nat>)

  function AddRaw(index: Index, raw: RawEvent, i: nat): Index {
    match raw.recurrenceId
    case None => index.(masters := AddMaster(index.masters, raw.uid, i))
    case Some(at) =>
      if raw.cancelled then index.(cancelled := index.cancelled + {(raw.uid, at.utc)})
      else index.(overrides := index.overrides[(raw.uid, at.utc) := i], loose := index.loose + [i])
  }

  function IndexUpTo(raws: seq<RawEvent>, n: nat): Index
    requires n <= |raws|
  {
    if n == 0 then Index([], map[], {}, []) else AddRaw(IndexUpTo(raws, n - 1), raws[n - 1], n - 1)
  }

  predicate IsMaster(raws: seq<RawEvent>, m: nat) { m < |raws| && raws[m].recurrenceId.None? }

  predicate IsOverride(raws: seq<RawEvent>, i: nat) { i < |raws| && raws[i].recurrenceId.Some? && !raws[i].cancelled }

  function Key(raws: seq<RawEvent>, i: nat): (string, int)
    requires IsOverride(raws, i)
  {
    (raws[i].uid, raws[i].recurrenceId.value.utc)
  }

  predicate Cancels(raw: RawEvent, key: (string, int)) {
    raw.cancelled && raw.uid == key.0 && raw.recurrenceId.Some? && raw.recurrenceId.value.utc == key.1
  }

  ghost predicate CancelledIn(raws: seq<RawEvent>, n: nat, key: (string, int))
    requires n <= |raws|
  {
    exists i: nat :: i < n && Cancels(raws[i], key)
  }

  ghost predicate OverriddenIn(raws: seq<RawEvent>, n: nat, key: (string, int)) {
    exists i: nat :: i < n && IsOverride(raws, i) && Key(raws, i) == key
  }

  lemma {:induction false} MembersAdd(groups: seq<Group>, uid: string, i: nat) returns (a: seq<nat>, b: seq<nat>)
    ensures Members(groups) == a + b && Members(AddMaster(groups, uid, i)) == a + [i] + b
  {
    if groups == [] {
      a, b := [], [];
    } else if groups[0].uid == uid {
      a, b := groups[0].members, Members(groups[1..]);
      assert AddMaster(groups, uid, i)[1..] == groups[1..];
    } else {
      a, b := MembersAdd(groups[1..], uid, i);
      assert AddMaster(groups, uid, i)[1..] == AddMaster(groups[1..], uid, i);
      a := groups[0].members + a;
    }
  }

  lemma InsertKeepsNoDup<T>(a: seq<T>, b: seq<T>, x: T)
    requires NoDup(a + b) && x !in a + b
    ensures NoDup(a + [x] + b)
    ensures forall y :: y in a + [x] + b <==> y in a + b || y == x
  {
    var s, t := a + b, a + [x] + b;
    assert forall k :: 0 <= k < |a| ==> t[k] == s[k];
    assert t[|a|] == x;
    assert forall k :: |a| < k < |t| ==> t[k] == s[k - 1];
    forall y
      ensures y in t <==> (y in s || y == x)
    {
      if y in s {
        var k :| 0 <= k < |s| && s[k] == y;
        assert t[if k < |a| then k else k + 1] == y;
      }
    }
  }

  // What the first pass knows after `n` events, fact by fact.

  ghost predicate MastersIndexed(raws: seq<RawEvent>, n: nat, ms: seq<nat>) {
    NoDup(ms) && forall m: nat :: m in ms <==> (m < n && IsMaster(raws, m))
  }

  ghost predicate LooseIndexed(raws: seq<RawEvent>, n: nat, loose: seq<nat>) {
    NoDup(loose) && forall i: nat :: i in loose <==> (i < n && IsOverride(raws, i))
  }

  ghost predicate OverridesIndexed(raws: seq<RawEvent>, n: nat, overrides: map<(string, int), nat>) {
    && (forall k :: k in overrides <==> OverriddenIn(raws, n, k))
    && (forall k :: k in overrides ==>
          var i := overrides[k]; i < n && IsOverride(raws, i) && Key(raws, i) == k)
  }

  ghost predicate CancelledIndexed(raws: seq<RawEvent>, n: nat, cancelled: set<(string, int)>)
    requires n <= |raws|
  {
    forall k :: k in cancelled <==> CancelledIn(raws, n, k)
  }

  ghost predicate Indexed(raws: seq<RawEvent>, n: nat, index: Index)
    requires n <= |raws|
  {
    && MastersIndexed(raws, n, Members(index.masters))
    && LooseIndexed(raws, n, index.loose)
    && OverridesIndexed(raws, n, index.overrides)
    && CancelledIndexed(raws, n, index.cancelled)
  }

  lemma MastersStep(raws: seq<RawEvent>, n: nat, groups: seq<Group>)
    requires n < |raws| && MastersIndexed(raws, n, Members(groups)) && raws[n].recurrenceId.None?
    ensures MastersIndexed(raws, n + 1, Members(AddMaster(groups, raws[n].uid, n)))
  {
    var a, b := MembersAdd(groups, raws[n].uid, n);
    InsertKeepsNoDup(a, b, n);
  }

  lemma LooseStep(raws: seq<RawEvent>, n: nat, loose: seq<nat>)
    requires n < |raws| && LooseIndexed(raws, n, loose) && IsOverride(raws, n)
    ensures LooseIndexed(raws, n + 1, loose + [n])
  {
    assert loose + [] == loose && loose + [n] + [] == loose + [n];
    InsertKeepsNoDup(loose, [], n);
  }

  lemma OverridesStep(raws: seq<RawEvent>, n: nat, overrides: map<(string, int), nat>)
    requires n < |raws| && OverridesIndexed(raws, n, overrides)
    ensures IsOverride(raws, n) ==> OverridesIndexed(raws, n + 1, overrides[Key(raws, n) := n])
    ensures !IsOverride(raws, n) ==> OverridesIndexed(raws, n + 1, overrides)
  {
    forall k
      ensures OverriddenIn(raws, n + 1, k) <==> (OverriddenIn(raws, n, k) || (IsOverride(raws, n) && Key(raws, n) == k))
    {}
  }

  lemma CancelledStep(raws: seq<RawEvent>, n: nat, cancelled: set<(string, int)>)
    requires n < |raws| && CancelledIndexed(raws, n, cancelled)
    ensures raws[n].cancelled && raws[n].recurrenceId.Some? ==>
              CancelledIndexed(raws, n + 1, cancelled + {(raws[n].uid, raws[n].recurrenceId.value.utc)})
    ensures !(raws[n].cancelled && raws[n].recurrenceId.Some?) ==> CancelledIndexed(raws, n + 1, cancelled)
  {
    forall k
      ensures CancelledIn(raws, n + 1, k) <==> (CancelledIn(raws, n, k) || Cancels(raws[n], k))
    {}
  }

  /** The first pass sorts every event into exactly one of its collections. */
  lemma {:induction false} IndexIsIndexed(raws: seq<RawEvent>, n: nat)
    requires n <= |raws|
    ensures Indexed(raws, n, IndexUpTo(raws, n))
  {
    hide Indexed, AddRaw;
    if n == 0 {
      NothingIndexed(raws);
    } else {
      IndexIsIndexed(raws, n - 1);
      IndexStep(raws, n - 1, IndexUpTo(raws, n - 1));
    }
  }

  /** Masters are taken UID by UID, in the order in which each UID first has one, and within a UID in the file's order. */
  ghost predicate InFileOrder(raws: seq<RawEvent>, groups: seq<Group>) {
    && (forall a :: 0 <= a < |groups| ==> GroupInOrder(raws, groups[a]))
    && (forall a, b :: 0 <= a < b < |groups| ==> groups[a].uid != groups[b].uid)
    && (forall a, b :: 0 <= a < b < |groups| && groups[a].members != [] && groups[b].members != [] ==>
          groups[a].members[0] < groups[b].members[0])
  }

  ghost predicate GroupInOrder(raws: seq<RawEvent>, g: Group) {
    && g.members != []
    && (forall i :: 0 <= i < |g.members| ==> g.members[i] < |raws| && raws[g.members[i]].uid == g.uid)
    && (forall i, j :: 0 <= i < j < |g.members| ==> g.members[i] < g.members[j])
  }

  ghost predicate MembersBelow(groups: seq<Group>, n: nat) {
    forall a, i :: 0 <= a < |groups| && 0 <= i < |groups[a].members| ==> groups[a].members[i] < n
  }

  /** What joins the groups behind `first`: groups of other UIDs, each starting later in the file. */
  ghost predicate Behind(first: Group, rest: seq<Group>) {
    forall a :: 0 <= a < |rest| ==>
      first.uid != rest[a].uid && (first.members != [] && rest[a].members != [] ==> first.members[0] < rest[a].members[0])
  }

  lemma OrderSplits(raws: seq<RawEvent>, first: Group, rest: seq<Group>)
    ensures InFileOrder(raws, [first] + rest) <==> GroupInOrder(raws, first) && Behind(first, rest) && InFileOrder(raws, rest)
  {
    hide GroupInOrder;
    var groups := [first] + rest;
    assert forall a :: 0 <= a < |rest| ==> groups[a + 1] == rest[a];
    if InFileOrder(raws, groups) {
      assert groups[0] == first;
      forall a | 0 <= a < |rest|
        ensures GroupInOrder(raws, rest[a])
      {
        assert GroupInOrder(raws, groups[a + 1]);
      }
    }
    if GroupInOrder(raws, first) && Behind(first, rest) && InFileOrder(raws, rest) {
      forall a | 0 <= a < |groups|
        ensures GroupInOrder(raws, groups[a])
      {
        assert a > 0 ==> groups[a] == rest[a - 1];
      }
      forall a, b | 0 <= a < b < |groups|
        ensures groups[a].uid != groups[b].uid
        ensures groups[a].members != [] && groups[b].members != [] ==> groups[a].members[0] < groups[b].members[0]
      {
        assert groups[b] == rest[b - 1] && (a > 0 ==> groups[a] == rest[a - 1]);
      }
    }
  }

  lemma BelowSplits(first: Group, rest: seq<Group>, n: nat)
    ensures MembersBelow([first] + rest, n) <==> MembersBelow([first], n) && MembersBelow(rest, n)
  {
    var groups := [first] + rest;
    assert groups[0] == first && [first][0] == first;
    assert forall a :: 0 <= a < |rest| ==> groups[a + 1] == rest[a];
    forall a | 0 <= a < |groups|
      ensures a > 0 ==> groups[a] == rest[a - 1]
    {}
  }

  lemma {:induction false} AddMasterKeepsOrder(raws: seq<RawEvent>, groups: seq<Group>, n: nat)
    requires n < |raws| && InFileOrder(raws, groups) && MembersBelow(groups, n)
    ensures var after := AddMaster(groups, raws[n].uid, n);
            && InFileOrder(raws, after) && MembersBelow(after, n + 1)
            && (forall g :: Behind(g, groups) && g.uid != raws[n].uid && (g.members != [] ==> g.members[0] < n) ==> Behind(g, after))
    decreases |groups|
  {
    var uid := raws[n].uid;
    if groups == [] {
      StartsGroup(raws, n);
    } else {
      var first, rest := groups[0], groups[1..];
      assert groups == [first] + rest;
      OrderSplits(raws, first, rest);
      BelowSplits(first, rest, n);
      if first.uid == uid {
        JoinsGroup(raws, first, rest, n);
      } else {
        AddMasterKeepsOrder(raws, rest, n);
        FirstBelow(first, n);
        var tail := AddMaster(rest, uid, n);
        hide InFileOrder, AddMaster, GroupInOrder, MembersBelow;
        OrderSplits(raws, first, tail);
        StaysBelow(first, n);
        BelowSplits(first, tail, n + 1);
        AddsBehind(raws, groups, n);
      }
    }
  }

  lemma FirstBelow(first: Group, n: nat)
    requires MembersBelow([first], n)
    ensures first.members != [] ==> first.members[0] < n
  {
    assert [first][0] == first;
  }

  lemma StaysBelow(first: Group, n: nat)
    requires MembersBelow([first], n)
    ensures MembersBelow([first], n + 1)
  {}

  lemma AddsBehind(raws: seq<RawEvent>, groups: seq<Group>, n: nat)
    requires n < |raws| && groups != [] && groups[0].uid != raws[n].uid
    requires forall g :: Behind(g, groups[1..]) && g.uid != raws[n].uid && (g.members != [] ==> g.members[0] < n) ==>
               Behind(g, AddMaster(groups[1..], raws[n].uid, n))
    ensures AddMaster(groups, raws[n].uid, n) == [groups[0]] + AddMaster(groups[1..], raws[n].uid, n)
    ensures forall g :: Behind(g, groups) && g.uid != raws[n].uid && (g.members != [] ==> g.members[0] < n) ==>
              Behind(g, AddMaster(groups, raws[n].uid, n))
  {
    var first, tail := groups[0], AddMaster(groups[1..], raws[n].uid, n);
    forall g | Behind(g, groups) && g.uid != raws[n].uid && (g.members != [] ==> g.members[0] < n)
      ensures Behind(g, [first] + tail)
    {
      assert forall a :: 0 <= a < |groups[1..]| ==> groups[1..][a] == groups[a + 1];
      assert Behind(g, groups[1..]);
    }
  }

  lemma StartsGroup(raws: seq<RawEvent>, n: nat)
    requires n < |raws|
    ensures InFileOrder(raws, [Group(raws[n].uid, [n])]) && MembersBelow([Group(raws[n].uid, [n])], n + 1)
  {}

  lemma JoinsGroup(raws: seq<RawEvent>, first: Group, rest: seq<Group>, n: nat)
    requires n < |raws| && first.uid == raws[n].uid && GroupInOrder(raws, first) && Behind(first, rest) && InFileOrder(raws, rest)
    requires MembersBelow([first], n) && MembersBelow(rest, n)
    ensures var grown := first.(members := first.members + [n]);
            InFileOrder(raws, [grown] + rest) && MembersBelow([grown] + rest, n + 1)
            && (forall g :: Behind(g, [first] + rest) ==> Behind(g, [grown] + rest))
  {
    var grown := first.(members := first.members + [n]);
    assert [first][0] == first;
    assert GroupInOrder(raws, grown) && grown.members[0] == first.members[0];
    OrderSplits(raws, grown, rest);
    BelowSplits(grown, rest, n + 1);
    forall g | Behind(g, [first] + rest)
      ensures Behind(g, [grown] + rest)
    {
      assert ([first] + rest)[0] == first;
      assert forall a :: 0 <= a < |rest| ==> ([first] + rest)[a + 1] == rest[a];
    }
  }

  lemma {:induction false} MastersInFileOrder(raws: seq<RawEvent>, n: nat)
    requires n <= |raws|
    ensures InFileOrder(raws, IndexUpTo(raws, n).masters) && MembersBelow(IndexUpTo(raws, n).masters, n)
  {
    hide InFileOrder, AddMaster;
    if n == 0 {
      NothingInOrder(raws);
    } else {
      MastersInFileOrder(raws, n - 1);
      AddMasterKeepsOrder(raws, IndexUpTo(raws, n - 1).masters, n - 1);
    }
  }

  ghost predicate Ascends(s: seq<nat>) { forall i, j :: 0 <= i < j < |s| ==> s[i] < s[j] }

  ghost predicate AllBelow(s: seq<nat>, n: nat) { forall i :: 0 <= i < |s| ==> s[i] < n }

  lemma AscendsOn(s: seq<nat>, n: nat)
    requires Ascends(s) && AllBelow(s, n)
    ensures Ascends(s + [n]) && AllBelow(s + [n], n + 1) && AllBelow(s, n + 1)
  {}

  /** Overrides too are kept in the order of the file. */
  lemma {:induction false} LooseInFileOrder(raws: seq<RawEvent>, n: nat)
    requires n <= |raws|
    ensures Ascends(IndexUpTo(raws, n).loose) && AllBelow(IndexUpTo(raws, n).loose, n)
  {
    hide AddMaster, Ascends, AllBelow;
    if n == 0 {
      NothingAscends();
    } else {
      LooseInFileOrder(raws, n - 1);
      AscendsOn(IndexUpTo(raws, n - 1).loose, n - 1);
    }
  }

  lemma NothingAscends()
    ensures Ascends([]) && AllBelow([], 0)
  {}

  lemma NothingInOrder(raws: seq<RawEvent>)
    ensures InFileOrder(raws, []) && MembersBelow([], 0)
  {}

  lemma NothingIndexed(raws: seq<RawEvent>)
    ensures Indexed(raws, 0, Index([], map[], {}, []))
  {}

  lemma IndexStep(raws: seq<RawEvent>, n: nat, before: Index)
    requires n < |raws| && Indexed(raws, n, before)
    ensures Indexed(raws, n + 1, AddRaw(before, raws[n], n))
  {
    hide MastersIndexed, LooseIndexed, OverridesIndexed, CancelledIndexed, AddMaster;
    OverridesStep(raws, n, before.overrides);
    CancelledStep(raws, n, before.cancelled);
    if raws[n].recurrenceId.None? {
      MastersStep(raws, n, before.masters);
    } else {
      OthersKept(raws, n, before);
      if !raws[n].cancelled { LooseStep(raws, n, before.loose); }
    }
    if raws[n].recurrenceId.None? || raws[n].cancelled { OthersKept(raws, n, before); }
  }

  /** What an event does not touch. */
  lemma OthersKept(raws: seq<RawEvent>, n: nat, before: Index)
    requires n < |raws| && Indexed(raws, n, before)
    ensures raws[n].recurrenceId.Some? ==> MastersIndexed(raws, n + 1, Members(before.masters))
    ensures !IsOverride(raws, n) ==> LooseIndexed(raws, n + 1, before.loose)
  {
    hide OverridesIndexed, CancelledIndexed;
  }

  // ----- second pass

  /** `between(lo, hi, inc=True)`. */
  function Between(occurs: int -> Option<int>, lo: int, hi: int): seq<Time>
    decreases hi - lo
  {
    if lo > hi then []
    else if occurs(lo).Some? then [Time(lo, occurs(lo).value)] + Between(occurs, lo + 1, hi)
    else Between(occurs, lo + 1, hi)
  }

  predicate InRange(raws: seq<RawEvent>, overrides: map<(string, int), nat>) {
    forall k :: k in overrides ==> overrides[k] < |raws|
  }

  predicate AllInRange(raws: seq<RawEvent>, s: seq<nat>) {
    forall i :: 0 <= i < |s| ==> s[i] < |raws|
  }

  function Show(source: Source, event: Event, w: Window): seq<Emission> {
    if Intersects(event, w) then [Emission(source, event)] else []
  }

  /** What the occurrence of master `m` at `s` shows. */
  function EmitAt(raws: seq<RawEvent>, index: Index, w: Window, m: nat, s: Time): seq<Emission>
    requires m < |raws| && InRange(raws, index.overrides)
  {
    var key := (raws[m].uid, s.utc);
    if key in index.cancelled then []
    else if key in index.overrides then
      Show(Override(index.overrides[key]), Build(raws[index.overrides[key]], Some(s)), w)
    else Show(Occurrence(m, s), Build(raws[m], Some(s)), w)
  }

  /** `_expand_recurring_event`. */
  function EmitAll(raws: seq<RawEvent>, index: Index, w: Window, m: nat, starts: seq<Time>): seq<Emission>
    requires m < |raws| && InRange(raws, index.overrides)
    decreases |starts|
  {
    if starts == [] then [] else EmitAt(raws, index, w, m, starts[0]) + EmitAll(raws, index, w, m, starts[1..])
  }

  function Starts(raw: RawEvent, w: Window): seq<Time> {
    Between(raw.occurs, w.start - raw.Duration(), w.end)
  }

  function ExpandMaster(raws: seq<RawEvent>, index: Index, w: Window, m: nat): seq<Emission>
    requires m < |raws| && InRange(raws, index.overrides)
  {
    if raws[m].cancelled then []
    else if raws[m].recurring then EmitAll(raws, index, w, m, Starts(raws[m], w))
    else Show(Single(m), Build(raws[m], None), w)
  }

  /** All masters in turn; the event limit is checked after each. */
  function ExpandMasters(raws: seq<RawEvent>, index: Index, w: Window, ms: seq<nat>, events: seq<Emission>): Option<seq<Emission>>
    requires InRange(raws, index.overrides) && AllInRange(raws, ms)
    decreases |ms|
  {
    if ms == [] then Some(events)
    else
      var grown := events + ExpandMaster(raws, index, w, ms[0]);
      if |grown| > MAX_EVENTS then None else ExpandMasters(raws, index, w, ms[1..], grown)
  }

  function OverrideOf(source: Source): set<nat> {
    if source.Override? then {source.index} else {}
  }

  function Consumed(events: seq<Emission>): set<nat> {
    if events == [] then {} else Consumed(events[..|events| - 1]) + OverrideOf(events[|events| - 1].source)
  }

  function LooseAt(raws: seq<RawEvent>, w: Window, i: nat, consumed: set<nat>): seq<Emission>
    requires i < |raws|
  {
    if i in consumed then [] else Show(Override(i), Build(raws[i], raws[i].recurrenceId), w)
  }

  /** Overrides no occurrence showed. */
  function LooseOverrides(raws: seq<RawEvent>, w: Window, loose: seq<nat>, consumed: set<nat>): seq<Emission>
    requires AllInRange(raws, loose)
    decreases |loose|
  {
    if loose == [] then []
    else LooseAt(raws, w, loose[0], consumed) + LooseOverrides(raws, w, loose[1..], consumed)
  }

  lemma IndexInRange(raws: seq<RawEvent>)
    ensures var index := IndexUpTo(raws, |raws|);
            InRange(raws, index.overrides) && AllInRange(raws, Members(index.masters)) && AllInRange(raws, index.loose)
  {
    IndexIsIndexed(raws, |raws|);
    var index := IndexUpTo(raws, |raws|);
    var ms := Members(index.masters);
    assert forall i :: 0 <= i < |ms| ==> ms[i] in ms;
    assert forall i :: 0 <= i < |index.loose| ==> index.loose[i] in index.loose;
  }

  /** `_parse_events`, from the raw events on. */
  function Expand(raws: seq<RawEvent>, w: Window): Option<seq<Emission>> {
    IndexInRange(raws);
    var index := IndexUpTo(raws, |raws|);
    match ExpandMasters(raws, index, w, Members(index.masters), [])
    case None => None
    case Some(events) => Some(events + LooseOverrides(raws, w, index.loose, Consumed(events)))
  }

  // ----- the declarative statement

  /** The event a source stands for; no window is involved. */
  function EventOf(raws: seq<RawEvent>, source: Source): Event
    requires Known(raws, source)
  {
    match source
    case Occurrence(m, s) => Build(raws[m], Some(s))
    case Single(m) => Build(raws[m], None)
    case Override(i) => Build(raws[i], raws[i].recurrenceId)
  }

  predicate Known(raws: seq<RawEvent>, source: Source) {
    match source
    case Occurrence(m, _) => IsMaster(raws, m) && !raws[m].cancelled && raws[m].recurring
    case Single(m) => IsMaster(raws, m) && !raws[m].cancelled && !raws[m].recurring
    case Override(i) => IsOverride(raws, i)
  }

  /** What a window should show: each occurrence neither cancelled nor overridden, each live single event
      and each live override, when it meets the window. */
  ghost predicate Expected(raws: seq<RawEvent>, w: Window, source: Source) {
    && Known(raws, source)
    && (source.Occurrence? ==>
          var key := (raws[source.master].uid, source.start.utc);
          raws[source.master].Occurs(source.start) && !CancelledIn(raws, |raws|, key) && !OverriddenIn(raws, |raws|, key))
    && Intersects(EventOf(raws, source), w)
  }

  ghost predicate Shows(events: seq<Emission>, source: Source) {
    exists k :: 0 <= k < |events| && events[k].source == source
  }

  ghost predicate Distinct(events: seq<Emission>) {
    forall i, j :: 0 <= i < j < |events| ==> events[i].source != events[j].source
  }

  ghost predicate Genuine(raws: seq<RawEvent>, events: seq<Emission>) {
    forall k :: 0 <= k < |events| ==> Known(raws, events[k].source) && events[k].event == EventOf(raws, events[k].source)
  }

  lemma ShowsAppend(a: seq<Emission>, b: seq<Emission>, source: Source)
    ensures Shows(a + b, source) <==> Shows(a, source) || Shows(b, source)
  {
    if Shows(b, source) {
      var k :| 0 <= k < |b| && b[k].source == source;
      assert (a + b)[|a| + k].source == source;
    }
    if Shows(a, source) {
      var k :| 0 <= k < |a| && a[k].source == source;
      assert (a + b)[k].source == source;
    }
  }

  lemma DistinctAppend(a: seq<Emission>, b: seq<Emission>)
    ensures Distinct(a + b) <==> (Distinct(a) && Distinct(b) && forall source :: !(Shows(a, source) && Shows(b, source)))
  {
    var s := a + b;
    if Distinct(s) {
      assert forall i :: 0 <= i < |a| ==> s[i] == a[i];
      assert forall j :: 0 <= j < |b| ==> s[|a| + j] == b[j];
      forall i, j | 0 <= i < j < |b|
        ensures b[i].source != b[j].source
      {
        assert s[|a| + i].source != s[|a| + j].source;
      }
    } else {
      var i, j :| 0 <= i < j < |s| && s[i].source == s[j].source;
      if i < |a| <= j {
        assert Shows(a, s[i].source) && Shows(b, s[i].source) by { assert b[j - |a|].source == s[i].source; }
      } else if |a| <= i {
        assert b[i - |a|].source == b[j - |a|].source;
      }
    }
  }

  lemma {:induction false} BetweenFinds(occurs: int -> Option<int>, lo: int, hi: int)
    ensures NoDup(Between(occurs, lo, hi))
    ensures forall s :: s in Between(occurs, lo, hi) <==> (lo <= s.wall <= hi && occurs(s.wall) == Some(s.utc))
    decreases hi - lo
  {
    if lo <= hi {
      BetweenFinds(occurs, lo + 1, hi);
      var rest := Between(occurs, lo + 1, hi);
      if occurs(lo).Some? {
        assert forall j :: 0 <= j < |rest| ==> rest[j] in rest;
      }
    }
  }

  ghost predicate EarlierFirst(s: seq<Time>) { forall i, j :: 0 <= i < j < |s| ==> s[i].wall < s[j].wall }

  lemma EarlierInFront(t: Time, s: seq<Time>)
    requires EarlierFirst(s) && forall x :: x in s ==> t.wall < x.wall
    ensures EarlierFirst([t] + s)
  {
    assert forall i :: 0 <= i < |s| ==> s[i] in s;
  }

  /** A master's occurrences come in the order of time. */
  lemma {:induction false} BetweenAscends(occurs: int -> Option<int>, lo: int, hi: int)
    ensures EarlierFirst(Between(occurs, lo, hi))
    decreases hi - lo
  {
    if lo <= hi {
      BetweenAscends(occurs, lo + 1, hi);
      BetweenFinds(occurs, lo + 1, hi);
      if occurs(lo).Some? {
        EarlierInFront(Time(lo, occurs(lo).value), Between(occurs, lo + 1, hi));
      }
      hide EarlierFirst;
    }
  }

  /** The search interval is long enough: an occurrence that meets the window starts inside it. */
  lemma SearchMissesNothing(raw: RawEvent, w: Window, s: Time)
    requires raw.recurrenceId.None? && raw.Occurs(s) && Intersects(Build(raw, Some(s)), w)
    ensures s in Starts(raw, w)
  {
    BetweenFinds(raw.occurs, w.start - raw.Duration(), w.end);
  }

  /** What a shown event says, from the raw event's own fields: its UID, kind and content; an occurrence starts at its own
      time, everything else where the raw event starts; it ends at the raw event's end, moved with an occurrence's start,
      or without one a day later when it lasts all day and at once when it does not. */
  lemma EventFields(raws: seq<RawEvent>, source: Source)
    requires Known(raws, source)
    ensures var i := match source { case Occurrence(m, _) => m case Single(m) => m case Override(i) => i };
            i < |raws|
            && var e, raw := EventOf(raws, source), raws[i];
               && e.uid == raw.uid && e.isAllDay == raw.isDate && e.body == raw.body
               && e.startsAt == (if source.Occurrence? then source.start else raw.start)
               && e.original == (if source.Occurrence? then source.start.utc
                                 else if source.Single? then raw.start.utc else raw.recurrenceId.value.utc)
               && (raw.end.Some? ==>
                     e.endsAt == raw.end.value + if source.Occurrence? then source.start.wall - raw.start.wall else 0)
               && (raw.end.None? && raw.isDate ==> e.endsAt == e.startsAt.wall + 86_400)
               && (raw.end.None? && !raw.isDate ==> e.endsAt == e.startsAt.wall)
  {}

  // ----- the two agree

  /** The whole first pass over `raws`. */
  function Full(raws: seq<RawEvent>): (index: Index)
    ensures InRange(raws, index.overrides) && AllInRange(raws, Members(index.masters)) && AllInRange(raws, index.loose)
  {
    IndexInRange(raws);
    IndexUpTo(raws, |raws|)
  }

  // ----- the first pass, slot by slot

  /** What the first pass looks at one after the other: an occurrence of a master, or a master that does not recur. */
  datatype Slot = Recurs(master: nat, start: Time) | Alone(master: nat)

  /** The slots of live masters within the search. */
  ghost predicate LiveSlot(raws: seq<RawEvent>, w: Window, slot: Slot) {
    && IsMaster(raws, slot.master) && !raws[slot.master].cancelled
    && match slot
       case Recurs(m, s) => raws[m].recurring && raws[m].Occurs(s) && w.start - raws[m].Duration() <= s.wall <= w.end
       case Alone(m) => !raws[m].recurring
  }

  function SlotsOf(raws: seq<RawEvent>, w: Window, m: nat): seq<Slot>
    requires m < |raws|
  {
    if raws[m].cancelled then []
    else if raws[m].recurring then Occurrences(m, Starts(raws[m], w))
    else [Alone(m)]
  }

  function Occurrences(m: nat, starts: seq<Time>): seq<Slot> {
    seq(|starts|, i requires 0 <= i < |starts| => Recurs(m, starts[i]))
  }

  function Slots(raws: seq<RawEvent>, w: Window, ms: seq<nat>): seq<Slot>
    requires AllInRange(raws, ms)
    decreases |ms|
  {
    if ms == [] then [] else SlotsOf(raws, w, ms[0]) + Slots(raws, w, ms[1..])
  }

  function ShowSlot(raws: seq<RawEvent>, w: Window, slot: Slot): seq<Emission>
    requires slot.master < |raws|
  {
    match slot
    case Recurs(m, s) => EmitAt(raws, Full(raws), w, m, s)
    case Alone(m) => Show(Single(m), Build(raws[m], None), w)
  }

  predicate SlotsInRange(raws: seq<RawEvent>, slots: seq<Slot>) {
    forall i :: 0 <= i < |slots| ==> slots[i].master < |raws|
  }

  function ShowSlots(raws: seq<RawEvent>, w: Window, slots: seq<Slot>): seq<Emission>
    requires SlotsInRange(raws, slots)
    decreases |slots|
  {
    if slots == [] then [] else ShowSlot(raws, w, slots[0]) + ShowSlots(raws, w, slots[1..])
  }

  ghost predicate SlotShows(raws: seq<RawEvent>, w: Window, slot: Slot, source: Source) {
    slot.master < |raws| && Shows(ShowSlot(raws, w, slot), source)
  }

  lemma {:induction false} ShowSlotsConcat(raws: seq<RawEvent>, w: Window, a: seq<Slot>, b: seq<Slot>)
    requires SlotsInRange(raws, a) && SlotsInRange(raws, b)
    ensures SlotsInRange(raws, a + b) && ShowSlots(raws, w, a + b) == ShowSlots(raws, w, a) + ShowSlots(raws, w, b)
    decreases |a|
  {
    hide ShowSlot;
    if a == [] {
      assert a + b == b;
    } else {
      assert (a + b)[1..] == a[1..] + b;
      ShowSlotsConcat(raws, w, a[1..], b);
    }
  }

  lemma {:induction false} OccurrencesEmit(raws: seq<RawEvent>, w: Window, m: nat, starts: seq<Time>)
    requires m < |raws|
    ensures SlotsInRange(raws, Occurrences(m, starts))
    ensures ShowSlots(raws, w, Occurrences(m, starts)) == EmitAll(raws, Full(raws), w, m, starts)
    decreases |starts|
  {
    hide EmitAt, Full;
    if starts != [] {
      var slots := Occurrences(m, starts);
      assert slots[1..] == Occurrences(m, starts[1..]);
      assert slots[0] == Recurs(m, starts[0]);
      OccurrencesEmit(raws, w, m, starts[1..]);
    }
  }

  lemma MasterIsSlots(raws: seq<RawEvent>, w: Window, m: nat)
    requires m < |raws|
    ensures SlotsInRange(raws, SlotsOf(raws, w, m))
    ensures ExpandMaster(raws, Full(raws), w, m) == ShowSlots(raws, w, SlotsOf(raws, w, m))
  {
    hide EmitAll, Full, Build, Intersects, Starts;
    OccurrencesEmit(raws, w, m, Starts(raws[m], w));
    hide Occurrences;
    if !raws[m].cancelled && !raws[m].recurring {
      var alone := [Alone(m)];
      assert alone[1..] == [];
      assert ShowSlots(raws, w, alone) == ShowSlot(raws, w, Alone(m)) + [];
    }
  }

  function AllMasters(raws: seq<RawEvent>, w: Window, ms: seq<nat>): seq<Emission>
    requires AllInRange(raws, ms)
    decreases |ms|
  {
    if ms == [] then [] else ExpandMaster(raws, Full(raws), w, ms[0]) + AllMasters(raws, w, ms[1..])
  }

  lemma {:induction false} MastersAreSlots(raws: seq<RawEvent>, w: Window, ms: seq<nat>)
    requires AllInRange(raws, ms)
    ensures SlotsInRange(raws, Slots(raws, w, ms)) && AllMasters(raws, w, ms) == ShowSlots(raws, w, Slots(raws, w, ms))
    decreases |ms|
  {
    hide ExpandMaster, SlotsOf, Full, ShowSlot;
    if ms != [] {
      MasterIsSlots(raws, w, ms[0]);
      MastersAreSlots(raws, w, ms[1..]);
      ShowSlotsConcat(raws, w, SlotsOf(raws, w, ms[0]), Slots(raws, w, ms[1..]));
    }
  }

  /** The slots of the first pass are the live ones, each once. */
  lemma {:induction false} SlotsListed(raws: seq<RawEvent>, w: Window, ms: seq<nat>)
    requires AllInRange(raws, ms) && NoDup(ms) && forall i :: 0 <= i < |ms| ==> IsMaster(raws, ms[i])
    ensures NoDup(Slots(raws, w, ms))
    ensures forall slot :: slot in Slots(raws, w, ms) <==> (slot.master in ms && LiveSlot(raws, w, slot))
    decreases |ms|
  {
    hide SlotsOf, LiveSlot;
    if ms != [] {
      var here, rest := SlotsOf(raws, w, ms[0]), Slots(raws, w, ms[1..]);
      assert forall j :: 0 <= j < |ms[1..]| ==> ms[1..][j] == ms[j + 1];
      SlotsListed(raws, w, ms[1..]);
      OwnSlots(raws, w, ms[0]);
      NoDupConcat(here, rest);
    }
  }

  lemma NoDupConcat<T>(a: seq<T>, b: seq<T>)
    requires NoDup(a) && NoDup(b) && forall x :: x in a ==> x !in b
    ensures NoDup(a + b)
  {
    var s := a + b;
    forall i, j | 0 <= i < j < |s|
      ensures s[i] != s[j]
    {
      if i < |a| <= j { assert s[i] in a && s[j] in b; }
    }
  }

  lemma OwnSlots(raws: seq<RawEvent>, w: Window, m: nat)
    requires IsMaster(raws, m)
    ensures NoDup(SlotsOf(raws, w, m))
    ensures forall slot :: slot in SlotsOf(raws, w, m) <==> (slot.master == m && LiveSlot(raws, w, slot))
  {
    var starts, slots := Starts(raws[m], w), SlotsOf(raws, w, m);
    BetweenFinds(raws[m].occurs, w.start - raws[m].Duration(), w.end);
    hide Between;
    if !raws[m].cancelled && raws[m].recurring {
      forall slot: Slot | slot.Recurs? && slot.master == m && slot.start in starts
        ensures slot in slots
      {
        var i :| 0 <= i < |starts| && starts[i] == slot.start;
        assert slots[i] == slot;
      }
    }
  }

  lemma SlotFacts(raws: seq<RawEvent>, w: Window, slot: Slot)
    requires LiveSlot(raws, w, slot)
    ensures var here := ShowSlot(raws, w, slot);
            && Distinct(here) && Genuine(raws, here)
            && (forall source :: Shows(here, source) ==>
                  Known(raws, source) && (!source.Override? ==> slot == SlotFor(source)))
  {
    IndexIsIndexed(raws, |raws|);
    hide IndexUpTo, Intersects;
  }

  /** The slot that shows a source which is no override. */
  function SlotFor(source: Source): Slot
    requires !source.Override?
  {
    if source.Single? then Alone(source.master) else Recurs(source.master, source.start)
  }

  ghost predicate SomeSlotShows(raws: seq<RawEvent>, w: Window, slots: seq<Slot>, source: Source) {
    exists i :: 0 <= i < |slots| && SlotShows(raws, w, slots[i], source)
  }

  /** Two slots both show some source. */
  ghost predicate SlotsClash(raws: seq<RawEvent>, w: Window, slots: seq<Slot>) {
    exists i, j, source :: 0 <= i < j < |slots| && SlotShows(raws, w, slots[i], source) && SlotShows(raws, w, slots[j], source)
  }

  lemma {:induction false} SlotsShow(raws: seq<RawEvent>, w: Window, slots: seq<Slot>, source: Source)
    requires SlotsInRange(raws, slots) && forall i :: 0 <= i < |slots| ==> LiveSlot(raws, w, slots[i])
    ensures Shows(ShowSlots(raws, w, slots), source) <==> SomeSlotShows(raws, w, slots, source)
    ensures Genuine(raws, ShowSlots(raws, w, slots))
    decreases |slots|
  {
    hide ShowSlot, LiveSlot, EventOf, Known;
    if slots != [] {
      var rest := slots[1..];
      SlotsShow(raws, w, rest, source);
      SlotFacts(raws, w, slots[0]);
      ShowsAppend(ShowSlot(raws, w, slots[0]), ShowSlots(raws, w, rest), source);
      if SomeSlotShows(raws, w, rest, source) {
        var i :| 0 <= i < |rest| && SlotShows(raws, w, rest[i], source);
        assert SlotShows(raws, w, slots[i + 1], source);
      }
      if SomeSlotShows(raws, w, slots, source) {
        var i :| 0 <= i < |slots| && SlotShows(raws, w, slots[i], source);
        assert i > 0 ==> rest[i - 1] == slots[i];
      }
    }
  }

  lemma {:induction false} SlotsDistinct(raws: seq<RawEvent>, w: Window, slots: seq<Slot>)
    requires SlotsInRange(raws, slots) && forall i :: 0 <= i < |slots| ==> LiveSlot(raws, w, slots[i])
    ensures Distinct(ShowSlots(raws, w, slots)) <==> !SlotsClash(raws, w, slots)
    decreases |slots|
  {
    hide ShowSlot, LiveSlot, SlotShows, EventOf, Known;
    if slots != [] {
      var rest := slots[1..];
      SlotsDistinct(raws, w, rest);
      SlotFacts(raws, w, slots[0]);
      DistinctAppend(ShowSlot(raws, w, slots[0]), ShowSlots(raws, w, rest));
      forall source
        ensures Shows(ShowSlots(raws, w, rest), source) <==> SomeSlotShows(raws, w, rest, source)
        ensures Shows(ShowSlot(raws, w, slots[0]), source) <==> SlotShows(raws, w, slots[0], source)
      {
        SlotsShow(raws, w, rest, source);
        ShownBySlot(raws, w, slots[0], source);
      }
      SlotsClashStep(raws, w, slots);
    }
  }

  lemma ShownBySlot(raws: seq<RawEvent>, w: Window, slot: Slot, source: Source)
    requires slot.master < |raws|
    ensures Shows(ShowSlot(raws, w, slot), source) <==> SlotShows(raws, w, slot, source)
  {}

  lemma SlotsClashStep(raws: seq<RawEvent>, w: Window, slots: seq<Slot>)
    requires slots != []
    ensures SlotsClash(raws, w, slots) <==>
            (SlotsClash(raws, w, slots[1..])
             || exists source :: SlotShows(raws, w, slots[0], source) && SomeSlotShows(raws, w, slots[1..], source))
  {
    hide SlotShows;
    var rest := slots[1..];
    if SlotsClash(raws, w, slots) {
      var i, j, source :| 0 <= i < j < |slots| && SlotShows(raws, w, slots[i], source) && SlotShows(raws, w, slots[j], source);
      assert slots[j] == rest[j - 1];
      assert i > 0 ==> slots[i] == rest[i - 1];
      assert i == 0 ==> SomeSlotShows(raws, w, rest, source);
    }
    if SlotsClash(raws, w, rest) {
      var i, j, source :| 0 <= i < j < |rest| && SlotShows(raws, w, rest[i], source) && SlotShows(raws, w, rest[j], source);
      assert SlotShows(raws, w, slots[i + 1], source) && SlotShows(raws, w, slots[j + 1], source);
    }
    if source :| SlotShows(raws, w, slots[0], source) && SomeSlotShows(raws, w, rest, source) {
      var j :| 0 <= j < |rest| && SlotShows(raws, w, rest[j], source);
      assert SlotShows(raws, w, slots[0], source) && SlotShows(raws, w, slots[j + 1], source);
    }
  }

  // ----- what the first pass shows

  ghost predicate ShownLive(raws: seq<RawEvent>, w: Window, slot: Slot, source: Source) {
    LiveSlot(raws, w, slot) && SlotShows(raws, w, slot, source)
  }

  /** Two different live slots show some source. */
  ghost predicate Clash(raws: seq<RawEvent>, w: Window) {
    exists x: Slot, y: Slot, source: Source :: x != y && ShownLive(raws, w, x, source) && ShownLive(raws, w, y, source)
  }

  /** The first pass shows what some live slot shows, and something twice exactly when two live slots clash. */
  lemma FirstPassIsSlots(raws: seq<RawEvent>, w: Window, source: Source)
    ensures AllInRange(raws, Members(Full(raws).masters))
    ensures var first := AllMasters(raws, w, Members(Full(raws).masters));
            && Genuine(raws, first)
            && (Shows(first, source) <==> exists slot :: ShownLive(raws, w, slot, source))
            && (Distinct(first) <==> !Clash(raws, w))
  {
    hide LiveSlot, SlotShows, ShowSlots, AllMasters, Full, Genuine, Distinct, Shows, SlotsClash, Clash, MastersIndexed;
    MastersListed(raws);
    var ms := Members(Full(raws).masters);
    ListedAreMasters(raws);
    ListedOnce(raws, ms);
    MastersAreSlots(raws, w, ms);
    SlotsListed(raws, w, ms);
    var slots := Slots(raws, w, ms);
    hide Slots;
    LiveAreListed(raws, w, ms, slots);
    SlotsShow(raws, w, slots, source);
    SlotsDistinct(raws, w, slots);
    ClashIsSlots(raws, w, slots);
    if slot :| ShownLive(raws, w, slot, source) {
      var i :| 0 <= i < |slots| && slots[i] == slot;
    }
    if SomeSlotShows(raws, w, slots, source) {
      var i :| 0 <= i < |slots| && SlotShows(raws, w, slots[i], source);
      assert ShownLive(raws, w, slots[i], source);
    }
  }

  lemma ListedOnce(raws: seq<RawEvent>, ms: seq<nat>)
    requires MastersIndexed(raws, |raws|, ms)
    ensures NoDup(ms)
  {}

  lemma LiveAreListed(raws: seq<RawEvent>, w: Window, ms: seq<nat>, slots: seq<Slot>)
    requires MastersIndexed(raws, |raws|, ms)
    requires forall slot :: slot in slots <==> (slot.master in ms && LiveSlot(raws, w, slot))
    ensures forall slot :: slot in slots <==> LiveSlot(raws, w, slot)
    ensures forall i :: 0 <= i < |slots| ==> LiveSlot(raws, w, slots[i])
  {
    forall slot | LiveSlot(raws, w, slot)
      ensures slot.master in ms
    {}
    hide LiveSlot;
    assert forall i :: 0 <= i < |slots| ==> slots[i] in slots;
  }

  lemma ClashIsSlots(raws: seq<RawEvent>, w: Window, slots: seq<Slot>)
    requires NoDup(slots) && forall slot :: slot in slots <==> LiveSlot(raws, w, slot)
    ensures SlotsClash(raws, w, slots) <==> Clash(raws, w)
  {
    hide LiveSlot, SlotShows;
    if SlotsClash(raws, w, slots) {
      var i, j, source :| 0 <= i < j < |slots| && SlotShows(raws, w, slots[i], source) && SlotShows(raws, w, slots[j], source);
      assert slots[i] in slots && slots[j] in slots;
      assert ShownLive(raws, w, slots[i], source) && ShownLive(raws, w, slots[j], source);
    }
    if x: Slot, y: Slot, source: Source :| x != y && ShownLive(raws, w, x, source) && ShownLive(raws, w, y, source) {
      var i :| 0 <= i < |slots| && slots[i] == x;
      var j :| 0 <= j < |slots| && slots[j] == y;
      var lo, hi := if i < j then i else j, if i < j then j else i;
      assert SlotShows(raws, w, slots[lo], source) && SlotShows(raws, w, slots[hi], source);
    }
  }

  lemma {:induction false} WithinTheLimit(raws: seq<RawEvent>, w: Window, ms: seq<nat>, events: seq<Emission>)
    requires AllInRange(raws, ms) && ExpandMasters(raws, Full(raws), w, ms, events).Some?
    ensures ExpandMasters(raws, Full(raws), w, ms, events).value == events + AllMasters(raws, w, ms)
    decreases |ms|
  {
    hide Full, ExpandMaster;
    if ms == [] {
      assert events + [] == events;
    } else {
      var here := ExpandMaster(raws, Full(raws), w, ms[0]);
      WithinTheLimit(raws, w, ms[1..], events + here);
      assert events + here + AllMasters(raws, w, ms[1..]) == events + (here + AllMasters(raws, w, ms[1..]));
    }
  }

  lemma {:induction false} ConsumedIsShown(events: seq<Emission>, i: nat)
    ensures i in Consumed(events) <==> Shows(events, Override(i))
    decreases |events|
  {
    if events != [] {
      var front, last := events[..|events| - 1], events[|events| - 1];
      ConsumedIsShown(front, i);
      ShowsAppend(front, [last], Override(i));
      assert front + [last] == events;
      assert Shows([last], Override(i)) <==> last.source == Override(i) by { assert [last][0] == last; }
    }
  }

  lemma {:induction false} LooseShows(raws: seq<RawEvent>, w: Window, loose: seq<nat>, consumed: set<nat>, source: Source)
    requires AllInRange(raws, loose) && NoDup(loose) && forall i :: 0 <= i < |loose| ==> IsOverride(raws, loose[i])
    ensures var shown := LooseOverrides(raws, w, loose, consumed);
            && Distinct(shown) && Genuine(raws, shown)
            && (Shows(shown, source) <==>
                source.Override? && source.index in loose && source.index !in consumed
                && Intersects(EventOf(raws, source), w))
    decreases |loose|
  {
    hide Intersects, Build;
    if loose != [] {
      var here, rest := LooseAt(raws, w, loose[0], consumed), LooseOverrides(raws, w, loose[1..], consumed);
      assert forall j :: 0 <= j < |loose[1..]| ==> loose[1..][j] == loose[j + 1];
      LooseShows(raws, w, loose[1..], consumed, source);
      LooseShows(raws, w, loose[1..], consumed, Override(loose[0]));
      assert here != [] ==> here[0].source == Override(loose[0]);
      assert forall other :: Shows(here, other) ==> other == Override(loose[0]);
      DistinctAppend(here, rest);
      ShowsAppend(here, rest, source);
    }
  }

  /** The first pass shows only what is expected, and everything expected that is no override. */
  lemma FirstPassShows(raws: seq<RawEvent>, w: Window, source: Source)
    ensures (exists slot :: ShownLive(raws, w, slot, source)) ==> Expected(raws, w, source)
    ensures Expected(raws, w, source) && !source.Override? ==> exists slot :: ShownLive(raws, w, slot, source)
  {
    if slot :| ShownLive(raws, w, slot, source) {
      ShownIsExpected(raws, w, slot, source);
    }
    if Expected(raws, w, source) && !source.Override? {
      ExpectedIsShown(raws, w, source);
    }
  }

  lemma ExpectedIsShown(raws: seq<RawEvent>, w: Window, source: Source)
    requires Expected(raws, w, source) && !source.Override?
    ensures ShownLive(raws, w, SlotFor(source), source)
  {
    IndexIsIndexed(raws, |raws|);
    if source.Occurrence? {
      SearchMissesNothing(raws[source.master], w, source.start);
      BetweenFinds(raws[source.master].occurs, w.start - raws[source.master].Duration(), w.end);
    }
    hide IndexUpTo, Build, Starts, Intersects;
    var here := ShowSlot(raws, w, SlotFor(source));
    assert here[0].source == source;
  }

  lemma ShownIsExpected(raws: seq<RawEvent>, w: Window, slot: Slot, source: Source)
    requires ShownLive(raws, w, slot, source)
    ensures Expected(raws, w, source)
  {
    IndexIsIndexed(raws, |raws|);
    hide IndexUpTo, Build, Between, Intersects;
    var here := ShowSlot(raws, w, slot);
    assert here == [here[0]] && here[0].source == source;
    match slot
    case Alone(_) =>
    case Recurs(m, s) =>
      if source.Override? { OverrideEvent(raws, source.index, s); }
  }

  /** An override shown for an occurrence is the event it stands for. */
  lemma OverrideEvent(raws: seq<RawEvent>, i: nat, s: Time)
    requires IsOverride(raws, i) && Key(raws, i).1 == s.utc
    ensures Build(raws[i], Some(s)) == EventOf(raws, Override(i))
  {}

  /** The two-pass expansion is its declarative statement: unless the limit is hit, the window's events are
      exactly the expected ones, each as its source says, and no source twice - provided no override is claimed by two
      occurrences. When different sources have one identity, `IdentityRepeatsIff` says. */
  lemma ExpansionIsExpected(raws: seq<RawEvent>, w: Window, source: Source)
    requires Expand(raws, w).Some?
    ensures var events := Expand(raws, w).value;
            && Genuine(raws, events)
            && (Shows(events, source) <==> Expected(raws, w, source))
            && (Distinct(events) <==> !Clash(raws, w))
  {
    hide Expand, AllMasters, LooseOverrides, Consumed, Clash, Expected, EventOf, Known, IndexUpTo, ShownLive;
    TwoPasses(raws, w);
    FirstPassIsSlots(raws, w, source);
    var first := AllMasters(raws, w, Members(Full(raws).masters));
    var second := LooseOverrides(raws, w, Full(raws).loose, Consumed(first));
    SecondPassShows(raws, w, first, second, source);
    hide Full, Shows, Distinct;
    ShowsAppend(first, second, source);
    SecondPassIsNew(raws, w, first, second);
    DistinctAppend(first, second);
    FirstPassShows(raws, w, source);
  }

  /** When the raw event at `i`, started at the wall time `start`, meets the window. */
  predicate Meets(raw: RawEvent, start: int, w: Window) {
    var end := match raw.end
      case Some(e) => e + start - raw.start.wall
      case None => if raw.isDate then start + 86_400 else start;
    start < w.end && w.start < end
  }

  /** What a window shows, in the raw events' own fields: every single event and every override that is not cancelled and
      meets it, and every occurrence of a recurring event that is not cancelled, meets it, and whose instant no override
      and no cancellation of its UID names. */
  lemma ShownIff(raws: seq<RawEvent>, w: Window, i: nat, s: Time)
    requires Expand(raws, w).Some? && i < |raws|
    ensures var events, raw := Expand(raws, w).value, raws[i];
            && (Shows(events, Single(i)) <==>
                  raw.recurrenceId.None? && !raw.cancelled && !raw.recurring && Meets(raw, raw.start.wall, w))
            && (Shows(events, Override(i)) <==> raw.recurrenceId.Some? && !raw.cancelled && Meets(raw, raw.start.wall, w))
            && (Shows(events, Occurrence(i, s)) <==>
                  && raw.recurrenceId.None? && !raw.cancelled && raw.recurring && raw.occurs(s.wall) == Some(s.utc)
                  && Meets(raw, s.wall, w)
                  && forall j :: 0 <= j < |raws| && raws[j].uid == raw.uid && raws[j].recurrenceId.Some? ==>
                       raws[j].recurrenceId.value.utc != s.utc)
  {
    hide Expand, Shows, Expected, Genuine, Distinct, Clash;
    ExpansionIsExpected(raws, w, Single(i));
    ExpansionIsExpected(raws, w, Override(i));
    ExpansionIsExpected(raws, w, Occurrence(i, s));
    ExpectedFixed(raws, w, i);
    ExpectedOccurrence(raws, w, i, s);
  }

  lemma ExpectedFixed(raws: seq<RawEvent>, w: Window, i: nat)
    requires i < |raws|
    ensures Expected(raws, w, Single(i)) <==>
            raws[i].recurrenceId.None? && !raws[i].cancelled && !raws[i].recurring && Meets(raws[i], raws[i].start.wall, w)
    ensures Expected(raws, w, Override(i)) <==>
            raws[i].recurrenceId.Some? && !raws[i].cancelled && Meets(raws[i], raws[i].start.wall, w)
  {}

  lemma ExpectedOccurrence(raws: seq<RawEvent>, w: Window, i: nat, s: Time)
    requires i < |raws|
    ensures Expected(raws, w, Occurrence(i, s)) <==>
              && raws[i].recurrenceId.None? && !raws[i].cancelled && raws[i].recurring && raws[i].occurs(s.wall) == Some(s.utc)
              && Meets(raws[i], s.wall, w)
              && forall j :: 0 <= j < |raws| && raws[j].uid == raws[i].uid && raws[j].recurrenceId.Some? ==>
                   raws[j].recurrenceId.value.utc != s.utc
  {
    var key := (raws[i].uid, s.utc);
    hide Build, Intersects, Meets;
    if raws[i].recurrenceId.None? { TimesMeet(raws, w, i, s); }
    forall j: nat | j < |raws|
      ensures Cancels(raws[j], key) || (IsOverride(raws, j) && Key(raws, j) == key) <==>
              raws[j].uid == raws[i].uid && raws[j].recurrenceId.Some? && raws[j].recurrenceId.value.utc == s.utc
    {}
  }

  lemma TimesMeet(raws: seq<RawEvent>, w: Window, i: nat, s: Time)
    requires i < |raws| && raws[i].recurrenceId.None?
    ensures Intersects(Build(raws[i], Some(s)), w) <==> Meets(raws[i], s.wall, w)
  {}

  /** When a window is refused for too many events: exactly when the masters show more than five thousand. */
  lemma RefusedIff(raws: seq<RawEvent>, w: Window)
    ensures AllInRange(raws, Members(Full(raws).masters))
    ensures Expand(raws, w).None? <==> |AllMasters(raws, w, Members(Full(raws).masters))| > 5_000
  {
    IndexInRange(raws);
    hide IndexUpTo, Consumed, LooseOverrides, AllMasters, ExpandMasters;
    LimitIff(raws, w, Members(Full(raws).masters), []);
  }

  lemma {:induction false} LimitIff(raws: seq<RawEvent>, w: Window, ms: seq<nat>, events: seq<Emission>)
    requires AllInRange(raws, ms) && |events| <= MAX_EVENTS
    ensures ExpandMasters(raws, Full(raws), w, ms, events).None? <==> |events| + |AllMasters(raws, w, ms)| > 5_000
    decreases |ms|
  {
    hide Full, ExpandMaster;
    if ms != [] {
      var grown := events + ExpandMaster(raws, Full(raws), w, ms[0]);
      if |grown| <= MAX_EVENTS { LimitIff(raws, w, ms[1..], grown); }
    }
  }

  lemma TwoPasses(raws: seq<RawEvent>, w: Window)
    requires Expand(raws, w).Some?
    ensures AllInRange(raws, Members(Full(raws).masters)) && AllInRange(raws, Full(raws).loose)
    ensures var first := AllMasters(raws, w, Members(Full(raws).masters));
            Expand(raws, w).value == first + LooseOverrides(raws, w, Full(raws).loose, Consumed(first))
  {
    IndexInRange(raws);
    hide IndexUpTo, Consumed, LooseOverrides, AllMasters, ExpandMasters;
    var ms := Members(Full(raws).masters);
    WithinTheLimit(raws, w, ms, []);
    assert [] + AllMasters(raws, w, ms) == AllMasters(raws, w, ms);
  }

  lemma ListedAreMasters(raws: seq<RawEvent>)
    ensures var ms := Members(Full(raws).masters); forall i :: 0 <= i < |ms| ==> IsMaster(raws, ms[i])
  {
    IndexIsIndexed(raws, |raws|);
    hide IndexUpTo;
    var ms := Members(Full(raws).masters);
    assert forall i :: 0 <= i < |ms| ==> ms[i] in ms;
  }

  /** The second pass shows the expected overrides the first did not. */
  lemma SecondPassShows(raws: seq<RawEvent>, w: Window, first: seq<Emission>, second: seq<Emission>, source: Source)
    requires AllInRange(raws, Full(raws).loose) && second == LooseOverrides(raws, w, Full(raws).loose, Consumed(first))
    ensures Distinct(second) && Genuine(raws, second)
    ensures Shows(second, source) <==> source.Override? && Expected(raws, w, source) && !Shows(first, source)
  {
    hide LooseOverrides, Consumed, IndexUpTo, Expected, EventOf, Genuine;
    IndexIsIndexed(raws, |raws|);
    var loose := Full(raws).loose;
    assert forall i :: 0 <= i < |loose| ==> loose[i] in loose;
    LooseShows(raws, w, loose, Consumed(first), source);
    OverrideExpected(raws, w, source);
    if source.Override? { ConsumedIsShown(first, source.index); }
  }

  lemma OverrideExpected(raws: seq<RawEvent>, w: Window, source: Source)
    ensures source.Override? ==>
              (Expected(raws, w, source) <==>
               source.index in Full(raws).loose && Known(raws, source) && Intersects(EventOf(raws, source), w))
  {
    IndexIsIndexed(raws, |raws|);
  }

  lemma SecondPassIsNew(raws: seq<RawEvent>, w: Window, first: seq<Emission>, second: seq<Emission>)
    requires second == LooseOverrides(raws, w, Full(raws).loose, Consumed(first))
    ensures forall source :: !(Shows(first, source) && Shows(second, source))
  {
    hide LooseOverrides, Consumed, IndexUpTo;
    IndexIsIndexed(raws, |raws|);
    var loose := Full(raws).loose;
    assert forall i :: 0 <= i < |loose| ==> loose[i] in loose;
    forall source
      ensures !(Shows(first, source) && Shows(second, source))
    {
      LooseShows(raws, w, loose, Consumed(first), source);
      if source.Override? { ConsumedIsShown(first, source.index); }
    }
  }

  /** No later override of the file has the same key. */
  ghost predicate LastOverride(raws: seq<RawEvent>, i: nat)
    requires IsOverride(raws, i)
  {
    forall j: nat :: i < j < |raws| && IsOverride(raws, j) ==> Key(raws, j) != Key(raws, i)
  }

  lemma {:induction false} OverridesInForce(raws: seq<RawEvent>, n: nat, i: nat)
    requires i < n <= |raws| && IsOverride(raws, i)
    ensures var overrides := IndexUpTo(raws, n).overrides;
            Key(raws, i) in overrides
            && (overrides[Key(raws, i)] == i <==>
                forall j: nat :: i < j < n && IsOverride(raws, j) ==> Key(raws, j) != Key(raws, i))
    decreases n
  {
    hide AddMaster;
    if i < n - 1 {
      OverridesInForce(raws, n - 1, i);
      NextOverride(raws, n - 1, i);
    }
  }

  lemma NextOverride(raws: seq<RawEvent>, n: nat, i: nat)
    requires i < n < |raws| && IsOverride(raws, i)
    ensures (forall j: nat :: i < j < n + 1 && IsOverride(raws, j) ==> Key(raws, j) != Key(raws, i)) <==>
            (forall j: nat :: i < j < n && IsOverride(raws, j) ==> Key(raws, j) != Key(raws, i))
            && (IsOverride(raws, n) ==> Key(raws, n) != Key(raws, i))
  {}

  /** Override `i` is the last of its key, and master `m` of its UID recurs within the search at `s`, which names the
      instant of that key. */
  ghost predicate Claims(raws: seq<RawEvent>, w: Window, m: nat, s: Time, i: nat) {
    && LiveSlot(raws, w, Recurs(m, s)) && IsOverride(raws, i) && Key(raws, i) == (raws[m].uid, s.utc)
    && !CancelledIn(raws, |raws|, Key(raws, i)) && LastOverride(raws, i)
    && Intersects(EventOf(raws, Override(i)), w)
  }

  /** The override in force for a key is the last of that key. */
  lemma InForce(raws: seq<RawEvent>, key: (string, int), i: nat)
    ensures key in Full(raws).overrides && Full(raws).overrides[key] == i <==>
            IsOverride(raws, i) && Key(raws, i) == key && LastOverride(raws, i)
    ensures key in Full(raws).cancelled <==> CancelledIn(raws, |raws|, key)
  {
    IndexIsIndexed(raws, |raws|);
    if IsOverride(raws, i) { OverridesInForce(raws, |raws|, i); }
    hide IndexUpTo;
  }

  lemma SlotShowsOverride(raws: seq<RawEvent>, w: Window, slot: Slot, i: nat)
    ensures ShownLive(raws, w, slot, Override(i)) <==> slot.Recurs? && Claims(raws, w, slot.master, slot.start, i)
  {
    hide LiveSlot, SlotShows;
    if LiveSlot(raws, w, slot) {
      LiveIsMaster(raws, w, slot);
      if slot.Recurs? {
        EmitsOverride(raws, w, slot.master, slot.start, i);
      } else {
        ShowsSingle(raws, w, slot.master, i);
      }
    }
  }

  lemma LiveIsMaster(raws: seq<RawEvent>, w: Window, slot: Slot)
    requires LiveSlot(raws, w, slot)
    ensures IsMaster(raws, slot.master)
  {}

  lemma ShowsSingle(raws: seq<RawEvent>, w: Window, m: nat, i: nat)
    requires m < |raws|
    ensures !SlotShows(raws, w, Alone(m), Override(i))
  {}

  lemma EmitsOverride(raws: seq<RawEvent>, w: Window, m: nat, s: Time, i: nat)
    requires IsMaster(raws, m)
    ensures SlotShows(raws, w, Recurs(m, s), Override(i)) <==>
            && IsOverride(raws, i) && Key(raws, i) == (raws[m].uid, s.utc)
            && !CancelledIn(raws, |raws|, Key(raws, i)) && LastOverride(raws, i)
            && Intersects(EventOf(raws, Override(i)), w)
  {
    hide Intersects, LastOverride, CancelledIn, Full;
    InForce(raws, (raws[m].uid, s.utc), i);
    var here := ShowSlot(raws, w, Recurs(m, s));
    assert here != [] ==> here == [here[0]];
    if IsOverride(raws, i) && Key(raws, i).1 == s.utc { OverrideEvent(raws, i, s); }
  }

  /** Two occurrences - of two masters, or of one - claim one override. */
  ghost predicate BothClaim(raws: seq<RawEvent>, w: Window, m: nat, s: Time, n: nat, t: Time, i: nat) {
    (m, s) != (n, t) && Claims(raws, w, m, s, i) && Claims(raws, w, n, t, i)
  }

  ghost predicate DoubleClaim(raws: seq<RawEvent>, w: Window) {
    exists m: nat, s: Time, n: nat, t: Time, i: nat :: BothClaim(raws, w, m, s, n, t, i)
  }

  lemma MastersListed(raws: seq<RawEvent>)
    ensures MastersIndexed(raws, |raws|, Members(Full(raws).masters)) && AllInRange(raws, Members(Full(raws).masters))
  {
    IndexIsIndexed(raws, |raws|);
  }

  /** When one source is shown twice: exactly when two occurrences claim one override. */
  lemma ClashIsDoubleClaim(raws: seq<RawEvent>, w: Window)
    ensures Clash(raws, w) <==> DoubleClaim(raws, w)
  {
    hide Claims, ShownLive;
    if Clash(raws, w) {
      var x: Slot, y: Slot, source: Source :| x != y && ShownLive(raws, w, x, source) && ShownLive(raws, w, y, source);
      if !source.Override? {
        ShownNamesItsSlot(raws, w, x, source);
        ShownNamesItsSlot(raws, w, y, source);
      } else {
        SlotShowsOverride(raws, w, x, source.index);
        SlotShowsOverride(raws, w, y, source.index);
        assert BothClaim(raws, w, x.master, x.start, y.master, y.start, source.index);
      }
    }
    if m: nat, s: Time, n: nat, t: Time, i: nat :| BothClaim(raws, w, m, s, n, t, i) {
      SlotShowsOverride(raws, w, Recurs(m, s), i);
      SlotShowsOverride(raws, w, Recurs(n, t), i);
      assert ShownLive(raws, w, Recurs(m, s), Override(i)) && ShownLive(raws, w, Recurs(n, t), Override(i));
    }
  }

  lemma ShownNamesItsSlot(raws: seq<RawEvent>, w: Window, slot: Slot, source: Source)
    requires ShownLive(raws, w, slot, source) && !source.Override?
    ensures slot == SlotFor(source)
  {
    SlotFacts(raws, w, slot);
    hide ShowSlot, LiveSlot;
  }

  /** An event does not depend on the window it is looked at through. */
  lemma SameEventInEveryWindow(raws: seq<RawEvent>, w: Window, v: Window, i: nat, j: nat)
    requires Expand(raws, w).Some? && Expand(raws, v).Some?
    requires i < |Expand(raws, w).value| && j < |Expand(raws, v).value|
    requires Expand(raws, w).value[i].source == Expand(raws, v).value[j].source
    ensures Expand(raws, w).value[i].event == Expand(raws, v).value[j].event
  {
    hide Expand, EventOf, Known;
    ExpansionIsExpected(raws, w, Single(0));
    ExpansionIsExpected(raws, v, Single(0));
  }

  // ----- when two shown events have one identity

  /** What `source_event_id`, and so `event_id`, is made of. */
  function Identity(e: Event): (string, int) { (e.uid, e.original) }

  ghost predicate Repeats(events: seq<Emission>) {
    exists a, b :: 0 <= a < b < |events| && Identity(events[a].event) == Identity(events[b].event)
  }

  /** Master `m` shows an event of its own that starts at `s`. */
  ghost predicate MasterAt(raws: seq<RawEvent>, w: Window, m: nat, s: Time) {
    && IsMaster(raws, m) && !raws[m].cancelled && Intersects(Build(raws[m], Some(s)), w)
    && if raws[m].recurring then
         raws[m].Occurs(s) && !CancelledIn(raws, |raws|, (raws[m].uid, s.utc)) && !OverriddenIn(raws, |raws|, (raws[m].uid, s.utc))
       else s == raws[m].start
  }

  ghost predicate OverrideShown(raws: seq<RawEvent>, w: Window, i: nat) {
    IsOverride(raws, i) && Intersects(EventOf(raws, Override(i)), w)
  }

  /** Two events of live masters of one UID start at one instant: of two masters, or of one that recurs at two wall
      times which name one instant, as those of a gap do. */
  ghost predicate CommonStart(raws: seq<RawEvent>, w: Window, m: nat, s: Time, n: nat, t: Time) {
    (m, s) != (n, t) && MasterAt(raws, w, m, s) && MasterAt(raws, w, n, t) && raws[m].uid == raws[n].uid && s.utc == t.utc
  }

  /** Two uncancelled overrides have one key. */
  ghost predicate TwinOverrides(raws: seq<RawEvent>, w: Window, i: nat, j: nat) {
    i != j && OverrideShown(raws, w, i) && OverrideShown(raws, w, j) && Key(raws, i) == Key(raws, j)
  }

  /** A single event stands beside an override at its own start. */
  ghost predicate SingleBesideOverride(raws: seq<RawEvent>, w: Window, m: nat, i: nat) {
    && m < |raws| && MasterAt(raws, w, m, raws[m].start) && !raws[m].recurring
    && OverrideShown(raws, w, i) && Key(raws, i) == (raws[m].uid, raws[m].start.utc)
  }

  ghost predicate Ambiguous(raws: seq<RawEvent>, w: Window) {
    || (exists m: nat, s: Time, n: nat, t: Time :: CommonStart(raws, w, m, s, n, t))
    || (exists i: nat, j: nat :: TwinOverrides(raws, w, i, j))
    || (exists m: nat, i: nat :: SingleBesideOverride(raws, w, m, i))
    || DoubleClaim(raws, w)
  }

  function StartOf(raws: seq<RawEvent>, source: Source): Time
    requires Known(raws, source)
  {
    match source
    case Occurrence(_, s) => s
    case Single(m) => raws[m].start
    case Override(i) => raws[i].recurrenceId.value
  }

  function RawOf(source: Source): nat {
    match source case Occurrence(m, _) => m case Single(m) => m case Override(i) => i
  }

  lemma SourceIdentity(raws: seq<RawEvent>, source: Source)
    requires Known(raws, source)
    ensures RawOf(source) < |raws| && Identity(EventOf(raws, source)) == (raws[RawOf(source)].uid, StartOf(raws, source).utc)
  {}

  lemma ExpectedMasterAt(raws: seq<RawEvent>, w: Window, source: Source)
    requires Known(raws, source) && !source.Override?
    ensures Expected(raws, w, source) <==> MasterAt(raws, w, RawOf(source), StartOf(raws, source))
  {
    hide CancelledIn, OverriddenIn;
  }

  /** Different sources with one identity. */
  lemma SourcesMeet(raws: seq<RawEvent>, w: Window, x: Source, y: Source)
    requires Expected(raws, w, x) && Expected(raws, w, y) && x != y
    requires Identity(EventOf(raws, x)) == Identity(EventOf(raws, y))
    ensures Ambiguous(raws, w)
  {
    SourceIdentity(raws, x);
    SourceIdentity(raws, y);
    if !x.Override? { ExpectedMasterAt(raws, w, x); }
    if !y.Override? { ExpectedMasterAt(raws, w, y); }
    if x.Override? && y.Override? {
      hide Build, Intersects, DoubleClaim, CancelledIn, OverriddenIn;
      assert TwinOverrides(raws, w, x.index, y.index);
    } else if x.Override? {
      BesideOverride(raws, w, y, x);
    } else if y.Override? {
      BesideOverride(raws, w, x, y);
    } else {
      hide Build, Intersects, DoubleClaim, CancelledIn, OverriddenIn;
      assert CommonStart(raws, w, RawOf(x), StartOf(raws, x), RawOf(y), StartOf(raws, y));
    }
  }

  lemma BesideOverride(raws: seq<RawEvent>, w: Window, x: Source, y: Source)
    requires Expected(raws, w, x) && Expected(raws, w, y) && !x.Override? && y.Override?
    requires raws[RawOf(x)].uid == raws[y.index].uid && StartOf(raws, x).utc == raws[y.index].recurrenceId.value.utc
    ensures Ambiguous(raws, w)
  {
    hide DoubleClaim;
    ExpectedMasterAt(raws, w, x);
    assert OverriddenIn(raws, |raws|, Key(raws, y.index));
    assert SingleBesideOverride(raws, w, x.master, y.index);
  }

  lemma ShownApart(raws: seq<RawEvent>, w: Window, x: Source, y: Source)
    requires Expand(raws, w).Some? && Expected(raws, w, x) && Expected(raws, w, y) && x != y
    requires Identity(EventOf(raws, x)) == Identity(EventOf(raws, y))
    ensures Repeats(Expand(raws, w).value)
  {
    hide Expand, Expected, EventOf, Known;
    ExpansionIsExpected(raws, w, x);
    ExpansionIsExpected(raws, w, y);
    var events := Expand(raws, w).value;
    var a :| 0 <= a < |events| && events[a].source == x;
    var b :| 0 <= b < |events| && events[b].source == y;
    var lo, hi := if a < b then a else b, if a < b then b else a;
    assert Identity(events[lo].event) == Identity(events[hi].event);
  }

  /** The sources behind each case. */
  lemma AmbiguousMeets(raws: seq<RawEvent>, w: Window)
    requires Expand(raws, w).Some? && Ambiguous(raws, w) && !DoubleClaim(raws, w)
    ensures Repeats(Expand(raws, w).value)
  {
    hide Expand, Build, Intersects, DoubleClaim, CancelledIn, OverriddenIn, Repeats;
    if m: nat, s: Time, n: nat, t: Time :| CommonStart(raws, w, m, s, n, t) {
      var x := MasterSource(raws, w, m, s);
      var y := MasterSource(raws, w, n, t);
      ShownApart(raws, w, x, y);
    } else if i: nat, j: nat :| TwinOverrides(raws, w, i, j) {
      SourceIdentity(raws, Override(i));
      SourceIdentity(raws, Override(j));
      ShownApart(raws, w, Override(i), Override(j));
    } else {
      var m: nat, i: nat :| SingleBesideOverride(raws, w, m, i);
      var x := MasterSource(raws, w, m, raws[m].start);
      SourceIdentity(raws, Override(i));
      ShownApart(raws, w, x, Override(i));
    }
  }

  lemma MasterSource(raws: seq<RawEvent>, w: Window, m: nat, s: Time) returns (x: Source)
    requires MasterAt(raws, w, m, s)
    ensures Expected(raws, w, x) && Identity(EventOf(raws, x)) == (raws[m].uid, s.utc)
    ensures x == if raws[m].recurring then Occurrence(m, s) else Single(m)
  {
    x := if raws[m].recurring then Occurrence(m, s) else Single(m);
    ExpectedMasterAt(raws, w, x);
    SourceIdentity(raws, x);
  }

  /** Exactly when two shown events have one identity: two events of live masters of a UID start at one instant, two
      uncancelled overrides have one key, a single event has an override at its start, or two occurrences claim one
      override. */
  lemma IdentityRepeatsIff(raws: seq<RawEvent>, w: Window)
    requires Expand(raws, w).Some?
    ensures Repeats(Expand(raws, w).value) <==> Ambiguous(raws, w)
  {
    hide Expand, Expected, EventOf, Known, CommonStart, TwinOverrides, SingleBesideOverride, DoubleClaim, Clash;
    ExpansionIsExpected(raws, w, Single(0));
    ClashIsDoubleClaim(raws, w);
    var events := Expand(raws, w).value;
    if DoubleClaim(raws, w) {
      var a, b :| 0 <= a < b < |events| && events[a].source == events[b].source;
      assert Identity(events[a].event) == Identity(events[b].event);
    } else {
      if Ambiguous(raws, w) { AmbiguousMeets(raws, w); }
      if Repeats(events) {
        var a, b :| 0 <= a < b < |events| && Identity(events[a].event) == Identity(events[b].event);
        ExpansionIsExpected(raws, w, events[a].source);
        ExpansionIsExpected(raws, w, events[b].source);
        assert Shows(events, events[a].source) && Shows(events, events[b].source);
        SourcesMeet(raws, w, events[a].source, events[b].source);
      }
    }
  }

  /** No two occurrences of a master name one instant. */
  ghost predicate NamesInstantsOnce(raw: RawEvent) {
    forall s: Time, t: Time :: raw.Occurs(s) && raw.Occurs(t) && s.utc == t.utc ==> s == t
  }

  /** A calendar with one live master per UID that names its instants once, one override per key, and no override at a
      single event's own start never shows two events of one identity, in any window. */
  lemma OneMasterPerUid(raws: seq<RawEvent>, w: Window)
    requires Expand(raws, w).Some?
    requires forall m: nat, n: nat :: IsMaster(raws, m) && IsMaster(raws, n) && m != n && !raws[m].cancelled && !raws[n].cancelled
                                      ==> raws[m].uid != raws[n].uid
    requires forall m: nat :: IsMaster(raws, m) && !raws[m].cancelled && raws[m].recurring ==> NamesInstantsOnce(raws[m])
    requires forall i: nat, j: nat :: IsOverride(raws, i) && IsOverride(raws, j) && i != j ==> Key(raws, i) != Key(raws, j)
    requires forall m: nat, i: nat :: IsMaster(raws, m) && !raws[m].cancelled && !raws[m].recurring && IsOverride(raws, i)
                                      ==> Key(raws, i) != (raws[m].uid, raws[m].start.utc)
    ensures !Repeats(Expand(raws, w).value)
  {
    hide Expand, Build, Intersects, CancelledIn, OverriddenIn, Repeats;
    IdentityRepeatsIff(raws, w);
  }

  // ----- each case occurs

  lemma {:induction false} BetweenBound(occurs: int -> Option<int>, lo: int, hi: int)
    ensures |Between(occurs, lo, hi)| <= if lo > hi then 0 else hi - lo + 1
    decreases hi - lo
  {
    if lo <= hi { BetweenBound(occurs, lo + 1, hi); }
  }

  lemma {:induction false} EmitBound(raws: seq<RawEvent>, index: Index, w: Window, m: nat, starts: seq<Time>)
    requires m < |raws| && InRange(raws, index.overrides)
    ensures |EmitAll(raws, index, w, m, starts)| <= |starts|
    decreases |starts|
  {
    if starts != [] { EmitBound(raws, index, w, m, starts[1..]); }
  }

  lemma {:induction false} MastersBound(raws: seq<RawEvent>, n: nat)
    requires n <= |raws|
    ensures |Members(IndexUpTo(raws, n).masters)| <= n
  {
    if n > 0 {
      MastersBound(raws, n - 1);
      if raws[n - 1].recurrenceId.None? {
        var a, b := MembersAdd(IndexUpTo(raws, n - 1).masters, raws[n - 1].uid, n - 1);
      }
    }
  }

  /** A few events looked at through a narrow window stay below the limit: each master has at most `n` starts. */
  ghost predicate Narrow(raws: seq<RawEvent>, w: Window, n: nat) {
    1 <= n && |raws| * n <= MAX_EVENTS
    && forall m :: 0 <= m < |raws| && raws[m].recurring ==> w.end - w.start + raws[m].Duration() < n
  }

  lemma {:induction false} NarrowFits(raws: seq<RawEvent>, index: Index, w: Window, n: nat, ms: seq<nat>, events: seq<Emission>)
    requires Narrow(raws, w, n) && InRange(raws, index.overrides) && AllInRange(raws, ms) && |events| + |ms| * n <= MAX_EVENTS
    ensures ExpandMasters(raws, index, w, ms, events).Some?
    decreases |ms|
  {
    hide EmitAll, Between, Build, Intersects;
    if ms != [] {
      var m := ms[0];
      BetweenBound(raws[m].occurs, w.start - raws[m].Duration(), w.end);
      EmitBound(raws, index, w, m, Starts(raws[m], w));
      assert |ms| * n == |ms[1..]| * n + n;
      NarrowFits(raws, index, w, n, ms[1..], events + ExpandMaster(raws, index, w, m));
    }
  }

  lemma NarrowExpands(raws: seq<RawEvent>, w: Window, n: nat)
    requires Narrow(raws, w, n)
    ensures Expand(raws, w).Some?
  {
    MastersBound(raws, |raws|);
    IndexInRange(raws);
    hide IndexUpTo, ExpandMasters, Narrow;
    var ms := Members(IndexUpTo(raws, |raws|).masters);
    MoreIsMore(|ms|, |raws|, n);
    NarrowFits(raws, IndexUpTo(raws, |raws|), w, n, ms, []);
  }

  lemma MoreIsMore(a: nat, b: nat, n: nat)
    requires a <= b
    ensures a * n <= b * n
  {}

  function At(t: int): Time { Time(t, t) }

  function Plain(start: int, body: string): RawEvent {
    RawEvent("u", None, false, false, At(start), Some(start + 1), false, (s: int) => None, body)
  }

  function Moved(key: int, start: int, body: string): RawEvent {
    RawEvent("u", Some(At(key)), false, false, At(start), Some(start + 1), false, (s: int) => None, body)
  }

  function Weekly(start: int, body: string): RawEvent {
    RawEvent("u", None, false, true, At(start), Some(start + 1), false, (s: int) => if s == start then Some(s) else None, body)
  }

  /** An hourly event on the day the clock goes forward: the wall time `gap` is left out and names the instant of the
      hour after it. */
  function Hourly(gap: int, body: string): RawEvent {
    RawEvent("u", None, false, true, At(gap - HOUR), Some(gap - HOUR + 1), false,
             (s: int) => if s == gap - HOUR then Some(s) else if s == gap || s == gap + HOUR then Some(gap) else None, body)
  }

  const HOUR := 3_600

  lemma CommonStartRepeats()
    ensures var raws, w := [Plain(0, "a"), Plain(0, "b")], Window(0, 1);
            Expand(raws, w).Some? && Repeats(Expand(raws, w).value)
  {
    var raws, w := [Plain(0, "a"), Plain(0, "b")], Window(0, 1);
    assert CommonStart(raws, w, 0, At(0), 1, At(0));
    hide Expand, Repeats, DoubleClaim, TwinOverrides, SingleBesideOverride;
    NarrowExpands(raws, w, 100);
    IdentityRepeatsIff(raws, w);
  }

  /** One master alone: of an hourly event the hour that the clock leaves out and the hour after it are both shown, under
      one identity. */
  lemma GapRepeats(gap: int)
    ensures var raws, w := [Hourly(gap, "a")], Window(gap, gap + HOUR + 1);
            Expand(raws, w).Some? && Repeats(Expand(raws, w).value)
  {
    var raws, w := [Hourly(gap, "a")], Window(gap, gap + HOUR + 1);
    assert CommonStart(raws, w, 0, Time(gap, gap), 0, Time(gap + HOUR, gap));
    hide Expand, Repeats, DoubleClaim, TwinOverrides, SingleBesideOverride;
    NarrowExpands(raws, w, 4_000);
    IdentityRepeatsIff(raws, w);
  }

  lemma TwinOverridesRepeat()
    ensures var raws, w := [Moved(100, 0, "a"), Moved(100, 0, "b")], Window(0, 1);
            Expand(raws, w).Some? && Repeats(Expand(raws, w).value)
  {
    var raws, w := [Moved(100, 0, "a"), Moved(100, 0, "b")], Window(0, 1);
    assert TwinOverrides(raws, w, 0, 1);
    hide Expand, Repeats, DoubleClaim, CommonStart, SingleBesideOverride;
    NarrowExpands(raws, w, 100);
    IdentityRepeatsIff(raws, w);
  }

  lemma SingleBesideOverrideRepeats()
    ensures var raws, w := [Plain(0, "a"), Moved(0, 0, "b")], Window(0, 1);
            Expand(raws, w).Some? && Repeats(Expand(raws, w).value)
  {
    var raws, w := [Plain(0, "a"), Moved(0, 0, "b")], Window(0, 1);
    assert SingleBesideOverride(raws, w, 0, 1);
    hide Expand, Repeats, DoubleClaim, CommonStart, TwinOverrides;
    NarrowExpands(raws, w, 100);
    IdentityRepeatsIff(raws, w);
  }

  lemma DoubleClaimRepeats()
    ensures var raws, w := [Weekly(0, "a"), Weekly(0, "b"), Moved(0, 0, "c")], Window(0, 1);
            Expand(raws, w).Some? && Repeats(Expand(raws, w).value)
  {
    var raws, w := [Weekly(0, "a"), Weekly(0, "b"), Moved(0, 0, "c")], Window(0, 1);
    assert forall i: nat :: i < 3 ==> !raws[i].cancelled;
    assert BothClaim(raws, w, 0, At(0), 1, At(0), 2);
    hide Expand, Repeats, BothClaim, CommonStart, TwinOverrides, SingleBesideOverride;
    NarrowExpands(raws, w, 100);
    IdentityRepeatsIff(raws, w);
  }

  // ----- the program

  /** `_expand_recurring_event`, its yields collected. */
  method ExpandRecurring(raws: seq<RawEvent>, index: Index, w: Window, m: nat)
      returns (events: seq<Emission>, consumed: set<nat>)
    requires m < |raws| && InRange(raws, index.overrides)
    ensures events == EmitAll(raws, index, w, m, Starts(raws[m], w))
    ensures consumed == Consumed(events)
  {
    events, consumed := [], {};
    var starts := Starts(raws[m], w);
    var i := 0;
    while i < |starts|
      invariant 0 <= i <= |starts|
      invariant events + EmitAll(raws, index, w, m, starts[i..]) == EmitAll(raws, index, w, m, starts)
      invariant consumed == Consumed(events)
    {
      var s := starts[i];
      var key := (raws[m].uid, s.utc);
      ghost var before := events;
      if key !in index.cancelled {
        var event := Build(if key in index.overrides then raws[index.overrides[key]] else raws[m], Some(s));
        if Intersects(event, w) {
          if key in index.overrides {
            events := events + [Emission(Override(index.overrides[key]), event)];
            consumed := consumed + {index.overrides[key]};
          } else {
            events := events + [Emission(Occurrence(m, s), event)];
          }
          assert events[..|events| - 1] == before;
        }
      }
      assert starts[i..][0] == s && starts[i..][1..] == starts[i + 1..];
      AppendShown(before, EmitAt(raws, index, w, m, s), EmitAll(raws, index, w, m, starts[i + 1..]));
      assert events == before + EmitAt(raws, index, w, m, s);
      i := i + 1;
    }
    assert starts[|starts|..] == [];
    assert events + [] == events;
  }

  lemma AppendShown(before: seq<Emission>, here: seq<Emission>, rest: seq<Emission>)
    ensures before + (here + rest) == before + here + rest
    ensures here == [] ==> before + here == before
  {}

  lemma {:induction false} ConsumedConcat(a: seq<Emission>, b: seq<Emission>)
    ensures Consumed(a + b) == Consumed(a) + Consumed(b)
    decreases |b|
  {
    if b == [] {
      assert a + b == a;
    } else {
      ConsumedConcat(a, b[..|b| - 1]);
      assert (a + b)[..|a + b| - 1] == a + b[..|b| - 1];
    }
  }

  /** What one master shows, and the overrides it consumed. */
  method ShowMaster(raws: seq<RawEvent>, index: Index, w: Window, m: nat) returns (found: seq<Emission>, ids: set<nat>)
    requires m < |raws| && InRange(raws, index.overrides)
    ensures found == ExpandMaster(raws, index, w, m) && ids == Consumed(found)
  {
    hide Build, Intersects, Starts, EmitAll;
    found, ids := [], {};
    if raws[m].cancelled { return; }
    if raws[m].recurring {
      found, ids := ExpandRecurring(raws, index, w, m);
    } else {
      var event := Build(raws[m], None);
      if Intersects(event, w) {
        found := [Emission(Single(m), event)];
        assert found[..0] == [];
      }
    }
  }

  /** The second half of `_parse_events`: the masters in turn under the event limit, then the loose overrides. */
  method ShowEvents(raws: seq<RawEvent>, index: Index, w: Window) returns (r: Option<seq<Emission>>)
    requires InRange(raws, index.overrides) && AllInRange(raws, Members(index.masters)) && AllInRange(raws, index.loose)
    ensures r == match ExpandMasters(raws, index, w, Members(index.masters), []) {
                   case None => None
                   case Some(events) => Some(events + LooseOverrides(raws, w, index.loose, Consumed(events)))
                 }
  {
    hide Build, Intersects, ExpandMaster, Members;
    var events: seq<Emission>, consumed: set<nat> := [], {};
    var ms := Members(index.masters);
    var i := 0;
    while i < |ms|
      invariant 0 <= i <= |ms|
      invariant ExpandMasters(raws, index, w, ms[i..], events) == ExpandMasters(raws, index, w, ms, [])
      invariant consumed == Consumed(events)
    {
      var m := ms[i];
      var found, ids := ShowMaster(raws, index, w, m);
      ConsumedConcat(events, found);
      events, consumed := events + found, consumed + ids;
      assert ms[i..][0] == m && ms[i..][1..] == ms[i + 1..];
      if |events| > MAX_EVENTS { return None; }
      i := i + 1;
    }
    assert ms[|ms|..] == [];
    ghost var first := events;
    ghost var second := LooseOverrides(raws, w, index.loose, consumed);
    i := 0;
    while i < |index.loose|
      invariant 0 <= i <= |index.loose|
      invariant events + LooseOverrides(raws, w, index.loose[i..], consumed) == first + second
    {
      var o := index.loose[i];
      ghost var before := events;
      if o !in consumed {
        var event := Build(raws[o], raws[o].recurrenceId);
        if Intersects(event, w) { events := events + [Emission(Override(o), event)]; }
      }
      assert index.loose[i..][0] == o && index.loose[i..][1..] == index.loose[i + 1..];
      AppendShown(before, LooseAt(raws, w, o, consumed), LooseOverrides(raws, w, index.loose[i + 1..], consumed));
      assert events == before + LooseAt(raws, w, o, consumed);
      i := i + 1;
    }
    assert index.loose[|index.loose|..] == [];
    assert events + [] == events;
    r := Some(events);
  }

  /** `_parse_events`, from the raw events on: what it returns is `Expand`, whose meaning is
      `ExpansionIsExpected`. */
  method ParseEvents(raws: seq<RawEvent>, w: Window) returns (r: Option<seq<Emission>>)
    ensures r == Expand(raws, w)
  {
    var masters: seq<Group> := [];
    var overrides: map<(string, int), nat>, cancelled: set<(string, int)>, loose: seq<nat> := map[], {}, [];
    var i := 0;
    while i < |raws|
      invariant 0 <= i <= |raws|
      invariant Index(masters, overrides, cancelled, loose) == IndexUpTo(raws, i)
    {
      match raws[i].recurrenceId {
        case None => masters := AddMaster(masters, raws[i].uid, i);
        case Some(at) =>
          if raws[i].cancelled {
            cancelled := cancelled + {(raws[i].uid, at.utc)};
          } else {
            overrides := overrides[(raws[i].uid, at.utc) := i];
            loose := loose + [i];
          }
      }
      i := i + 1;
    }
    var index := Index(masters, overrides, cancelled, loose);
    IndexInRange(raws);
    hide AddMaster, ExpandMasters, LooseOverrides, Consumed;
    r := ShowEvents(raws, index, w);
  }
}
