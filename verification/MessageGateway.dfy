/** Which gateway messages start a handler (`app/connectors/discord_gateway.py`), under any interleaving of
    arrivals and task completions. */
module MessageGateway {
  type Id(==) = string

  datatype Outcome = Handled | Duplicate | Failed | Cancelled

  /** An accepted message arrives, or the task at a position among the running ones completes. */
  datatype Event = Arrive(id: Id) | Done(task: nat, outcome: Outcome)

  datatype State = State(seen: seq<Id>, inflight: set<Id>, running: seq<Id>)

  predicate Starts(s: State, id: Id) { id !in s.seen && id !in s.inflight }

  /** `_remember_message`. */
  function Remember(seen: seq<Id>, id: Id, most: nat): seq<Id> {
    if |seen| + 1 > most then (seen + [id])[1..] else seen + [id]
  }

  predicate Keeps(o: Outcome) { o == Handled || o == Duplicate }

  function Step(s: State, e: Event, most: nat): State {
    match e
    case Arrive(id) => if Starts(s, id) then State(s.seen, s.inflight + {id}, s.running + [id]) else s
    case Done(i, outcome) =>
      if i >= |s.running| then s
      else
        var id := s.running[i];
        State(if Keeps(outcome) then Remember(s.seen, id, most) else s.seen, s.inflight - {id}, s.running[..i] + s.running[i + 1..])
  }

  function Run(events: seq<Event>, most: nat): State {
    if events == [] then State([], {}, []) else Step(Run(events[..|events| - 1], most), events[|events| - 1], most)
  }

  // ----- the logs of a run

  function Log(s: State, e: Event): seq<Id> {
    if e.Done? && e.task < |s.running| && Keeps(e.outcome) then [s.running[e.task]] else []
  }

  /** The messages remembered, in order. */
  function Remembered(events: seq<Event>, most: nat): seq<Id> {
    if events == [] then []
    else Remembered(events[..|events| - 1], most) + Log(Run(events[..|events| - 1], most), events[|events| - 1])
  }

  /** How often a handler was started for a message, and how often one ended. */
  function Started(events: seq<Event>, most: nat, id: Id): nat {
    if events == [] then 0
    else
      var before, e := events[..|events| - 1], events[|events| - 1];
      Started(before, most, id) + if e == Arrive(id) && Starts(Run(before, most), id) then 1 else 0
  }

  function Ended(events: seq<Event>, most: nat, id: Id): nat {
    if events == [] then 0
    else
      var before, e := events[..|events| - 1], events[|events| - 1];
      var running := Run(before, most).running;
      Ended(before, most, id) + if e.Done? && e.task < |running| && running[e.task] == id then 1 else 0
  }

  ghost predicate Distinct(s: seq<Id>) { forall i, j :: 0 <= i < j < |s| ==> s[i] != s[j] }

  /** One handler per message: running tasks are of distinct messages, exactly the in-flight ones; seen
      messages are distinct, few enough and none of them in flight. */
  ghost predicate Sound(s: State, most: nat) {
    && Distinct(s.running) && (forall id :: id in s.inflight <==> id in s.running)
    && Distinct(s.seen) && |s.seen| <= most && (forall id :: id in s.seen ==> id !in s.inflight)
  }

  function Last(log: seq<Id>, most: nat): seq<Id> { if |log| > most then log[|log| - most..] else log }

  lemma RemoveAt(s: seq<Id>, i: nat)
    requires i < |s| && Distinct(s)
    ensures var t := s[..i] + s[i + 1..];
            Distinct(t) && forall x :: x in t <==> x in s && x != s[i]
  {
    var t := s[..i] + s[i + 1..];
    forall x
      ensures x in t <==> x in s && x != s[i]
    {
      if x in s && x != s[i] {
        var j :| 0 <= j < |s| && s[j] == x;
        assert t[if j < i then j else j - 1] == x;
      }
    }
  }

  lemma RememberFacts(seen: seq<Id>, id: Id, most: nat)
    requires Distinct(seen) && |seen| <= most && id !in seen
    ensures var t := Remember(seen, id, most);
            Distinct(t) && |t| <= most && forall x :: x in t ==> x in seen || x == id
  {}

  lemma StepIsSound(s: State, e: Event, most: nat)
    requires Sound(s, most)
    ensures Sound(Step(s, e, most), most)
  {
    hide Remember;
    if e.Done? && e.task < |s.running| {
      var id := s.running[e.task];
      RemoveAt(s.running, e.task);
      assert id in s.inflight;
      RememberFacts(s.seen, id, most);
    }
  }

  /** Under every interleaving the state is sound: at most one handler per message is in flight, in-flight and
      seen messages stay apart, and the seen list is bounded and free of repetition. */
  lemma {:induction false} EveryInterleavingIsSound(events: seq<Event>, most: nat)
    ensures Sound(Run(events, most), most)
    decreases |events|
  {
    if events != [] {
      EveryInterleavingIsSound(events[..|events| - 1], most);
      StepIsSound(Run(events[..|events| - 1], most), events[|events| - 1], most);
    }
  }

  lemma RememberIsLast(log: seq<Id>, id: Id, most: nat)
    ensures Remember(Last(log, most), id, most) == Last(log + [id], most)
  {}

  /** The seen list is the last `most` completions that were kept, nothing else. */
  lemma {:induction false} SeenAreTheLastKept(events: seq<Event>, most: nat)
    ensures Run(events, most).seen == Last(Remembered(events, most), most)
    decreases |events|
  {
    if events != [] {
      var before, e := events[..|events| - 1], events[|events| - 1];
      SeenAreTheLastKept(before, most);
      hide Remember, Last;
      var log, kept := Remembered(before, most), Log(Run(before, most), e);
      if kept != [] { RememberIsLast(log, kept[0], most); } else { assert log + kept == log; }
    }
  }

  /** Started handlers are accounted for: each has ended, or is the one in flight. */
  lemma {:induction false} StartsAreAccountedFor(events: seq<Event>, most: nat, id: Id)
    ensures Started(events, most, id) == Ended(events, most, id) + if id in Run(events, most).inflight then 1 else 0
    decreases |events|
  {
    if events != [] {
      var before, e := events[..|events| - 1], events[|events| - 1];
      StartsAreAccountedFor(before, most, id);
      EveryInterleavingIsSound(before, most);
      hide Remember;
      var s := Run(before, most);
      if e.Done? && e.task < |s.running| {
        assert s.running[e.task] in s.inflight;
      }
    }
  }

  /** When an arriving message starts a handler: exactly when none is in flight for it and it is not among the
      last `most` kept messages. So a handled one is not started again while remembered; a failed one may be. */
  lemma WhenAMessageStarts(events: seq<Event>, most: nat, id: Id)
    ensures Started(events + [Arrive(id)], most, id) == Started(events, most, id) + 1
            <==> id !in Run(events, most).running && id !in Last(Remembered(events, most), most)
  {
    assert (events + [Arrive(id)])[..|events|] == events;
    SeenAreTheLastKept(events, most);
    EveryInterleavingIsSound(events, most);
  }

  /** What an ending does, outcome by outcome: a handled message or a duplicate is remembered, one that failed or was
      cancelled is not, and so exactly these two are started when the message arrives again. */
  lemma EndingsDecide(events: seq<Event>, most: nat, i: nat, outcome: Outcome)
    requires i < |Run(events, most).running| && most >= 1
    ensures var before, id := Run(events, most), Run(events, most).running[i];
            var ended := events + [Done(i, outcome)];
            var after := Run(ended, most);
            && after.running == before.running[..i] + before.running[i + 1..] && id !in after.running && id !in after.inflight
            && (outcome == Failed || outcome == Cancelled ==> after.seen == before.seen)
            && (outcome == Handled || outcome == Duplicate ==> after.seen != [] && after.seen[|after.seen| - 1] == id)
            && (Started(ended + [Arrive(id)], most, id) == Started(events, most, id) + 1 <==> outcome == Failed || outcome == Cancelled)
  {
    var ended, id := events + [Done(i, outcome)], Run(events, most).running[i];
    assert ended[..|events|] == events && (ended + [Arrive(id)])[..|ended|] == ended;
    EveryInterleavingIsSound(events, most);
    EveryInterleavingIsSound(ended, most);
    RemoveAt(Run(events, most).running, i);
    assert id in Run(events, most).inflight;
  }

  /** A message kept is refused until `most` further ones have been kept. */
  lemma {:induction false} KeptMessageIsNotRestarted(events: seq<Event>, more: seq<Event>, most: nat, id: Id)
    requires Remembered(events, most) != [] && Remembered(events, most)[|Remembered(events, most)| - 1] == id
    requires |Remembered(events + more, most)| - |Remembered(events, most)| < most
    ensures Remembered(events, most) <= Remembered(events + more, most)
    ensures id in Run(events + more, most).seen
    ensures Started(events + more, most, id) == Started(events, most, id)
    decreases |more|
  {
    if more == [] {
      assert events + more == events;
      SeenAreTheLastKept(events, most);
      LastHolds(Remembered(events, most), |Remembered(events, most)| - 1, most);
    } else {
      var front, e := more[..|more| - 1], more[|more| - 1];
      assert (events + more)[..|events + more| - 1] == events + front;
      KeptMessageIsNotRestarted(events, front, most, id);
      SeenAreTheLastKept(events + more, most);
      LastHolds(Remembered(events + more, most), |Remembered(events, most)| - 1, most);
    }
  }

  lemma LastHolds(log: seq<Id>, i: nat, most: nat)
    requires i < |log| && |log| - i <= most
    ensures log[i] in Last(log, most)
  {
    if |log| > most { assert Last(log, most)[i - (|log| - most)] == log[i]; }
  }

  // ----- the listener

  class Listener {
    const maxSeen: nat
    var seenMessages: seq<Id>
    var inflightMessages: set<Id>
    var messageTasks: seq<Id>
    ghost var events: seq<Event>

    ghost predicate Valid()
      reads this
    {
      State(seenMessages, inflightMessages, messageTasks) == Run(events, maxSeen)
    }

    constructor (most: nat)
      ensures Valid() && events == [] && maxSeen == most
    {
      maxSeen, seenMessages, inflightMessages, messageTasks, events := most, [], {}, [], [];
    }

    method RememberMessage(id: Id)
      modifies `seenMessages
      ensures seenMessages == Remember(old(seenMessages), id, maxSeen)
    {
      seenMessages := seenMessages + [id];
      if |seenMessages| > maxSeen { seenMessages := seenMessages[1..]; }
    }

    /** `_handle_message_create` of a message that parsed, and `_schedule_message`. */
    method HandleMessageCreate(id: Id) returns (handled: bool)
      requires Valid()
      modifies this
      ensures Valid() && events == old(events) + [Arrive(id)]
      ensures handled == Starts(old(State(seenMessages, inflightMessages, messageTasks)), id)
      ensures handled ==> id !in old(messageTasks) && messageTasks == old(messageTasks) + [id]
      ensures !handled ==> messageTasks == old(messageTasks)
    {
      EveryInterleavingIsSound(events, maxSeen);
      assert (events + [Arrive(id)])[..|events|] == events;
      events := events + [Arrive(id)];
      if id in seenMessages || id in inflightMessages { return false; }
      inflightMessages := inflightMessages + {id};
      messageTasks := messageTasks + [id];
      handled := true;
    }

    /** `_message_task_done`. */
    method MessageTaskDone(task: nat, outcome: Outcome)
      requires Valid() && task < |messageTasks|
      modifies this
      ensures Valid() && events == old(events) + [Done(task, outcome)]
    {
      assert (events + [Done(task, outcome)])[..|events|] == events;
      events := events + [Done(task, outcome)];
      var id := messageTasks[task];
      messageTasks := messageTasks[..task] + messageTasks[task + 1..];
      inflightMessages := inflightMessages - {id};
      if outcome == Cancelled || outcome == Failed { return; }
      RememberMessage(id);
    }
  }
}
