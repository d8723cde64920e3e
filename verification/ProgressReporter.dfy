/** The Discord progress reporter of `app/connectors/discord.py`: a bounded history of stages, and when the
    message is edited. A stage's key is all of its event's fields, so an event stands for its key. */
module ProgressReporter {
  import opened Prelude

  const HISTORY_LIMIT := 7

  datatype Phase =
    RuntimeWaking | ModelTurn | ModelTurnStarted | ModelTurnPending | OtherPhase(name: string, terminal: bool)

  datatype Event = Event(phase: Phase, turn: Option<nat>, elapsed: Option<nat>, terminal: bool, detail: string)

  function Turn(e: Event): nat { if e.turn.None? || e.turn.value == 0 then 1 else e.turn.value }

  predicate Ends(e: Event) { e.terminal || (e.phase.OtherPhase? && e.phase.terminal) }

  /** `_is_liveness_pulse`. */
  predicate Pulse(e: Event) { e.phase.ModelTurnPending? || (e.phase.RuntimeWaking? && e.elapsed.Some?) }

  /** `_is_replaceable_progress`. */
  predicate Replaces(e: Event, active: Event) {
    || (e.phase.RuntimeWaking? && active.phase.RuntimeWaking?)
    || (e.phase.ModelTurnPending? && active.phase.ModelTurnPending? && Turn(e) == Turn(active))
  }

  /** `_is_stale_progress_update`. */
  predicate Stale(e: Event, active: Event) {
    && e.phase.ModelTurnPending?
    && (Turn(e) < Turn(active)
        || (Turn(e) == Turn(active)
            && !(active.phase.ModelTurn? || active.phase.ModelTurnStarted? || active.phase.ModelTurnPending?)))
  }

  datatype Board = Board(milestones: seq<Event>, active: Option<Event>, terminal: bool)

  function Without(s: seq<Event>, x: Event): seq<Event> {
    if s == [] then []
    else Without(s[..|s| - 1], x) + if s[|s| - 1] == x then [] else [s[|s| - 1]]
  }

  function Last(s: seq<Event>): (r: seq<Event>)
    ensures |r| <= HISTORY_LIMIT && (|s| <= HISTORY_LIMIT ==> r == s)
  {
    if |s| > HISTORY_LIMIT then s[|s| - HISTORY_LIMIT..] else s
  }

  /** `_commit_active_stage`. */
  function Commit(milestones: seq<Event>, active: Option<Event>): seq<Event> {
    if active.None? || Pulse(active.value) then milestones
    else Last(Without(milestones, active.value) + [active.value])
  }

  predicate Accepts(b: Board, e: Event) {
    !b.terminal && b.active != Some(e) && (b.active.Some? ==> !Stale(e, b.active.value))
  }

  /** `_apply_stage`. */
  function Apply(b: Board, e: Event): Board {
    if !Accepts(b, e) then b
    else Board(if b.active.Some? && Replaces(e, b.active.value) then b.milestones else Commit(b.milestones, b.active),
               Some(e), Ends(e))
  }

  function Run(events: seq<Event>): Board {
    if events == [] then Board([], None, false) else Apply(Run(events[..|events| - 1]), events[|events| - 1])
  }

  /** The events that took effect, in order. */
  function Accepted(events: seq<Event>): seq<Event> {
    if events == [] then []
    else
      var before, e := events[..|events| - 1], events[|events| - 1];
      Accepted(before) + if Accepts(Run(before), e) then [e] else []
  }

  /** One event, in the events' own terms. It is refused after a terminal stage, when it repeats the active stage, or when it
      is a pending update of an earlier turn than the active stage or of the same turn as one that is no model stage.
      Otherwise it becomes active, and the stage before it joins the milestones as the latest - unless it was a pending
      update or a timed waking, or one waking replaces another or one pending update another of its turn. */
  lemma StageEffect(b: Board, e: Event)
    ensures var after := Apply(b, e);
            var turn := (x: Event) => if x.turn == None || x.turn == Some(0) then 1 else x.turn.value;
            var refused :=
              || b.terminal || b.active == Some(e)
              || (&& b.active.Some? && e.phase == ModelTurnPending
                  && (turn(e) < turn(b.active.value)
                      || (turn(e) == turn(b.active.value) && b.active.value.phase !in {ModelTurn, ModelTurnStarted, ModelTurnPending})));
            && (refused ==> after == b)
            && (!refused ==>
                  && after.active == Some(e)
                  && (after.terminal <==> e.terminal || (e.phase.OtherPhase? && e.phase.terminal))
                  && var dropped :=
                       || b.active == None
                       || b.active.value.phase == ModelTurnPending
                       || (b.active.value.phase == RuntimeWaking && (b.active.value.elapsed.Some? || e.phase == RuntimeWaking));
                     && (dropped ==> after.milestones == b.milestones)
                     && (!dropped ==>
                           && after.milestones != [] && after.milestones[|after.milestones| - 1] == b.active.value
                           && |after.milestones| <= 7
                           && (b.active.value !in b.milestones ==> after.milestones == LastSeven(b.milestones + [b.active.value]))))
  {
    hide Without;
    if b.active.Some? {
      var joined := Without(b.milestones, b.active.value) + [b.active.value];
      assert joined[|joined| - 1] == b.active.value;
      WithoutFacts(b.milestones, b.active.value);
    }
  }

  function LastSeven(s: seq<Event>): seq<Event> { if |s| <= 7 then s else s[|s| - 7..] }

  // ----- what the history means

  /** The accepted stages that were left for good: neither replaced by the next nor a mere pulse. */
  function Retired(accepted: seq<Event>): seq<Event> {
    if |accepted| < 2 then []
    else
      var a, b := accepted[|accepted| - 2], accepted[|accepted| - 1];
      Retired(accepted[..|accepted| - 1]) + if Replaces(b, a) || Pulse(a) then [] else [a]
  }

  /** Each stage once, where it last occurs. */
  function KeepLast(s: seq<Event>): seq<Event> {
    if s == [] then [] else Without(KeepLast(s[..|s| - 1]), s[|s| - 1]) + [s[|s| - 1]]
  }

  ghost predicate Distinct(s: seq<Event>) { forall i, j :: 0 <= i < j < |s| ==> s[i] != s[j] }

  lemma {:induction false} WithoutFacts(s: seq<Event>, x: Event)
    ensures x !in Without(s, x)
    ensures forall y :: y in Without(s, x) ==> y in s
    ensures Distinct(s) ==> Distinct(Without(s, x)) && |Without(s, x)| >= |s| - 1
    ensures x !in s ==> Without(s, x) == s
    decreases |s|
  {
    if s != [] {
      var front, last := s[..|s| - 1], s[|s| - 1];
      WithoutFacts(front, x);
      assert s == front + [last];
      DistinctFront(front, last);
      DistinctFront(Without(front, x), last);
      WithoutStep(front, last, x);
      hide Without, Distinct;
    }
  }

  lemma WithoutStep(front: seq<Event>, last: Event, x: Event)
    ensures Without(front + [last], x) == Without(front, x) + if last == x then [] else [last]
  {
    assert (front + [last])[..|front|] == front;
  }

  lemma DistinctFront(front: seq<Event>, last: Event)
    ensures Distinct(front + [last]) <==> Distinct(front) && last !in front
  {
    var s := front + [last];
    assert s[|front|] == last;
    if Distinct(s) {
      assert forall i :: 0 <= i < |front| ==> front[i] == s[i];
    }
  }

  lemma {:induction false} WithoutConcat(a: seq<Event>, b: seq<Event>, x: Event)
    ensures Without(a + b, x) == Without(a, x) + Without(b, x)
    decreases |b|
  {
    if b == [] {
      assert a + b == a;
    } else {
      WithoutConcat(a, b[..|b| - 1], x);
      assert (a + b)[..|a + b| - 1] == a + b[..|b| - 1];
    }
  }

  lemma {:induction false} KeepLastFacts(s: seq<Event>)
    ensures Distinct(KeepLast(s)) && forall y :: y in KeepLast(s) ==> y in s
    decreases |s|
  {
    if s != [] {
      KeepLastFacts(s[..|s| - 1]);
      WithoutFacts(KeepLast(s[..|s| - 1]), s[|s| - 1]);
    }
  }

  lemma TailIsDistinct(d: seq<Event>)
    requires Distinct(d)
    ensures Distinct(Last(d))
  {}

  lemma LastOfTail(a: seq<Event>, b: seq<Event>)
    requires |b| >= HISTORY_LIMIT
    ensures Last(a + b) == Last(b)
  {}

  /** Cutting the history to its last seven before a stage is added shows the same seven as never cutting it. */
  lemma CutCommutes(d: seq<Event>, x: Event)
    requires Distinct(d)
    ensures Last(Without(d, x) + [x]) == Last(Without(Last(d), x) + [x])
  {
    if |d| > HISTORY_LIMIT {
      var cut, kept := d[..|d| - HISTORY_LIMIT], Last(d);
      assert d == cut + kept;
      WithoutConcat(cut, kept, x);
      TailIsDistinct(d);
      WithoutFacts(kept, x);
      hide Without, Distinct;
      LastOfTail(Without(cut, x), Without(kept, x) + [x]);
      assert Without(cut, x) + (Without(kept, x) + [x]) == Without(d, x) + [x];
    }
  }

  /** Forgetting all but seven loses nothing that would be shown: over any run the milestones are the last
      seven of the full history of retired stages, each once, and the active stage is the last accepted. */
  lemma {:induction false} MilestonesAreRecentHistory(events: seq<Event>)
    ensures Run(events).milestones == Last(KeepLast(Retired(Accepted(events))))
    ensures Run(events).active == if Accepted(events) == [] then None else Some(Accepted(events)[|Accepted(events)| - 1])
    decreases |events|
  {
    if events != [] {
      var before, e := events[..|events| - 1], events[|events| - 1];
      MilestonesAreRecentHistory(before);
      hide Replaces, Pulse, Stale, Without, Last;
      var acc, b := Accepted(before), Run(before);
      if Accepts(b, e) {
        RetiredStep(acc, e);
        if acc != [] && !Replaces(e, b.active.value) && !Pulse(b.active.value) {
          KeepLastFacts(Retired(acc));
          CutCommutes(KeepLast(Retired(acc)), b.active.value);
          KeepLastStep(Retired(acc), b.active.value);
        }
      } else {
        assert acc + [] == acc;
      }
    }
  }

  lemma RetiredStep(acc: seq<Event>, e: Event)
    ensures acc == [] ==> Retired(acc + [e]) == []
    ensures acc != [] ==>
              var a := acc[|acc| - 1];
              Retired(acc + [e]) == if Replaces(e, a) || Pulse(a) then Retired(acc) else Retired(acc) + [a]
  {
    assert (acc + [e])[..|acc|] == acc;
  }

  lemma KeepLastStep(s: seq<Event>, x: Event)
    ensures KeepLast(s + [x]) == Without(KeepLast(s), x) + [x]
  {
    assert (s + [x])[..|s|] == s;
  }

  lemma {:induction false} RetiredIsSolid(acc: seq<Event>)
    ensures forall y :: y in Retired(acc) ==> !Pulse(y)
    decreases |acc|
  {
    if |acc| >= 2 { RetiredIsSolid(acc[..|acc| - 1]); }
  }

  /** What a reader sees: at most seven milestones, no two alike, none a liveness pulse. */
  lemma MilestonesAreSolid(events: seq<Event>)
    ensures var ms := Run(events).milestones;
            |ms| <= HISTORY_LIMIT && Distinct(ms) && forall y :: y in ms ==> !Pulse(y)
  {
    MilestonesAreRecentHistory(events);
    var all := KeepLast(Retired(Accepted(events)));
    KeepLastFacts(Retired(Accepted(events)));
    RetiredIsSolid(Accepted(events));
    forall y | y in Last(all)
      ensures y in all
    {}
  }

  /** After a terminal stage nothing changes any more. */
  lemma {:induction false} TerminalIsAbsorbing(events: seq<Event>, more: seq<Event>)
    requires Run(events).terminal
    ensures Run(events + more) == Run(events)
    decreases |more|
  {
    if more == [] {
      assert events + more == events;
    } else {
      TerminalIsAbsorbing(events, more[..|more| - 1]);
      assert (events + more)[..|events + more| - 1] == events + more[..|more| - 1];
    }
  }

  /** A pending update that took effect is never older than the stage it followed, and one of the same turn
      followed only that turn's own model stages. */
  lemma {:induction false} PendingNeverGoesBack(events: seq<Event>, i: nat)
    requires i + 1 < |Accepted(events)| && Accepted(events)[i + 1].phase.ModelTurnPending?
    ensures var a, b := Accepted(events)[i], Accepted(events)[i + 1];
            Turn(a) <= Turn(b) && a != b
            && (Turn(a) == Turn(b) ==> a.phase.ModelTurn? || a.phase.ModelTurnStarted? || a.phase.ModelTurnPending?)
    decreases |events|
  {
    var before, e := events[..|events| - 1], events[|events| - 1];
    MilestonesAreRecentHistory(before);
    if Accepts(Run(before), e) && i + 1 == |Accepted(before)| {
      assert Run(before).active == Some(Accepted(events)[i]);
    } else {
      PendingNeverGoesBack(before, i);
    }
  }

  // ----- the reporter

  lemma RunStep(events: seq<Event>, e: Event)
    ensures Run(events + [e]) == Apply(Run(events), e)
  {
    assert (events + [e])[..|events|] == events;
  }

  /** The board after one event: untouched when the event is refused, else active and terminal as the event says. */
  lemma StepEnds(b: Board, e: Event)
    ensures Accepts(b, e) ==> !b.terminal && Apply(b, e).active == Some(e) && Apply(b, e).terminal == Ends(e)
    ensures !Accepts(b, e) ==> Apply(b, e) == b
  {
    hide Commit, Replaces, Stale;
  }

  function Stages(b: Board): seq<Event> { b.milestones + if b.active.Some? then [b.active.value] else [] }

  /** What a message shows, after any events: the last seven of the retired stages, each where it last occurred, and the
      latest accepted stage behind them. */
  lemma StagesShown(events: seq<Event>)
    ensures var accepted := Accepted(events);
            if accepted == [] then Stages(Run(events)) == []
            else
              && Stages(Run(events)) != [] && Stages(Run(events))[|Stages(Run(events))| - 1] == accepted[|accepted| - 1]
              && Stages(Run(events))[..|Stages(Run(events))| - 1] == LastSeven(KeepLast(Retired(accepted)))
  {
    MilestonesAreRecentHistory(events);
    assert Retired([]) == [] && KeepLast([]) == [];
    hide Run, KeepLast, Retired, Accepted;
    var ms, accepted := Run(events).milestones, Accepted(events);
    if accepted != [] {
      assert (ms + [accepted[|accepted| - 1]])[..|ms|] == ms;
    }
  }

  /** `DiscordAcademicProgressReporter`, with what Discord last showed. */
  class Reporter {
    const editEvery: nat
    const existing: bool
    var milestones: seq<Event>
    var active: Option<Event>
    var terminal: bool
    var pending: nat
    var started: bool
    var disabled: bool
    var thinkingDirty: bool
    var shown: seq<Event>
    ghost var events: seq<Event>

    ghost function View(): Board
      reads this
    {
      Board(milestones, active, terminal)
    }

    /** The board follows the events; the message shows it unless fewer than `editEvery` accepted updates wait. */
    ghost predicate Valid()
      reads this
    {
      && editEvery >= 1
      && View() == Run(events)
      && (!disabled && started ==>
            pending < editEvery && (pending == 0 ==> shown == Stages(View())) && (terminal ==> pending == 0))
      && (!disabled && !started ==> pending == 0 && active.None? && !terminal)
    }

    /** `existing` when there is a message to adopt instead of starting one. */
    constructor (n: nat, existing: bool)
      requires n >= 1
      ensures Valid() && events == [] && editEvery == n && this.existing == existing && !started && !disabled && !thinkingDirty
    {
      editEvery, this.existing, thinkingDirty := n, existing, false;
      milestones, active, terminal, pending, started, disabled, shown := [], None, false, 0, false, false, [];
      events := [];
    }

    method CommitActiveStage()
      modifies `milestones
      ensures milestones == Commit(old(milestones), active)
    {
      if active.None? { return; }
      if Pulse(active.value) { return; }
      milestones := Without(milestones, active.value);
      milestones := milestones + [active.value];
      if |milestones| > HISTORY_LIMIT { milestones := milestones[|milestones| - HISTORY_LIMIT..]; }
    }

    method ApplyStage(e: Event) returns (changed: bool)
      modifies `milestones, `active, `terminal
      ensures View() == Apply(old(View()), e)
      ensures changed == Accepts(old(View()), e)
    {
      if terminal || active == Some(e) { return false; }
      if active.Some? && Stale(e, active.value) { return false; }
      if !(active.Some? && Replaces(e, active.value)) { CommitActiveStage(); }
      active := Some(e);
      if Ends(e) { terminal := true; }
      changed := true;
    }

    /** `_flush_locked`: one edit, which Discord accepts or not. */
    method Flush(accepted: bool)
      requires started && !disabled
      modifies `shown, `pending, `disabled, `thinkingDirty
      ensures disabled == (old(pending) > 0 && !accepted)
      ensures if old(pending) > 0 && accepted then pending == 0 && shown == Stages(View())
              else pending == old(pending) && shown == old(shown)
      ensures thinkingDirty == (old(pending) == 0 && old(thinkingDirty))
    {
      if pending == 0 { return; }
      thinkingDirty := false;
      if accepted {
        shown, pending := milestones + if active.Some? then [active.value] else [], 0;
      } else {
        disabled := true;
      }
    }

    /** The second half of `update`: start or adopt the message, or count the update and perhaps edit. An adopted message
        is edited at once. */
    method Deliver(e: Event, opening: bool, edited: bool)
      requires editEvery >= 1 && !disabled && (if started then pending < editEvery else pending == 0)
      modifies `shown, `pending, `started, `disabled, `thinkingDirty
      ensures !disabled ==>
                started && pending < editEvery && (pending == 0 ==> shown == Stages(View())) && (Ends(e) ==> pending == 0)
      ensures old(started) && !Ends(e) && old(pending) + 1 < editEvery ==>
                !disabled && shown == old(shown) && pending == old(pending) + 1
      ensures !old(started) ==> disabled == !(opening && (existing ==> edited))
      ensures old(started) && disabled ==> !edited
    {
      if !started {
        if !opening {
          disabled := true;
        } else if existing {
          started, pending := true, 1;
          Flush(edited);
        } else {
          started, shown := true, milestones + if active.Some? then [active.value] else [];
        }
        return;
      }
      pending := pending + 1;
      if Ends(e) || pending >= editEvery { Flush(edited); }
    }

    /** `update`: a disabled reporter ignores it, the first accepted event opens the message. Discord accepts the opening
        and the edit, or not. */
    method Update(e: Event, opening: bool, edited: bool)
      requires Valid()
      modifies this
      ensures Valid()
      ensures events == if old(disabled) then old(events) else old(events) + [e]
      ensures old(disabled) ==> disabled && View() == old(View()) && shown == old(shown)
      ensures !disabled && terminal ==> shown == Stages(View())
      ensures !old(disabled) && disabled ==> !opening || !edited
    {
      if disabled { return; }
      hide Run, Commit, Replaces, Stale;
      RunStep(events, e);
      StepEnds(View(), e);
      hide Apply, Accepts, Stages, Ends;
      var changed := ApplyStage(e);
      events := events + [e];
      if changed { Deliver(e, opening, edited); }
    }

    /** `flush`. */
    method FlushPending(edited: bool)
      requires Valid()
      modifies `shown, `pending, `disabled, `thinkingDirty
      ensures Valid()
      ensures !disabled && started ==> shown == Stages(View()) && pending == 0
    {
      if disabled || !started { return; }
      Flush(edited);
    }

    /** `stream_thinking` of a text that is not empty. */
    method StreamThinking()
      requires Valid()
      modifies `thinkingDirty
      ensures Valid() && thinkingDirty == (old(thinkingDirty) || (!disabled && !terminal))
    {
      if disabled || terminal { return; }
      thinkingDirty := true;
    }

    /** `_flush_thinking_after`: the edit shows the present stages, leaves the waiting updates counted, and never disables
        the reporter; a finished message is left alone. */
    method FlushThinking(edited: bool)
      requires Valid()
      modifies `shown, `thinkingDirty
      ensures Valid()
      ensures shown == if !disabled && !terminal && started && old(thinkingDirty) && edited then Stages(View()) else old(shown)
    {
      if disabled || terminal || !started || !thinkingDirty { return; }
      thinkingDirty := false;
      if edited { shown := milestones + if active.Some? then [active.value] else []; }
    }
  }
}
