/** Whole runs under crashes. A crash may happen between any two visible steps; it leaves the
    last checkpoint, from which a new invocation starts. The theorems compare such a chain of
    invocations with one that is never interrupted. */
module CrashResume {
  import opened Prelude
  import opened Transcript
  import opened FailureControl
  import opened HostContracts
  import opened LoopSpec
  import opened Pacing
  import opened LoopSafety
  import opened ResumeOrder
  import opened BatchDecision
  import opened BatchReplay

  // ----- when two runs count as the same

  /** Equal, except that two failed runs may report different codes. */
  ghost predicate SameExit(e1: Exit, e2: Exit) {
    || e1 == e2
    || (&& e1.Finished? && e2.Finished?
        && e1.result.status == FailedRun && e2.result.status == FailedRun
        && e1.result.messages == e2.result.messages && e1.result.turns == e2.result.turns
        && e1.result.disposition == e2.result.disposition)
  }

  ghost predicate SameRun(r1: Run, r2: Run) {
    r1.messages == r2.messages && SameExit(r1.exit, r2.exit)
  }

  /** Both phases end alike, or both go on from one transcript with one set of failures. */
  ghost predicate SamePhase(p1: Phase, p2: Phase) {
    && p1.messages == p2.messages
    && (p1.Ends? <==> p2.Ends?)
    && (p1.Ends? ==> SameExit(p1.exit, p2.exit))
    && (p1.Goes? ==> p1.failed == p2.failed)
  }

  ghost predicate WithinBudget(exit: Exit) {
    exit.Finished? ==> exit.result.status != TurnLimitReached
  }

  /** A phase that goes on hands over exactly the failures its transcript records. */
  ghost predicate HandsOver(h: Host, p: Phase) {
    p.Goes? ==> p.failed == FailedFingerprints(h.fingerprint, p.messages)
  }

  // ----- which runs are compared

  ghost predicate EndsWithReply(msgs: seq<Message>) { msgs != [] && msgs[|msgs| - 1].Assistant? }

  /** A plain answer that the resolver leaves alone, settles as it stands, or is asked about on resumption as well. */
  ghost predicate AnswerStands(h: Host, msgs: seq<Message>)
    requires EndsWithReply(msgs)
  {
    var a, turn := msgs[|msgs| - 1], AssistantCount(msgs);
    var asked := Consult(h, AssistantResponse(turn, msgs));
    h.requireTerminal || asked.settled.None? || SameExit(asked.settled.value, AnswerEnding(h, turn, a, msgs).exit)
  }

  /** An explicit terminal call that ends the run: it is accepted, or refused with the resolver settling the run. */
  ghost predicate TerminalStands(h: Host, msgs: seq<Message>)
    requires EndsWithReply(msgs)
  {
    var a, turn := msgs[|msgs| - 1], AssistantCount(msgs);
    var calls := ToolCalls(a, turn);
    || ValidateTerminal(h, a, calls, msgs, false).ValidTerminal?
    || (&& ValidateTerminal(h, a, calls, msgs, true).InvalidTerminal?
        && Consult(h, AssistantResponse(turn, msgs)).settled.Some?)
  }

  /** What a reply at the end of `msgs` must satisfy: answers and terminal calls stand, the calls of a batch carry
      their own distinct ids. */
  ghost predicate TameReply(h: Host, msgs: seq<Message>)
    requires EndsWithReply(msgs)
  {
    var a := msgs[|msgs| - 1];
    var calls := ToolCalls(a, AssistantCount(msgs));
    if calls == [] then AnswerStands(h, msgs)
    else if h.requireTerminal && HasTerminalCall(calls) then TerminalStands(h, msgs)
    else OwnIds(a)
  }

  ghost predicate OwnIds(a: Message)
    requires a.Assistant?
  {
    ExplicitIds(a) && CallsDistinct(ToolCalls(a, 0))
  }

  /** The result at `j` answers the call at its place, and both controls treat it alike. */
  ghost predicate TameResult(h: Host, msgs: seq<Message>, j: nat)
    requires j < |msgs|
  {
    match OwnerOf(msgs, j)
    case None => true
    case Some(i) =>
      var calls := ToolCalls(msgs[i], 0);
      j - i - 1 < |calls| ==>
        var o := OutcomeOf(h.tools, calls[j - i - 1], msgs[j].payload);
        Known(o) && !Excused(o)
  }

  ghost predicate TameResults(h: Host, msgs: seq<Message>, n: nat) {
    forall j :: n <= j < |msgs| ==> TameResult(h, msgs, j)
  }

  /** Everything from position `n` on is tame. */
  ghost predicate TameFrom(h: Host, msgs: seq<Message>, n: nat) {
    && (forall i :: n <= i < |msgs| && msgs[i].Assistant? ==> TameReply(h, msgs[..i + 1]))
    && TameResults(h, msgs, n)
  }

  /** So is the batch that `msgs` leaves open, if it leaves one. */
  ghost predicate TameTail(h: Host, msgs: seq<Message>) {
    ResumesBatch(h, msgs) ==> OwnIds(msgs[TailOf(msgs).value]) && TameResults(h, msgs, TailOf(msgs).value + 1)
  }

  /** A run from `start` to `all` of which the open batch and all that follows is tame. Nothing is asked of the
      transcript before. */
  ghost predicate TameRun(h: Host, start: seq<Message>, all: seq<Message>) {
    TameTail(h, start) && TameFrom(h, all, |start|)
  }

  lemma TameResultsPrefix(h: Host, all: seq<Message>, msgs: seq<Message>, n: nat)
    requires TameResults(h, all, n) && msgs <= all
    ensures TameResults(h, msgs, n)
  {
    hide Known, Excused, OutcomeOf;
    assert msgs == all[..|msgs|];
    forall j | n <= j < |msgs|
      ensures TameResult(h, msgs, j)
    {
      assert TameResult(h, all, j);
      OwnerOfPrefix(all, |msgs|, j);
    }
  }

  lemma TamePrefix(h: Host, all: seq<Message>, msgs: seq<Message>, n: nat)
    requires TameFrom(h, all, n) && msgs <= all
    ensures TameFrom(h, msgs, n)
  {
    hide TameReply, TameResults;
    TameResultsPrefix(h, all, msgs, n);
    forall i | n <= i < |msgs| && msgs[i].Assistant?
      ensures TameReply(h, msgs[..i + 1])
    {
      assert msgs[..i + 1] == all[..i + 1];
    }
  }

  lemma TameLater(h: Host, all: seq<Message>, n: nat, m: nat)
    requires TameFrom(h, all, n) && n <= m
    ensures TameFrom(h, all, m)
  {
    hide TameReply, TameResult;
  }

  /** Results appended to a transcript leave its open batch where it was. */
  lemma {:induction false} OpenTail(start: seq<Message>, saved: seq<Message>)
    requires start <= saved && TailOf(saved).Some? && TailOf(saved).value < |start|
    ensures TailOf(start) == TailOf(saved) && AssistantCount(start) == AssistantCount(saved)
    decreases |saved|
  {
    if start != saved {
      OpenTail(start, saved[..|saved| - 1]);
    }
  }

  /** A tame run is tame from each of its later transcripts on. */
  lemma TameOnwards(h: Host, start: seq<Message>, saved: seq<Message>, all: seq<Message>)
    requires TameRun(h, start, all) && start <= saved <= all
    ensures TameRun(h, saved, all)
  {
    hide TameReply, TameResult, OwnIds;
    TameLater(h, all, |start|, |saved|);
    TameResultsPrefix(h, all, saved, |start|);
    if ResumesBatch(h, saved) {
      var t := TailOf(saved).value;
      OpenTail(saved[..t + 1], saved);
      if t >= |start| {
        assert saved[..t + 1] == all[..t + 1];
        TameBatchReply(h, saved[..t + 1]);
      } else {
        OpenTail(start, saved);
        TameResultsMeet(h, start, saved, t + 1);
      }
    }
  }

  lemma TameBatchReply(h: Host, msgs: seq<Message>)
    requires EndsWithReply(msgs) && TameReply(h, msgs)
    requires var calls := ToolCalls(msgs[|msgs| - 1], AssistantCount(msgs)); calls != [] && !(h.requireTerminal && HasTerminalCall(calls))
    ensures OwnIds(msgs[|msgs| - 1])
  {
    hide AnswerStands, TerminalStands, OwnIds;
  }

  lemma TameResultsMeet(h: Host, start: seq<Message>, saved: seq<Message>, n: nat)
    requires start <= saved && n <= |start| && TameResults(h, start, n) && TameResults(h, saved, |start|)
    ensures TameResults(h, saved, n)
  {
    hide Known, Excused, OutcomeOf;
    assert start == saved[..|start|];
    forall j | n <= j < |saved|
      ensures TameResult(h, saved, j)
    {
      if j < |start| {
        assert TameResult(h, start, j);
        OwnerOfPrefix(saved, |start|, j);
      }
    }
  }

  /** A tame tail is resumed in order. */
  lemma TameInOrder(h: Host, msgs: seq<Message>)
    requires TameTail(h, msgs) && Orderly(msgs)
    ensures ResumesBatch(h, msgs) ==> RunsInOrder(msgs)
  {
    if ResumesBatch(h, msgs) {
      ExplicitIdsIgnoreTurn(msgs[TailOf(msgs).value], 0, AssistantCount(msgs));
    }
  }

  lemma OwnIdsAsk(base: seq<Message>, turn: nat)
    requires EndsWithReply(base) && OwnIds(base[|base| - 1]) && turn == AssistantCount(base)
    ensures Asks(base, turn, ToolCalls(base[|base| - 1], turn))
  {
    ExplicitIdsIgnoreTurn(base[|base| - 1], 0, turn);
  }

  lemma TameSteady(h: Host, base: seq<Message>, turn: nat, calls: seq<ToolCall>, results: seq<Payload>)
    requires Asks(base, turn, calls) && |results| == |calls|
    requires TameResults(h, Answered(base, calls, results), |base|)
    ensures SteadyBatch(h, calls, results)
  {
    hide OutcomeOf, Excused, Known, FailurePoint, TameResults, Answered, Asks;
    var items := ItemsOf(h, calls, results);
    forall j | FailedItem(items, j)
      ensures Known(items[j].outcome) && !Excused(items[j].outcome)
    {
      TameItem(h, base, turn, calls, results, j);
    }
  }

  lemma TameItem(h: Host, base: seq<Message>, turn: nat, calls: seq<ToolCall>, results: seq<Payload>, j: nat)
    requires Asks(base, turn, calls) && |results| == |calls| && j < |calls|
    requires TameResults(h, Answered(base, calls, results), |base|)
    ensures Known(OutcomeOf(h.tools, calls[j], results[j])) && !Excused(OutcomeOf(h.tools, calls[j], results[j]))
  {
    hide OutcomeOf, Excused, Known, ToolCalls, OwnerOf, AssistantCount;
    var msgs := Answered(base, calls, results);
    ExplicitIdsIgnoreTurn(base[|base| - 1], 0, turn);
    assert msgs[|base| + j] == ToolResult(calls[j].callId, results[j]) && msgs[|base| - 1] == base[|base| - 1];
    OwnerOfRun(msgs, |base| - 1, |base| + j);
    assert TameResult(h, msgs, |base| + j);
  }

  // ----- one batch

  lemma FinishBatchAgrees(h: Host, turn: nat, s1: BatchState, s2: BatchState)
    requires s1.messages == s2.messages && s1.outcomes == s2.outcomes
    requires Severity(Decide(s1.outcomes, s1.deferred)) == Severity(Decide(s2.outcomes, s2.deferred))
    requires Decide(s1.outcomes, s1.deferred).ConsultThenContinue? ==> s1.failed == s2.failed
    ensures SamePhase(FinishBatch(h, turn, s1), FinishBatch(h, turn, s2))
  {
    hide Consult, BlockingFailure;
  }

  /** Restarting an unfinished batch from any later checkpoint of itself. */
  lemma BatchCheckpointAgrees(h: Host, base: seq<Message>, turn: nat, results: seq<Payload>, k: nat)
    requires base != [] && base[|base| - 1].Assistant? && turn == AssistantCount(base)
    requires Asks(base, turn, ToolCalls(base[|base| - 1], turn))
    requires |results| <= k <= |ToolCalls(base[|base| - 1], turn)|
    requires var calls := ToolCalls(base[|base| - 1], turn);
             SteadyBatch(h, calls, AllResults(h, base, calls, results))
    ensures var a, calls := base[|base| - 1], ToolCalls(base[|base| - 1], turn);
            var all := AllResults(h, base, calls, results);
            var early, late := Answered(base, calls, results), Answered(base, calls, all[..k]);
            var p1 := BatchPhase(h, turn, a, ResultsById(AnswerMsgs(calls, results)), early, FailedFingerprints(h.fingerprint, early));
            var p2 := BatchPhase(h, turn, a, ResultsById(AnswerMsgs(calls, all[..k])), late, FailedFingerprints(h.fingerprint, late));
            && SamePhase(p1, p2)
            && p1.messages == Answered(base, calls, all)
            && HandsOver(h, p1)
  {
    hide Asks, FinishBatch, Answered, SteadyBatch, SamePhase, ToolCalls;
    var a, calls := base[|base| - 1], ToolCalls(base[|base| - 1], turn);
    var all := AllResults(h, base, calls, results);
    var s1, s2 := BatchFrom(h, base, turn, a.text, calls, results), BatchFrom(h, base, turn, a.text, calls, all[..k]);
    LaterCheckpointAgrees(h, base, turn, a.text, calls, results, k);
    FinishBatchAgrees(h, turn, s1, s2);
    FinishBatchMessages(h, turn, s1);
  }

  lemma FinishBatchMessages(h: Host, turn: nat, st: BatchState)
    ensures var p := FinishBatch(h, turn, st);
            && p.messages == st.messages
            && (p.Goes? ==> p.failed == st.failed && !p.corrected && Decide(st.outcomes, st.deferred).ConsultThenContinue?)
  {
    hide Consult, Decide;
  }

  lemma {:induction false} AnsweredTail(base: seq<Message>, calls: seq<ToolCall>, results: seq<Payload>)
    requires base != [] && base[|base| - 1].Assistant? && |results| <= |calls|
    ensures TailOf(Answered(base, calls, results)) == Some(|base| - 1)
    ensures AssistantCount(Answered(base, calls, results)) == AssistantCount(base)
    ensures Answered(base, calls, results)[|base|..] == AnswerMsgs(calls, results)
    decreases |results|
  {
    if results == [] {
      assert Answered(base, calls, results) == base;
    } else {
      var n := |results| - 1;
      AnsweredTail(base, calls, results[..n]);
      AnsweredStep(base, calls, results, n);
      assert results[..n + 1] == results;
      var m := ToolResult(calls[n].callId, results[n]);
      TailAfterResult(Answered(base, calls, results[..n]), m);
      AppendOne(Answered(base, calls, results[..n]), m);
    }
  }

  /** Resuming a transcript that ends inside a batch means finishing that batch. */
  lemma ResumeOfAnswered(h: Host, base: seq<Message>, turn: nat, results: seq<Payload>, failed: set<string>)
    requires base != [] && base[|base| - 1].Assistant? && turn == AssistantCount(base)
    requires var calls := ToolCalls(base[|base| - 1], turn);
             && calls != [] && |results| <= |calls| && (h.requireTerminal ==> !HasTerminalCall(calls))
    ensures var a, calls := base[|base| - 1], ToolCalls(base[|base| - 1], turn);
            var msgs := Answered(base, calls, results);
            ResumePhase(h, msgs, failed) == BatchPhase(h, turn, a, ResultsById(AnswerMsgs(calls, results)), msgs, failed)
  {
    hide BatchPhase, HasTerminalCall, Answered, AnswerMsgs, ToolCalls;
    var a, calls := base[|base| - 1], ToolCalls(base[|base| - 1], turn);
    AnsweredTail(base, calls, results);
    TailMeansAssistant(base);
    var msgs := Answered(base, calls, results);
    assert msgs[|base| - 1] == a;
  }

  /** Every checkpoint of a batch is the batch with some of its results. */
  lemma CheckpointOfBatch(base: seq<Message>, calls: seq<ToolCall>, all: seq<Payload>, saved: seq<Message>)
    requires |all| <= |calls| && base <= saved <= Answered(base, calls, all)
    ensures saved == Answered(base, calls, all[..|saved| - |base|])
  {
    var k := |saved| - |base|;
    assert AnswerMsgs(calls, all[..k]) == AnswerMsgs(calls, all)[..k];
  }

  /** Resuming from any checkpoint written while `results` were being completed. */
  lemma BatchResumes(h: Host, base: seq<Message>, turn: nat, results: seq<Payload>, saved: seq<Message>)
    requires EndsWithReply(base) && OwnIds(base[|base| - 1]) && turn == AssistantCount(base)
    requires var calls := ToolCalls(base[|base| - 1], turn);
             && calls != [] && !(h.requireTerminal && HasTerminalCall(calls)) && |results| <= |calls|
             && TameResults(h, Answered(base, calls, AllResults(h, base, calls, results)), |base|)
             && Answered(base, calls, results) <= saved <= Answered(base, calls, AllResults(h, base, calls, results))
    ensures var a, calls := base[|base| - 1], ToolCalls(base[|base| - 1], turn);
            var early := Answered(base, calls, results);
            var p1 := BatchPhase(h, turn, a, ResultsById(AnswerMsgs(calls, results)), early, FailedFingerprints(h.fingerprint, early));
            && SamePhase(p1, ResumePhase(h, saved, FailedFingerprints(h.fingerprint, saved)))
            && p1.messages == Answered(base, calls, AllResults(h, base, calls, results))
            && HandsOver(h, p1)
  {
    hide Asks, BatchPhase, OwnIds, TameResults, Answered, SteadyBatch, ToolCalls, ResumePhase, HasTerminalCall, SamePhase, HandsOver;
    var calls := ToolCalls(base[|base| - 1], turn);
    var all := AllResults(h, base, calls, results);
    OwnIdsAsk(base, turn);
    TameSteady(h, base, turn, calls, all);
    CheckpointOfBatch(base, calls, all, saved);
    var k := |saved| - |base|;
    BatchCheckpointAgrees(h, base, turn, results, k);
    ResumeOfAnswered(h, base, turn, all[..k], FailedFingerprints(h.fingerprint, saved));
  }

  // ----- one model turn

  /** Equal but for the correction flag, which a run that is never corrected does not read. */
  ghost predicate EqualPhase(p1: Phase, p2: Phase) {
    && p1.trace == p2.trace && p1.messages == p2.messages && (p1.Ends? <==> p2.Ends?)
    && (p1.Ends? ==> p1.exit == p2.exit) && (p1.Goes? ==> p1.failed == p2.failed)
  }

  /** The correction and attempt flags have no effect on a tame reply. */
  lemma ReplyIgnoresFlags(h: Host, turn: nat, a: Message, saved: seq<Message>, failed: set<string>, c1: bool, last1: bool,
                          c2: bool, last2: bool)
    requires EndsWithReply(saved) && a == saved[|saved| - 1] && turn == AssistantCount(saved) && TameReply(h, saved)
    ensures EqualPhase(ReplyPhase(h, turn, a, saved, failed, c1, last1), ReplyPhase(h, turn, a, saved, failed, c2, last2))
  {
    hide BatchPhase, AnswerPhase, HasTerminalCall, ToolCalls, Consult, Render, FailClosed, OwnIds, AnswerStands;
    TerminalAllowed(h, a, ToolCalls(a, turn), saved);
  }

  /** A terminal call that is accepted live is accepted on resumption; the converse fails only for a completed one. */
  lemma TerminalAllowed(h: Host, a: Message, calls: seq<ToolCall>, msgs: seq<Message>)
    requires a.Assistant?
    ensures var live, resumed := ValidateTerminal(h, a, calls, msgs, false), ValidateTerminal(h, a, calls, msgs, true);
            && (live.NoTerminalCall? <==> !HasTerminalCall(calls)) && (resumed.NoTerminalCall? <==> !HasTerminalCall(calls))
            && (live.ValidTerminal? <==> resumed.ValidTerminal? && resumed.lifecycle.disposition == AwaitingUser)
            && (live.ValidTerminal? ==> resumed == live)
    ensures calls == [] ==> !HasTerminalCall(calls)
  {
    hide Strip;
  }

  lemma TailAtReply(saved: seq<Message>)
    requires EndsWithReply(saved)
    ensures TailOf(saved) == Some(|saved| - 1) && AssistantCount(saved) >= 1
  {}

  /** Resuming right after a reply that needs no batch. */
  lemma ResumeAtReply(h: Host, turn: nat, saved: seq<Message>, failed: set<string>)
    requires EndsWithReply(saved) && turn == AssistantCount(saved)
    ensures var a, calls := saved[|saved| - 1], ToolCalls(saved[|saved| - 1], turn);
            && (calls == [] ==> ResumePhase(h, saved, failed) == AnswerPhase(h, turn, a, saved, h.requireTerminal))
            && (h.requireTerminal && HasTerminalCall(calls) ==>
                  var check := ValidateTerminal(h, a, calls, saved, true);
                  !check.NoTerminalCall? && ResumePhase(h, saved, failed) == TerminalPhase(h, turn, check, saved, failed, false))
  {
    hide AssistantCount, TailOf, ToolCalls, BatchPhase, AnswerPhase, TerminalPhase, ValidateTerminal, ResultsById;
    TailAtReply(saved);
    TerminalAllowed(h, saved[|saved| - 1], ToolCalls(saved[|saved| - 1], turn), saved);
  }

  lemma AnswerResumes(h: Host, turn: nat, a: Message, saved: seq<Message>)
    requires EndsWithReply(saved) && saved[|saved| - 1] == a && turn == AssistantCount(saved)
    requires ToolCalls(a, turn) == [] && AnswerStands(h, saved)
    ensures SamePhase(AnswerPhase(h, turn, a, saved, true), ResumePhase(h, saved, FailedFingerprints(h.fingerprint, saved)))
  {
    hide Consult, AnswerEnding, FailedFingerprints, ToolCalls, AssistantCount, ResumePhase;
    ResumeAtReply(h, turn, saved, FailedFingerprints(h.fingerprint, saved));
  }

  lemma TerminalResumes(h: Host, turn: nat, a: Message, saved: seq<Message>, failed: set<string>, corrected: bool, last: bool)
    requires EndsWithReply(saved) && saved[|saved| - 1] == a && turn == AssistantCount(saved)
    requires ToolCalls(a, turn) != [] && h.requireTerminal && HasTerminalCall(ToolCalls(a, turn)) && TameReply(h, saved)
    ensures var phase := ReplyPhase(h, turn, a, saved, failed, corrected, last);
            phase.Ends? && phase.messages == saved && SamePhase(phase, ResumePhase(h, saved, FailedFingerprints(h.fingerprint, saved)))
  {
    hide Consult, FailedFingerprints, ToolCalls, AssistantCount, ValidateTerminal, Render, FailClosed, ResumePhase, BatchPhase, AnswerPhase;
    ResumeAtReply(h, turn, saved, FailedFingerprints(h.fingerprint, saved));
    TerminalAllowed(h, a, ToolCalls(a, turn), saved);
  }

  lemma NothingRecorded(base: seq<Message>, calls: seq<ToolCall>)
    ensures Answered(base, calls, []) == base && ResultsById(AnswerMsgs(calls, [])) == map[]
  {
  }

  /** Any checkpoint written after a model reply resumes to what the uninterrupted turn does. */
  lemma ReplyResumes(h: Host, msgs: seq<Message>, turn: nat, a: Message, failed: set<string>, corrected: bool, last: bool, saved: seq<Message>)
    requires a.Assistant? && turn == AssistantCount(msgs) + 1 && failed == FailedFingerprints(h.fingerprint, msgs)
    requires var phase := ReplyPhase(h, turn, a, msgs + [a], failed, corrected, last);
             TameFrom(h, phase.messages, |msgs|) && msgs + [a] <= saved <= phase.messages
    ensures var phase := ReplyPhase(h, turn, a, msgs + [a], failed, corrected, last);
            && SamePhase(phase, ResumePhase(h, saved, FailedFingerprints(h.fingerprint, saved)))
            && HandsOver(h, phase)
            && TameReply(h, msgs + [a])
  {
    hide ReplyPhase, HasTerminalCall, ToolCalls, ResumePhase, TameReply, TameFrom, TameResults, SamePhase, FailedFingerprints;
    var base := msgs + [a];
    var phase := ReplyPhase(h, turn, a, base, failed, corrected, last);
    AppendOne(msgs, a);
    hide AssistantCount;
    var calls := ToolCalls(a, turn);
    FirstReplyIsTame(h, phase.messages, msgs, a);
    if calls == [] {
      AnswerReplyResumes(h, turn, a, failed, corrected, last, base);
      assert saved == base;
    } else if h.requireTerminal && HasTerminalCall(calls) {
      TerminalResumes(h, turn, a, base, failed, corrected, last);
      assert saved == base;
    } else {
      TameResultsLater(h, phase.messages, |msgs|, |base|);
      BatchReplyResumes(h, msgs, turn, a, failed, corrected, last, saved);
    }
  }

  lemma FirstReplyIsTame(h: Host, all: seq<Message>, msgs: seq<Message>, a: Message)
    requires TameFrom(h, all, |msgs|) && msgs + [a] <= all && a.Assistant?
    ensures TameReply(h, msgs + [a]) && TameResults(h, all, |msgs|)
  {
    hide TameReply, TameResults;
    assert all[..|msgs| + 1] == msgs + [a] && all[|msgs|] == a;
  }

  lemma AnswerReplyResumes(h: Host, turn: nat, a: Message, failed: set<string>, corrected: bool, last: bool, base: seq<Message>)
    requires EndsWithReply(base) && base[|base| - 1] == a && turn == AssistantCount(base)
    requires ToolCalls(a, turn) == [] && TameReply(h, base)
    ensures var phase := ReplyPhase(h, turn, a, base, failed, corrected, last);
            phase.Ends? && phase.messages == base && SamePhase(phase, ResumePhase(h, base, FailedFingerprints(h.fingerprint, base)))
  {
    hide ResumePhase, SamePhase, ToolCalls, AnswerPhase;
    AnswerMessages(h, turn, a, base);
    AnswerResumes(h, turn, a, base);
  }

  lemma BatchReplyResumes(h: Host, msgs: seq<Message>, turn: nat, a: Message, failed: set<string>, corrected: bool, last: bool,
                          saved: seq<Message>)
    requires a.Assistant? && turn == AssistantCount(msgs) + 1 && failed == FailedFingerprints(h.fingerprint, msgs)
    requires TameReply(h, msgs + [a]) && ToolCalls(a, turn) != [] && !(h.requireTerminal && HasTerminalCall(ToolCalls(a, turn)))
    requires var phase := ReplyPhase(h, turn, a, msgs + [a], failed, corrected, last);
             TameResults(h, phase.messages, |msgs| + 1) && msgs + [a] <= saved <= phase.messages
    ensures var phase := ReplyPhase(h, turn, a, msgs + [a], failed, corrected, last);
            SamePhase(phase, ResumePhase(h, saved, FailedFingerprints(h.fingerprint, saved))) && HandsOver(h, phase)
  {
    hide ReplyPhase, BatchPhase, HasTerminalCall, ToolCalls, ResumePhase, Answered, OwnIds, TameResults, AllResults, TameReply,
         AssistantCount;
    var base := msgs + [a];
    ListAppend(h.fingerprint, msgs, a);
    AppendOne(msgs, a);
    TameBatchReply(h, base);
    var calls := ToolCalls(a, turn);
    ReplyIsBatch(h, turn, a, base, failed, corrected, last);
    NothingRecorded(base, calls);
    OwnIdsAsk(base, turn);
    BatchMessages(h, base, turn, []);
    BatchResumes(h, base, turn, [], saved);
  }

  lemma ReplyIsBatch(h: Host, turn: nat, a: Message, base: seq<Message>, failed: set<string>, corrected: bool, last: bool)
    requires a.Assistant? && ToolCalls(a, turn) != [] && !(h.requireTerminal && HasTerminalCall(ToolCalls(a, turn)))
    ensures EqualPhase(ReplyPhase(h, turn, a, base, failed, corrected, last), BatchPhase(h, turn, a, map[], base, failed))
  {
    hide BatchPhase, HasTerminalCall, ToolCalls, ValidateTerminal;
    TerminalAllowed(h, a, ToolCalls(a, turn), base);
  }

  lemma TameResultsLater(h: Host, msgs: seq<Message>, n: nat, m: nat)
    requires TameResults(h, msgs, n) && n <= m
    ensures TameResults(h, msgs, m)
  {
    hide TameResult;
  }

  lemma AnswerMessages(h: Host, turn: nat, a: Message, saved: seq<Message>)
    requires a.Assistant?
    ensures AnswerPhase(h, turn, a, saved, true).Ends? && AnswerPhase(h, turn, a, saved, true).messages == saved
  {
    hide Consult, AnswerEnding;
  }

  /** The transcript a batch ends with. */
  lemma BatchMessages(h: Host, base: seq<Message>, turn: nat, results: seq<Payload>)
    requires base != [] && base[|base| - 1].Assistant? && turn == AssistantCount(base)
    requires Asks(base, turn, ToolCalls(base[|base| - 1], turn)) && |results| <= |ToolCalls(base[|base| - 1], turn)|
    ensures var a, calls := base[|base| - 1], ToolCalls(base[|base| - 1], turn);
            var early := Answered(base, calls, results);
            BatchPhase(h, turn, a, ResultsById(AnswerMsgs(calls, results)), early,
                       FailedFingerprints(h.fingerprint, early)).messages
            == Answered(base, calls, AllResults(h, base, calls, results))
  {
    hide Asks, FinishBatch, Answered, ToolCalls, AllResults;
    var a, calls := base[|base| - 1], ToolCalls(base[|base| - 1], turn);
    BatchFromJudges(h, base, turn, a.text, calls, results);
    var all := AllResults(h, base, calls, results);
    assert all[..|calls|] == all;
    FinishBatchMessages(h, turn, BatchFrom(h, base, turn, a.text, calls, results));
  }

  /** A run that ends within its budget ends the same way with more budget, and whether or not it was corrected before. */
  lemma {:induction false} LoopBudget(h: Host, msgs: seq<Message>, failed: set<string>, c1: bool, left: nat, c2: bool, budget: nat)
    requires left <= budget && failed == FailedFingerprints(h.fingerprint, msgs)
    requires var run := Loop(h, msgs, failed, c1, left); TameFrom(h, run.messages, |msgs|) && WithinBudget(run.exit)
    ensures var r1, r2 := Loop(h, msgs, failed, c1, left), Loop(h, msgs, failed, c2, budget);
            r1.messages == r2.messages && r1.exit == r2.exit
    decreases left
  {
    hide TurnPhase, TameFrom, FailedFingerprints;
    if left > 0 {
      var run, phase := Loop(h, msgs, failed, c1, left), TurnPhase(h, msgs, failed, c1, left == 1);
      LoopGrows(h, msgs, failed, c1, left);
      TamePrefix(h, run.messages, phase.messages, |msgs|);
      TurnGoesOn(h, msgs, failed, c1, left == 1, c2, budget == 1);
      if phase.Goes? {
        TameLater(h, run.messages, |msgs|, |phase.messages|);
        LoopBudget(h, phase.messages, phase.failed, phase.corrected, left - 1, TurnPhase(h, msgs, failed, c2, budget == 1).corrected, budget - 1);
      }
    }
  }

  lemma LoopGrows(h: Host, msgs: seq<Message>, failed: set<string>, corrected: bool, left: nat)
    requires left > 0
    ensures msgs <= TurnPhase(h, msgs, failed, corrected, left == 1).messages <= Loop(h, msgs, failed, corrected, left).messages
  {
    hide TurnPhase;
    var phase := TurnPhase(h, msgs, failed, corrected, left == 1);
    TurnPaced(h, msgs, msgs, failed, corrected, left == 1);
    if phase.Goes? {
      LoopPaced(h, phase.messages, phase.messages, phase.failed, phase.corrected, left - 1);
    }
  }

  /** A tame turn does not depend on the attempt number or on earlier corrections, and hands over exactly the failures
      that can be read back from its transcript. */
  lemma TurnGoesOn(h: Host, msgs: seq<Message>, failed: set<string>, c1: bool, last1: bool, c2: bool, last2: bool)
    requires failed == FailedFingerprints(h.fingerprint, msgs)
    requires TameFrom(h, TurnPhase(h, msgs, failed, c1, last1).messages, |msgs|)
    ensures var phase := TurnPhase(h, msgs, failed, c1, last1);
            EqualPhase(phase, TurnPhase(h, msgs, failed, c2, last2)) && HandsOver(h, phase)
  {
    hide ReplyPhase, ResumePhase, TameFrom, TameReply;
    match h.model(msgs)
    case GatewayFailed(_) =>
    case Reply(text, calls, invalid) =>
      var a, turn := Assistant(text, calls, invalid), AssistantCount(msgs) + 1;
      var saved := msgs + [a];
      ReplyPaced(h, turn, a, saved, failed, c1, last1);
      ReplyResumes(h, msgs, turn, a, failed, c1, last1, saved);
      AppendOne(msgs, a);
      ReplyIgnoresFlags(h, turn, a, saved, failed, c1, last1, c2, last2);
  }

  // ----- the checkpoints of a run

  /** Where the checkpoints of one turn lie. */
  lemma TurnSaves(h: Host, msgs: seq<Message>, failed: set<string>, corrected: bool, last: bool, i: nat)
    requires var phase := TurnPhase(h, msgs, failed, corrected, last); i < |phase.trace| && phase.trace[i].Save?
    ensures h.model(msgs).Reply?
    ensures var phase, m := TurnPhase(h, msgs, failed, corrected, last), h.model(msgs);
            msgs + [Assistant(m.text, m.calls, m.invalid)] <= phase.trace[i].messages <= phase.messages
  {
    hide ReplyPhase, Paced, Durable, AssistantCount;
    var phase := TurnPhase(h, msgs, failed, corrected, last);
    var m := h.model(msgs);
    assert m.Reply?;
    var a, turn := Assistant(m.text, m.calls, m.invalid), AssistantCount(msgs) + 1;
    var saved := msgs + [a];
    var next := ReplyPhase(h, turn, a, saved, failed, corrected, last);
    ReplyPaced(h, turn, a, saved, failed, corrected, last);
    if i > 2 {
      assert phase.trace[i] == next.trace[i - 3];
      SaveBetween(saved, next.trace, i - 3);
    }
  }

  /** Resuming from a checkpoint of the turn that starts at `msgs`. */
  lemma TurnCrash(h: Host, msgs: seq<Message>, failed: set<string>, corrected: bool, left: nat, budget: nat, i: nat)
    requires 0 < left <= budget && failed == FailedFingerprints(h.fingerprint, msgs)
    requires var run := Loop(h, msgs, failed, corrected, left); TameFrom(h, run.messages, |msgs|) && WithinBudget(run.exit)
    requires var phase := TurnPhase(h, msgs, failed, corrected, left == 1); i < |phase.trace| && phase.trace[i].Save?
    ensures var saved := TurnPhase(h, msgs, failed, corrected, left == 1).trace[i].messages;
            SameRun(Session(h, saved, budget), Loop(h, msgs, failed, corrected, left))
  {
    hide ReplyPhase, ResumePhase, TameFrom;
    var phase, run := TurnPhase(h, msgs, failed, corrected, left == 1), Loop(h, msgs, failed, corrected, left);
    var saved := phase.trace[i].messages;
    TurnSaves(h, msgs, failed, corrected, left == 1, i);
    var m := h.model(msgs);
    var a, turn := Assistant(m.text, m.calls, m.invalid), AssistantCount(msgs) + 1;
    LoopGrows(h, msgs, failed, corrected, left);
    TamePrefix(h, run.messages, phase.messages, |msgs|);
    ReplyResumes(h, msgs, turn, a, failed, corrected, left == 1, saved);
    if phase.Goes? {
      TameLater(h, run.messages, |msgs|, |phase.messages|);
      var resumed := ResumePhase(h, saved, FailedFingerprints(h.fingerprint, saved));
      LoopBudget(h, phase.messages, phase.failed, phase.corrected, left - 1, resumed.corrected, budget);
    }
  }

  /** Resuming from any checkpoint the loop writes. */
  lemma {:induction false} LoopCrash(h: Host, msgs: seq<Message>, failed: set<string>, corrected: bool, left: nat, budget: nat, i: nat)
    requires left <= budget && failed == FailedFingerprints(h.fingerprint, msgs)
    ensures var run := Loop(h, msgs, failed, corrected, left);
            TameFrom(h, run.messages, |msgs|) && WithinBudget(run.exit) && i < |run.trace| && run.trace[i].Save? ==>
            SameRun(Session(h, run.trace[i].messages, budget), run)
    decreases left
  {
    hide TurnPhase, Session, TameFrom;
    var run := Loop(h, msgs, failed, corrected, left);
    if left > 0 && TameFrom(h, run.messages, |msgs|) && WithinBudget(run.exit) && i < |run.trace| && run.trace[i].Save? {
      var phase := TurnPhase(h, msgs, failed, corrected, left == 1);
      if i < |phase.trace| {
        assert run.trace[i] == phase.trace[i];
        TurnCrash(h, msgs, failed, corrected, left, budget, i);
      } else {
        LoopGrows(h, msgs, failed, corrected, left);
        TamePrefix(h, run.messages, phase.messages, |msgs|);
        TameLater(h, run.messages, |msgs|, |phase.messages|);
        TurnGoesOn(h, msgs, failed, corrected, left == 1, corrected, left == 1);
        assert run.trace[i] == Loop(h, phase.messages, phase.failed, phase.corrected, left - 1).trace[i - |phase.trace|];
        LoopCrash(h, phase.messages, phase.failed, phase.corrected, left - 1, budget, i - |phase.trace|);
      }
    }
  }

  // ----- one invocation

  function Payloads(suffix: seq<Message>): (results: seq<Payload>)
    requires forall i :: 0 <= i < |suffix| ==> suffix[i].ToolResult?
    ensures |results| == |suffix|
  {
    seq(|suffix|, i requires 0 <= i < |suffix| => suffix[i].payload)
  }

  /** An orderly transcript with an open tail is its assistant message plus some results. */
  lemma TailIsAnswered(msgs: seq<Message>, t: nat)
    requires Orderly(msgs) && TailOf(msgs) == Some(t)
    ensures var base, results := msgs[..t + 1], Payloads(msgs[t + 1..]);
            var calls := ToolCalls(msgs[t], AssistantCount(msgs));
            && |results| <= |calls| && msgs == Answered(base, calls, results)
            && AssistantCount(base) == AssistantCount(msgs)
  {
    hide ToolCalls, Orderly;
    var base, suffix := msgs[..t + 1], msgs[t + 1..];
    var calls := ToolCalls(msgs[t], AssistantCount(msgs));
    OrderlyAnswers(msgs, t);
    assert AnswerMsgs(calls, Payloads(suffix)) == suffix;
    AnsweredTail(base, calls, Payloads(suffix));
  }

  /** Resuming again from anything the resumed tail has added. */
  lemma ResumeResumes(h: Host, msgs: seq<Message>, saved: seq<Message>)
    requires Orderly(msgs) && TameTail(h, msgs)
    requires var phase := ResumePhase(h, msgs, FailedFingerprints(h.fingerprint, msgs));
             TameResults(h, phase.messages, |msgs|) && msgs <= saved <= phase.messages
    ensures var phase := ResumePhase(h, msgs, FailedFingerprints(h.fingerprint, msgs));
            SamePhase(phase, ResumePhase(h, saved, FailedFingerprints(h.fingerprint, saved))) && HandsOver(h, phase)
  {
    hide ResumePhase, TameTail, TameResults, Orderly;
    if ResumesBatch(h, msgs) {
      BatchTailResumes(h, msgs, TailOf(msgs).value, saved);
    } else {
      OtherTailResumes(h, msgs, saved);
    }
  }

  lemma BatchTailResumes(h: Host, msgs: seq<Message>, t: nat, saved: seq<Message>)
    requires Orderly(msgs) && TailOf(msgs) == Some(t) && ResumesBatch(h, msgs) && TameTail(h, msgs)
    requires var phase := ResumePhase(h, msgs, FailedFingerprints(h.fingerprint, msgs));
             TameResults(h, phase.messages, |msgs|) && msgs <= saved <= phase.messages
    ensures var phase := ResumePhase(h, msgs, FailedFingerprints(h.fingerprint, msgs));
            SamePhase(phase, ResumePhase(h, saved, FailedFingerprints(h.fingerprint, saved))) && HandsOver(h, phase)
  {
    hide ResumePhase, BatchPhase, TameResults, OwnIds, Answered, ToolCalls, HasTerminalCall, Asks, Orderly, AssistantCount, SamePhase, HandsOver;
    var turn, failed := AssistantCount(msgs), FailedFingerprints(h.fingerprint, msgs);
    var base, a, results := msgs[..t + 1], msgs[t], Payloads(msgs[t + 1..]);
    TailIsAnswered(msgs, t);
    OwnIdsAsk(base, turn);
    ResumeOfAnswered(h, base, turn, results, failed);
    BatchMessages(h, base, turn, results);
    var phase := ResumePhase(h, msgs, failed);
    TameResultsMeet(h, msgs, phase.messages, t + 1);
    BatchResumes(h, base, turn, results, saved);
  }

  /** A plain answer or a terminal call at the end of a transcript: resuming adds at most a correction. */
  lemma OtherTailResumes(h: Host, msgs: seq<Message>, saved: seq<Message>)
    requires !ResumesBatch(h, msgs)
    requires msgs <= saved <= ResumePhase(h, msgs, FailedFingerprints(h.fingerprint, msgs)).messages
    ensures var phase := ResumePhase(h, msgs, FailedFingerprints(h.fingerprint, msgs));
            SamePhase(phase, ResumePhase(h, saved, FailedFingerprints(h.fingerprint, saved))) && HandsOver(h, phase)
  {
    hide FailedFingerprints, BatchPhase;
    var failed := FailedFingerprints(h.fingerprint, msgs);
    var phase := ResumePhase(h, msgs, failed);
    OtherTailAdds(h, msgs, failed);
    if phase.messages != msgs {
      var correction := phase.messages[|msgs|];
      assert phase.messages == msgs + [correction];
      CorrectedTail(h, msgs, correction);
    }
    hide ResumePhase;
    assert saved == msgs || saved == phase.messages;
  }

  lemma CorrectedTail(h: Host, msgs: seq<Message>, correction: Message)
    requires correction.System?
    ensures var after, failed := msgs + [correction], FailedFingerprints(h.fingerprint, msgs);
            FailedFingerprints(h.fingerprint, after) == failed && ResumePhase(h, after, failed) == Goes([], after, failed, false)
  {
    ListAppend(h.fingerprint, msgs, correction);
  }

  lemma OtherTailAdds(h: Host, msgs: seq<Message>, failed: set<string>)
    requires !ResumesBatch(h, msgs)
    ensures var phase := ResumePhase(h, msgs, failed);
            && (phase.Goes? ==> phase.failed == failed)
            && (phase.messages == msgs || (phase.Goes? && exists c :: phase.messages == msgs + [System(c)]))
  {
    hide ToolCalls, ValidateTerminal, BatchPhase, Consult, FailClosed, AnswerEnding, Render;
    if TailOf(msgs).Some? {
      TailMeansAssistant(msgs);
      var a := msgs[TailOf(msgs).value];
      TerminalAllowed(h, a, ToolCalls(a, AssistantCount(msgs)), msgs);
    }
  }

  lemma ResumeGrows(h: Host, msgs: seq<Message>, maxTurns: nat)
    ensures var phase := ResumePhase(h, msgs, FailedFingerprints(h.fingerprint, msgs));
            msgs <= phase.messages <= Session(h, msgs, maxTurns).messages
  {
    hide ResumePhase;
    var failed := FailedFingerprints(h.fingerprint, msgs);
    var phase := ResumePhase(h, msgs, failed);
    ResumePaced(h, msgs, failed);
    if phase.Goes? {
      LoopPaced(h, phase.messages, phase.messages, phase.failed, phase.corrected, maxTurns);
    }
  }

  /** The resumed tail of a tame run is tame and hands over what it recorded. */
  lemma ResumeSetup(h: Host, msgs: seq<Message>, maxTurns: nat, saved: seq<Message>)
    requires Orderly(msgs) && TameRun(h, msgs, Session(h, msgs, maxTurns).messages) && msgs <= saved
    ensures var phase := ResumePhase(h, msgs, FailedFingerprints(h.fingerprint, msgs));
            && HandsOver(h, phase) && TameFrom(h, Session(h, msgs, maxTurns).messages, |phase.messages|)
            && (saved <= phase.messages ==> SamePhase(phase, ResumePhase(h, saved, FailedFingerprints(h.fingerprint, saved))))
  {
    hide Session, ResumePhase, TameReply, TameResult, TameTail, Orderly, SamePhase, HandsOver;
    var whole, phase := Session(h, msgs, maxTurns).messages, ResumePhase(h, msgs, FailedFingerprints(h.fingerprint, msgs));
    ResumeGrows(h, msgs, maxTurns);
    TamePrefix(h, whole, phase.messages, |msgs|);
    TameLater(h, whole, |msgs|, |phase.messages|);
    ResumeResumes(h, msgs, if saved <= phase.messages then saved else msgs);
  }

  /** Resuming from any checkpoint an invocation writes ends the same way. */
  lemma SessionCrash(h: Host, msgs: seq<Message>, maxTurns: nat, i: nat)
    requires Orderly(msgs)
    requires var run := Session(h, msgs, maxTurns);
             TameRun(h, msgs, run.messages) && WithinBudget(run.exit) && i < |run.trace| && run.trace[i].Save?
    ensures var run := Session(h, msgs, maxTurns); SameRun(Session(h, run.trace[i].messages, maxTurns), run)
  {
    hide ResumePhase, TameRun, TameFrom, Orderly, Loop;
    var run := Session(h, msgs, maxTurns);
    var failed := FailedFingerprints(h.fingerprint, msgs);
    var phase, saved := ResumePhase(h, msgs, failed), run.trace[i].messages;
    SessionPaced(h, msgs, maxTurns);
    SaveBetween(msgs, run.trace, i);
    ResumeSetup(h, msgs, maxTurns, saved);
    if i < |phase.trace| {
      assert run.trace[i] == phase.trace[i];
      ResumePaced(h, msgs, failed);
      SaveBetween(msgs, phase.trace, i);
      if phase.Goes? {
        var resumed := ResumePhase(h, saved, FailedFingerprints(h.fingerprint, saved));
        LoopBudget(h, phase.messages, phase.failed, phase.corrected, maxTurns, resumed.corrected, maxTurns);
      }
    } else {
      var rest := Loop(h, phase.messages, phase.failed, phase.corrected, maxTurns);
      assert run.trace[i] == rest.trace[i - |phase.trace|];
      LoopCrash(h, phase.messages, phase.failed, phase.corrected, maxTurns, maxTurns, i - |phase.trace|);
    }
  }

  // ----- chains of crashes

  /** Invocations that crash after the given numbers of visible steps, each restarted from what
      was durable then. A crash later than the end of a run does not happen. */
  function CrashRun(h: Host, msgs: seq<Message>, maxTurns: nat, crashes: seq<nat>): Run
    decreases |crashes|
  {
    var run := Session(h, msgs, maxTurns);
    if crashes == [] || crashes[0] >= |run.trace| then run
    else CrashRun(h, Durable(msgs, run.trace[..crashes[0]]), maxTurns, crashes[1..])
  }

  /** An orderly transcript stays orderly at every crash point. */
  lemma DurableOrderly(start: seq<Message>, trace: seq<Action>, p: nat)
    requires Orderly(start) && WellTraced(start, trace) && p <= |trace|
    ensures Orderly(Durable(start, trace[..p]))
  {
    hide Orderly, NextCall, EventOk;
    DurableIsSave(start, trace, p);
    if Durable(start, trace[..p]) != start {
      var i :| 0 <= i < p && trace[i].Save? && trace[i].messages == Durable(start, trace[..p]);
      WellTracedAt(start, trace, i);
    }
  }

  /** A tame run leaves at every crash point an orderly transcript from which it is tame again and ends alike. */
  lemma RestartsAlike(h: Host, msgs: seq<Message>, maxTurns: nat, p: nat)
    requires Orderly(msgs) && p <= |Session(h, msgs, maxTurns).trace|
    requires var run := Session(h, msgs, maxTurns); TameRun(h, msgs, run.messages)
    ensures var run := Session(h, msgs, maxTurns);
            var saved := Durable(msgs, run.trace[..p]);
            && msgs <= saved <= run.messages && Orderly(saved) && TameRun(h, saved, run.messages)
            && (WithinBudget(run.exit) ==> SameRun(Session(h, saved, maxTurns), run))
  {
    hide Session, TameTail, TameFrom, Orderly, RunsInOrder, ResumesBatch;
    var run := Session(h, msgs, maxTurns);
    var saved := Durable(msgs, run.trace[..p]);
    TameInOrder(h, msgs);
    SessionTraced(h, msgs, maxTurns);
    DurableOrderly(msgs, run.trace, p);
    SessionPaced(h, msgs, maxTurns);
    DurableBetween(msgs, run.trace, p);
    TameOnwards(h, msgs, saved, run.messages);
    DurableIsSave(msgs, run.trace, p);
    if saved != msgs && WithinBudget(run.exit) {
      var i :| 0 <= i < p && run.trace[i].Save? && run.trace[i].messages == saved;
      SessionCrash(h, msgs, maxTurns, i);
    }
  }

  /** No crash schedule changes how a run ends: same transcript, same status, same answer, same
      turn count; only the code reported by a failed run may differ. */
  lemma {:induction false} CrashesChangeNothing(h: Host, msgs: seq<Message>, maxTurns: nat, crashes: seq<nat>)
    requires Orderly(msgs)
    requires var run := Session(h, msgs, maxTurns); TameRun(h, msgs, run.messages) && WithinBudget(run.exit)
    ensures SameRun(CrashRun(h, msgs, maxTurns, crashes), Session(h, msgs, maxTurns))
    decreases |crashes|
  {
    hide Session, TameTail, TameFrom, Orderly;
    var run := Session(h, msgs, maxTurns);
    if crashes != [] && crashes[0] < |run.trace| {
      RestartsAlike(h, msgs, maxTurns, crashes[0]);
      CrashesChangeNothing(h, Durable(msgs, run.trace[..crashes[0]]), maxTurns, crashes[1..]);
    }
  }

  /** Handler executions over a whole chain. */
  function ChainHandlerRuns(h: Host, msgs: seq<Message>, maxTurns: nat, crashes: seq<nat>): nat
    decreases |crashes|
  {
    var run := Session(h, msgs, maxTurns);
    if crashes == [] || crashes[0] >= |run.trace| then HandlerRuns(run.trace)
    else
      HandlerRuns(run.trace[..crashes[0]])
      + ChainHandlerRuns(h, Durable(msgs, run.trace[..crashes[0]]), maxTurns, crashes[1..])
  }

  /** Each crash costs at most one repeated execution, from any transcript and whatever ids the calls carry: over any
      chain, handlers run at most once per result the final transcript gained, plus once per crash. */
  lemma {:induction false} EachCrashCostsOneExecution(h: Host, msgs: seq<Message>, maxTurns: nat, crashes: seq<nat>)
    ensures ChainHandlerRuns(h, msgs, maxTurns, crashes) + ResultCount(msgs)
            <= ResultCount(CrashRun(h, msgs, maxTurns, crashes).messages) + |crashes|
    decreases |crashes|
  {
    hide Session;
    var run := Session(h, msgs, maxTurns);
    SessionPaced(h, msgs, maxTurns);
    if crashes == [] || crashes[0] >= |run.trace| {
      HandlersPaced(msgs, run.trace, |run.trace|);
      ResultsGrow(Durable(msgs, run.trace), run.messages);
    } else {
      HandlersPaced(msgs, run.trace, crashes[0]);
      EachCrashCostsOneExecution(h, Durable(msgs, run.trace[..crashes[0]]), maxTurns, crashes[1..]);
    }
  }
}
