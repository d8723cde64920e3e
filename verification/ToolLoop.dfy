/** The native tool loop as it runs: one object whose transcript, failed fingerprints, correction
    flag and visible actions are updated in place. Every method is proved to do what `LoopSpec`
    says, so the theorems about runs are theorems about this loop. */
module ToolLoop {
  import opened Prelude
  import opened Transcript
  import opened FailureControl
  import opened HostContracts
  import opened LoopSpec
  import opened ResumeOrder
  import opened LoopSafety
  import opened BatchDecision
  import opened BatchReplay
  import opened CrashResume
  import opened LoopExits

  // ----- the failure set at loop heads

  /** Every model reply carries explicit, distinct call ids. */
  ghost predicate ExplicitReplies(h: Host) {
    forall seen: seq<Message> :: h.model(seen).Reply? ==>
      OwnIds(Assistant(h.model(seen).text, h.model(seen).calls, h.model(seen).invalid))
  }

  /** A batch that lets the loop go on has recorded every failure it met. */
  lemma ContinuingBatchRemembers(h: Host, base: seq<Message>, turn: nat, results: seq<Payload>)
    requires base != [] && base[|base| - 1].Assistant? && turn == AssistantCount(base)
    requires OwnIds(base[|base| - 1]) && |results| <= |ToolCalls(base[|base| - 1], turn)|
    ensures var a, calls := base[|base| - 1], ToolCalls(base[|base| - 1], turn);
            var early := Answered(base, calls, results);
            var p := BatchPhase(h, turn, a, ResultsById(AnswerMsgs(calls, results)), early,
                                FailedFingerprints(h.fingerprint, early));
            p.Goes? ==> p.failed == FailedFingerprints(h.fingerprint, p.messages)
  {
    hide FinishBatch, Answered, ToolCalls, AllResults, ItemsOf;
    var a, calls := base[|base| - 1], ToolCalls(base[|base| - 1], turn);
    ExplicitIdsIgnoreTurn(a, 0, turn);
    var all, st := AllResults(h, base, calls, results), BatchFrom(h, base, turn, a.text, calls, results);
    BatchFromJudges(h, base, turn, a.text, calls, results);
    FinishBatchMessages(h, turn, st);
    ItemsLength(h, calls, all);
    var history, items := FailureList(h.fingerprint, base), ItemsOf(h, calls, all);
    AnsweredTrail(h, base, turn, calls, all, |calls|);
    SeverityCases(history, items, |results|);
    assert all[..|calls|] == all && items[..|calls|] == items && Outcomes(items)[..|calls|] == Outcomes(items);
    if Decide(st.outcomes, st.deferred).ConsultThenContinue? {
      QuietSet(history, items, |results|, |calls|);
    }
  }

  /** One model turn hands over exactly the failures its transcript records. */
  lemma TurnRemembers(h: Host, msgs: seq<Message>, failed: set<string>, corrected: bool, last: bool)
    requires ExplicitReplies(h) && failed == FailedFingerprints(h.fingerprint, msgs)
    ensures var p := TurnPhase(h, msgs, failed, corrected, last);
            p.Goes? ==> p.failed == FailedFingerprints(h.fingerprint, p.messages)
  {
    hide ReplyPhase, OwnIds;
    if h.model(msgs).Reply? {
      var m, turn := h.model(msgs), AssistantCount(msgs) + 1;
      var a := Assistant(m.text, m.calls, m.invalid);
      assert OwnIds(a);
      ReplyRemembers(h, msgs, turn, a, failed, corrected, last);
    }
  }

  lemma ReplyRemembers(h: Host, msgs: seq<Message>, turn: nat, a: Message, failed: set<string>, corrected: bool, last: bool)
    requires a.Assistant? && OwnIds(a) && turn == AssistantCount(msgs) + 1
    requires failed == FailedFingerprints(h.fingerprint, msgs)
    ensures var p := ReplyPhase(h, turn, a, msgs + [a], failed, corrected, last);
            p.Goes? ==> p.failed == FailedFingerprints(h.fingerprint, p.messages)
  {
    hide BatchPhase, TerminalPhase, AnswerPhase, ValidateTerminal, ToolCalls, Answered, OwnIds;
    var base := msgs + [a];
    ListAppend(h.fingerprint, msgs, a);
    AppendOne(msgs, a);
    var calls := ToolCalls(a, turn);
    var check := if h.requireTerminal then ValidateTerminal(h, a, calls, base, false) else NoTerminalCall;
    if !check.NoTerminalCall? {
      CorrectionRemembers(h, turn, check, base, failed, corrected || last);
    } else if calls == [] {
      AnswerEnds(h, turn, a, base);
    } else {
      NothingRecorded(base, calls);
      ContinuingBatchRemembers(h, base, turn, []);
    }
  }

  lemma CorrectionRemembers(h: Host, turn: nat, check: TerminalCheck, msgs: seq<Message>, failed: set<string>, closeNow: bool)
    requires !check.NoTerminalCall? && failed == FailedFingerprints(h.fingerprint, msgs)
    ensures var p := TerminalPhase(h, turn, check, msgs, failed, closeNow);
            p.Goes? ==> p.failed == FailedFingerprints(h.fingerprint, p.messages)
  {
    hide Consult, FailClosed, Render;
    if check.InvalidTerminal? {
      ListAppend(h.fingerprint, msgs, System(CorrectionOf(check.error)));
    }
  }

  /** The calls of a transcript's open tail carry explicit, distinct ids. */
  ghost predicate OwnTail(msgs: seq<Message>) {
    match TailOf(msgs) case None => true case Some(t) => OwnIds(msgs[t])
  }

  /** A resumed tail that goes on hands over exactly the failures its transcript records. */
  lemma ResumeRemembers(h: Host, msgs: seq<Message>)
    requires Orderly(msgs) && OwnTail(msgs)
    ensures var p := ResumePhase(h, msgs, FailedFingerprints(h.fingerprint, msgs));
            p.Goes? ==> p.failed == FailedFingerprints(h.fingerprint, p.messages)
  {
    match TailOf(msgs) {
      case None =>
      case Some(t) => TailRemembers(h, msgs, t);
    }
  }

  lemma TailRemembers(h: Host, msgs: seq<Message>, t: nat)
    requires Orderly(msgs) && TailOf(msgs) == Some(t) && OwnIds(msgs[t])
    ensures var p := ResumePhase(h, msgs, FailedFingerprints(h.fingerprint, msgs));
            p.Goes? ==> p.failed == FailedFingerprints(h.fingerprint, p.messages)
  {
    hide BatchPhase, TerminalPhase, AnswerPhase, ValidateTerminal, ToolCalls, Answered, OwnIds, FailedFingerprints,
         AnswerMsgs, ResultsById, Orderly, AssistantCount;
    TailMeansAssistant(msgs);
    var a, turn, failed := msgs[t], AssistantCount(msgs), FailedFingerprints(h.fingerprint, msgs);
    var calls, base, results := ToolCalls(a, turn), msgs[..t + 1], Payloads(msgs[t + 1..]);
    var check := if h.requireTerminal then ValidateTerminal(h, a, calls, msgs, true) else NoTerminalCall;
    TailIsAnswered(msgs, t);
    if calls == [] {
      AnswerPhaseEnds(h, turn, a, msgs, h.requireTerminal);
    } else if !check.NoTerminalCall? {
      CorrectionRemembers(h, turn, check, msgs, failed, false);
    } else {
      AnsweredTail(base, calls, results);
      assert msgs[|base|..] == msgs[t + 1..];
      ContinuingBatchRemembers(h, base, turn, results);
    }
  }

  lemma AnswerPhaseEnds(h: Host, turn: nat, a: Message, msgs: seq<Message>, consult: bool)
    requires a.Assistant?
    ensures AnswerPhase(h, turn, a, msgs, consult).Ends?
  {
    hide Consult, AnswerEnding;
  }

  /** What the loop holds when it starts an attempt. */
  datatype Head = Head(messages: seq<Message>, failed: set<string>)

  function LoopHeads(h: Host, msgs: seq<Message>, failed: set<string>, corrected: bool, left: nat): seq<Head>
    decreases left
  {
    if left == 0 then []
    else match TurnPhase(h, msgs, failed, corrected, left == 1)
      case Ends(_, _, _) => [Head(msgs, failed)]
      case Goes(_, m, f, c) => [Head(msgs, failed)] + LoopHeads(h, m, f, c, left - 1)
  }

  /** The loop heads of a whole invocation, after whatever tail it resumes. */
  function SessionHeads(h: Host, msgs: seq<Message>, maxTurns: nat): seq<Head> {
    match ResumePhase(h, msgs, FailedFingerprints(h.fingerprint, msgs))
    case Ends(_, _, _) => []
    case Goes(_, m, f, c) => LoopHeads(h, m, f, c, maxTurns)
  }

  /** The loop and its heads, one attempt unrolled. */
  lemma LoopUnrolled(h: Host, msgs: seq<Message>, failed: set<string>, corrected: bool, left: nat)
    ensures left == 0 ==> LoopSpec.Loop(h, msgs, failed, corrected, left) == TurnLimitRun(msgs)
                          && LoopHeads(h, msgs, failed, corrected, left) == []
    ensures left > 0 ==>
              var p, run := TurnPhase(h, msgs, failed, corrected, left == 1), LoopSpec.Loop(h, msgs, failed, corrected, left);
              if p.Ends? then
                run.trace == p.trace && run.messages == p.messages && run.exit == p.exit
                && LoopHeads(h, msgs, failed, corrected, left) == [Head(msgs, failed)]
              else
                var rest := LoopSpec.Loop(h, p.messages, p.failed, p.corrected, left - 1);
                run.trace == p.trace + rest.trace && run.messages == rest.messages && run.exit == rest.exit
                && LoopHeads(h, msgs, failed, corrected, left)
                == [Head(msgs, failed)] + LoopHeads(h, p.messages, p.failed, p.corrected, left - 1)
  {
    hide TurnPhase;
  }

  /** The whole run from `start` on is what was done so far and the rest. */
  ghost predicate GoesOn(start: seq<Action>, whole: LoopSpec.Run, sofar: seq<Action>, rest: LoopSpec.Run) {
    start + whole.trace == sofar + rest.trace && whole.messages == rest.messages && whole.exit == rest.exit
  }

  lemma RunGoesOn(h: Host, msgs: seq<Message>, failed: set<string>, corrected: bool, left: nat, start: seq<Action>,
                   whole: LoopSpec.Run, sofar: seq<Action>)
    requires left > 0 && GoesOn(start, whole, sofar, LoopSpec.Loop(h, msgs, failed, corrected, left))
    ensures var p := TurnPhase(h, msgs, failed, corrected, left == 1);
            if p.Ends? then start + whole.trace == sofar + p.trace && whole.messages == p.messages && whole.exit == p.exit
            else GoesOn(start, whole, sofar + p.trace, LoopSpec.Loop(h, p.messages, p.failed, p.corrected, left - 1))
  {
    hide TurnPhase, LoopSpec.Loop, LoopHeads;
    LoopUnrolled(h, msgs, failed, corrected, left);
  }

  lemma {:induction false} LoopHeadsRemember(h: Host, msgs: seq<Message>, failed: set<string>, corrected: bool, left: nat, i: nat)
    requires ExplicitReplies(h) && failed == FailedFingerprints(h.fingerprint, msgs)
    requires i < |LoopHeads(h, msgs, failed, corrected, left)|
    ensures var head := LoopHeads(h, msgs, failed, corrected, left)[i];
            head.failed == FailedFingerprints(h.fingerprint, head.messages)
    decreases left
  {
    hide TurnPhase, ExplicitReplies, FailedFingerprints;
    if i > 0 {
      TurnRemembers(h, msgs, failed, corrected, left == 1);
      var p := TurnPhase(h, msgs, failed, corrected, left == 1);
      LoopHeadsRemember(h, p.messages, p.failed, p.corrected, left - 1, i - 1);
    }
  }

  /** At every loop head of every invocation, also one that first resumes a tail, the mutable failure set is the set
      that can be recomputed from the transcript. */
  lemma EveryHeadRemembers(h: Host, msgs: seq<Message>, maxTurns: nat, i: nat)
    requires ExplicitReplies(h) && Orderly(msgs) && OwnTail(msgs) && i < |SessionHeads(h, msgs, maxTurns)|
    ensures var head := SessionHeads(h, msgs, maxTurns)[i];
            head.failed == FailedFingerprints(h.fingerprint, head.messages)
  {
    hide ResumePhase, ExplicitReplies, FailedFingerprints, Orderly, OwnTail, LoopHeads;
    ResumeRemembers(h, msgs);
    var p := ResumePhase(h, msgs, FailedFingerprints(h.fingerprint, msgs));
    LoopHeadsRemember(h, p.messages, p.failed, p.corrected, maxTurns, i);
  }

  // ----- the loop itself

  class Loop {
    var messages: seq<Message>
    var failed: set<string>
    var corrected: bool
    var trace: seq<Action>

    constructor (h: Host, opening: seq<Message>)
      ensures messages == opening && failed == FailedFingerprints(h.fingerprint, opening)
      ensures !corrected && trace == []
    {
      messages, corrected, trace := opening, false, [];
      new;
      failed := ScanFailedFingerprints(h.fingerprint, opening);
    }

    /** `_repeated_failure_code`: judge an outcome and remember a new fingerprint. */
    method RepeatedFailureCode(o: Outcome, fp: string) returns (code: Option<Code>)
      modifies this`failed
      ensures Verdict(code, failed) == LiveVerdict(o, fp, old(failed))
    {
      if o.failure.None? {
        return None;
      }
      var f := o.failure.value;
      if f.code.ToolUnknown? {
        return Some(ToolUnknown);
      }
      if !Repairable(f.code) {
        if !f.retryable {
          return Some(f.code);
        }
        if o.effect != None && o.effect != Some(ReadOnly) {
          return Some(f.code);
        }
      }
      if fp in failed {
        return Some(RepeatedFailure);
      }
      failed := failed + {fp};
      return None;
    }

    /** The calls of one assistant message in order: results found in `recorded` are judged from
        the transcript, the others are executed, appended, checkpointed and judged live. */
    method RunBatch(h: Host, turn: nat, text: string, calls: seq<ToolCall>, recorded: map<string, Payload>)
      returns (outcomes: seq<Outcome>, deferred: seq<Deferred>)
      modifies this`messages, this`failed, this`trace
      ensures var st := BatchScan(h, turn, text, calls, recorded, |calls|, StartBatch(old(messages), old(failed)));
              && messages == st.messages && failed == st.failed && trace == old(trace) + st.trace
              && outcomes == st.outcomes && deferred == st.deferred
    {
      hide OutcomeOf, LiveVerdict, RestoredVerdict, Execute, CallActions, FailurePoint, FailureCount, LoopSpec.CallActions;
      outcomes, deferred := [], [];
      for index := 0 to |calls|
        invariant var st := BatchScan(h, turn, text, calls, recorded, index, StartBatch(old(messages), old(failed)));
                  && messages == st.messages && failed == st.failed && trace == old(trace) + st.trace
                  && outcomes == st.outcomes && deferred == st.deferred
      {
        ghost var st := BatchScan(h, turn, text, calls, recorded, index, StartBatch(old(messages), old(failed)));
        var call := calls[index];
        if call.callId in recorded {
          var o := OutcomeOf(h.tools, call, recorded[call.callId]);
          outcomes := outcomes + [o];
          var seen := CountFailures(h.fingerprint, messages, FailurePoint(h.fingerprint, call, o));
          deferred := Defer(deferred, o, RestoredVerdict(o, seen));
          assert FailureCount(h.fingerprint, messages, FailurePoint(h.fingerprint, call, o)) == seen;
        } else {
          var payload := Execute(h, messages, call);
          messages := messages + [ToolResult(call.callId, payload)];
          var step := CallActions(turn, if index == 0 then Some(text) else None, call, payload, Invokes(h, call), messages);
          trace := trace + step;
          assert trace == old(trace) + (st.trace + step);
          var o := OutcomeOf(h.tools, call, payload);
          outcomes := outcomes + [o];
          var code := RepeatedFailureCode(o, FailurePoint(h.fingerprint, call, o));
          deferred := Defer(deferred, o, code);
        }
      }
    }

    /** What the run does after a finished batch. */
    method SettleBatch(h: Host, turn: nat, outcomes: seq<Outcome>, deferred: seq<Deferred>) returns (exit: Option<Exit>)
      modifies this`trace
      ensures var p := FinishBatch(h, turn, BatchState(messages, outcomes, deferred, failed, []));
              trace == old(trace) + p.trace && exit == (if p.Ends? then Some(p.exit) else None)
    {
      hide BlockingFailure, Consult, FailWithCode;
      var blocking := BlockingFailure(outcomes, deferred);
      if blocking.Some? {
        var end := FailWithCode(blocking.value, turn, messages, None);
        trace := trace + end.trace;
        return Some(end.exit);
      }
      var asked := Consult(h, ToolBatch(turn, messages, outcomes));
      trace := trace + asked.trace;
      if asked.settled.Some? {
        return asked.settled;
      }
      if deferred != [] {
        var end := FailWithCode(deferred[0].code, turn, messages, None);
        trace := trace + end.trace;
        return Some(end.exit);
      }
      return None;
    }

    /** All calls of the assistant message `a`. */
    method FinishCalls(h: Host, turn: nat, a: Message, calls: seq<ToolCall>, recorded: map<string, Payload>)
      returns (exit: Option<Exit>)
      requires a.Assistant? && calls == ToolCalls(a, turn)
      modifies this`messages, this`failed, this`trace
      ensures Matches(BatchPhase(h, turn, a, recorded, old(messages), old(failed)), old(trace), exit)
    {
      hide BatchScan, Decide, Consult, FailWithCode, ToolCalls;
      var outcomes, deferred := RunBatch(h, turn, a.text, calls, recorded);
      ghost var st := BatchScan(h, turn, a.text, calls, recorded, |calls|, StartBatch(old(messages), old(failed)));
      exit := SettleBatch(h, turn, outcomes, deferred);
      FinishBatchShifts(h, turn, st);
    }

    /** The fields after a phase that started with the trace `before`. */
    ghost predicate Matches(p: Phase, before: seq<Action>, exit: Option<Exit>)
      reads this`messages, this`failed, this`trace
    {
      && trace == before + p.trace && messages == p.messages
      && exit == (if p.Ends? then Some(p.exit) else None)
      && (p.Goes? ==> failed == p.failed)
    }

    /** A plain answer: the resolver may settle it, lifecycle mode may refuse it. */
    method FinishAnswer(h: Host, turn: nat, a: Message, consult: bool) returns (exit: Exit)
      requires a.Assistant?
      modifies this`trace
      ensures var p := AnswerPhase(h, turn, a, messages, consult); p.Ends? && p.messages == messages && trace == old(trace) + p.trace && exit == p.exit
    {
      hide Consult, HasReviewRequired, OnlyFailedTools, FailClosed;
      if consult {
        var asked := Consult(h, AssistantResponse(turn, messages));
        trace := trace + asked.trace;
        if asked.settled.Some? {
          return asked.settled.value;
        }
      }
      var end := AnswerEnding(h, turn, a, messages);
      trace := trace + end.trace;
      return end.exit;
    }

    /** An explicit terminal call: conclude, or correct the model once, or close. */
    method FinishTerminal(h: Host, turn: nat, check: TerminalCheck, closeNow: bool) returns (exit: Option<Exit>)
      requires !check.NoTerminalCall?
      modifies this`messages, this`corrected, this`trace
      ensures var p := TerminalPhase(h, turn, check, old(messages), failed, closeNow);
              Matches(p, old(trace), exit) && corrected == (if p.Goes? then p.corrected else old(corrected))
    {
      hide Consult, FailClosed, Render;
      if check.ValidTerminal? {
        var end := Conclude(check.lifecycle, Render(h, check.lifecycle, messages), turn, messages);
        trace := trace + end.trace;
        return Some(end.exit);
      }
      var asked := Consult(h, AssistantResponse(turn, messages));
      trace := trace + asked.trace;
      if asked.settled.Some? {
        return asked.settled;
      }
      if closeNow {
        var end := FailClosed(turn, messages);
        trace := trace + end.trace;
        return Some(end.exit);
      }
      corrected := true;
      messages := messages + [System(CorrectionOf(check.error))];
      return None;
    }

    /** What follows a checkpointed reply: a terminal call, a plain answer, or a batch. */
    method FinishReply(h: Host, turn: nat, a: Message, lastAttempt: bool) returns (exit: Option<Exit>)
      requires a.Assistant?
      modifies this
      ensures var p := ReplyPhase(h, turn, a, old(messages), old(failed), old(corrected), lastAttempt);
              Matches(p, old(trace), exit) && (p.Goes? ==> corrected == p.corrected)
    {
      hide ValidateTerminal, TerminalPhase, AnswerPhase, BatchPhase, ToolCalls;
      var calls := CollectToolCalls(a, turn);
      if h.requireTerminal && calls != [] {
        var check := ValidateTerminal(h, a, calls, messages, false);
        if !check.NoTerminalCall? {
          exit := FinishTerminal(h, turn, check, corrected || lastAttempt);
          return;
        }
      } else if h.requireTerminal {
        NoCallsNoCheck(h, a, messages);
      }
      if calls == [] {
        var answer := FinishAnswer(h, turn, a, true);
        return Some(answer);
      }
      exit := FinishCalls(h, turn, a, calls, map[]);
    }

    /** One iteration of the loop. */
    method ModelTurn(h: Host, turn: nat, lastAttempt: bool) returns (exit: Option<Exit>)
      requires turn == AssistantCount(messages) + 1
      modifies this
      ensures var p := TurnPhase(h, old(messages), old(failed), old(corrected), lastAttempt);
              Matches(p, old(trace), exit) && (p.Goes? ==> corrected == p.corrected)
    {
      hide ReplyPhase;
      trace := trace + [Emit(TurnStarted(turn)), AskModel(messages)];
      var reply := h.model(messages);
      if reply.GatewayFailed? {
        return Some(Raised(reply.code));
      }
      var a := Assistant(reply.text, reply.calls, reply.invalid);
      messages := messages + [a];
      trace := trace + [Save(messages)];
      exit := FinishReply(h, turn, a, lastAttempt);
    }

    /** `_resume_checkpointed_tail`. */
    method ResumeTail(h: Host) returns (exit: Option<Exit>)
      requires !corrected
      modifies this
      ensures var p := ResumePhase(h, old(messages), old(failed));
              Matches(p, old(trace), exit) && (p.Goes? ==> corrected == p.corrected)
    {
      hide ValidateTerminal, TerminalPhase, AnswerPhase, BatchPhase, ToolCalls, ResultsById;
      var tail := TailOf(messages);
      if tail.None? {
        return None;
      }
      var a := messages[tail.value];
      var turn := if AssistantCount(messages) > 1 then AssistantCount(messages) else 1;
      var calls := CollectToolCalls(a, turn);
      if calls == [] {
        var answer := FinishAnswer(h, turn, a, h.requireTerminal);
        return Some(answer);
      }
      if h.requireTerminal {
        var check := ValidateTerminal(h, a, calls, messages, true);
        if !check.NoTerminalCall? {
          exit := FinishTerminal(h, turn, check, false);
          return;
        }
      }
      exit := FinishCalls(h, turn, a, calls, ResultsById(messages[tail.value + 1..]));
      BatchNeverCorrects(h, turn, a, ResultsById(old(messages)[tail.value + 1..]), old(messages), old(failed));
    }

    /** The bounded loop, and what it holds at each head. */
    method Run(h: Host, maxTurns: nat) returns (exit: Exit, ghost heads: seq<Head>)
      requires maxTurns > 0
      modifies this
      ensures var run := LoopSpec.Loop(h, old(messages), old(failed), old(corrected), maxTurns);
              trace == old(trace) + run.trace && messages == run.messages && exit == run.exit
      ensures heads == LoopHeads(h, old(messages), old(failed), old(corrected), maxTurns)
    {
      hide TurnPhase, LoopSpec.Loop, LoopHeads, AssistantCount;
      var restoredTurns := AssistantCount(messages);
      heads := [];
      ghost var whole := LoopSpec.Loop(h, messages, failed, corrected, maxTurns);
      for attempt := 1 to maxTurns + 1
        invariant AssistantCount(messages) == restoredTurns + attempt - 1
        invariant heads + LoopHeads(h, messages, failed, corrected, maxTurns + 1 - attempt)
               == LoopHeads(h, old(messages), old(failed), old(corrected), maxTurns)
        invariant GoesOn(old(trace), whole, trace, LoopSpec.Loop(h, messages, failed, corrected, maxTurns + 1 - attempt))
      {
        ghost var msgs, fps, was, before := messages, failed, corrected, trace;
        ghost var p := TurnPhase(h, messages, failed, corrected, attempt == maxTurns);
        LoopUnrolled(h, msgs, fps, was, maxTurns + 1 - attempt);
        RunGoesOn(h, msgs, fps, was, maxTurns + 1 - attempt, old(trace), whole, before);
        ghost var earlier := heads;
        heads := heads + [Head(messages, failed)];
        var ended := ModelTurn(h, restoredTurns + attempt, attempt == maxTurns);
        if ended.Some? {
          return ended.value, heads;
        }
        TurnCloses(h, msgs, fps, was, attempt == maxTurns);
        assert earlier + ([Head(msgs, fps)] + LoopHeads(h, messages, failed, corrected, maxTurns - attempt))
            == heads + LoopHeads(h, messages, failed, corrected, maxTurns - attempt);
      }
      LoopUnrolled(h, messages, failed, corrected, 0);
      var end := Finish(TurnLimitReached, TurnLimitText, restoredTurns + maxTurns, messages, None, Some(TurnLimitCode));
      trace := trace + end.trace;
      return end.exit, heads;
    }
  }

  lemma FinishBatchShifts(h: Host, turn: nat, st: BatchState)
    ensures var p, q := FinishBatch(h, turn, st), FinishBatch(h, turn, st.(trace := []));
            q == p.(trace := q.trace) && p.trace == st.trace + q.trace
  {
    hide Decide, Consult, FailWithCode;
  }

  lemma NoCallsNoCheck(h: Host, a: Message, msgs: seq<Message>)
    requires a.Assistant?
    ensures ValidateTerminal(h, a, [], msgs, false) == NoTerminalCall
  {
  }

  lemma BatchNeverCorrects(h: Host, turn: nat, a: Message, recorded: map<string, Payload>, msgs: seq<Message>, failed: set<string>)
    requires a.Assistant?
    ensures var p := BatchPhase(h, turn, a, recorded, msgs, failed); p.Goes? ==> !p.corrected
  {
    hide FinishBatch, BatchScan, ToolCalls;
    var calls := ToolCalls(a, turn);
    FinishBatchMessages(h, turn, BatchScan(h, turn, a.text, calls, recorded, |calls|, StartBatch(msgs, failed)));
  }

  /** `run_native_tool_loop`: refuse a bad configuration, otherwise resume and loop. */
  method RunNativeToolLoop(h: Host, system: string, restored: seq<Message>, input: Option<string>, maxTurns: int)
    returns (r: Result<AgentResult, string>)
    ensures r.Err? <==> maxTurns < 1 || (h.requireTerminal && TERMINAL_TOOL in h.tools)
    ensures r.Ok? ==> r.value == Invocation(h, system, restored, input, maxTurns)
  {
    hide ResumePhase, LoopSpec.Loop, FailedFingerprints;
    if maxTurns < 1 {
      return Err("max_turns must be positive");
    }
    if h.requireTerminal && TERMINAL_TOOL in h.tools {
      return Err("emit_conversation_response is reserved for lifecycle control");
    }
    var opening := [System(Prompt(system))] + restored + (if input.Some? then [Human(input.value)] else []);
    var loop := new Loop(h, opening);
    var ended := loop.ResumeTail(h);
    var exit;
    if ended.Some? {
      exit := ended.value;
    } else {
      ghost var heads;
      exit, heads := loop.Run(h, maxTurns);
    }
    match exit
    case Finished(result) => return Ok(result);
    case Raised(code) =>
      return Ok(AgentResult(FailedRun, FailureResponse(code), AssistantCount(restored), restored, None, Some(code)));
  }
}
