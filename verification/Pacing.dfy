/** What every invocation keeps whatever transcript it is handed: a handler run is followed at once by the checkpoint
    of its result, and checkpoints only grow. `Durable` is the transcript a crash leaves behind at any point of a trace. */
module Pacing {
  import opened Prelude
  import opened Transcript
  import opened FailureControl
  import opened HostContracts
  import opened LoopSpec

  function After(durable: seq<Message>, action: Action): seq<Message> {
    if action.Save? then action.messages else durable
  }

  /** The last checkpoint of a trace, or the transcript it started from. */
  function Durable(start: seq<Message>, trace: seq<Action>): seq<Message>
    decreases |trace|
  {
    if trace == [] then start else Durable(After(start, trace[0]), trace[1..])
  }

  ghost predicate AddsOne(before: seq<Message>, after: seq<Message>) {
    |after| == |before| + 1 && before <= after && after[|before|].ToolResult?
  }

  /** What an action, followed by `rest`, requires of the transcript that is then durable. */
  ghost predicate PaceOk(durable: seq<Message>, action: Action, rest: seq<Action>) {
    match action
    case RunHandler(_) => rest != [] && rest[0].Save? && AddsOne(durable, rest[0].messages)
    case Save(msgs) => durable <= msgs
    case AskModel(msgs) => durable <= msgs
    case AskResolver(context) => context.messages == durable
    case Emit(_) => true
  }

  ghost predicate Paced(start: seq<Message>, trace: seq<Action>)
    decreases |trace|
  {
    trace == [] || (PaceOk(start, trace[0], trace[1..]) && Paced(After(start, trace[0]), trace[1..]))
  }

  lemma PrependPaced(durable: seq<Message>, action: Action, rest: seq<Action>)
    requires PaceOk(durable, action, rest) && Paced(After(durable, action), rest)
    ensures Paced(durable, [action] + rest)
    ensures Durable(durable, [action] + rest) == Durable(After(durable, action), rest)
  {
    assert ([action] + rest)[1..] == rest;
  }

  lemma {:induction false} DurableConcat(start: seq<Message>, a: seq<Action>, b: seq<Action>)
    ensures Durable(start, a + b) == Durable(Durable(start, a), b)
    decreases |a|
  {
    if a == [] {
      assert a + b == b;
    } else {
      assert (a + b)[1..] == a[1..] + b;
      DurableConcat(After(start, a[0]), a[1..], b);
    }
  }

  lemma {:induction false} PacedConcat(start: seq<Message>, a: seq<Action>, b: seq<Action>)
    requires Paced(start, a) && Paced(Durable(start, a), b)
    ensures Paced(start, a + b)
    ensures Durable(start, a + b) == Durable(Durable(start, a), b)
    decreases |a|
  {
    DurableConcat(start, a, b);
    if a == [] {
      assert a + b == b;
    } else {
      assert (a + b)[1..] == a[1..] + b;
      PacedConcat(After(start, a[0]), a[1..], b);
    }
  }

  // ----- every step is paced

  /** A step that never runs ahead of its checkpoints. */
  ghost predicate PhasePaced(start: seq<Message>, phase: Phase) {
    Paced(start, phase.trace) && Durable(start, phase.trace) <= phase.messages && start <= phase.messages
  }

  ghost predicate BatchPaced(start: seq<Message>, st: BatchState) {
    Paced(start, st.trace) && Durable(start, st.trace) == st.messages && start <= st.messages
  }

  lemma CallActionsPaced(turn: nat, description: Option<string>, call: ToolCall, payload: Payload, invoked: bool,
                         before: seq<Message>)
    ensures var after := before + [ToolResult(call.callId, payload)];
            var step := CallActions(turn, description, call, payload, invoked, after);
            Paced(before, step) && Durable(before, step) == after
  {
    var after := before + [ToolResult(call.callId, payload)];
    var called, finished := Emit(ToolCalled(turn, call.callId, description)), Emit(ToolFinished(turn, call.callId, payload));
    PrependPaced(after, finished, []);
    var saved := [Save(after)] + ([finished] + []);
    PrependPaced(before, Save(after), [finished] + []);
    if invoked {
      PrependPaced(before, RunHandler(call), saved);
      PrependPaced(before, called, [RunHandler(call)] + saved);
      assert CallActions(turn, description, call, payload, invoked, after) == [called] + ([RunHandler(call)] + saved);
    } else {
      PrependPaced(before, called, saved);
      assert CallActions(turn, description, call, payload, invoked, after) == [called] + saved;
    }
  }

  lemma {:induction false} ScanPaced(h: Host, turn: nat, text: string, calls: seq<ToolCall>, recorded: map<string, Payload>,
                                     start: seq<Message>, failed: set<string>, n: nat)
    requires n <= |calls|
    ensures BatchPaced(start, BatchScan(h, turn, text, calls, recorded, n, StartBatch(start, failed)))
    decreases n
  {
    hide CallActions, Execute, OutcomeOf, FailurePoint, FailureCount, LiveVerdict, RestoredVerdict;
    if n > 0 {
      ScanPaced(h, turn, text, calls, recorded, start, failed, n - 1);
      var st := BatchScan(h, turn, text, calls, recorded, n - 1, StartBatch(start, failed));
      var call := calls[n - 1];
      if call.callId !in recorded {
        var payload := Execute(h, st.messages, call);
        var after := st.messages + [ToolResult(call.callId, payload)];
        var description := if n == 1 then Some(text) else None;
        CallActionsPaced(turn, description, call, payload, Invokes(h, call), st.messages);
        PacedConcat(start, st.trace, CallActions(turn, description, call, payload, Invokes(h, call), after));
      }
    }
  }

  lemma FinishPaced(start: seq<Message>, end: Ending)
    requires exists t, c, d :: end.trace == [Emit(FinalResponse(t, c, d))]
    ensures Paced(start, end.trace) && Durable(start, end.trace) == start
  {
    PrependPaced(start, end.trace[0], []);
    assert [end.trace[0]] + [] == end.trace;
  }

  lemma ConsultPaced(h: Host, context: Context)
    ensures var asked := Consult(h, context);
            Paced(context.messages, asked.trace) && Durable(context.messages, asked.trace) == context.messages
  {
    hide Consult;
    var msgs, asked := context.messages, Consult(h, context);
    var rest := ConsultActions(h, context);
    if rest != [] {
      var last := [rest[|rest| - 1]];
      FinishPaced(msgs, Ending(last, Raised(ResolverFailed)));
      if |rest| == 2 {
        PrependPaced(msgs, Save(msgs), last);
        assert rest == [Save(msgs)] + last;
      } else {
        assert rest == last;
      }
    }
    if asked.trace != [] {
      PrependPaced(msgs, AskResolver(context), rest);
    }
  }

  /** What follows the question to the resolver: nothing, or a final response, perhaps behind a checkpoint. */
  lemma ConsultActions(h: Host, context: Context) returns (rest: seq<Action>)
    ensures Consult(h, context).trace != [] ==> Consult(h, context).trace == [AskResolver(context)] + rest
    ensures Consult(h, context).trace == [] ==> rest == []
    ensures |rest| <= 2 && (|rest| == 2 ==> rest[0] == Save(context.messages))
    ensures rest != [] ==> exists t, c, d :: [rest[|rest| - 1]] == [Emit(FinalResponse(t, c, d))]
  {
    hide CompleteHostResolution;
    var trace := Consult(h, context).trace;
    rest := if trace == [] then [] else trace[1..];
    if rest != [] {
      ResolutionActions(h, h.resolver.value(context), context.ToolBatch?, context.turn, context.messages);
    }
  }

  lemma ResolutionActions(h: Host, reply: HostReply, batch: bool, turn: nat, msgs: seq<Message>)
    requires reply.Conversation? || (reply.Resolution? && reply.disposition != ContinueModel)
    ensures var trace := CompleteHostResolution(h, reply, batch, turn, msgs).trace;
            && 1 <= |trace| <= 2 && (|trace| == 2 ==> trace[0] == Save(msgs))
            && exists t, c, d :: [trace[|trace| - 1]] == [Emit(FinalResponse(t, c, d))]
  {
    hide Render, Strip;
    var trace := CompleteHostResolution(h, reply, batch, turn, msgs).trace;
    var last := trace[|trace| - 1];
    assert last == Emit(FinalResponse(last.event.turn, last.event.content, last.event.disposition));
  }

  lemma FinishBatchPaced(h: Host, turn: nat, st: BatchState, start: seq<Message>)
    requires BatchPaced(start, st)
    ensures PhasePaced(start, FinishBatch(h, turn, st)) && FinishBatch(h, turn, st).messages == st.messages
  {
    hide Consult, BlockingFailure;
    var asked := Consult(h, ToolBatch(turn, st.messages, st.outcomes));
    ConsultPaced(h, ToolBatch(turn, st.messages, st.outcomes));
    PacedConcat(start, st.trace, asked.trace);
    var decision := Decide(st.outcomes, st.deferred);
    if !decision.ConsultThenContinue? {
      var end := FailWithCode(decision.code, turn, st.messages, None);
      FinishPaced(st.messages, end);
      PacedConcat(start, st.trace, end.trace);
      PacedConcat(start, st.trace + asked.trace, end.trace);
    }
  }

  lemma BatchPhasePaced(h: Host, turn: nat, a: Message, recorded: map<string, Payload>, msgs: seq<Message>, failed: set<string>)
    requires a.Assistant?
    ensures PhasePaced(msgs, BatchPhase(h, turn, a, recorded, msgs, failed))
  {
    hide FinishBatch, BatchScan, ToolCalls;
    var calls := ToolCalls(a, turn);
    ScanPaced(h, turn, a.text, calls, recorded, msgs, failed, |calls|);
    FinishBatchPaced(h, turn, BatchScan(h, turn, a.text, calls, recorded, |calls|, StartBatch(msgs, failed)), msgs);
  }

  lemma AnswerPaced(h: Host, turn: nat, a: Message, msgs: seq<Message>, consult: bool)
    requires a.Assistant?
    ensures PhasePaced(msgs, AnswerPhase(h, turn, a, msgs, consult))
  {
    hide Consult, ActionableFailure, HasReviewRequired, OnlyFailedTools;
    var asked := if consult then Consult(h, AssistantResponse(turn, msgs)) else Consultation([], None);
    ConsultPaced(h, AssistantResponse(turn, msgs));
    var end := AnswerEnding(h, turn, a, msgs);
    FinishPaced(msgs, end);
    PacedConcat(msgs, asked.trace, end.trace);
  }

  lemma TerminalPaced(h: Host, turn: nat, check: TerminalCheck, msgs: seq<Message>, failed: set<string>, closeNow: bool)
    requires !check.NoTerminalCall?
    ensures PhasePaced(msgs, TerminalPhase(h, turn, check, msgs, failed, closeNow))
  {
    hide Consult, ActionableFailure;
    match check
    case ValidTerminal(l) => FinishPaced(msgs, Conclude(l, Render(h, l, msgs), turn, msgs));
    case InvalidTerminal(_) =>
      var asked, end := Consult(h, AssistantResponse(turn, msgs)), FailClosed(turn, msgs);
      ConsultPaced(h, AssistantResponse(turn, msgs));
      FinishPaced(msgs, end);
      PacedConcat(msgs, asked.trace, end.trace);
  }

  lemma ReplyPaced(h: Host, turn: nat, a: Message, saved: seq<Message>, failed: set<string>, corrected: bool, lastAttempt: bool)
    requires a.Assistant?
    ensures PhasePaced(saved, ReplyPhase(h, turn, a, saved, failed, corrected, lastAttempt))
  {
    hide BatchPhase, AnswerPhase, TerminalPhase, ToolCalls, ValidateTerminal;
    var calls := ToolCalls(a, turn);
    var check := if h.requireTerminal then ValidateTerminal(h, a, calls, saved, false) else NoTerminalCall;
    if !check.NoTerminalCall? {
      TerminalPaced(h, turn, check, saved, failed, corrected || lastAttempt);
    } else if calls == [] {
      AnswerPaced(h, turn, a, saved, true);
    } else {
      BatchPhasePaced(h, turn, a, map[], saved, failed);
    }
  }

  lemma TurnActionsPaced(durable: seq<Message>, turn: nat, msgs: seq<Message>, saved: seq<Message>, rest: seq<Action>)
    requires durable <= msgs <= saved && Paced(saved, rest)
    ensures var all := [Emit(TurnStarted(turn)), AskModel(msgs)] + [Save(saved)] + rest;
            Paced(durable, all) && Durable(durable, all) == Durable(saved, rest)
  {
    var started, asked := Emit(TurnStarted(turn)), AskModel(msgs);
    PrependPaced(durable, Save(saved), rest);
    PrependPaced(durable, asked, [Save(saved)] + rest);
    PrependPaced(durable, started, [asked] + ([Save(saved)] + rest));
    assert [started, asked] + [Save(saved)] + rest == [started] + ([asked] + ([Save(saved)] + rest));
  }

  lemma AskedPaced(durable: seq<Message>, turn: nat, msgs: seq<Message>)
    requires durable <= msgs
    ensures var asked := [Emit(TurnStarted(turn)), AskModel(msgs)]; Paced(durable, asked) && Durable(durable, asked) == durable
  {
    var asked: seq<Action> := [AskModel(msgs)];
    PrependPaced(durable, AskModel(msgs), []);
    PrependPaced(durable, Emit(TurnStarted(turn)), asked);
    assert asked == [AskModel(msgs)] + [];
    assert [Emit(TurnStarted(turn)), AskModel(msgs)] == [Emit(TurnStarted(turn))] + asked;
  }

  lemma TurnPaced(h: Host, durable: seq<Message>, msgs: seq<Message>, failed: set<string>, corrected: bool, lastAttempt: bool)
    requires durable <= msgs
    ensures PhasePaced(durable, TurnPhase(h, msgs, failed, corrected, lastAttempt))
    ensures msgs <= TurnPhase(h, msgs, failed, corrected, lastAttempt).messages
  {
    hide ReplyPhase, Paced, AssistantCount;
    var turn := AssistantCount(msgs) + 1;
    match h.model(msgs) {
      case GatewayFailed(_) => AskedPaced(durable, turn, msgs);
      case Reply(text, calls, invalid) =>
        var a := Assistant(text, calls, invalid);
        var saved := msgs + [a];
        ReplyPaced(h, turn, a, saved, failed, corrected, lastAttempt);
        TurnActionsPaced(durable, turn, msgs, saved, ReplyPhase(h, turn, a, saved, failed, corrected, lastAttempt).trace);
    }
  }

  lemma {:induction false} LoopPaced(h: Host, durable: seq<Message>, msgs: seq<Message>, failed: set<string>, corrected: bool, left: nat)
    requires durable <= msgs
    ensures var run := Loop(h, msgs, failed, corrected, left);
            Paced(durable, run.trace) && Durable(durable, run.trace) <= run.messages && msgs <= run.messages
    decreases left
  {
    hide TurnPhase;
    if left == 0 {
      FinishPaced(durable, Finish(TurnLimitReached, TurnLimitText, AssistantCount(msgs), msgs, None, Some(TurnLimitCode)));
    } else {
      TurnPaced(h, durable, msgs, failed, corrected, left == 1);
      var phase := TurnPhase(h, msgs, failed, corrected, left == 1);
      if phase.Goes? {
        LoopPaced(h, Durable(durable, phase.trace), phase.messages, phase.failed, phase.corrected, left - 1);
        PacedConcat(durable, phase.trace, Loop(h, phase.messages, phase.failed, phase.corrected, left - 1).trace);
      }
    }
  }

  lemma ResumePaced(h: Host, msgs: seq<Message>, failed: set<string>)
    ensures PhasePaced(msgs, ResumePhase(h, msgs, failed))
  {
    hide BatchPhase, AnswerPhase, TerminalPhase, ToolCalls, ValidateTerminal, ResultsById;
    if TailOf(msgs).Some? {
      var t := TailOf(msgs).value;
      var a, turn := msgs[t], if AssistantCount(msgs) > 1 then AssistantCount(msgs) else 1;
      var calls := ToolCalls(a, turn);
      var check := if h.requireTerminal then ValidateTerminal(h, a, calls, msgs, true) else NoTerminalCall;
      if calls == [] {
        AnswerPaced(h, turn, a, msgs, h.requireTerminal);
      } else if !check.NoTerminalCall? {
        TerminalPaced(h, turn, check, msgs, failed, false);
      } else {
        BatchPhasePaced(h, turn, a, ResultsById(msgs[t + 1..]), msgs, failed);
      }
    }
  }

  /** Every invocation is paced: from any transcript, with any ids, whatever model, handlers and resolver answer. */
  lemma SessionPaced(h: Host, msgs: seq<Message>, maxTurns: nat)
    ensures var run := Session(h, msgs, maxTurns);
            Paced(msgs, run.trace) && Durable(msgs, run.trace) <= run.messages && msgs <= run.messages
  {
    hide ResumePhase;
    var failed := FailedFingerprints(h.fingerprint, msgs);
    ResumePaced(h, msgs, failed);
    var phase := ResumePhase(h, msgs, failed);
    if phase.Goes? {
      LoopPaced(h, Durable(msgs, phase.trace), phase.messages, phase.failed, phase.corrected, maxTurns);
      PacedConcat(msgs, phase.trace, Loop(h, phase.messages, phase.failed, phase.corrected, maxTurns).trace);
    }
  }

  // ----- what a paced run guarantees

  lemma {:induction false} DurableGrows(start: seq<Message>, trace: seq<Action>)
    requires Paced(start, trace)
    ensures start <= Durable(start, trace)
    decreases |trace|
  {
    if trace != [] {
      DurableGrows(After(start, trace[0]), trace[1..]);
    }
  }

  lemma {:induction false} SaveBetween(start: seq<Message>, trace: seq<Action>, i: nat)
    requires Paced(start, trace) && i < |trace| && trace[i].Save?
    ensures start <= trace[i].messages <= Durable(start, trace)
    decreases |trace|
  {
    var next := After(start, trace[0]);
    if i == 0 {
      DurableGrows(next, trace[1..]);
    } else {
      SaveBetween(next, trace[1..], i - 1);
    }
  }

  lemma {:induction false} DurableIsSave(start: seq<Message>, trace: seq<Action>, p: nat)
    requires p <= |trace|
    ensures || Durable(start, trace[..p]) == start
            || exists i :: 0 <= i < p && trace[i].Save? && trace[i].messages == Durable(start, trace[..p])
    decreases p
  {
    if p > 0 {
      DurableIsSave(start, trace, p - 1);
      assert trace[..p] == trace[..p - 1] + [trace[p - 1]];
      DurableConcat(start, trace[..p - 1], [trace[p - 1]]);
      var last := [trace[p - 1]];
      assert last[1..] == [];
    }
  }

  lemma DurableBetween(start: seq<Message>, trace: seq<Action>, p: nat)
    requires Paced(start, trace) && p <= |trace|
    ensures start <= Durable(start, trace[..p]) <= Durable(start, trace)
  {
    hide PaceOk;
    DurableIsSave(start, trace, p);
    DurableGrows(start, trace);
    if Durable(start, trace[..p]) != start {
      var i :| 0 <= i < p && trace[i].Save? && trace[i].messages == Durable(start, trace[..p]);
      SaveBetween(start, trace, i);
    }
  }

  function HandlerRuns(trace: seq<Action>): nat {
    if trace == [] then 0 else (if trace[0].RunHandler? then 1 else 0) + HandlerRuns(trace[1..])
  }

  lemma {:induction false} ResultsGrow(a: seq<Message>, b: seq<Message>)
    requires a <= b
    ensures ResultCount(a) <= ResultCount(b)
    decreases |b|
  {
    if a != b {
      ResultsGrow(a, b[..|b| - 1]);
    }
  }

  /** At any crash point the handlers that ran are the results that became durable, plus at most the one whose result
      was lost. */
  lemma {:induction false} HandlersPaced(start: seq<Message>, trace: seq<Action>, p: nat)
    requires Paced(start, trace) && p <= |trace|
    ensures HandlerRuns(trace[..p]) + ResultCount(start) <= ResultCount(Durable(start, trace[..p])) + 1
    ensures p == |trace| ==> HandlerRuns(trace) + ResultCount(start) <= ResultCount(Durable(start, trace))
    decreases |trace|
  {
    hide ResultCount;
    assert p == |trace| ==> trace[..p] == trace;
    if p > 0 {
      CutStep(start, trace, p);
      var next := After(start, trace[0]);
      if !trace[0].RunHandler? {
        HandlersPaced(next, trace[1..], p - 1);
        if trace[0].Save? {
          ResultsGrow(start, next);
        }
      } else if p > 1 {
        CutStep(next, trace[1..], p - 1);
        SavedResult(start, trace);
        assert trace[1..][1..] == trace[2..];
        HandlersPaced(trace[1].messages, trace[2..], p - 2);
      }
    }
  }

  lemma CutStep(start: seq<Message>, trace: seq<Action>, p: nat)
    requires 0 < p <= |trace|
    ensures HandlerRuns(trace[..p]) == HandlerRuns(trace[1..][..p - 1]) + if trace[0].RunHandler? then 1 else 0
    ensures Durable(start, trace[..p]) == Durable(After(start, trace[0]), trace[1..][..p - 1])
  {
    assert trace[..p][1..] == trace[1..][..p - 1];
  }

  /** The checkpoint after a handler holds one more result. */
  lemma SavedResult(start: seq<Message>, trace: seq<Action>)
    requires Paced(start, trace) && |trace| > 1 && trace[0].RunHandler?
    ensures trace[1].Save? && ResultCount(trace[1].messages) == ResultCount(start) + 1
    ensures Paced(trace[1].messages, trace[2..])
  {
    var saved := trace[1].messages;
    assert saved == start + [saved[|start|]];
    AppendOne(start, saved[|start|]);
    assert trace[1..][1..] == trace[2..];
  }
}
