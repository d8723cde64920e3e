/** The order every step of a fresh run keeps, stated over the trace of externally visible actions. */
module LoopSafety {
  import opened Prelude
  import opened Transcript
  import opened FailureControl
  import opened HostContracts
  import opened LoopSpec
  import opened Pacing

  /** The first call of the last assistant message that has no result yet. */
  function NextCall(msgs: seq<Message>): Option<ToolCall> {
    match TailOf(msgs)
    case None => None
    case Some(t) =>
      var calls := ToolCalls(msgs[t], AssistantCount(msgs));
      if |msgs| - t - 1 < |calls| then Some(calls[|msgs| - t - 1]) else None
  }

  /** The results after the last assistant message answer a prefix of its calls, in order. */
  ghost predicate Orderly(msgs: seq<Message>) {
    match TailOf(msgs)
    case None => true
    case Some(t) =>
      var calls := ToolCalls(msgs[t], AssistantCount(msgs));
      && |msgs| - t - 1 <= |calls|
      && forall i :: t < i < |msgs| ==> msgs[i].callId == calls[i - t - 1].callId
  }

  /** What an action, followed by `rest`, requires of the transcript that is then durable. */
  ghost predicate StepOk(durable: seq<Message>, action: Action, rest: seq<Action>) {
    && PaceOk(durable, action, rest)
    && match action
       case Emit(event) => EventOk(durable, event)
       case RunHandler(call) => NextCall(durable) == Some(call) && rest[0].messages[|durable|].callId == call.callId
       case Save(msgs) => Orderly(msgs)
       case _ => true
  }

  ghost predicate EventOk(durable: seq<Message>, event: Event) {
    match event
    case ToolCalled(turn, id, _) =>
      NextCall(durable).Some? && NextCall(durable).value.callId == id && turn == AssistantCount(durable)
    case ToolFinished(turn, id, payload) =>
      durable != [] && durable[|durable| - 1] == ToolResult(id, payload) && turn == AssistantCount(durable)
    case _ => true
  }

  ghost predicate WellTraced(start: seq<Message>, trace: seq<Action>)
    decreases |trace|
  {
    trace == [] || (StepOk(start, trace[0], trace[1..]) && WellTraced(After(start, trace[0]), trace[1..]))
  }

  lemma {:induction false} WellTracedIsPaced(start: seq<Message>, trace: seq<Action>)
    requires WellTraced(start, trace)
    ensures Paced(start, trace)
    decreases |trace|
  {
    hide StepOk;
    if trace != [] {
      StepIsPaced(start, trace[0], trace[1..]);
      WellTracedIsPaced(After(start, trace[0]), trace[1..]);
    }
  }

  lemma StepIsPaced(durable: seq<Message>, action: Action, rest: seq<Action>)
    requires StepOk(durable, action, rest)
    ensures PaceOk(durable, action, rest)
  {}

  lemma Prepend(durable: seq<Message>, action: Action, rest: seq<Action>)
    requires StepOk(durable, action, rest) && WellTraced(After(durable, action), rest)
    ensures WellTraced(durable, [action] + rest)
    ensures Durable(durable, [action] + rest) == Durable(After(durable, action), rest)
  {
    assert ([action] + rest)[1..] == rest;
  }

  lemma {:induction false} WellTracedConcat(start: seq<Message>, a: seq<Action>, b: seq<Action>)
    requires WellTraced(start, a) && WellTraced(Durable(start, a), b)
    ensures WellTraced(start, a + b)
    ensures Durable(start, a + b) == Durable(Durable(start, a), b)
    decreases |a|
  {
    DurableConcat(start, a, b);
    if a == [] {
      assert a + b == b;
    } else {
      assert (a + b)[1..] == a[1..] + b;
      WellTracedConcat(After(start, a[0]), a[1..], b);
    }
  }

  // ----- the tail of a transcript

  lemma TailAfterAssistant(msgs: seq<Message>, a: Message)
    requires a.Assistant?
    ensures TailOf(msgs + [a]) == Some(|msgs|)
    ensures Orderly(msgs + [a])
  {
  }

  lemma TailAfterResult(msgs: seq<Message>, m: Message)
    requires m.ToolResult?
    ensures TailOf(msgs + [m]) == TailOf(msgs)
  {
    assert (msgs + [m])[..|msgs|] == msgs;
  }

  /** Appending the result of the next call keeps the order. */
  lemma AnswerNext(msgs: seq<Message>, payload: Payload)
    requires Orderly(msgs) && NextCall(msgs).Some?
    ensures var grown := msgs + [ToolResult(NextCall(msgs).value.callId, payload)];
            && Orderly(grown) && TailOf(grown) == TailOf(msgs) && AssistantCount(grown) == AssistantCount(msgs)
  {
    hide ToolCalls, TailOf, AssistantCount;
    var m := ToolResult(NextCall(msgs).value.callId, payload);
    TailAfterResult(msgs, m);
    AppendOne(msgs, m);
    var t := TailOf(msgs).value;
    var grown := msgs + [m];
    var calls := ToolCalls(msgs[t], AssistantCount(msgs));
    assert ToolCalls(grown[t], AssistantCount(grown)) == calls;
    forall i | t < i < |grown|
      ensures grown[i].callId == calls[i - t - 1].callId
    {
      if i < |msgs| {
        assert grown[i] == msgs[i];
      }
    }
  }

  // ----- one batch

  /** A batch about to answer the calls of the last assistant message, of which the first `done` have results. */
  ghost predicate BatchReady(calls: seq<ToolCall>, turn: nat, msgs: seq<Message>, done: nat) {
    && Orderly(msgs) && turn == AssistantCount(msgs)
    && TailOf(msgs).Some? && calls == ToolCalls(msgs[TailOf(msgs).value], turn)
    && done == |msgs| - TailOf(msgs).value - 1
  }

  /** Among the first `n` calls exactly those before `done` and those from `cut` on are taken for recorded. */
  ghost predicate Recorded(calls: seq<ToolCall>, recorded: map<string, Payload>, done: nat, cut: nat, n: nat) {
    && done <= cut <= |calls|
    && forall i :: 0 <= i < n && i < |calls| ==> (calls[i].callId in recorded <==> i < done || cut <= i)
  }

  ghost predicate BatchKeeps(start: seq<Message>, st: BatchState, turn: nat, answered: nat) {
    && WellTraced(start, st.trace) && Durable(start, st.trace) == st.messages
    && start <= st.messages && Orderly(st.messages)
    && TailOf(st.messages) == TailOf(start) && AssistantCount(st.messages) == turn
    && |st.messages| == |start| + answered
  }

  lemma CallActionsTraced(turn: nat, description: Option<string>, call: ToolCall, payload: Payload, invoked: bool,
                          before: seq<Message>)
    requires NextCall(before) == Some(call) && Orderly(before) && turn == AssistantCount(before)
    ensures var after := before + [ToolResult(call.callId, payload)];
            var step := CallActions(turn, description, call, payload, invoked, after);
            WellTraced(before, step) && Durable(before, step) == after
  {
    var after := before + [ToolResult(call.callId, payload)];
    AnswerNext(before, payload);
    var finished := Emit(ToolFinished(turn, call.callId, payload));
    var called := Emit(ToolCalled(turn, call.callId, description));
    Prepend(after, finished, []);
    var saved := [Save(after)] + ([finished] + []);
    Prepend(before, Save(after), [finished] + []);
    if invoked {
      Prepend(before, RunHandler(call), saved);
      Prepend(before, called, [RunHandler(call)] + saved);
      assert CallActions(turn, description, call, payload, invoked, after) == [called] + ([RunHandler(call)] + saved);
    } else {
      Prepend(before, called, saved);
      assert CallActions(turn, description, call, payload, invoked, after) == [called] + saved;
    }
  }

  lemma RunCallTraced(h: Host, turn: nat, description: Option<string>, call: ToolCall,
                      start: seq<Message>, st: BatchState, answered: nat)
    requires BatchKeeps(start, st, turn, answered)
    requires NextCall(st.messages) == Some(call)
    ensures BatchKeeps(start, RunCall(h, turn, description, call, st), turn, answered + 1)
  {
    var after := RunCall(h, turn, description, call, st);
    var payload := Execute(h, st.messages, call);
    AnswerNext(st.messages, payload);
    CallActionsTraced(turn, description, call, payload, Invokes(h, call), st.messages);
    var step := CallActions(turn, description, call, payload, Invokes(h, call), after.messages);
    WellTracedConcat(start, st.trace, step);
  }

  lemma NextInBatch(start: seq<Message>, st: BatchState, turn: nat, calls: seq<ToolCall>, done: nat, i: nat)
    requires BatchReady(calls, turn, start, done) && done <= i < |calls|
    requires BatchKeeps(start, st, turn, i - done)
    ensures NextCall(st.messages) == Some(calls[i])
  {
    assert st.messages[TailOf(start).value] == start[TailOf(start).value];
  }

  /** How many calls the first `n` steps of a batch answer. */
  function AnsweredBy(n: nat, done: nat, cut: nat): nat
    requires done <= cut
  {
    if n <= done then 0 else if n <= cut then n - done else cut - done
  }

  lemma {:induction false} BatchTraced(h: Host, turn: nat, text: string, calls: seq<ToolCall>,
                                       recorded: map<string, Payload>, start: seq<Message>,
                                       failed: set<string>, done: nat, cut: nat, n: nat)
    requires BatchReady(calls, turn, start, done) && n <= |calls| && done <= cut && Recorded(calls, recorded, done, cut, n)
    ensures BatchKeeps(start, BatchScan(h, turn, text, calls, recorded, n, StartBatch(start, failed)), turn, AnsweredBy(n, done, cut))
    decreases n
  {
    hide RunCall, RecallCall, BatchKeeps, BatchReady, Execute;
    if n > 0 {
      BatchTraced(h, turn, text, calls, recorded, start, failed, done, cut, n - 1);
      var st := BatchScan(h, turn, text, calls, recorded, n - 1, StartBatch(start, failed));
      if done <= n - 1 < cut {
        NextInBatch(start, st, turn, calls, done, n - 1);
        RunCallTraced(h, turn, if n == 1 then Some(text) else None, calls[n - 1], start, st, n - 1 - done);
      } else {
        RecallKeeps(h, calls[n - 1], recorded[calls[n - 1].callId], start, st, turn, AnsweredBy(n - 1, done, cut));
      }
    } else {
      StartKeeps(calls, turn, start, failed, done);
    }
  }

  lemma RecallKeeps(h: Host, call: ToolCall, payload: Payload, start: seq<Message>, st: BatchState, turn: nat, answered: nat)
    requires BatchKeeps(start, st, turn, answered)
    ensures BatchKeeps(start, RecallCall(h, call, payload, st), turn, answered)
  {}

  lemma StartKeeps(calls: seq<ToolCall>, turn: nat, start: seq<Message>, failed: set<string>, done: nat)
    requires BatchReady(calls, turn, start, done)
    ensures BatchKeeps(start, StartBatch(start, failed), turn, 0)
  {}

  // ----- the ends of a run

  lemma FinishTraced(start: seq<Message>, end: Ending)
    requires exists t, c, d :: end.trace == [Emit(FinalResponse(t, c, d))]
    ensures WellTraced(start, end.trace) && Durable(start, end.trace) == start
  {
    Prepend(start, end.trace[0], []);
    assert [end.trace[0]] + [] == end.trace;
  }

  lemma ConsultTraced(h: Host, context: Context)
    requires Orderly(context.messages)
    ensures var asked := Consult(h, context);
            WellTraced(context.messages, asked.trace) && Durable(context.messages, asked.trace) == context.messages
  {
    hide Consult, Orderly;
    var msgs, asked := context.messages, Consult(h, context);
    var rest := ConsultActions(h, context);
    if rest != [] {
      var last := [rest[|rest| - 1]];
      FinishTraced(msgs, Ending(last, Raised(ResolverFailed)));
      if |rest| == 2 {
        Prepend(msgs, Save(msgs), last);
        assert rest == [Save(msgs)] + last;
      } else {
        assert rest == last;
      }
    }
    if asked.trace != [] {
      Prepend(msgs, AskResolver(context), rest);
    }
  }

  /** A phase that keeps the order and never runs ahead of its checkpoints. */
  ghost predicate PhaseKeeps(start: seq<Message>, phase: Phase) {
    && WellTraced(start, phase.trace)
    && Durable(start, phase.trace) <= phase.messages
    && start <= phase.messages
  }

  lemma FinishBatchTraced(h: Host, turn: nat, st: BatchState, start: seq<Message>, answered: nat)
    requires BatchKeeps(start, st, turn, answered)
    ensures PhaseKeeps(start, FinishBatch(h, turn, st))
  {
    var asked := Consult(h, ToolBatch(turn, st.messages, st.outcomes));
    ConsultTraced(h, ToolBatch(turn, st.messages, st.outcomes));
    WellTracedConcat(start, st.trace, asked.trace);
    var decision := Decide(st.outcomes, st.deferred);
    if !decision.ConsultThenContinue? {
      var end := FailWithCode(decision.code, turn, st.messages, None);
      FinishTraced(st.messages, end);
      WellTracedConcat(start, st.trace, end.trace);
      WellTracedConcat(start, st.trace + asked.trace, end.trace);
    }
  }

  lemma BatchPhaseTraced(h: Host, turn: nat, a: Message, recorded: map<string, Payload>, msgs: seq<Message>,
                         failed: set<string>, done: nat, cut: nat)
    requires a.Assistant? && BatchReady(ToolCalls(a, turn), turn, msgs, done)
    requires Recorded(ToolCalls(a, turn), recorded, done, cut, |ToolCalls(a, turn)|)
    ensures PhaseKeeps(msgs, BatchPhase(h, turn, a, recorded, msgs, failed))
  {
    hide FinishBatch;
    var calls := ToolCalls(a, turn);
    BatchTraced(h, turn, a.text, calls, recorded, msgs, failed, done, cut, |calls|);
    FinishBatchTraced(h, turn, BatchScan(h, turn, a.text, calls, recorded, |calls|, StartBatch(msgs, failed)),
                      msgs, AnsweredBy(|calls|, done, cut));
  }

  lemma AnswerTraced(h: Host, turn: nat, a: Message, msgs: seq<Message>, consult: bool)
    requires a.Assistant? && Orderly(msgs)
    ensures PhaseKeeps(msgs, AnswerPhase(h, turn, a, msgs, consult))
  {
    var asked := if consult then Consult(h, AssistantResponse(turn, msgs)) else Consultation([], None);
    if consult {
      ConsultTraced(h, AssistantResponse(turn, msgs));
    }
    var end := AnswerEnding(h, turn, a, msgs);
    FinishTraced(msgs, end);
    WellTracedConcat(msgs, asked.trace, end.trace);
  }

  lemma TerminalTraced(h: Host, turn: nat, check: TerminalCheck, msgs: seq<Message>, failed: set<string>, closeNow: bool)
    requires !check.NoTerminalCall? && Orderly(msgs)
    ensures PhaseKeeps(msgs, TerminalPhase(h, turn, check, msgs, failed, closeNow))
  {
    match check
    case ValidTerminal(l) => FinishTraced(msgs, Conclude(l, Render(h, l, msgs), turn, msgs));
    case InvalidTerminal(_) =>
      ConsultTraced(h, AssistantResponse(turn, msgs));
      var asked := Consult(h, AssistantResponse(turn, msgs));
      var end := FailClosed(turn, msgs);
      FinishTraced(msgs, end);
      WellTracedConcat(msgs, asked.trace, end.trace);
  }

  // ----- the whole invocation

  lemma ReplyTraced(h: Host, turn: nat, a: Message, msgs: seq<Message>, failed: set<string>, corrected: bool, lastAttempt: bool)
    requires a.Assistant? && turn == AssistantCount(msgs) + 1
    ensures PhaseKeeps(msgs + [a], ReplyPhase(h, turn, a, msgs + [a], failed, corrected, lastAttempt))
  {
    hide BatchPhase, AnswerPhase, TerminalPhase;
    var saved := msgs + [a];
    TailAfterAssistant(msgs, a);
    AppendOne(msgs, a);
    var calls := ToolCalls(a, turn);
    var check := if h.requireTerminal then ValidateTerminal(h, a, calls, saved, false) else NoTerminalCall;
    if !check.NoTerminalCall? {
      TerminalTraced(h, turn, check, saved, failed, corrected || lastAttempt);
    } else if calls == [] {
      AnswerTraced(h, turn, a, saved, true);
    } else {
      BatchPhaseTraced(h, turn, a, map[], saved, failed, 0, |calls|);
    }
  }

  lemma TurnActionsTraced(durable: seq<Message>, turn: nat, msgs: seq<Message>, saved: seq<Message>, rest: seq<Action>)
    requires durable <= msgs <= saved && Orderly(saved) && WellTraced(saved, rest)
    ensures var all := [Emit(TurnStarted(turn)), AskModel(msgs)] + [Save(saved)] + rest;
            WellTraced(durable, all) && Durable(durable, all) == Durable(saved, rest)
  {
    hide Orderly;
    var started, asked := Emit(TurnStarted(turn)), AskModel(msgs);
    Prepend(durable, Save(saved), rest);
    Prepend(durable, asked, [Save(saved)] + rest);
    Prepend(durable, started, [asked] + ([Save(saved)] + rest));
    assert [started, asked] + [Save(saved)] + rest == [started] + ([asked] + ([Save(saved)] + rest));
  }

  lemma AskedTraced(durable: seq<Message>, turn: nat, msgs: seq<Message>)
    requires durable <= msgs
    ensures var asked := [Emit(TurnStarted(turn)), AskModel(msgs)]; WellTraced(durable, asked) && Durable(durable, asked) == durable
  {
    var asked: seq<Action> := [AskModel(msgs)];
    Prepend(durable, AskModel(msgs), []);
    Prepend(durable, Emit(TurnStarted(turn)), asked);
    assert asked == [AskModel(msgs)] + [];
    assert [Emit(TurnStarted(turn)), AskModel(msgs)] == [Emit(TurnStarted(turn))] + asked;
  }

  lemma TurnTraced(h: Host, durable: seq<Message>, msgs: seq<Message>, failed: set<string>, corrected: bool, lastAttempt: bool)
    requires durable <= msgs
    ensures PhaseKeeps(durable, TurnPhase(h, msgs, failed, corrected, lastAttempt))
    ensures msgs <= TurnPhase(h, msgs, failed, corrected, lastAttempt).messages
  {
    hide ReplyPhase, WellTraced, Orderly, AssistantCount;
    var turn := AssistantCount(msgs) + 1;
    match h.model(msgs) {
      case GatewayFailed(_) => AskedTraced(durable, turn, msgs);
      case Reply(text, calls, invalid) =>
        var a := Assistant(text, calls, invalid);
        ReplyTraced(h, turn, a, msgs, failed, corrected, lastAttempt);
        TailAfterAssistant(msgs, a);
        TurnActionsTraced(durable, turn, msgs, msgs + [a], ReplyPhase(h, turn, a, msgs + [a], failed, corrected, lastAttempt).trace);
    }
  }

  lemma {:induction false} LoopTraced(h: Host, durable: seq<Message>, msgs: seq<Message>, failed: set<string>,
                                      corrected: bool, left: nat)
    requires durable <= msgs
    ensures var run := Loop(h, msgs, failed, corrected, left);
            && WellTraced(durable, run.trace) && Durable(durable, run.trace) <= run.messages && msgs <= run.messages
    decreases left
  {
    hide TurnPhase;
    if left == 0 {
      FinishTraced(durable, Finish(TurnLimitReached, TurnLimitText, AssistantCount(msgs), msgs, None, Some(TurnLimitCode)));
    } else {
      TurnTraced(h, durable, msgs, failed, corrected, left == 1);
      var phase := TurnPhase(h, msgs, failed, corrected, left == 1);
      if phase.Goes? {
        var reached := Durable(durable, phase.trace);
        LoopTraced(h, reached, phase.messages, phase.failed, phase.corrected, left - 1);
        WellTracedConcat(durable, phase.trace, Loop(h, phase.messages, phase.failed, phase.corrected, left - 1).trace);
      }
    }
  }

  // ----- what a well-traced run guarantees

  /** Handlers run only for the next unanswered call of a checkpointed assistant message, tool
      events follow their checkpoint, and every checkpoint extends the one before. */
  lemma {:induction false} WellTracedAt(start: seq<Message>, trace: seq<Action>, i: nat)
    requires WellTraced(start, trace) && i < |trace|
    ensures StepOk(Durable(start, trace[..i]), trace[i], trace[i + 1..])
    ensures start <= Durable(start, trace[..i])
    decreases |trace|
  {
    if i > 0 {
      WellTracedAt(After(start, trace[0]), trace[1..], i - 1);
      assert trace[..i][1..] == trace[1..][..i - 1];
      assert trace[1..][i..] == trace[i + 1..];
    }
  }
}
