/** How a run ends: the one final response, the reported turn count, and the budgets of model
    calls and lifecycle corrections. */
module LoopExits {
  import opened Prelude
  import opened Transcript
  import opened FailureControl
  import opened HostContracts
  import opened LoopSpec
  import opened Pacing
  import opened LoopSafety
  import opened ResumeOrder
  import opened BatchReplay
  import opened CrashResume

  predicate IsFinal(action: Action) {
    action.Emit? && action.event.FinalResponse?
  }

  predicate Silent(trace: seq<Action>) {
    forall i :: 0 <= i < |trace| ==> !IsFinal(trace[i])
  }

  /** The result repeats the transcript it is returned with, and counts its model turns. */
  predicate FaithfulResult(r: AgentResult, msgs: seq<Message>) {
    r.messages == msgs && r.turns == AssistantCount(msgs)
  }

  /** A finished run emits its final response last and only then, with the returned content; a
      run that raised emitted none. */
  predicate Closes(trace: seq<Action>, msgs: seq<Message>, exit: Exit) {
    match exit
    case Raised(_) => Silent(trace)
    case Finished(r) =>
      && trace != [] && Silent(trace[..|trace| - 1])
      && trace[|trace| - 1] == Emit(FinalResponse(r.turns, r.response, r.disposition))
      && FaithfulResult(r, msgs)
  }

  predicate PhaseCloses(p: Phase) {
    match p
    case Ends(trace, msgs, exit) => Closes(trace, msgs, exit)
    case Goes(trace, _, _, _) => Silent(trace)
  }

  lemma ClosesAfter(a: seq<Action>, b: seq<Action>, msgs: seq<Message>, exit: Exit)
    requires Silent(a) && Closes(b, msgs, exit)
    ensures Closes(a + b, msgs, exit)
  {
    if exit.Finished? {
      assert (a + b)[..|a + b| - 1] == a + b[..|b| - 1];
    }
  }

  lemma FinishCloses(status: Status, response: Response, turn: nat, msgs: seq<Message>,
                     disposition: Option<Disposition>, code: Option<Code>)
    requires turn == AssistantCount(msgs)
    ensures var end := Finish(status, response, turn, msgs, disposition, code); Closes(end.trace, msgs, end.exit)
  {
  }

  lemma FailClosedCloses(turn: nat, msgs: seq<Message>)
    requires turn == AssistantCount(msgs)
    ensures var end := FailClosed(turn, msgs); Closes(end.trace, msgs, end.exit) && AsksNoModel(end.trace)
  {
    hide ActionableFailure;
  }

  lemma HostResolutionCloses(h: Host, reply: HostReply, batch: bool, turn: nat, msgs: seq<Message>)
    requires reply.Conversation? || (reply.Resolution? && reply.disposition != ContinueModel)
    requires turn == AssistantCount(msgs)
    ensures var end := CompleteHostResolution(h, reply, batch, turn, msgs); Closes(end.trace, msgs, end.exit)
  {
    hide CompleteHostResolution, AssistantCount;
    ResolutionActions(h, reply, batch, turn, msgs);
    ResolutionResult(h, reply, batch, turn, msgs);
  }

  /** A host resolution finishes the run with the response it announces last. */
  lemma ResolutionResult(h: Host, reply: HostReply, batch: bool, turn: nat, msgs: seq<Message>)
    requires reply.Conversation? || (reply.Resolution? && reply.disposition != ContinueModel)
    ensures var end := CompleteHostResolution(h, reply, batch, turn, msgs);
            && end.trace != [] && end.exit.Finished?
            && var r := end.exit.result;
               r.messages == msgs && r.turns == turn && end.trace[|end.trace| - 1] == Emit(FinalResponse(turn, r.response, r.disposition))
  {
    hide Render, Strip, FailureResponse;
  }

  lemma HostResolutionAsksNoModel(h: Host, reply: HostReply, batch: bool, turn: nat, msgs: seq<Message>)
    requires reply.Conversation? || (reply.Resolution? && reply.disposition != ContinueModel)
    ensures AsksNoModel(CompleteHostResolution(h, reply, batch, turn, msgs).trace)
  {
    hide Render, Strip, FailureResponse;
  }

  lemma ConsultCloses(h: Host, context: Context)
    requires context.turn == AssistantCount(context.messages)
    ensures AsksNoModel(Consult(h, context).trace)
    ensures var asked := Consult(h, context);
            match asked.settled { case None => Silent(asked.trace) case Some(e) => Closes(asked.trace, context.messages, e) }
  {
    hide CompleteHostResolution;
    var asked := Consult(h, context);
    if asked.settled.Some? && h.resolver.value(context) != ResolverRaised {
      var reply := h.resolver.value(context);
      HostResolutionAsksNoModel(h, reply, context.ToolBatch?, context.turn, context.messages);
      HostResolutionCloses(h, reply, context.ToolBatch?, context.turn, context.messages);
      var end := CompleteHostResolution(h, reply, context.ToolBatch?, context.turn, context.messages);
      ClosesAfter([AskResolver(context)], end.trace, context.messages, end.exit);
    }
  }

  /** The actions of one executed call neither end the run nor ask the model. */
  lemma CallActionsSilent(turn: nat, description: Option<string>, call: ToolCall, payload: Payload, invoked: bool,
                          after: seq<Message>)
    ensures var step := CallActions(turn, description, call, payload, invoked, after); Silent(step) && AsksNoModel(step)
  {
  }

  lemma {:induction false} ScanSilent(h: Host, turn: nat, text: string, calls: seq<ToolCall>, recorded: map<string, Payload>,
                                      n: nat, st: BatchState)
    requires n <= |calls| && Silent(st.trace) && AsksNoModel(st.trace)
    ensures var after := BatchScan(h, turn, text, calls, recorded, n, st); Silent(after.trace) && AsksNoModel(after.trace)
    decreases n
  {
    hide OutcomeOf, LiveVerdict, RestoredVerdict, Execute, CallActions;
    if n > 0 {
      ScanSilent(h, turn, text, calls, recorded, n - 1, st);
      var before := BatchScan(h, turn, text, calls, recorded, n - 1, st);
      var payload := Execute(h, before.messages, calls[n - 1]);
      CallActionsSilent(turn, if n == 1 then Some(text) else None, calls[n - 1], payload, Invokes(h, calls[n - 1]),
                        before.messages + [ToolResult(calls[n - 1].callId, payload)]);
    }
  }

  predicate AsksNoModel(trace: seq<Action>) {
    forall i :: 0 <= i < |trace| ==> !trace[i].AskModel?
  }

  function Corrections(msgs: seq<Message>): nat {
    if msgs == [] then 0
    else
      Corrections(msgs[..|msgs| - 1])
      + if msgs[|msgs| - 1].System? && msgs[|msgs| - 1].content.CorrectionOf? then 1 else 0
  }

  lemma {:induction false} ResultsLeaveCounts(msgs: seq<Message>, after: seq<Message>)
    requires msgs <= after && forall i :: |msgs| <= i < |after| ==> after[i].ToolResult?
    ensures AssistantCount(after) == AssistantCount(msgs) && Corrections(after) == Corrections(msgs)
    decreases |after|
  {
    if msgs != after {
      ResultsLeaveCounts(msgs, after[..|after| - 1]);
    }
  }

  /** Only the model turn itself asks the model; only an invalid terminal call adds a correction. */
  ghost predicate Frugal(p: Phase, msgs: seq<Message>, corrected: bool) {
    && AsksNoModel(p.trace)
    && AssistantCount(p.messages) == AssistantCount(msgs)
    && (p.Goes? && corrected ==> p.corrected)
    && Corrections(p.messages) == Corrections(msgs) + if p.Goes? && p.corrected && !corrected then 1 else 0
  }

  lemma FinishBatchCloses(h: Host, turn: nat, st: BatchState)
    requires Silent(st.trace) && AsksNoModel(st.trace) && turn == AssistantCount(st.messages)
    ensures PhaseCloses(FinishBatch(h, turn, st)) && Frugal(FinishBatch(h, turn, st), st.messages, false)
  {
    hide Consult, Decide;
    var asked := Consult(h, ToolBatch(turn, st.messages, st.outcomes));
    ConsultCloses(h, ToolBatch(turn, st.messages, st.outcomes));
    var decision := Decide(st.outcomes, st.deferred);
    if !decision.ConsultThenContinue? {
      var end := FailWithCode(decision.code, turn, st.messages, None);
      FinishCloses(FailedRun, FailureResponse(decision.code), turn, st.messages, None, Some(decision.code));
      ClosesAfter(st.trace, end.trace, st.messages, end.exit);
      if asked.settled.None? {
        ClosesAfter(st.trace + asked.trace, end.trace, st.messages, end.exit);
      }
    }
    if asked.settled.Some? {
      ClosesAfter(st.trace, asked.trace, st.messages, asked.settled.value);
    }
  }

  lemma {:induction false} BatchAddsResults(h: Host, turn: nat, text: string, calls: seq<ToolCall>, recorded: map<string, Payload>,
                                            n: nat, st: BatchState)
    requires n <= |calls|
    ensures var after := BatchScan(h, turn, text, calls, recorded, n, st).messages;
            st.messages <= after && forall i :: |st.messages| <= i < |after| ==> after[i].ToolResult?
    decreases n
  {
    hide OutcomeOf, LiveVerdict, RestoredVerdict, Execute, CallActions;
    if n > 0 {
      BatchAddsResults(h, turn, text, calls, recorded, n - 1, st);
    }
  }

  lemma BatchAdds(h: Host, turn: nat, a: Message, recorded: map<string, Payload>, msgs: seq<Message>, failed: set<string>)
    requires a.Assistant?
    ensures var after := BatchPhase(h, turn, a, recorded, msgs, failed).messages;
            msgs <= after && forall i :: |msgs| <= i < |after| ==> after[i].ToolResult?
  {
    hide FinishBatch, BatchScan, ToolCalls;
    var calls := ToolCalls(a, turn);
    BatchAddsResults(h, turn, a.text, calls, recorded, |calls|, StartBatch(msgs, failed));
    FinishBatchMessages(h, turn, BatchScan(h, turn, a.text, calls, recorded, |calls|, StartBatch(msgs, failed)));
  }

  lemma BatchPhaseCloses(h: Host, turn: nat, a: Message, recorded: map<string, Payload>, msgs: seq<Message>, failed: set<string>)
    requires a.Assistant? && turn == AssistantCount(msgs)
    ensures PhaseCloses(BatchPhase(h, turn, a, recorded, msgs, failed))
    ensures Frugal(BatchPhase(h, turn, a, recorded, msgs, failed), msgs, false)
    ensures BatchPhase(h, turn, a, recorded, msgs, failed).Goes? ==> !BatchPhase(h, turn, a, recorded, msgs, failed).corrected
  {
    hide FinishBatch, BatchScan, ToolCalls;
    BatchAdds(h, turn, a, recorded, msgs, failed);
    ResultsLeaveCounts(msgs, BatchPhase(h, turn, a, recorded, msgs, failed).messages);
    var calls := ToolCalls(a, turn);
    var st := BatchScan(h, turn, a.text, calls, recorded, |calls|, StartBatch(msgs, failed));
    ScanSilent(h, turn, a.text, calls, recorded, |calls|, StartBatch(msgs, failed));
    FinishBatchMessages(h, turn, st);
    FinishBatchCloses(h, turn, st);
  }

  lemma AnswerEndingCloses(h: Host, turn: nat, a: Message, msgs: seq<Message>)
    requires a.Assistant? && turn == AssistantCount(msgs)
    ensures var end := AnswerEnding(h, turn, a, msgs); Closes(end.trace, msgs, end.exit) && AsksNoModel(end.trace)
  {
    hide HasReviewRequired, OnlyFailedTools, FailClosed, AssistantCount;
    FailClosedCloses(turn, msgs);
  }

  lemma AnswerCloses(h: Host, turn: nat, a: Message, msgs: seq<Message>, consult: bool)
    requires a.Assistant? && turn == AssistantCount(msgs)
    ensures PhaseCloses(AnswerPhase(h, turn, a, msgs, consult)) && Frugal(AnswerPhase(h, turn, a, msgs, consult), msgs, false)
  {
    hide Consult, AnswerEnding, AssistantCount;
    AnswerEndingCloses(h, turn, a, msgs);
    var asked := if consult then Consult(h, AssistantResponse(turn, msgs)) else Consultation([], None);
    if consult {
      ConsultCloses(h, AssistantResponse(turn, msgs));
    }
    var end := AnswerEnding(h, turn, a, msgs);
    if asked.settled.None? {
      ClosesAfter(asked.trace, end.trace, msgs, end.exit);
    }
  }

  lemma AppendSystem(msgs: seq<Message>)
    ensures forall e :: AssistantCount(msgs + [System(CorrectionOf(e))]) == AssistantCount(msgs)
    ensures forall e :: Corrections(msgs + [System(CorrectionOf(e))]) == Corrections(msgs) + 1
  {
    forall e
      ensures AssistantCount(msgs + [System(CorrectionOf(e))]) == AssistantCount(msgs)
      ensures Corrections(msgs + [System(CorrectionOf(e))]) == Corrections(msgs) + 1
    {
      assert (msgs + [System(CorrectionOf(e))])[..|msgs|] == msgs;
    }
  }

  lemma TerminalCloses(h: Host, turn: nat, check: TerminalCheck, msgs: seq<Message>, failed: set<string>, closeNow: bool)
    requires !check.NoTerminalCall? && turn == AssistantCount(msgs)
    ensures PhaseCloses(TerminalPhase(h, turn, check, msgs, failed, closeNow))
    ensures Frugal(TerminalPhase(h, turn, check, msgs, failed, closeNow), msgs, false)
  {
    AppendSystem(msgs);
    hide Consult, FailClosed, Render;
    ConsultCloses(h, AssistantResponse(turn, msgs));
    FailClosedCloses(turn, msgs);
    var asked, end := Consult(h, AssistantResponse(turn, msgs)), FailClosed(turn, msgs);
    if asked.settled.None? {
      ClosesAfter(asked.trace, end.trace, msgs, end.exit);
    }
  }

  lemma ReplyCloses(h: Host, turn: nat, a: Message, msgs: seq<Message>, failed: set<string>, corrected: bool, last: bool)
    requires a.Assistant? && turn == AssistantCount(msgs)
    ensures PhaseCloses(ReplyPhase(h, turn, a, msgs, failed, corrected, last))
    ensures Frugal(ReplyPhase(h, turn, a, msgs, failed, corrected, last), msgs, corrected)
  {
    hide BatchPhase, AnswerPhase, TerminalPhase, ValidateTerminal, ToolCalls;
    var calls := ToolCalls(a, turn);
    var check := if h.requireTerminal then ValidateTerminal(h, a, calls, msgs, false) else NoTerminalCall;
    BatchPhaseCloses(h, turn, a, map[], msgs, failed);
    AnswerCloses(h, turn, a, msgs, true);
    if !check.NoTerminalCall? {
      TerminalCloses(h, turn, check, msgs, failed, corrected || last);
      if corrected {
        ClosedNowEnds(h, turn, check, msgs, failed, corrected || last);
      }
    } else if calls == [] {
      assert ReplyPhase(h, turn, a, msgs, failed, corrected, last) == AnswerPhase(h, turn, a, msgs, true);
      AnswerEnds(h, turn, a, msgs);
    }
  }

  lemma AnswerEnds(h: Host, turn: nat, a: Message, msgs: seq<Message>)
    requires a.Assistant?
    ensures AnswerPhase(h, turn, a, msgs, true).Ends?
  {
    hide Consult, AnswerEnding;
  }

  lemma ClosedNowEnds(h: Host, turn: nat, check: TerminalCheck, msgs: seq<Message>, failed: set<string>, closeNow: bool)
    requires !check.NoTerminalCall? && closeNow
    ensures TerminalPhase(h, turn, check, msgs, failed, closeNow).Ends?
  {
    hide Consult, FailClosed, Render;
  }

  lemma TurnCloses(h: Host, msgs: seq<Message>, failed: set<string>, corrected: bool, last: bool)
    ensures PhaseCloses(TurnPhase(h, msgs, failed, corrected, last))
    ensures var p := TurnPhase(h, msgs, failed, corrected, last);
            && ModelCalls(p.trace) == 1
            && AssistantCount(msgs) <= AssistantCount(p.messages) <= AssistantCount(msgs) + 1
            && (p.Goes? ==> AssistantCount(p.messages) == AssistantCount(msgs) + 1)
            && (p.Goes? && corrected ==> p.corrected)
            && Corrections(p.messages) == Corrections(msgs) + if p.Goes? && p.corrected && !corrected then 1 else 0
  {
    hide ReplyPhase;
    var turn := AssistantCount(msgs) + 1;
    match h.model(msgs)
    case GatewayFailed(_) =>
      assert [Emit(TurnStarted(turn)), AskModel(msgs)][..1] == [Emit(TurnStarted(turn))];
      NoModelCalls([Emit(TurnStarted(turn))]);
    case Reply(text, calls, invalid) =>
      var a := Assistant(text, calls, invalid);
      AppendOne(msgs, a);
      assert (msgs + [a])[..|msgs|] == msgs;
      ReplyCloses(h, turn, a, msgs + [a], failed, corrected, last);
      var next := ReplyPhase(h, turn, a, msgs + [a], failed, corrected, last);
      var opening := [Emit(TurnStarted(turn)), AskModel(msgs)] + [Save(msgs + [a])];
      OpeningAsksOnce(turn, msgs, msgs + [a], next.trace);
      if next.Ends? {
        ClosesAfter(opening, next.trace, next.messages, next.exit);
      }
  }

  // ----- budgets

  function ModelCalls(trace: seq<Action>): nat {
    if trace == [] then 0 else ModelCalls(trace[..|trace| - 1]) + if trace[|trace| - 1].AskModel? then 1 else 0
  }

  lemma {:induction false} ModelCallsConcat(a: seq<Action>, b: seq<Action>)
    ensures ModelCalls(a + b) == ModelCalls(a) + ModelCalls(b)
    decreases |b|
  {
    if b == [] {
      assert a + b == a;
    } else {
      assert (a + b)[..|a + b| - 1] == a + b[..|b| - 1];
      ModelCallsConcat(a, b[..|b| - 1]);
    }
  }

  lemma {:induction false} NoModelCalls(trace: seq<Action>)
    requires AsksNoModel(trace)
    ensures ModelCalls(trace) == 0
    decreases |trace|
  {
    if trace != [] {
      NoModelCalls(trace[..|trace| - 1]);
    }
  }

  lemma OpeningAsksOnce(turn: nat, msgs: seq<Message>, saved: seq<Message>, rest: seq<Action>)
    requires AsksNoModel(rest)
    ensures ModelCalls([Emit(TurnStarted(turn)), AskModel(msgs)] + [Save(saved)] + rest) == 1
  {
    var started, asked: seq<Action> := [Emit(TurnStarted(turn))], [AskModel(msgs)];
    NoModelCalls(started);
    NoModelCalls([Save(saved)] + rest);
    assert asked[..0] == [];
    ModelCallsConcat(started, asked);
    ModelCallsConcat(started + asked, [Save(saved)] + rest);
    assert [Emit(TurnStarted(turn)), AskModel(msgs)] + [Save(saved)] + rest == started + asked + ([Save(saved)] + rest);
  }

  // ----- the whole run

  /** One invocation asks the model at most `left` times, gains at most that many assistant
      messages and at most one correction, and closes with exactly one final response. */
  lemma {:induction false} LoopCloses(h: Host, msgs: seq<Message>, failed: set<string>, corrected: bool, left: nat)
    ensures var run := Loop(h, msgs, failed, corrected, left);
            && Closes(run.trace, run.messages, run.exit)
            && ModelCalls(run.trace) <= left
            && AssistantCount(msgs) <= AssistantCount(run.messages) <= AssistantCount(msgs) + left
            && Corrections(run.messages) <= Corrections(msgs) + if corrected then 0 else 1
    decreases left
  {
    hide TurnPhase;
    if left == 0 {
      FinishCloses(TurnLimitReached, TurnLimitText, AssistantCount(msgs), msgs, None, Some(TurnLimitCode));
      NoModelCalls(TurnLimitRun(msgs).trace);
    } else {
      TurnCloses(h, msgs, failed, corrected, left == 1);
      var p := TurnPhase(h, msgs, failed, corrected, left == 1);
      if p.Goes? {
        LoopCloses(h, p.messages, p.failed, p.corrected, left - 1);
        var rest := Loop(h, p.messages, p.failed, p.corrected, left - 1);
        ClosesAfter(p.trace, rest.trace, rest.messages, rest.exit);
        ModelCallsConcat(p.trace, rest.trace);
      }
    }
  }

  lemma ResumeCloses(h: Host, msgs: seq<Message>, failed: set<string>)
    ensures PhaseCloses(ResumePhase(h, msgs, failed)) && Frugal(ResumePhase(h, msgs, failed), msgs, false)
  {
    hide BatchPhase, AnswerPhase, TerminalPhase, ValidateTerminal, ToolCalls;
    if TailOf(msgs).Some? {
      var t := TailOf(msgs).value;
      TailMeansAssistant(msgs);
      var a, turn := msgs[t], AssistantCount(msgs);
      var calls := ToolCalls(a, turn);
      var check := if h.requireTerminal then ValidateTerminal(h, a, calls, msgs, true) else NoTerminalCall;
      BatchPhaseCloses(h, turn, a, ResultsById(msgs[t + 1..]), msgs, failed);
      AnswerCloses(h, turn, a, msgs, h.requireTerminal);
      if !check.NoTerminalCall? {
        TerminalCloses(h, turn, check, msgs, failed, false);
      }
    }
  }

  /** The same for an invocation that first resumes a checkpointed tail. */
  lemma SessionCloses(h: Host, msgs: seq<Message>, maxTurns: nat)
    ensures var run := Session(h, msgs, maxTurns);
            && Closes(run.trace, run.messages, run.exit)
            && ModelCalls(run.trace) <= maxTurns
            && AssistantCount(run.messages) <= AssistantCount(msgs) + maxTurns
            && Corrections(run.messages) <= Corrections(msgs) + 1
  {
    hide ResumePhase, Loop;
    var failed := FailedFingerprints(h.fingerprint, msgs);
    ResumeCloses(h, msgs, failed);
    var p := ResumePhase(h, msgs, failed);
    NoModelCalls(p.trace);
    if p.Goes? {
      LoopCloses(h, p.messages, p.failed, p.corrected, maxTurns);
      var rest := Loop(h, p.messages, p.failed, p.corrected, maxTurns);
      ClosesAfter(p.trace, rest.trace, rest.messages, rest.exit);
      ModelCallsConcat(p.trace, rest.trace);
    }
  }

  /** The returned turn count is the number of assistant messages returned, on every exit. */
  lemma TurnsCountAssistants(h: Host, system: string, restored: seq<Message>, input: Option<string>, maxTurns: nat)
    ensures var r := Invocation(h, system, restored, input, maxTurns); r.turns == AssistantCount(r.messages)
  {
    hide Session;
    var opening := [System(Prompt(system))] + restored + (if input.Some? then [Human(input.value)] else []);
    SessionCloses(h, opening, maxTurns);
  }
}
