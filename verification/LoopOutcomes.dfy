/** What a finished run tells the owner (`app/agents/harness.py`): a conclusion has passed the host's
    validator, and status, disposition and error code always fit together. */
module LoopOutcomes {
  import opened Prelude
  import opened Transcript
  import opened FailureControl
  import opened HostContracts
  import opened LoopSpec

  /** The result is lifecycle `l`, approved by the validator for exactly the returned transcript, as rendered. */
  ghost predicate Concluded(h: Host, l: Lifecycle, r: AgentResult) {
    && Strip(h.validator(l, r.messages)) == ""
    && r.disposition == Some(l.disposition) && r.response == Words(Render(h, l, r.messages))
  }

  /** A conclusion the host itself draws when every tool since the owner's message has failed. */
  predicate Excuses(r: AgentResult) {
    r.status == CompletedRun && r.disposition == Some(Completed) && r.response.DataUnavailable? && OnlyFailedTools(r.messages)
  }

  ghost predicate Sound(h: Host, r: AgentResult) {
    && (r.errorCode.Some? <==> r.status == FailedRun || r.status == TurnLimitReached)
    && (r.errorCode.Some? ==> r.disposition.None?)
    && (r.status == AwaitingOwner <==> r.disposition == Some(AwaitingUser))
    && (r.disposition.Some? ==> Excuses(r) || exists l :: Concluded(h, l, r))
    && (h.requireTerminal && r.status == CompletedRun && r.disposition.None? ==>
          !HasReviewRequired(r.messages) && !OnlyFailedTools(r.messages))
    && (r.status == TurnLimitReached ==> r.response == TurnLimitText && r.errorCode == Some(TurnLimitCode))
  }

  ghost predicate SoundExit(h: Host, exit: Exit) { exit.Finished? ==> Sound(h, exit.result) }

  /** An exit that is no matter of the turn limit. */
  ghost predicate SoundEnd(h: Host, exit: Exit) { SoundExit(h, exit) && (exit.Finished? ==> exit.result.status != TurnLimitReached) }

  ghost predicate SoundPhase(h: Host, p: Phase) { p.Ends? ==> SoundEnd(h, p.exit) }

  lemma ConcludeSound(h: Host, l: Lifecycle, turn: nat, msgs: seq<Message>)
    requires Strip(h.validator(l, msgs)) == ""
    ensures SoundEnd(h, Conclude(l, Render(h, l, msgs), turn, msgs).exit)
  {
    hide Strip, Render, HasReviewRequired, OnlyFailedTools;
    assert Concluded(h, l, Conclude(l, Render(h, l, msgs), turn, msgs).exit.result);
  }

  lemma FailClosedSound(h: Host, turn: nat, msgs: seq<Message>)
    ensures SoundEnd(h, FailClosed(turn, msgs).exit)
  {
    hide Strip, HasReviewRequired;
  }

  lemma HostResolutionSound(h: Host, reply: HostReply, batch: bool, turn: nat, msgs: seq<Message>)
    requires reply.Conversation? || (reply.Resolution? && reply.disposition != ContinueModel)
    ensures SoundEnd(h, CompleteHostResolution(h, reply, batch, turn, msgs).exit)
  {
    hide Strip, Render, HasReviewRequired, OnlyFailedTools;
    var l := if reply.Conversation? then reply.lifecycle
             else if reply.own.Some? then reply.own.value
             else Lifecycle(if reply.disposition == AwaitOwner then AwaitingUser else Completed, reply.content);
    if Strip(h.validator(l, msgs)) == "" {
      ConcludeSound(h, l, turn, msgs);
    }
  }

  lemma ConsultSound(h: Host, context: Context)
    ensures Consult(h, context).settled.Some? ==> SoundEnd(h, Consult(h, context).settled.value)
  {
    hide CompleteHostResolution;
    match h.resolver {
      case None =>
      case Some(resolve) =>
        var reply := resolve(context);
        if reply.Conversation? || (reply.Resolution? && reply.disposition != ContinueModel) {
          HostResolutionSound(h, reply, context.ToolBatch?, context.turn, context.messages);
        }
    }
  }

  lemma AnswerSound(h: Host, turn: nat, a: Message, msgs: seq<Message>, consult: bool)
    requires a.Assistant?
    ensures SoundPhase(h, AnswerPhase(h, turn, a, msgs, consult))
  {
    hide Consult, FailClosed, HasReviewRequired, OnlyFailedTools;
    ConsultSound(h, AssistantResponse(turn, msgs));
    FailClosedSound(h, turn, msgs);
  }

  lemma TerminalSound(h: Host, turn: nat, a: Message, calls: seq<ToolCall>, msgs: seq<Message>, allowed: bool,
                      failed: set<string>, closeNow: bool)
    requires a.Assistant? && !ValidateTerminal(h, a, calls, msgs, allowed).NoTerminalCall?
    ensures SoundPhase(h, TerminalPhase(h, turn, ValidateTerminal(h, a, calls, msgs, allowed), msgs, failed, closeNow))
  {
    var check := ValidateTerminal(h, a, calls, msgs, allowed);
    hide Consult, FailClosed, Strip, Conclude, SoundEnd;
    match check {
      case ValidTerminal(l) =>
        assert Strip(h.validator(l, msgs)) == "";
        ConcludeSound(h, l, turn, msgs);
      case InvalidTerminal(_) =>
        ConsultSound(h, AssistantResponse(turn, msgs));
        FailClosedSound(h, turn, msgs);
    }
  }

  lemma FinishBatchSound(h: Host, turn: nat, st: BatchState)
    ensures SoundPhase(h, FinishBatch(h, turn, st))
  {
    hide Consult, Decide;
    ConsultSound(h, ToolBatch(turn, st.messages, st.outcomes));
  }

  lemma ReplySound(h: Host, turn: nat, a: Message, msgs: seq<Message>, failed: set<string>, corrected: bool, lastAttempt: bool)
    requires a.Assistant?
    ensures SoundPhase(h, ReplyPhase(h, turn, a, msgs, failed, corrected, lastAttempt))
  {
    hide ValidateTerminal, TerminalPhase, AnswerPhase, FinishBatch, BatchScan, ToolCalls, SoundEnd;
    var calls := ToolCalls(a, turn);
    if h.requireTerminal && !ValidateTerminal(h, a, calls, msgs, false).NoTerminalCall? {
      TerminalSound(h, turn, a, calls, msgs, false, failed, corrected || lastAttempt);
    }
    AnswerSound(h, turn, a, msgs, true);
    FinishBatchSound(h, turn, BatchScan(h, turn, a.text, calls, map[], |calls|, StartBatch(msgs, failed)));
  }

  lemma ResumeSound(h: Host, msgs: seq<Message>, failed: set<string>)
    ensures SoundPhase(h, ResumePhase(h, msgs, failed))
  {
    hide ValidateTerminal, TerminalPhase, AnswerPhase, FinishBatch, BatchScan, ToolCalls, ResultsById, SoundEnd;
    match TailOf(msgs) {
      case None =>
      case Some(t) =>
        var a, turn := msgs[t], if AssistantCount(msgs) > 1 then AssistantCount(msgs) else 1;
        var calls := ToolCalls(a, turn);
        AnswerSound(h, turn, a, msgs, h.requireTerminal);
        if h.requireTerminal && !ValidateTerminal(h, a, calls, msgs, true).NoTerminalCall? {
          TerminalSound(h, turn, a, calls, msgs, true, failed, false);
        }
        FinishBatchSound(h, turn, BatchScan(h, turn, a.text, calls, ResultsById(msgs[t + 1..]), |calls|, StartBatch(msgs, failed)));
    }
  }

  lemma TurnSound(h: Host, msgs: seq<Message>, failed: set<string>, corrected: bool, lastAttempt: bool)
    ensures SoundPhase(h, TurnPhase(h, msgs, failed, corrected, lastAttempt))
  {
    hide ReplyPhase, SoundEnd;
    var reply := h.model(msgs);
    if reply.Reply? {
      var a := Assistant(reply.text, reply.calls, reply.invalid);
      ReplySound(h, AssistantCount(msgs) + 1, a, msgs + [a], failed, corrected, lastAttempt);
    } else {
      NothingRaisedIsUnsound(h, reply.code);
    }
  }

  lemma NothingRaisedIsUnsound(h: Host, code: Code)
    ensures SoundEnd(h, Raised(code))
  {}

  lemma {:induction false} LoopSound(h: Host, msgs: seq<Message>, failed: set<string>, corrected: bool, left: nat)
    ensures SoundExit(h, Loop(h, msgs, failed, corrected, left).exit)
    decreases left
  {
    hide TurnPhase, HasReviewRequired, OnlyFailedTools;
    if left > 0 {
      TurnSound(h, msgs, failed, corrected, left == 1);
      var p := TurnPhase(h, msgs, failed, corrected, left == 1);
      if p.Goes? { LoopSound(h, p.messages, p.failed, p.corrected, left - 1); }
    }
  }

  /** Every result an invocation returns is sound, whatever the model, the handlers and the host answer: no
      conclusion reaches the owner that the validator refused for the returned transcript, except the
      host's own notice that all tools failed; in lifecycle mode no plain answer completes over a result
      that awaits review, or over nothing but failures. */
  lemma OutcomesAreSound(h: Host, system: string, restored: seq<Message>, input: Option<string>, maxTurns: nat)
    ensures Sound(h, Invocation(h, system, restored, input, maxTurns))
  {
    hide Loop, ResumePhase, HasReviewRequired, OnlyFailedTools, FailedFingerprints;
    var opening := [System(Prompt(system))] + restored + (if input.Some? then [Human(input.value)] else []);
    var failed := FailedFingerprints(h.fingerprint, opening);
    ResumeSound(h, opening, failed);
    var p := ResumePhase(h, opening, failed);
    if p.Goes? { LoopSound(h, p.messages, p.failed, p.corrected, maxTurns); }
  }
}
