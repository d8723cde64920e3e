/** The replies that a crash may treat differently: a plain answer that only the live loop shows to the resolver, and an
    explicit terminal call, which may complete the run only when resumed. Exactly when they end alike. */
module ResumedReplies {
  import opened Prelude
  import opened Transcript
  import opened FailureControl
  import opened HostContracts
  import opened LoopSpec
  import opened LoopSafety
  import opened Pacing
  import opened ResumeOrder
  import opened BatchDecision
  import opened BatchReplay
  import opened CrashResume

  /** A plain answer survives a crash if and only if it stands: in lifecycle mode, or when the resolver leaves it alone or
      settles it the way it would end anyway. */
  lemma AnswerResumesIff(h: Host, saved: seq<Message>)
    requires EndsWithReply(saved) && ToolCalls(saved[|saved| - 1], AssistantCount(saved)) == []
    ensures var a, turn := saved[|saved| - 1], AssistantCount(saved);
            SamePhase(AnswerPhase(h, turn, a, saved, true), ResumePhase(h, saved, FailedFingerprints(h.fingerprint, saved)))
            <==> AnswerStands(h, saved)
  {
    hide Consult, FailedFingerprints, ToolCalls, AssistantCount, ResumePhase, HasReviewRequired, OnlyFailedTools, FailClosed;
    ResumeAtReply(h, AssistantCount(saved), saved, FailedFingerprints(h.fingerprint, saved));
  }

  /** An explicit terminal call survives a crash if and only if it is accepted both times, or settled by the resolver in
      the way the resumed run ends, or refused both times with one error while a correction is still to be had. */
  lemma TerminalResumesIff(h: Host, saved: seq<Message>, corrected: bool, last: bool)
    requires EndsWithReply(saved) && h.requireTerminal && HasTerminalCall(ToolCalls(saved[|saved| - 1], AssistantCount(saved)))
    ensures var a, turn, failed := saved[|saved| - 1], AssistantCount(saved), FailedFingerprints(h.fingerprint, saved);
            var calls := ToolCalls(a, turn);
            var live, resumed := ValidateTerminal(h, a, calls, saved, false), ValidateTerminal(h, a, calls, saved, true);
            var settled := Consult(h, AssistantResponse(turn, saved)).settled;
            SamePhase(ReplyPhase(h, turn, a, saved, failed, corrected, last), ResumePhase(h, saved, failed))
            <==>
            if resumed.ValidTerminal? then
              live.ValidTerminal?
              || (settled.Some? && SameExit(settled.value, Conclude(resumed.lifecycle, Render(h, resumed.lifecycle, saved), turn, saved).exit))
            else settled.Some? || (!corrected && !last && live == resumed)
  {
    var a, turn, failed := saved[|saved| - 1], AssistantCount(saved), FailedFingerprints(h.fingerprint, saved);
    var calls := ToolCalls(a, turn);
    var live, resumed := ValidateTerminal(h, a, calls, saved, false), ValidateTerminal(h, a, calls, saved, true);
    hide Consult, FailedFingerprints, ToolCalls, AssistantCount, ResumePhase, ReplyPhase, TerminalPhase, ValidateTerminal, Conclude, SamePhase;
    ResumeAtReply(h, turn, saved, failed);
    TerminalAllowed(h, a, calls, saved);
    ReplyIsTerminal(h, turn, a, saved, failed, corrected, last);
    TerminalPhasesAgree(h, turn, live, resumed, saved, failed, corrected || last);
  }

  lemma ReplyIsTerminal(h: Host, turn: nat, a: Message, saved: seq<Message>, failed: set<string>, corrected: bool, last: bool)
    requires a.Assistant? && h.requireTerminal && HasTerminalCall(ToolCalls(a, turn))
    ensures var live := ValidateTerminal(h, a, ToolCalls(a, turn), saved, false);
            !live.NoTerminalCall?
            && ReplyPhase(h, turn, a, saved, failed, corrected, last) == TerminalPhase(h, turn, live, saved, failed, corrected || last)
  {
    hide ToolCalls, ValidateTerminal, TerminalPhase, AnswerPhase, BatchPhase;
    TerminalAllowed(h, a, ToolCalls(a, turn), saved);
  }

  lemma TerminalPhasesAgree(h: Host, turn: nat, live: TerminalCheck, resumed: TerminalCheck, msgs: seq<Message>, failed: set<string>, closeNow: bool)
    requires !live.NoTerminalCall? && !resumed.NoTerminalCall? && (live.ValidTerminal? ==> resumed == live)
    ensures var settled := Consult(h, AssistantResponse(turn, msgs)).settled;
            SamePhase(TerminalPhase(h, turn, live, msgs, failed, closeNow), TerminalPhase(h, turn, resumed, msgs, failed, false))
            <==>
            if resumed.ValidTerminal? then
              live.ValidTerminal?
              || (settled.Some? && SameExit(settled.value, Conclude(resumed.lifecycle, Render(h, resumed.lifecycle, msgs), turn, msgs).exit))
            else settled.Some? || (!closeNow && live == resumed)
  {
    hide Consult, Render, FailClosed, Conclude, SameExit;
    SameAsItself();
    if resumed.ValidTerminal? {
      ClosingIsNotConcluding(turn, msgs, resumed.lifecycle, Render(h, resumed.lifecycle, msgs));
    } else if live.InvalidTerminal? {
      assert live == resumed <==> msgs + [System(CorrectionOf(live.error))] == msgs + [System(CorrectionOf(resumed.error))] by {
        assert (msgs + [System(CorrectionOf(live.error))])[|msgs|] == System(CorrectionOf(live.error));
        assert (msgs + [System(CorrectionOf(resumed.error))])[|msgs|] == System(CorrectionOf(resumed.error));
      }
    }
  }

  lemma SameAsItself()
    ensures forall e: Exit :: SameExit(e, e)
  {}

  lemma ClosingIsNotConcluding(turn: nat, msgs: seq<Message>, l: Lifecycle, content: string)
    ensures !SameExit(FailClosed(turn, msgs).exit, Conclude(l, content, turn, msgs).exit)
  {
    hide OnlyFailedTools, Strip, ToolsAfterHuman;
    var text := ActionableFailure(msgs);
    assert text.Some? ==> text.value.DataUnavailable?;
  }

  /** What is accepted only on resumption: a terminal call that completes the run. */
  lemma CompletedOnlyResumed(h: Host, a: Message, calls: seq<ToolCall>, msgs: seq<Message>)
    requires a.Assistant?
    ensures var live, resumed := ValidateTerminal(h, a, calls, msgs, false), ValidateTerminal(h, a, calls, msgs, true);
            resumed.ValidTerminal? && !live.ValidTerminal? <==> resumed.ValidTerminal? && resumed.lifecycle.disposition == Completed
  {
    hide Strip;
    TerminalAllowed(h, a, calls, msgs);
  }

  // ----- both happen

  /** A host whose model answers "hi" or ends with a completed terminal call, and whose resolver asks the owner back
      when `asks`. */
  function Asking(requireTerminal: bool, calls: seq<RawCall>, asks: bool): Host {
    Host(map[], (name: string, args: Args, code: Code) => "", requireTerminal,
         (seen: seq<Message>) => Reply(if calls == [] then "hi" else "", calls, []),
         (seen: seq<Message>, call: ToolCall) => OversizeResult,
         if asks then Some((context: Context) => Conversation(Lifecycle(AwaitingUser, "which one?"))) else None,
         (args: Args) => Some(Completed), (args: Args) => Ok("done"), (l: Lifecycle, seen: seq<Message>) => "", None)
  }

  /** The plain answer: live the resolver turns it into a question to the owner, resumed it completes the run. */
  lemma AnswerMayChange(opening: seq<Message>)
    ensures var h, a := Asking(false, [], true), Assistant("hi", [], []);
            var saved := opening + [a];
            var turn := AssistantCount(opening) + 1;
            && AnswerPhase(h, turn, a, saved, true).exit
               == Finished(AgentResult(AwaitingOwner, Words("which one?"), turn, saved, Some(AwaitingUser), None))
            && ResumePhase(h, saved, FailedFingerprints(h.fingerprint, saved)).exit
               == Finished(AgentResult(CompletedRun, Words("hi"), turn, saved, None, None))
  {
    hide AnswerPhase, ResumePhase, FailedFingerprints, AssistantCount, Asking;
    var a := Assistant("hi", [], []);
    var saved := opening + [a];
    AppendOne(opening, a);
    PlainAnswer(AssistantCount(saved), saved);
    ResumeAtReply(Asking(false, [], true), AssistantCount(saved), saved, FailedFingerprints(Asking(false, [], true).fingerprint, saved));
  }

  lemma PlainAnswer(turn: nat, saved: seq<Message>)
    ensures var h, a := Asking(false, [], true), Assistant("hi", [], []);
            && !h.requireTerminal && ToolCalls(a, turn) == []
            && AnswerPhase(h, turn, a, saved, true).exit
               == Finished(AgentResult(AwaitingOwner, Words("which one?"), turn, saved, Some(AwaitingUser), None))
            && AnswerPhase(h, turn, a, saved, false).exit == Finished(AgentResult(CompletedRun, Words("hi"), turn, saved, None, None))
  {
    AskedBack(turn, saved);
    hide Consult, HasReviewRequired, OnlyFailedTools, FailClosed;
  }

  lemma AskedBack(turn: nat, saved: seq<Message>)
    ensures Consult(Asking(false, [], true), AssistantResponse(turn, saved)).settled
            == Some(Finished(AgentResult(AwaitingOwner, Words("which one?"), turn, saved, Some(AwaitingUser), None)))
  {
    NothingToStrip("which one?");
    hide Strip;
  }

  lemma NothingToStrip(s: string)
    requires s != "" && s[0] !in " \t\n\r" && s[|s| - 1] !in " \t\n\r"
    ensures Strip(s) == s && Strip("") == ""
  {}

  /** The terminal call: live the model is corrected and goes on, resumed the run completes. */
  lemma TerminalMayComplete(opening: seq<Message>, failed: set<string>)
    ensures var h, a := Asking(true, [EndCall()], false), Assistant("", [EndCall()], []);
            var saved := opening + [a];
            var turn := AssistantCount(opening) + 1;
            && ReplyPhase(h, turn, a, saved, failed, false, false)
               == Goes([], saved + [System(CorrectionOf(BadArguments("terminal response disposition must be awaiting_user")))], failed, true)
            && ResumePhase(h, saved, failed).exit
               == Finished(AgentResult(CompletedRun, Words("done"), turn, saved, Some(Completed), None))
  {
    var h, a := Asking(true, [EndCall()], false), Assistant("", [EndCall()], []);
    var saved := opening + [a];
    AppendOne(opening, a);
    var turn := AssistantCount(saved);
    EndCallChecks(turn, saved);
    hide AssistantCount, ResumePhase, ReplyPhase, ToolCalls, ValidateTerminal, Asking, EndCall;
    ResumeAtReply(h, turn, saved, failed);
    ReplyIsTerminal(h, turn, a, saved, failed, false, false);
  }

  function EndCall(): RawCall { RawCall(TERMINAL_TOOL, "end", Mapping("")) }

  lemma EndCallChecks(turn: nat, saved: seq<Message>)
    ensures var h, a := Asking(true, [EndCall()], false), Assistant("", [EndCall()], []);
            var calls := ToolCalls(a, turn);
            && h.requireTerminal && h.resolver.None? && h.renderer.None? && HasTerminalCall(calls)
            && ValidateTerminal(h, a, calls, saved, false) == InvalidTerminal(BadArguments("terminal response disposition must be awaiting_user"))
            && ValidateTerminal(h, a, calls, saved, true) == ValidTerminal(Lifecycle(Completed, "done"))
  {
    var calls := ToolCalls(Assistant("", [EndCall()], []), turn);
    assert calls == [ToolCall("end", TERMINAL_TOOL, Mapping(""), None)];
    assert calls[0].name == TERMINAL_TOOL;
    NothingToStrip("done");
    hide Strip;
  }
}
