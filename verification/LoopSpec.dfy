/** The native tool loop as a function: what one invocation does, step by step, from the
    transcript it starts with. The imperative loop in `ToolLoop` is proved to compute this. */
module LoopSpec {
  import opened Prelude
  import opened Transcript
  import opened FailureControl
  import opened HostContracts

  // ----- one ordered batch of calls

  datatype BatchState = BatchState(messages: seq<Message>, outcomes: seq<Outcome>,
                                   deferred: seq<Deferred>, failed: set<string>, trace: seq<Action>)

  function StartBatch(msgs: seq<Message>, failed: set<string>): BatchState {
    BatchState(msgs, [], [], failed, [])
  }

  /** The visible actions of one executed call. */
  function CallActions(turn: nat, description: Option<string>, call: ToolCall, payload: Payload, invoked: bool,
                       after: seq<Message>): seq<Action>
  {
    [Emit(ToolCalled(turn, call.callId, description))]
    + (if invoked then [RunHandler(call)] else [])
    + [Save(after), Emit(ToolFinished(turn, call.callId, payload))]
  }

  /** Execute a call, append and checkpoint its result, then judge it. */
  function RunCall(h: Host, turn: nat, description: Option<string>, call: ToolCall, st: BatchState): BatchState {
    var payload := Execute(h, st.messages, call);
    var msgs := st.messages + [ToolResult(call.callId, payload)];
    var o := OutcomeOf(h.tools, call, payload);
    var v := LiveVerdict(o, FailurePoint(h.fingerprint, call, o), st.failed);
    BatchState(msgs, st.outcomes + [o], Defer(st.deferred, o, v.code), v.failed,
               st.trace + CallActions(turn, description, call, payload, Invokes(h, call), msgs))
  }

  /** Judge a result that the restored transcript already holds. */
  function RecallCall(h: Host, call: ToolCall, payload: Payload, st: BatchState): BatchState {
    var o := OutcomeOf(h.tools, call, payload);
    var seen := FailureCount(h.fingerprint, st.messages, FailurePoint(h.fingerprint, call, o));
    st.(outcomes := st.outcomes + [o],
        deferred := Defer(st.deferred, o, RestoredVerdict(o, seen)))
  }

  /** `_tool_result_by_call_id`: the first result for each non-empty id. */
  function ResultsById(suffix: seq<Message>): map<string, Payload>
    requires forall i :: 0 <= i < |suffix| ==> suffix[i].ToolResult?
  {
    if suffix == [] then map[]
    else
      var earlier := ResultsById(suffix[..|suffix| - 1]);
      var last := suffix[|suffix| - 1];
      if last.callId == "" || last.callId in earlier then earlier else earlier[last.callId := last.payload]
  }

  function CallStep(h: Host, turn: nat, text: string, calls: seq<ToolCall>, recorded: map<string, Payload>,
                    i: nat, st: BatchState): BatchState
    requires i < |calls|
  {
    if calls[i].callId in recorded then RecallCall(h, calls[i], recorded[calls[i].callId], st)
    else RunCall(h, turn, if i == 0 then Some(text) else None, calls[i], st)
  }

  /** The first `n` calls of a batch. A live batch has nothing recorded. */
  function BatchScan(h: Host, turn: nat, text: string, calls: seq<ToolCall>, recorded: map<string, Payload>,
                     n: nat, st: BatchState): BatchState
    requires n <= |calls|
    decreases n
  {
    if n == 0 then st
    else CallStep(h, turn, text, calls, recorded, n - 1,
                  BatchScan(h, turn, text, calls, recorded, n - 1, st))
  }

  /** A step either ends the run or hands over to the next one. */
  datatype Phase =
    | Ends(trace: seq<Action>, messages: seq<Message>, exit: Exit)
    | Goes(trace: seq<Action>, messages: seq<Message>, failed: set<string>, corrected: bool)

  function FinishBatch(h: Host, turn: nat, st: BatchState): Phase {
    match Decide(st.outcomes, st.deferred)
    case Blocked(code) =>
      var end := FailWithCode(code, turn, st.messages, None);
      Ends(st.trace + end.trace, st.messages, end.exit)
    case decision =>
      var asked := Consult(h, ToolBatch(turn, st.messages, st.outcomes));
      if asked.settled.Some? then Ends(st.trace + asked.trace, st.messages, asked.settled.value)
      else if decision.ConsultThenFail? then
        var end := FailWithCode(decision.code, turn, st.messages, None);
        Ends(st.trace + asked.trace + end.trace, st.messages, end.exit)
      else Goes(st.trace + asked.trace, st.messages, st.failed, false)
  }

  /** All calls of an assistant message, from whatever results are already recorded. */
  function BatchPhase(h: Host, turn: nat, a: Message, recorded: map<string, Payload>,
                      msgs: seq<Message>, failed: set<string>): Phase
    requires a.Assistant?
  {
    var calls := ToolCalls(a, turn);
    FinishBatch(h, turn, BatchScan(h, turn, a.text, calls, recorded, |calls|, StartBatch(msgs, failed)))
  }

  // ----- an assistant message without calls

  function AnswerEnding(h: Host, turn: nat, a: Message, msgs: seq<Message>): Ending
    requires a.Assistant?
  {
    if h.requireTerminal && HasReviewRequired(msgs) then FailWithCode(InvalidTerminalResponse, turn, msgs, None)
    else if h.requireTerminal && OnlyFailedTools(msgs) then FailClosed(turn, msgs)
    else Finish(CompletedRun, Words(a.text), turn, msgs, None, None)
  }

  function AnswerPhase(h: Host, turn: nat, a: Message, msgs: seq<Message>, consult: bool): Phase
    requires a.Assistant?
  {
    var asked := if consult then Consult(h, AssistantResponse(turn, msgs)) else Consultation([], None);
    if asked.settled.Some? then Ends(asked.trace, msgs, asked.settled.value)
    else
      var end := AnswerEnding(h, turn, a, msgs);
      Ends(asked.trace + end.trace, msgs, end.exit)
  }

  // ----- one model turn

  function TerminalPhase(h: Host, turn: nat, check: TerminalCheck, msgs: seq<Message>, failed: set<string>,
                         closeNow: bool): Phase
    requires !check.NoTerminalCall?
  {
    match check
    case ValidTerminal(l) =>
      var end := Conclude(l, Render(h, l, msgs), turn, msgs);
      Ends(end.trace, msgs, end.exit)
    case InvalidTerminal(error) =>
      var asked := Consult(h, AssistantResponse(turn, msgs));
      if asked.settled.Some? then Ends(asked.trace, msgs, asked.settled.value)
      else if closeNow then
        var end := FailClosed(turn, msgs);
        Ends(asked.trace + end.trace, msgs, end.exit)
      else Goes(asked.trace, msgs + [System(CorrectionOf(error))], failed, true)
  }

  /** What follows the checkpointed assistant message `a` at the end of `msgs`. */
  function ReplyPhase(h: Host, turn: nat, a: Message, msgs: seq<Message>, failed: set<string>,
                      corrected: bool, lastAttempt: bool): Phase
    requires a.Assistant?
  {
    var calls := ToolCalls(a, turn);
    var check := if h.requireTerminal then ValidateTerminal(h, a, calls, msgs, false) else NoTerminalCall;
    if !check.NoTerminalCall? then TerminalPhase(h, turn, check, msgs, failed, corrected || lastAttempt)
    else if calls == [] then AnswerPhase(h, turn, a, msgs, true)
    else match BatchPhase(h, turn, a, map[], msgs, failed)
      case Ends(trace, m, exit) => Ends(trace, m, exit)
      case Goes(trace, m, f, _) => Goes(trace, m, f, corrected)
  }

  function TurnPhase(h: Host, msgs: seq<Message>, failed: set<string>, corrected: bool, lastAttempt: bool): Phase {
    var turn := AssistantCount(msgs) + 1;
    var asked := [Emit(TurnStarted(turn)), AskModel(msgs)];
    match h.model(msgs)
    case GatewayFailed(code) => Ends(asked, msgs, Raised(code))
    case Reply(text, calls, invalid) =>
      var a := Assistant(text, calls, invalid);
      var saved := msgs + [a];
      var next := ReplyPhase(h, turn, a, saved, failed, corrected, lastAttempt);
      next.(trace := asked + [Save(saved)] + next.trace)
  }

  // ----- the whole invocation

  datatype Run = Run(trace: seq<Action>, messages: seq<Message>, exit: Exit)

  function TurnLimitRun(msgs: seq<Message>): Run {
    var end := Finish(TurnLimitReached, TurnLimitText, AssistantCount(msgs), msgs, None, Some(TurnLimitCode));
    Run(end.trace, msgs, end.exit)
  }

  function Then(trace: seq<Action>, run: Run): Run {
    run.(trace := trace + run.trace)
  }

  /** At most `left` further model turns. */
  function Loop(h: Host, msgs: seq<Message>, failed: set<string>, corrected: bool, left: nat): Run
    decreases left
  {
    if left == 0 then TurnLimitRun(msgs)
    else match TurnPhase(h, msgs, failed, corrected, left == 1)
      case Ends(trace, m, exit) => Run(trace, m, exit)
      case Goes(trace, m, f, c) => Then(trace, Loop(h, m, f, c, left - 1))
  }

  /** `_checkpointed_assistant_tail`: the last assistant message when only results follow it. */
  function TailOf(msgs: seq<Message>): (tail: Option<nat>)
    ensures tail.Some? ==>
      && tail.value < |msgs| && msgs[tail.value].Assistant?
      && forall i :: tail.value < i < |msgs| ==> msgs[i].ToolResult?
  {
    if msgs == [] then None
    else
      var last := msgs[|msgs| - 1];
      if last.Assistant? then Some(|msgs| - 1)
      else if last.ToolResult? then TailOf(msgs[..|msgs| - 1])
      else None
  }

  /** `_resume_checkpointed_tail`. */
  function ResumePhase(h: Host, msgs: seq<Message>, failed: set<string>): Phase {
    match TailOf(msgs)
    case None => Goes([], msgs, failed, false)
    case Some(t) =>
      var a := msgs[t];
      var turn := if AssistantCount(msgs) > 1 then AssistantCount(msgs) else 1;
      var calls := ToolCalls(a, turn);
      var check := if h.requireTerminal then ValidateTerminal(h, a, calls, msgs, true) else NoTerminalCall;
      if calls == [] then AnswerPhase(h, turn, a, msgs, h.requireTerminal)
      else if !check.NoTerminalCall? then TerminalPhase(h, turn, check, msgs, failed, false)
      else BatchPhase(h, turn, a, ResultsById(msgs[t + 1..]), msgs, failed)
  }

  /** One invocation, from a transcript that includes the system message. */
  function Session(h: Host, msgs: seq<Message>, maxTurns: nat): Run {
    match ResumePhase(h, msgs, FailedFingerprints(h.fingerprint, msgs))
    case Ends(trace, m, exit) => Run(trace, m, exit)
    case Goes(trace, m, f, c) => Then(trace, Loop(h, m, f, c, maxTurns))
  }

  /** `run_native_tool_loop`: classified failures return the transcript that was handed in. */
  function Invocation(h: Host, system: string, restored: seq<Message>, input: Option<string>, maxTurns: nat): AgentResult {
    var opening := [System(Prompt(system))] + restored + (if input.Some? then [Human(input.value)] else []);
    match Session(h, opening, maxTurns).exit
    case Finished(result) => result
    case Raised(code) =>
      AgentResult(FailedRun, FailureResponse(code), AssistantCount(restored), restored, None, Some(code))
  }
}
