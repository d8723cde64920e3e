/** The parties the native loop talks to - model, tool handlers, lifecycle resolver, validator
    and renderer - and the host-owned code around them in `app/agents/harness.py`. */
module HostContracts {
  import opened Prelude
  import opened Transcript
  import opened FailureControl

  datatype Disposition = AwaitingUser | Completed | Unsupported

  datatype Lifecycle = Lifecycle(disposition: Disposition, content: string)

  datatype HostDisposition = Complete | ContinueModel | AwaitOwner | FailRun | Unrecognized

  /** What the lifecycle resolver answers. */
  datatype HostReply =
    | NoReply
    | ResolverRaised
    | Conversation(lifecycle: Lifecycle)
    | Resolution(disposition: HostDisposition, content: string, errorCode: Option<Code>, own: Option<Lifecycle>)

  datatype Context =
    | AssistantResponse(turn: nat, messages: seq<Message>)
    | ToolBatch(turn: nat, messages: seq<Message>, outcomes: seq<Outcome>)

  datatype ModelReply =
    | Reply(text: string, calls: seq<RawCall>, invalid: seq<InvalidCall>)
    | GatewayFailed(code: Code)

  datatype HandlerOutcome =
    | Returned(reviewRequired: bool)
    | OversizeResult
    | ToolError(code: Code, retryable: bool, text: string)
    | InvalidArguments
    | Crashed(text: string)
    | NotSerializable

  /** Everything one invocation is configured with. The parties are arbitrary functions of the
      transcript they see, so a theorem over all hosts covers every answer they may give. */
  datatype Host = Host(
    tools: map<string, EffectClass>,
    fingerprint: Printer,
    requireTerminal: bool,
    model: seq<Message> -> ModelReply,
    handler: (seq<Message>, ToolCall) -> HandlerOutcome,
    resolver: Option<Context -> HostReply>,
    readDisposition: Args -> Option<Disposition>,
    readContent: Args -> Result<string, string>,
    validator: (Lifecycle, seq<Message>) -> string,
    renderer: Option<(Lifecycle, seq<Message>) -> string>)

  datatype Status = CompletedRun | AwaitingOwner | FailedRun | TurnLimitReached

  /** Owner-visible text; each fixed wording of the source is one constructor. */
  datatype Response =
    | Words(text: string)
    | DataUnavailable(note: Note)
    | FailureText(code: Code)
    | LifecycleFailureText | HostFailureText | TurnLimitText

  datatype AgentResult = AgentResult(status: Status, response: Response, turns: nat, messages: seq<Message>,
                                     disposition: Option<Disposition>, errorCode: Option<Code>)

  datatype Exit = Finished(result: AgentResult) | Raised(code: Code)

  datatype Event =
    | TurnStarted(turn: nat)
    | ToolCalled(turn: nat, callId: string, description: Option<string>)
    | ToolFinished(turn: nat, callId: string, payload: Payload)
    | FinalResponse(turn: nat, content: Response, disposition: Option<Disposition>)

  /** One externally visible step of the loop. `Save` is a durable transcript checkpoint. */
  datatype Action =
    | Emit(event: Event)
    | AskModel(messages: seq<Message>)
    | RunHandler(call: ToolCall)
    | Save(messages: seq<Message>)
    | AskResolver(context: Context)

  const MAX_JSON_STRING_CHARS := 1024

  // ----- executing one call

  /** True when `_execute_tool_call` reaches the tool's handler. */
  predicate Invokes(h: Host, call: ToolCall) {
    call.malformed.None? && call.name in h.tools && call.args.Mapping?
  }

  function Execute(h: Host, msgs: seq<Message>, call: ToolCall): Payload {
    match call.malformed
    case Some(defect) =>
      Failed(if defect.ArgumentsNotAnObject? then ArgumentsInvalid else MalformedCall, true,
             if defect.Unparsed? then ForeignNote(defect.error) else HostNote)
    case None =>
      if call.name !in h.tools then Failed(ToolUnknown, false, HostNote)
      else if !call.args.Mapping? then Failed(ArgumentsInvalid, true, HostNote)
      else match h.handler(msgs, call)
        case Returned(review) => Succeeded(review)
        case OversizeResult => Failed(ResultOversize, true, HostNote)
        case ToolError(code, retryable, text) => Failed(code, retryable, ForeignNote(text))
        case InvalidArguments => Failed(ArgumentsInvalid, true, HostNote)
        case Crashed(text) => Failed(ExecutionFailed, true, ForeignNote(text))
        case NotSerializable => Failed(ResultNotSerializable, true, HostNote)
  }

  lemma ExecutedResultsAreKnown(h: Host, msgs: seq<Message>, call: ToolCall)
    ensures Known(OutcomeOf(h.tools, call, Execute(h, msgs, call)))
  {
  }

  // ----- ending a run

  function Strip(s: string): string
    decreases |s|
  {
    if s == "" then ""
    else if s[0] in " \t\n\r" then Strip(s[1..])
    else if s[|s| - 1] in " \t\n\r" then Strip(s[..|s| - 1])
    else s
  }

  function FailureResponse(code: Code): Response {
    match code
    case TurnLimitCode => TurnLimitText
    case ResolverFailed => HostFailureText
    case _ => FailureText(code)
  }

  datatype Ending = Ending(trace: seq<Action>, exit: Exit)

  function Finish(status: Status, response: Response, turn: nat, msgs: seq<Message>,
                  disposition: Option<Disposition>, errorCode: Option<Code>): Ending
  {
    Ending([Emit(FinalResponse(turn, response, disposition))],
           Finished(AgentResult(status, response, turn, msgs, disposition, errorCode)))
  }

  function FailWithCode(code: Code, turn: nat, msgs: seq<Message>, response: Option<Response>): Ending {
    Finish(FailedRun, if response.Some? then response.value else FailureResponse(code), turn, msgs, None, Some(code))
  }

  /** Tool payloads since the latest owner message, oldest first. */
  function ToolsAfterHuman(msgs: seq<Message>): seq<Payload> {
    if msgs == [] || msgs[|msgs| - 1].Human? then []
    else
      ToolsAfterHuman(msgs[..|msgs| - 1]) +
      if msgs[|msgs| - 1].ToolResult? then [msgs[|msgs| - 1].payload] else []
  }

  predicate OnlyFailedTools(msgs: seq<Message>) {
    var recent := ToolsAfterHuman(msgs);
    recent != [] && forall i :: 0 <= i < |recent| ==> recent[i].Failed?
  }

  predicate HasReviewRequired(msgs: seq<Message>) {
    var recent := ToolsAfterHuman(msgs);
    exists i :: 0 <= i < |recent| && recent[i].Succeeded? && recent[i].reviewRequired
  }

  function ActionableFailure(msgs: seq<Message>): Option<Response> {
    if !OnlyFailedTools(msgs) then None
    else
      var recent := ToolsAfterHuman(msgs);
      match recent[|recent| - 1].note
      case HostNote => Some(DataUnavailable(HostNote))
      case ForeignNote(raw) =>
        var text := Strip(raw);
        if text == "" then None
        else Some(DataUnavailable(ForeignNote(if |text| <= MAX_JSON_STRING_CHARS then text else text[..MAX_JSON_STRING_CHARS])))
  }

  function FailClosed(turn: nat, msgs: seq<Message>): Ending {
    match ActionableFailure(msgs)
    case Some(text) => Finish(CompletedRun, text, turn, msgs, Some(Completed), None)
    case None => Finish(FailedRun, LifecycleFailureText, turn, msgs, None, Some(InvalidTerminalResponse))
  }

  function Render(h: Host, l: Lifecycle, msgs: seq<Message>): string {
    match h.renderer
    case None => l.content
    case Some(render) => var text := Strip(render(l, msgs)); if text != "" then text else l.content
  }

  function Conclude(l: Lifecycle, content: string, turn: nat, msgs: seq<Message>): Ending {
    Finish(if l.disposition == AwaitingUser then AwaitingOwner else CompletedRun, Words(content), turn, msgs, Some(l.disposition), None)
  }

  // ----- the lifecycle resolver

  /** `_complete_host_resolution`; `batch` says whether a resolution checkpoint is due. */
  function CompleteHostResolution(h: Host, reply: HostReply, batch: bool, turn: nat, msgs: seq<Message>): Ending
    requires reply.Conversation? || (reply.Resolution? && reply.disposition != ContinueModel)
  {
    var saved := if batch then [Save(msgs)] else [];
    var rejected := FailWithCode(ResolverFailed, turn, msgs, Some(HostFailureText));
    if reply.Resolution? && reply.disposition == FailRun then
      var code := if reply.errorCode.Some? then reply.errorCode.value else ResolverFailed;
      var failed := FailWithCode(code, turn, msgs, Some(if reply.content != "" then Words(reply.content) else HostFailureText));
      Ending(saved + failed.trace, failed.exit)
    else if reply.Resolution? && reply.disposition == Unrecognized then rejected
    else
      var l := if reply.Conversation? then reply.lifecycle
               else if reply.own.Some? then reply.own.value
               else Lifecycle(if reply.disposition == AwaitOwner then AwaitingUser else Completed, reply.content);
      if l.disposition == Unsupported || Strip(h.validator(l, msgs)) != "" || Strip(Render(h, l, msgs)) == "" then
        Ending(saved + rejected.trace, rejected.exit)
      else
        var done := Conclude(l, Render(h, l, msgs), turn, msgs);
        Ending(saved + done.trace, done.exit)
  }

  /** A consultation either settles the run or leaves it to the loop. */
  datatype Consultation = Consultation(trace: seq<Action>, settled: Option<Exit>)

  function Consult(h: Host, context: Context): Consultation {
    match h.resolver
    case None => Consultation([], None)
    case Some(resolve) =>
      match resolve(context)
      case NoReply => Consultation([AskResolver(context)], None)
      case ResolverRaised => Consultation([AskResolver(context)], Some(Raised(ResolverFailed)))
      case reply =>
        if reply.Resolution? && reply.disposition == ContinueModel then
          Consultation([AskResolver(context)], None)
        else
          var end := CompleteHostResolution(h, reply, context.ToolBatch?, context.turn, context.messages);
          Consultation([AskResolver(context)] + end.trace, Some(end.exit))
  }

  // ----- explicit terminal calls

  datatype TerminalCheck = NoTerminalCall | ValidTerminal(lifecycle: Lifecycle) | InvalidTerminal(error: TerminalError)

  predicate HasTerminalCall(calls: seq<ToolCall>) {
    exists i :: 0 <= i < |calls| && calls[i].name == TERMINAL_TOOL
  }

  /** `_lifecycle_from_arguments`: the disposition is read first, then content and grounding as one. */
  function ReadLifecycle(h: Host, args: Args, allowCompleted: bool): Result<Lifecycle, string> {
    var disposition := h.readDisposition(args);
    if disposition == Some(AwaitingUser) || (disposition == Some(Completed) && allowCompleted) then
      match h.readContent(args)
      case Ok(content) => Ok(Lifecycle(disposition.value, content))
      case Err(error) => Err(error)
    else if allowCompleted then Err("terminal response disposition must be awaiting_user or completed")
    else Err("terminal response disposition must be awaiting_user")
  }

  /** `_validate_lifecycle_turn`. */
  function ValidateTerminal(h: Host, a: Message, calls: seq<ToolCall>, msgs: seq<Message>, allowCompleted: bool)
    : TerminalCheck
    requires a.Assistant?
  {
    if !HasTerminalCall(calls) then NoTerminalCall
    else if |calls| != 1 then InvalidTerminal(NotTheOnlyCall)
    else if calls[0].malformed.Some? then InvalidTerminal(Defective(calls[0].malformed.value))
    else if !calls[0].args.Mapping? then InvalidTerminal(Defective(ArgumentsNotAnObject))
    else match ReadLifecycle(h, calls[0].args, allowCompleted)
      case Err(error) => InvalidTerminal(BadArguments(error))
      case Ok(l) =>
        if a.text != "" then InvalidTerminal(TextBesideCall)
        else
          var problem := Strip(h.validator(l, msgs));
          if problem != "" then InvalidTerminal(Rejected(problem)) else ValidTerminal(l)
  }
}
