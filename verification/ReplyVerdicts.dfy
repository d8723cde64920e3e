/** What a reply leads to, told from the messages themselves (`app/agents/harness.py`): the calls it makes, the results it
    answers for, what the host's resolver settles, and when an explicit terminal call is accepted. */
module ReplyVerdicts {
  import opened Prelude
  import opened Transcript
  import opened FailureControl
  import opened HostContracts
  import opened LoopSpec
  import opened LoopExits
  import opened LoopOutcomes

  // ----- text

  predicate Space(c: char) { c == ' ' || c == '\t' || c == '\n' || c == '\r' }

  predicate Blank(s: string) { forall i :: 0 <= i < |s| ==> Space(s[i]) }

  /** `t` is `s` without the blanks around it. */
  ghost predicate Trimmed(s: string, t: string) {
    exists i, j :: 0 <= i <= j <= |s| && Trims(s, i, j) && t == s[i..j]
  }

  ghost predicate Trims(s: string, i: nat, j: nat)
    requires i <= j <= |s|
  {
    Blank(s[..i]) && Blank(s[j..]) && (i < j ==> !Space(s[i]) && !Space(s[j - 1]))
  }

  lemma TrimFront(s: string, t: string)
    requires s != "" && Space(s[0]) && Trimmed(s[1..], t)
    ensures Trimmed(s, t) && (Blank(s) <==> Blank(s[1..]))
  {
    var i, j :| 0 <= i <= j <= |s[1..]| && Trims(s[1..], i, j) && t == s[1..][i..j];
    assert s[..i + 1] == [s[0]] + s[1..][..i] && s[j + 1..] == s[1..][j..] && s == [s[0]] + s[1..];
    assert Trims(s, i + 1, j + 1) && t == s[i + 1..j + 1];
  }

  lemma TrimBack(s: string, t: string)
    requires s != "" && Space(s[|s| - 1]) && Trimmed(s[..|s| - 1], t)
    ensures Trimmed(s, t) && (Blank(s) <==> Blank(s[..|s| - 1]))
  {
    var n := |s| - 1;
    var i, j :| 0 <= i <= j <= n && Trims(s[..n], i, j) && t == s[..n][i..j];
    assert s[..i] == s[..n][..i] && s[j..] == s[..n][j..] + [s[n]] && s == s[..n] + [s[n]];
    assert Trims(s, i, j) && t == s[i..j];
  }

  lemma {:induction false} StripTrims(s: string)
    ensures Trimmed(s, Strip(s)) && (Strip(s) == "" <==> Blank(s))
    decreases |s|
  {
    hide Trimmed, Blank;
    if s == "" {
      NothingToTrim(s);
    } else if Space(s[0]) {
      StripTrims(s[1..]);
      TrimFront(s, Strip(s[1..]));
    } else if Space(s[|s| - 1]) {
      StripTrims(s[..|s| - 1]);
      TrimBack(s, Strip(s[..|s| - 1]));
    } else {
      NothingToTrim(s);
    }
  }

  lemma NothingToTrim(s: string)
    requires s == "" || (!Space(s[0]) && !Space(s[|s| - 1]))
    ensures Trimmed(s, s) && (s == "" <==> Blank(s))
  {
    assert Trims(s, 0, |s|) && s == s[0..|s|];
  }

  // ----- the calls of a reply

  /** Each call of a reply: its own id when it has one, its name, and what is wrong with it. */
  lemma CallsSpelled(a: Message, turn: nat)
    requires a.Assistant?
    ensures var calls := ToolCalls(a, turn);
            && |calls| == |a.calls| + |a.invalid|
            && (forall i :: 0 <= i < |a.calls| ==> RegularIs(a.calls[i], calls[i]))
            && (forall i :: 0 <= i < |a.invalid| ==> UnparsedIs(a.invalid[i], calls[|a.calls| + i]))
  {}

  predicate RegularIs(raw: RawCall, call: ToolCall) {
    match raw
    case NotAnObject => call.name == "malformed_tool_call" && call.args == Mapping("{}") && call.malformed == Some(CallNotAnObject)
    case RawCall(name, id, args) =>
      && (id != "" ==> call.callId == id) && call.args == args
      && (name == "" ==> call.name == "malformed_tool_call" && call.malformed == Some(NameMissing))
      && (name != "" ==> call.name == name && (call.malformed.None? <==> args.Mapping?)
                         && (call.malformed.Some? ==> call.malformed.value == ArgumentsNotAnObject))
  }

  predicate UnparsedIs(raw: InvalidCall, call: ToolCall) {
    && (raw.id != "" ==> call.callId == raw.id) && call.args == raw.args
    && call.name == (if raw.name == "" then "malformed_tool_call" else raw.name)
    && (raw.error == "tool arguments must be an object" ==> call.malformed == Some(ArgumentsNotAnObject))
    && (raw.error == "" ==> call.malformed == Some(Unparsed("tool call could not be parsed")))
    && (raw.error != "" && raw.error != "tool arguments must be an object" ==> call.malformed == Some(Unparsed(raw.error)))
  }

  /** A failure is attributed to the last call with its id. */
  lemma {:induction false} LookupIsLast(calls: seq<ToolCall>, id: string)
    ensures LookupCall(calls, id).None? <==> forall i :: 0 <= i < |calls| ==> calls[i].callId != id
    ensures forall i :: 0 <= i < |calls| && calls[i].callId == id && (forall j :: i < j < |calls| ==> calls[j].callId != id) ==>
              LookupCall(calls, id) == Some(calls[i])
    decreases |calls|
  {
    if calls != [] && calls[|calls| - 1].callId != id {
      var n := |calls| - 1;
      LookupIsLast(calls[..n], id);
      assert forall i :: 0 <= i < n ==> calls[..n][i] == calls[i];
    }
  }

  /** The numerals in synthesized ids read back. */
  function ValueOf(digits: string): int {
    if digits == "" then 0 else 10 * ValueOf(digits[..|digits| - 1]) + (digits[|digits| - 1] as int - '0' as int)
  }

  lemma {:induction false} DecimalReadsBack(n: nat)
    ensures ValueOf(Decimal(n)) == n && forall i :: 0 <= i < |Decimal(n)| ==> '0' <= Decimal(n)[i] <= '9'
    decreases n
  {
    var digit := "0123456789"[n % 10];
    assert digit as int == '0' as int + n % 10;
    if n < 10 {
      assert Decimal(n) == [digit] && [digit][..0] == "";
      assert ValueOf("") == 0;
    } else {
      DecimalReadsBack(n / 10);
      assert Decimal(n)[..|Decimal(n)| - 1] == Decimal(n / 10);
    }
  }

  /** What a resumed batch takes for recorded: of each non-empty id the first result. */
  lemma {:induction false} RecordedIsFirst(suffix: seq<Message>, id: string)
    requires forall i :: 0 <= i < |suffix| ==> suffix[i].ToolResult?
    ensures id in ResultsById(suffix) <==> id != "" && exists i :: 0 <= i < |suffix| && suffix[i].callId == id
    ensures forall i :: 0 <= i < |suffix| && suffix[i].callId == id && (forall j :: 0 <= j < i ==> suffix[j].callId != id) && id != "" ==>
              ResultsById(suffix)[id] == suffix[i].payload
    decreases |suffix|
  {
    if suffix != [] {
      var n := |suffix| - 1;
      RecordedIsFirst(suffix[..n], id);
      assert forall i :: 0 <= i < n ==> suffix[..n][i] == suffix[i];
    }
  }

  // ----- the results since the owner's last message

  ghost predicate Recent(msgs: seq<Message>, i: int) {
    0 <= i < |msgs| && msgs[i].ToolResult? && forall j :: i < j < |msgs| ==> !msgs[j].Human?
  }

  ghost predicate AwaitsReview(msgs: seq<Message>) {
    exists i :: Recent(msgs, i) && msgs[i].payload.Succeeded? && msgs[i].payload.reviewRequired
  }

  ghost predicate NothingButFailures(msgs: seq<Message>) {
    (exists i :: Recent(msgs, i)) && forall i :: Recent(msgs, i) ==> msgs[i].payload.Failed?
  }

  ghost predicate LastRecent(msgs: seq<Message>, i: int) { Recent(msgs, i) && forall j :: i < j ==> !Recent(msgs, j) }

  /** Position `k` among the recent results is message `at[k]`. */
  ghost predicate Lists(msgs: seq<Message>, at: seq<int>, results: seq<Payload>) {
    && |at| == |results| && (forall k :: 0 <= k < |at| ==> Recent(msgs, at[k]) && msgs[at[k]].payload == results[k])
    && (forall i :: Recent(msgs, i) ==> i in at) && (forall k, l :: 0 <= k < l < |at| ==> at[k] < at[l])
  }

  lemma {:induction false} RecentResults(msgs: seq<Message>) returns (at: seq<int>)
    ensures Lists(msgs, at, ToolsAfterHuman(msgs))
    decreases |msgs|
  {
    hide Lists;
    if msgs == [] || msgs[|msgs| - 1].Human? {
      at := [];
      NothingRecent(msgs);
    } else {
      var n := |msgs| - 1;
      var earlier := RecentResults(msgs[..n]);
      at := if msgs[n].ToolResult? then earlier + [n] else earlier;
      ListsOn(msgs, earlier, ToolsAfterHuman(msgs[..n]));
      assert ToolsAfterHuman(msgs[..n]) + [] == ToolsAfterHuman(msgs[..n]);
    }
  }

  lemma NothingRecent(msgs: seq<Message>)
    requires msgs == [] || msgs[|msgs| - 1].Human?
    ensures Lists(msgs, [], [])
  {}

  lemma RecentOn(msgs: seq<Message>, i: int)
    requires msgs != [] && !msgs[|msgs| - 1].Human? && i < |msgs| - 1
    ensures Recent(msgs, i) <==> Recent(msgs[..|msgs| - 1], i)
    ensures 0 <= i ==> msgs[..|msgs| - 1][i] == msgs[i]
  {
    var n := |msgs| - 1;
    assert forall j :: 0 <= j < n ==> msgs[..n][j] == msgs[j];
  }

  lemma ListsOn(msgs: seq<Message>, at: seq<int>, results: seq<Payload>)
    requires msgs != [] && !msgs[|msgs| - 1].Human? && Lists(msgs[..|msgs| - 1], at, results)
    ensures var n := |msgs| - 1;
            if msgs[n].ToolResult? then Lists(msgs, at + [n], results + [msgs[n].payload]) else Lists(msgs, at, results)
  {
    var n := |msgs| - 1;
    forall i | i < n
      ensures Recent(msgs, i) <==> Recent(msgs[..n], i)
      ensures 0 <= i ==> msgs[..n][i] == msgs[i]
    {
      RecentOn(msgs, i);
    }
    assert Recent(msgs, n) <==> msgs[n].ToolResult?;
    assert forall k :: 0 <= k < |at| ==> Recent(msgs[..n], at[k]) && 0 <= at[k] < n;
    hide Recent;
    assert n in at + [n];
  }

  /** The two tests of lifecycle mode, over the messages themselves. */
  lemma RecentSpelled(msgs: seq<Message>)
    ensures HasReviewRequired(msgs) <==> AwaitsReview(msgs)
    ensures OnlyFailedTools(msgs) <==> NothingButFailures(msgs)
    ensures forall i :: LastRecent(msgs, i) ==> ToolsAfterHuman(msgs) != [] && ToolsAfterHuman(msgs)[|ToolsAfterHuman(msgs)| - 1] == msgs[i].payload
  {
    hide ToolsAfterHuman;
    var at := RecentResults(msgs);
    var recent := ToolsAfterHuman(msgs);
    if AwaitsReview(msgs) {
      var i :| Recent(msgs, i) && msgs[i].payload.Succeeded? && msgs[i].payload.reviewRequired;
      var k :| 0 <= k < |at| && at[k] == i;
      assert recent[k].reviewRequired;
    }
    if HasReviewRequired(msgs) {
      var k :| 0 <= k < |recent| && recent[k].Succeeded? && recent[k].reviewRequired;
      assert Recent(msgs, at[k]);
    }
    if recent != [] {
      assert Recent(msgs, at[0]) && Recent(msgs, at[|at| - 1]);
      forall i | Recent(msgs, i)
        ensures exists k :: 0 <= k < |at| && at[k] == i && recent[k] == msgs[i].payload
      {}
    }
  }

  // ----- what the owner is shown

  /** What is shown of `l`: its content, or what the renderer makes of it unless that is blank. */
  ghost predicate ShownAs(h: Host, l: Lifecycle, msgs: seq<Message>, text: string) {
    if h.renderer.None? || Blank(h.renderer.value(l, msgs)) then text == l.content else Trimmed(h.renderer.value(l, msgs), text)
  }

  predicate ShowsText(h: Host, l: Lifecycle, msgs: seq<Message>) {
    !Blank(l.content) || (h.renderer.Some? && !Blank(h.renderer.value(l, msgs)))
  }

  lemma RenderSpelled(h: Host, l: Lifecycle, msgs: seq<Message>)
    ensures ShownAs(h, l, msgs, Render(h, l, msgs))
    ensures Strip(Render(h, l, msgs)) != "" <==> ShowsText(h, l, msgs)
  {
    hide Strip, Trimmed, Blank;
    StripTrims(l.content);
    if h.renderer.Some? {
      var raw := h.renderer.value(l, msgs);
      StripTrims(raw);
      StripTrims(Strip(raw));
      TrimmedStays(raw, Strip(raw));
    }
  }

  lemma TrimmedStays(s: string, t: string)
    requires Trimmed(s, t)
    ensures Blank(t) <==> t == ""
  {
    if t != "" {
      var i, j :| 0 <= i <= j <= |s| && Trims(s, i, j) && t == s[i..j];
      assert t[0] == s[i];
    }
  }

  ghost predicate ConcludesAs(h: Host, l: Lifecycle, turn: nat, msgs: seq<Message>, exit: Exit) {
    && exit.Finished? && exit.result.response.Words? && ShownAs(h, l, msgs, exit.result.response.text)
    && exit.result == AgentResult(if l.disposition.AwaitingUser? then AwaitingOwner else CompletedRun, exit.result.response,
                                  turn, msgs, Some(l.disposition), None)
  }

  predicate FailsFor(code: Code, response: Response, turn: nat, msgs: seq<Message>, exit: Exit) {
    exit == Finished(AgentResult(FailedRun, response, turn, msgs, None, Some(code)))
  }

  // ----- the host's resolver

  /** The lifecycle a resolver's answer stands for. */
  predicate Offers(reply: HostReply, l: Lifecycle) {
    || (reply.Conversation? && l == reply.lifecycle)
    || (reply.Resolution? && (reply.disposition.Complete? || reply.disposition.AwaitOwner?)
        && l == match reply.own {
                  case Some(own) => own
                  case None => Lifecycle(if reply.disposition.Complete? then Completed else AwaitingUser, reply.content)
                })
  }

  /** What the resolver's answer settles, if anything: a lifecycle must be one the host supports, approved by the validator
      and show some text. */
  ghost predicate SettledBy(h: Host, reply: HostReply, turn: nat, msgs: seq<Message>, settled: Option<Exit>) {
    && (settled.None? <==> reply.NoReply? || (reply.Resolution? && reply.disposition.ContinueModel?))
    && (reply.ResolverRaised? ==> settled == Some(Raised(ResolverFailed)))
    && (reply.Resolution? && reply.disposition.FailRun? ==>
          FailsFor(match reply.errorCode { case Some(code) => code case None => ResolverFailed },
                   if reply.content == "" then HostFailureText else Words(reply.content), turn, msgs, settled.value))
    && (reply.Resolution? && reply.disposition.Unrecognized? ==> FailsFor(ResolverFailed, HostFailureText, turn, msgs, settled.value))
    && forall l :: Offers(reply, l) ==>
         if !l.disposition.Unsupported? && Blank(h.validator(l, msgs)) && ShowsText(h, l, msgs)
         then ConcludesAs(h, l, turn, msgs, settled.value)
         else FailsFor(ResolverFailed, HostFailureText, turn, msgs, settled.value)
  }

  /** The checkpoint of a settled batch: written before the run ends, but not for an answer the host does not know. */
  predicate CheckpointDue(reply: HostReply, batch: bool) {
    batch && (reply.Conversation? || (reply.Resolution? && !reply.disposition.ContinueModel? && !reply.disposition.Unrecognized?))
  }

  lemma ResolverSettles(h: Host, context: Context)
    ensures h.resolver.None? ==> Consult(h, context) == Consultation([], None)
    ensures h.resolver.Some? ==>
              var asked, reply := Consult(h, context), h.resolver.value(context);
              && SettledBy(h, reply, context.turn, context.messages, asked.settled)
              && asked.trace != [] && asked.trace[0] == AskResolver(context)
              && (Save(context.messages) in asked.trace <==> CheckpointDue(reply, context.ToolBatch?))
  {
    hide Render, Strip, ShownAs, ShowsText, Blank;
    if h.resolver.Some? {
      var reply := h.resolver.value(context);
      forall l | Offers(reply, l)
        ensures ShownAs(h, l, context.messages, Render(h, l, context.messages))
        ensures Strip(Render(h, l, context.messages)) != "" <==> ShowsText(h, l, context.messages)
        ensures Strip(h.validator(l, context.messages)) == "" <==> Blank(h.validator(l, context.messages))
      {
        RenderSpelled(h, l, context.messages);
        StripTrims(h.validator(l, context.messages));
      }
    }
  }

  // ----- explicit terminal calls

  predicate MakesTerminalCall(calls: seq<ToolCall>) { exists i :: 0 <= i < |calls| && calls[i].name == "emit_conversation_response" }

  predicate MayEndAs(disposition: Option<Disposition>, allowCompleted: bool) {
    disposition == Some(AwaitingUser) || (allowCompleted && disposition == Some(Completed))
  }

  /** A terminal call is accepted as `l`: it is alone, well-formed, free of text beside it, and approved. */
  ghost predicate Accepts(h: Host, a: Message, calls: seq<ToolCall>, msgs: seq<Message>, allowCompleted: bool, l: Lifecycle)
    requires a.Assistant?
  {
    && |calls| == 1 && calls[0].name == "emit_conversation_response" && calls[0].malformed.None? && calls[0].args.Mapping?
    && h.readDisposition(calls[0].args) == Some(l.disposition) && MayEndAs(Some(l.disposition), allowCompleted)
    && h.readContent(calls[0].args) == Ok(l.content)
    && a.text == "" && Blank(h.validator(l, msgs))
  }

  /** Why one is refused: the first of these that applies. */
  ghost predicate RefusedFor(h: Host, a: Message, calls: seq<ToolCall>, msgs: seq<Message>, allowCompleted: bool, error: TerminalError)
    requires a.Assistant? && MakesTerminalCall(calls)
  {
    if |calls| > 1 then error == NotTheOnlyCall
    else
      var call := calls[0];
      if call.malformed.Some? then error == Defective(call.malformed.value)
      else if call.args.NonMapping? then error == Defective(ArgumentsNotAnObject)
      else if !MayEndAs(h.readDisposition(call.args), allowCompleted) then
        error == BadArguments(if allowCompleted then "terminal response disposition must be awaiting_user or completed"
                              else "terminal response disposition must be awaiting_user")
      else match h.readContent(call.args)
        case Err(text) => error == BadArguments(text)
        case Ok(content) =>
          var verdict := h.validator(Lifecycle(h.readDisposition(call.args).value, content), msgs);
          if a.text != "" then error == TextBesideCall
          else error.Rejected? && !Blank(verdict) && Trimmed(verdict, error.text)
  }

  /** A reply without a terminal call is left alone; one with it is accepted if and only if `Accepts` says so, and otherwise
      refused for the first reason. */
  lemma TerminalIff(h: Host, a: Message, calls: seq<ToolCall>, msgs: seq<Message>, allowCompleted: bool)
    requires a.Assistant?
    ensures var check := ValidateTerminal(h, a, calls, msgs, allowCompleted);
            && (check.NoTerminalCall? <==> !MakesTerminalCall(calls))
            && (forall l :: check == ValidTerminal(l) <==> Accepts(h, a, calls, msgs, allowCompleted, l))
            && (check.InvalidTerminal? ==> RefusedFor(h, a, calls, msgs, allowCompleted, check.error))
  {
    hide Strip, Blank, Trimmed;
    if |calls| == 1 {
      var disposition, content := h.readDisposition(calls[0].args), h.readContent(calls[0].args);
      if disposition.Some? && content.Ok? {
        StripTrims(h.validator(Lifecycle(disposition.value, content.value), msgs));
      }
    }
  }

  // ----- closing a run the model could not end

  /** How a run is closed: with the last failure's message when nothing but failures came back, if it has one to show. */
  ghost predicate ClosesAs(turn: nat, msgs: seq<Message>, exit: Exit) {
    && (!NothingButFailures(msgs) ==> FailsFor(InvalidTerminalResponse, LifecycleFailureText, turn, msgs, exit))
    && (NothingButFailures(msgs) ==> forall i :: LastRecent(msgs, i) ==> ClosesOver(msgs[i].payload.note, turn, msgs, exit))
  }

  ghost predicate ClosesOver(note: Note, turn: nat, msgs: seq<Message>, exit: Exit) {
    if note.ForeignNote? && Blank(note.text) then FailsFor(InvalidTerminalResponse, LifecycleFailureText, turn, msgs, exit)
    else
      && exit.Finished? && exit.result.response.DataUnavailable?
      && exit.result == AgentResult(CompletedRun, exit.result.response, turn, msgs, Some(Completed), None)
      && var shown := exit.result.response.note;
         if note.HostNote? then shown.HostNote?
         else shown.ForeignNote? && exists whole :: Trimmed(note.text, whole) && shown.text == if |whole| <= 1024 then whole else whole[..1024]
  }

  lemma ClosingSpelled(turn: nat, msgs: seq<Message>)
    ensures ClosesAs(turn, msgs, FailClosed(turn, msgs).exit)
  {
    hide Strip, ToolsAfterHuman, OnlyFailedTools, NothingButFailures, LastRecent, Trimmed, Blank, HasReviewRequired, AwaitsReview;
    RecentSpelled(msgs);
    if NothingButFailures(msgs) {
      FailedHasLast(msgs);
      var recent := ToolsAfterHuman(msgs);
      var note := recent[|recent| - 1].note;
      if note.ForeignNote? {
        StripTrims(note.text);
      }
    }
  }

  lemma FailedHasLast(msgs: seq<Message>)
    requires OnlyFailedTools(msgs)
    ensures ToolsAfterHuman(msgs) != [] && ToolsAfterHuman(msgs)[|ToolsAfterHuman(msgs)| - 1].Failed?
  {}

  // ----- a reply without calls

  /** How a plain answer ends that the resolver does not settle: in lifecycle mode it may not pass over a result that awaits
      review, nor over nothing but failures. */
  ghost predicate AnswersAs(h: Host, turn: nat, text: string, msgs: seq<Message>, exit: Exit) {
    if h.requireTerminal && AwaitsReview(msgs) then
      FailsFor(InvalidTerminalResponse, FailureText(InvalidTerminalResponse), turn, msgs, exit)
    else if h.requireTerminal && NothingButFailures(msgs) then ClosesAs(turn, msgs, exit)
    else exit == Finished(AgentResult(CompletedRun, Words(text), turn, msgs, None, None))
  }

  /** The phase asks the resolver at once and ends the way it settles. */
  ghost predicate EndsAsSettled(h: Host, context: Context, p: Phase) {
    && h.resolver.Some? && p.trace != [] && p.trace[0] == AskResolver(context) && p.Ends?
    && SettledBy(h, h.resolver.value(context), context.turn, context.messages, Some(p.exit))
  }

  /** The resolver, if there is one, was asked and left it to the loop. */
  predicate AskedInVain(h: Host, context: Context, p: Phase) {
    h.resolver.Some? ==>
      && p.trace != [] && p.trace[0] == AskResolver(context)
      && var reply := h.resolver.value(context); reply.NoReply? || (reply.Resolution? && reply.disposition.ContinueModel?)
  }

  lemma AnswerSpelled(h: Host, turn: nat, a: Message, msgs: seq<Message>, consult: bool)
    requires a.Assistant?
    ensures var p, context := AnswerPhase(h, turn, a, msgs, consult), AssistantResponse(turn, msgs);
            && p.Ends? && p.messages == msgs
            && ((consult && EndsAsSettled(h, context, p)) || ((consult ==> AskedInVain(h, context, p)) && AnswersAs(h, turn, a.text, msgs, p.exit)))
            && (!consult ==> |p.trace| == 1)
  {
    hide Consult, HasReviewRequired, OnlyFailedTools, AwaitsReview, NothingButFailures, ActionableFailure, ClosesAs;
    ResolverSettles(h, AssistantResponse(turn, msgs));
    RecentSpelled(msgs);
    ClosingSpelled(turn, msgs);
  }

  // ----- a reply with a terminal call

  /** What an explicit terminal call leads to. Refused, it is first shown to the resolver, then corrected or closed. */
  ghost predicate TerminalAs(h: Host, turn: nat, a: Message, calls: seq<ToolCall>, msgs: seq<Message>, failed: set<string>,
                             allowCompleted: bool, closeNow: bool, p: Phase)
    requires a.Assistant? && MakesTerminalCall(calls)
  {
    var context := AssistantResponse(turn, msgs);
    if exists l :: Accepts(h, a, calls, msgs, allowCompleted, l) then
      p.Ends? && |p.trace| == 1 && forall l :: Accepts(h, a, calls, msgs, allowCompleted, l) ==> ConcludesAs(h, l, turn, msgs, p.exit)
    else
      || EndsAsSettled(h, context, p)
      || (AskedInVain(h, context, p)
          && if closeNow then p.Ends? && ClosesAs(turn, msgs, p.exit)
             else exists error :: RefusedFor(h, a, calls, msgs, allowCompleted, error)
                    && p == Goes(p.trace, msgs + [System(CorrectionOf(error))], failed, true))
  }

  lemma TerminalSpelled(h: Host, turn: nat, a: Message, calls: seq<ToolCall>, msgs: seq<Message>, failed: set<string>,
                        allowCompleted: bool, closeNow: bool)
    requires a.Assistant? && MakesTerminalCall(calls)
    ensures !ValidateTerminal(h, a, calls, msgs, allowCompleted).NoTerminalCall?
    ensures TerminalAs(h, turn, a, calls, msgs, failed, allowCompleted, closeNow,
                       TerminalPhase(h, turn, ValidateTerminal(h, a, calls, msgs, allowCompleted), msgs, failed, closeNow))
  {
    hide ValidateTerminal, Accepts, RefusedFor, Consult, ClosesAs, ActionableFailure, Render, ShownAs, SettledBy, MakesTerminalCall;
    TerminalIff(h, a, calls, msgs, allowCompleted);
    ResolverSettles(h, AssistantResponse(turn, msgs));
    ClosingSpelled(turn, msgs);
    if h.resolver.Some? {
      UnsettledIsVain(h, turn, msgs);
    }
    var check := ValidateTerminal(h, a, calls, msgs, allowCompleted);
    if check.ValidTerminal? {
      RenderSpelled(h, check.lifecycle, msgs);
      assert Accepts(h, a, calls, msgs, allowCompleted, check.lifecycle);
    }
  }

  lemma UnsettledIsVain(h: Host, turn: nat, msgs: seq<Message>)
    requires h.resolver.Some?
    ensures var reply := h.resolver.value(AssistantResponse(turn, msgs));
            SettledBy(h, reply, turn, msgs, None) ==> reply.NoReply? || (reply.Resolution? && reply.disposition.ContinueModel?)
  {}

  // ----- replies

  /** The loop's treatment of a fresh reply: live, a terminal call may only ask the owner back. */
  lemma ReplySpelled(h: Host, turn: nat, a: Message, msgs: seq<Message>, failed: set<string>, corrected: bool, lastAttempt: bool)
    requires a.Assistant?
    ensures var calls, p := ToolCalls(a, turn), ReplyPhase(h, turn, a, msgs, failed, corrected, lastAttempt);
            && (h.requireTerminal && MakesTerminalCall(calls) ==> TerminalAs(h, turn, a, calls, msgs, failed, false, corrected || lastAttempt, p))
            && (calls == [] ==> p == AnswerPhase(h, turn, a, msgs, true))
            && (calls != [] && !(h.requireTerminal && MakesTerminalCall(calls)) ==>
                  var batch := BatchPhase(h, turn, a, map[], msgs, failed);
                  p == if batch.Goes? then batch.(corrected := corrected) else batch)
  {
    hide ValidateTerminal, TerminalPhase, AnswerPhase, BatchPhase, ToolCalls, TerminalAs;
    var calls := ToolCalls(a, turn);
    TerminalIff(h, a, calls, msgs, false);
    if MakesTerminalCall(calls) {
      TerminalSpelled(h, turn, a, calls, msgs, failed, false, corrected || lastAttempt);
    }
  }

  /** The transcript ends with an assistant message at `t` and results only. */
  predicate TailAt(msgs: seq<Message>, t: int) {
    0 <= t < |msgs| && msgs[t].Assistant? && forall i :: t < i < |msgs| ==> msgs[i].ToolResult?
  }

  lemma {:induction false} TailSpelled(msgs: seq<Message>)
    ensures forall t: nat :: TailOf(msgs) == Some(t) <==> TailAt(msgs, t)
    decreases |msgs|
  {
    if msgs != [] && msgs[|msgs| - 1].ToolResult? {
      var n := |msgs| - 1;
      TailSpelled(msgs[..n]);
      forall t: nat
        ensures TailAt(msgs[..n], t) <==> TailAt(msgs, t)
      {
        assert forall i :: 0 <= i < n ==> msgs[..n][i] == msgs[i];
      }
    }
  }

  lemma {:induction false} AssistantCounted(msgs: seq<Message>, t: nat)
    requires t < |msgs| && msgs[t].Assistant?
    ensures AssistantCount(msgs) >= 1
    decreases |msgs|
  {
    if t < |msgs| - 1 {
      AssistantCounted(msgs[..|msgs| - 1], t);
    }
  }

  /** The treatment of a reply found at the end of the transcript: with the turn it had, the resolver is asked about a plain
      answer only in lifecycle mode, a terminal call may complete the run and is corrected rather than closed, and of each id
      the first result is kept. */
  lemma ResumeSpelled(h: Host, msgs: seq<Message>, failed: set<string>)
    ensures (forall t :: !TailAt(msgs, t)) ==> ResumePhase(h, msgs, failed) == Goes([], msgs, failed, false)
    ensures forall t :: TailAt(msgs, t) ==> ResumedAt(h, msgs, failed, t, ResumePhase(h, msgs, failed))
  {
    hide ValidateTerminal, TerminalPhase, AnswerPhase, BatchPhase, ToolCalls, TerminalAs, ResultsById, MakesTerminalCall, TailAt, AssistantCount;
    TailSpelled(msgs);
    forall t: int | TailAt(msgs, t)
      ensures ResumedAt(h, msgs, failed, t, ResumePhase(h, msgs, failed))
    {
      TailCounts(msgs, t);
      assert TailOf(msgs) == Some(t);
      var a, turn := msgs[t], AssistantCount(msgs);
      var calls := ToolCalls(a, turn);
      TerminalIff(h, a, calls, msgs, true);
      if MakesTerminalCall(calls) {
        TerminalCalls(calls);
        TerminalSpelled(h, turn, a, calls, msgs, failed, true, false);
      }
    }
  }

  lemma TailCounts(msgs: seq<Message>, t: int)
    requires TailAt(msgs, t)
    ensures 0 <= t < |msgs| && msgs[t].Assistant? && AssistantCount(msgs) >= 1
  {
    AssistantCounted(msgs, t);
  }

  lemma TerminalCalls(calls: seq<ToolCall>)
    requires MakesTerminalCall(calls)
    ensures calls != []
  {}

  ghost predicate ResumedAt(h: Host, msgs: seq<Message>, failed: set<string>, t: int, p: Phase)
    requires TailAt(msgs, t)
  {
    var a, turn := msgs[t], AssistantCount(msgs);
    var calls := ToolCalls(a, turn);
    && (h.requireTerminal && MakesTerminalCall(calls) ==> TerminalAs(h, turn, a, calls, msgs, failed, true, false, p))
    && (calls == [] ==> p == AnswerPhase(h, turn, a, msgs, h.requireTerminal))
    && (calls != [] && !(h.requireTerminal && MakesTerminalCall(calls)) ==> p == BatchPhase(h, turn, a, ResultsById(msgs[t + 1..]), msgs, failed))
  }

  // ----- turns

  /** One turn: it is announced, the model sees the transcript so far, and its reply is saved before anything else. */
  lemma TurnSpelled(h: Host, msgs: seq<Message>, failed: set<string>, corrected: bool, lastAttempt: bool)
    ensures var p, reply, turn := TurnPhase(h, msgs, failed, corrected, lastAttempt), h.model(msgs), AssistantCount(msgs) + 1;
            && |p.trace| >= 2 && p.trace[0] == Emit(TurnStarted(turn)) && p.trace[1] == AskModel(msgs)
            && (reply.GatewayFailed? ==> |p.trace| == 2 && p.Ends? && p.messages == msgs && p.exit == Raised(reply.code))
            && (reply.Reply? ==>
                  var a := Assistant(reply.text, reply.calls, reply.invalid);
                  var next := ReplyPhase(h, turn, a, msgs + [a], failed, corrected, lastAttempt);
                  |p.trace| >= 3 && p.trace[2] == Save(msgs + [a]) && p == next.(trace := p.trace[..3] + next.trace))
  {
    hide ReplyPhase;
  }

  lemma TerminalMessages(h: Host, turn: nat, check: TerminalCheck, msgs: seq<Message>, failed: set<string>, closeNow: bool)
    requires !check.NoTerminalCall?
    ensures var p := TerminalPhase(h, turn, check, msgs, failed, closeNow); if p.Ends? then p.messages == msgs else !closeNow
  {
    hide Consult, FailClosed;
  }

  ghost predicate Answered(msgs: seq<Message>) { msgs != [] && !msgs[|msgs| - 1].System? }

  lemma TurnAnswers(h: Host, msgs: seq<Message>, failed: set<string>, corrected: bool, lastAttempt: bool)
    ensures var p := TurnPhase(h, msgs, failed, corrected, lastAttempt);
            (p.Goes? && lastAttempt) || (p.Ends? && p.exit.Finished?) ==> Answered(p.messages)
  {
    hide BatchPhase, AnswerPhase, TerminalPhase, ValidateTerminal, ToolCalls;
    var turn, reply := AssistantCount(msgs) + 1, h.model(msgs);
    if reply.Reply? {
      var a := Assistant(reply.text, reply.calls, reply.invalid);
      var calls, saved := ToolCalls(a, turn), msgs + [a];
      BatchAdds(h, turn, a, map[], saved, failed);
      AnswerSpelled(h, turn, a, saved, true);
      var check := if h.requireTerminal then ValidateTerminal(h, a, calls, saved, false) else NoTerminalCall;
      if !check.NoTerminalCall? {
        TerminalMessages(h, turn, check, saved, failed, corrected || lastAttempt);
      }
    }
  }

  /** A finished run never leaves the model a correction it may not answer, not even at the turn limit. */
  lemma {:induction false} CorrectionsAreAnswered(h: Host, msgs: seq<Message>, failed: set<string>, corrected: bool, left: nat)
    requires left > 0
    ensures var run := Loop(h, msgs, failed, corrected, left); run.exit.Finished? ==> Answered(run.messages)
    decreases left
  {
    hide TurnPhase, AssistantCount, Answered;
    var p := TurnPhase(h, msgs, failed, corrected, left == 1);
    TurnAnswers(h, msgs, failed, corrected, left == 1);
    if p.Goes? && left > 1 {
      CorrectionsAreAnswered(h, p.messages, p.failed, p.corrected, left - 1);
    }
  }

  /** A run stops at the turn limit only after every turn it had. */
  lemma {:induction false} LimitIsSpent(h: Host, msgs: seq<Message>, failed: set<string>, corrected: bool, left: nat)
    ensures var run := Loop(h, msgs, failed, corrected, left);
            run.exit.Finished? && run.exit.result.status == TurnLimitReached ==>
              && AssistantCount(run.messages) == AssistantCount(msgs) + left
              && run.exit.result.response == TurnLimitText && run.exit.result.errorCode == Some(TurnLimitCode)
    decreases left
  {
    hide TurnPhase, AssistantCount;
    if left > 0 {
      var p := TurnPhase(h, msgs, failed, corrected, left == 1);
      TurnSound(h, msgs, failed, corrected, left == 1);
      TurnCloses(h, msgs, failed, corrected, left == 1);
      if p.Goes? {
        LimitIsSpent(h, p.messages, p.failed, p.corrected, left - 1);
      }
    }
  }
}
