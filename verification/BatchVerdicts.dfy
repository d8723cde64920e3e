/** What a batch of calls leads to, told from its results alone: codes, flags, effect classes and fingerprints are spelled
    out here as `app/agents/harness.py` has them, and the scan and decision of the loop are proved to follow. */
module BatchVerdicts {
  import opened Prelude
  import opened Transcript
  import opened FailureControl
  import opened HostContracts
  import opened LoopSpec
  import opened Pacing
  import opened BatchReplay

  // ----- the results of a batch

  /** The transcript once the first `n` calls are answered; recorded calls are passed over. */
  function Grown(h: Host, calls: seq<ToolCall>, recorded: map<string, Payload>, n: nat, msgs: seq<Message>): seq<Message>
    requires n <= |calls|
  {
    if n == 0 then msgs
    else
      var before, call := Grown(h, calls, recorded, n - 1, msgs), calls[n - 1];
      if call.callId in recorded then before else before + [ToolResult(call.callId, Execute(h, before, call))]
  }

  /** The result of call `i`. */
  function ResultAt(h: Host, calls: seq<ToolCall>, recorded: map<string, Payload>, i: nat, msgs: seq<Message>): Payload
    requires i < |calls|
  {
    if calls[i].callId in recorded then recorded[calls[i].callId]
    else Execute(h, Grown(h, calls, recorded, i, msgs), calls[i])
  }

  /** A failure without a code counts as a failed execution. */
  function CodeOf(p: Payload): Code
    requires p.Failed?
  {
    if p.code == OtherCode("") then ExecutionFailed else p.code
  }

  predicate Writing(h: Host, call: ToolCall) { call.name in h.tools && h.tools[call.name] != ReadOnly }

  predicate Reading(h: Host, call: ToolCall) { call.name in h.tools && h.tools[call.name] == ReadOnly }

  predicate ArgumentError(code: Code) { code == ArgumentsInvalid || code == MalformedCall }

  /** A fresh failure that cannot be repaired: an unknown tool, or other than an argument error one that must not be
      retried or that a writing tool reports. */
  predicate FinalFresh(h: Host, call: ToolCall, p: Payload) {
    p.Failed?
    && (CodeOf(p) == ToolUnknown || (!ArgumentError(CodeOf(p)) && (!p.retryable || Writing(h, call))))
  }

  /** A restored one: the same, but argument errors are no exception and only registered reading tools are spared. */
  predicate FinalRestored(h: Host, call: ToolCall, p: Payload) {
    p.Failed? && (CodeOf(p) == ToolUnknown || !p.retryable || !Reading(h, call))
  }

  function Print(h: Host, call: ToolCall, p: Payload): string
    requires p.Failed?
  {
    h.fingerprint(call.name, call.args, CodeOf(p))
  }

  /** What the resolver is told about one call. */
  function Told(h: Host, call: ToolCall, p: Payload): Outcome {
    Outcome(call.callId, call.name,
            if Reading(h, call) then Some(ReadOnly) else if Writing(h, call) then Some(h.tools[call.name]) else None,
            if p.Succeeded? then None else Some(Failure(CodeOf(p), p.retryable)))
  }

  /** A fingerprint that was failed before the batch, or that an earlier fresh call of it failed with and might repair. */
  ghost predicate Remembered(h: Host, calls: seq<ToolCall>, recorded: map<string, Payload>, msgs: seq<Message>, failed: set<string>,
                             i: nat, fp: string)
    requires i <= |calls|
  {
    fp in failed || exists m: nat :: m < i && FreshPrint(h, calls, recorded, msgs, m, fp)
  }

  ghost predicate FreshPrint(h: Host, calls: seq<ToolCall>, recorded: map<string, Payload>, msgs: seq<Message>, m: nat, fp: string)
    requires m < |calls|
  {
    var p := ResultAt(h, calls, recorded, m, msgs);
    calls[m].callId !in recorded && p.Failed? && !FinalFresh(h, calls[m], p) && Print(h, calls[m], p) == fp
  }

  /** The code call `i` is held against the batch with, if it is. */
  ghost function HeldAgainst(h: Host, calls: seq<ToolCall>, recorded: map<string, Payload>, msgs: seq<Message>, failed: set<string>, i: nat)
      : Option<Code>
    requires i < |calls|
  {
    var call, p := calls[i], ResultAt(h, calls, recorded, i, msgs);
    if p.Succeeded? then None
    else if call.callId in recorded then
      if FinalRestored(h, call, p) then Some(CodeOf(p))
      else if FailureCount(h.fingerprint, Grown(h, calls, recorded, i, msgs), Print(h, call, p)) >= 2 then Some(RepeatedFailure) else None
    else if FinalFresh(h, call, p) then Some(CodeOf(p))
    else if Remembered(h, calls, recorded, msgs, failed, i, Print(h, call, p)) then Some(RepeatedFailure) else None
  }

  /** The calls held against the batch, in order, with their codes. */
  ghost function Held(h: Host, calls: seq<ToolCall>, recorded: map<string, Payload>, msgs: seq<Message>, failed: set<string>, n: nat)
      : seq<(nat, Code)>
    requires n <= |calls|
  {
    if n == 0 then []
    else
      var code := HeldAgainst(h, calls, recorded, msgs, failed, n - 1);
      Held(h, calls, recorded, msgs, failed, n - 1) + if code.Some? then [(n - 1, code.value)] else []
  }

  // ----- the scan of the loop follows

  ghost predicate Follows(h: Host, calls: seq<ToolCall>, recorded: map<string, Payload>, msgs: seq<Message>, failed: set<string>,
                          n: nat, st: BatchState)
    requires n <= |calls|
  {
    && st.messages == Grown(h, calls, recorded, n, msgs)
    && OutcomesAre(h, calls, recorded, msgs, n, st.outcomes)
    && (forall fp :: fp in st.failed <==> Remembered(h, calls, recorded, msgs, failed, n, fp))
    && DeferredAre(h, calls, st.deferred, Held(h, calls, recorded, msgs, failed, n))
  }

  ghost predicate OutcomesAre(h: Host, calls: seq<ToolCall>, recorded: map<string, Payload>, msgs: seq<Message>, n: nat, outcomes: seq<Outcome>)
    requires n <= |calls|
  {
    && |outcomes| == n
    && forall i :: 0 <= i < n ==> outcomes[i] == Told(h, calls[i], ResultAt(h, calls, recorded, i, msgs))
  }

  ghost predicate DeferredAre(h: Host, calls: seq<ToolCall>, deferred: seq<Deferred>, held: seq<(nat, Code)>) {
    && |deferred| == |held|
    && forall d :: 0 <= d < |held| ==>
         && held[d].0 < |calls| && deferred[d].code == held[d].1
         && (deferred[d].outcome.effect == Some(ReadOnly) <==> Reading(h, calls[held[d].0]))
  }

  lemma OutcomeSpelled(h: Host, call: ToolCall, p: Payload)
    ensures var o := OutcomeOf(h.tools, call, p);
            && (o.failure.None? <==> p.Succeeded?)
            && (p.Failed? ==> o.failure == Some(Failure(CodeOf(p), p.retryable)) && FailurePoint(h.fingerprint, call, o) == Print(h, call, p))
            && (o.effect == Some(ReadOnly) <==> Reading(h, call))
            && (o.effect != None && o.effect != Some(ReadOnly) <==> Writing(h, call))
            && o == Told(h, call, p)
  {}

  /** The live verdict, spelled out. */
  lemma FreshVerdict(h: Host, call: ToolCall, p: Payload, failed: set<string>)
    ensures var o := OutcomeOf(h.tools, call, p);
            var v := LiveVerdict(o, FailurePoint(h.fingerprint, call, o), failed);
            && (p.Succeeded? ==> v == Verdict(None, failed))
            && (FinalFresh(h, call, p) ==> v == Verdict(Some(CodeOf(p)), failed))
            && (p.Failed? && !FinalFresh(h, call, p) ==>
                  v == if Print(h, call, p) in failed then Verdict(Some(RepeatedFailure), failed)
                       else Verdict(None, failed + {Print(h, call, p)}))
  {
    OutcomeSpelled(h, call, p);
    hide OutcomeOf, FailurePoint, Print;
  }

  /** The restored verdict, spelled out. */
  lemma RestoredSpelled(h: Host, call: ToolCall, p: Payload, seen: nat)
    ensures RestoredVerdict(OutcomeOf(h.tools, call, p), seen) ==
            if p.Succeeded? then None
            else if FinalRestored(h, call, p) then Some(CodeOf(p))
            else if seen >= 2 then Some(RepeatedFailure) else None
  {
    OutcomeSpelled(h, call, p);
    hide OutcomeOf;
  }

  lemma {:induction false} ScanFollows(h: Host, turn: nat, text: string, calls: seq<ToolCall>, recorded: map<string, Payload>,
                                       msgs: seq<Message>, failed: set<string>, n: nat)
    requires n <= |calls|
    ensures Follows(h, calls, recorded, msgs, failed, n, BatchScan(h, turn, text, calls, recorded, n, StartBatch(msgs, failed)))
    decreases n
  {
    hide Follows, CallStep;
    if n == 0 {
      StartFollows(h, calls, recorded, msgs, failed);
    } else {
      ScanFollows(h, turn, text, calls, recorded, msgs, failed, n - 1);
      StepFollows(h, turn, text, calls, recorded, msgs, failed, n - 1, BatchScan(h, turn, text, calls, recorded, n - 1, StartBatch(msgs, failed)));
    }
  }

  lemma StepFollows(h: Host, turn: nat, text: string, calls: seq<ToolCall>, recorded: map<string, Payload>, msgs: seq<Message>,
                    failed: set<string>, i: nat, st: BatchState)
    requires i < |calls| && Follows(h, calls, recorded, msgs, failed, i, st)
    ensures Follows(h, calls, recorded, msgs, failed, i + 1, CallStep(h, turn, text, calls, recorded, i, st))
  {
    hide Follows, RunCall, RecallCall;
    if calls[i].callId in recorded {
      RecallFollows(h, calls, recorded, msgs, failed, i, st);
    } else {
      RunFollows(h, turn, if i == 0 then Some(text) else None, calls, recorded, msgs, failed, i, st);
    }
  }

  lemma StartFollows(h: Host, calls: seq<ToolCall>, recorded: map<string, Payload>, msgs: seq<Message>, failed: set<string>)
    ensures Follows(h, calls, recorded, msgs, failed, 0, StartBatch(msgs, failed))
  {}

  lemma RememberedStep(h: Host, calls: seq<ToolCall>, recorded: map<string, Payload>, msgs: seq<Message>, failed: set<string>, i: nat,
                       fp: string)
    requires i < |calls|
    ensures Remembered(h, calls, recorded, msgs, failed, i + 1, fp) <==>
            Remembered(h, calls, recorded, msgs, failed, i, fp) || FreshPrint(h, calls, recorded, msgs, i, fp)
  {
    hide FreshPrint;
  }

  lemma DeferredStep(h: Host, calls: seq<ToolCall>, recorded: map<string, Payload>, msgs: seq<Message>, failed: set<string>, i: nat,
                     deferred: seq<Deferred>, o: Outcome, code: Option<Code>)
    requires i < |calls| && DeferredAre(h, calls, deferred, Held(h, calls, recorded, msgs, failed, i))
    requires o.effect == Some(ReadOnly) <==> Reading(h, calls[i])
    requires code == HeldAgainst(h, calls, recorded, msgs, failed, i)
    ensures DeferredAre(h, calls, Defer(deferred, o, code), Held(h, calls, recorded, msgs, failed, i + 1))
  {
    hide HeldAgainst, Reading;
  }

  lemma OutcomesStep(h: Host, calls: seq<ToolCall>, recorded: map<string, Payload>, msgs: seq<Message>, i: nat, outcomes: seq<Outcome>)
    requires i < |calls| && OutcomesAre(h, calls, recorded, msgs, i, outcomes)
    ensures var o := OutcomeOf(h.tools, calls[i], ResultAt(h, calls, recorded, i, msgs));
            OutcomesAre(h, calls, recorded, msgs, i + 1, outcomes + [o])
  {
    hide OutcomeOf, Told, Reading, Writing, ResultAt;
    OutcomeSpelled(h, calls[i], ResultAt(h, calls, recorded, i, msgs));
  }

  lemma RecallFollows(h: Host, calls: seq<ToolCall>, recorded: map<string, Payload>, msgs: seq<Message>, failed: set<string>, i: nat, st: BatchState)
    requires i < |calls| && calls[i].callId in recorded && Follows(h, calls, recorded, msgs, failed, i, st)
    ensures Follows(h, calls, recorded, msgs, failed, i + 1, RecallCall(h, calls[i], recorded[calls[i].callId], st))
  {
    hide OutcomesAre, OutcomeOf, Told, FailurePoint, FailureCount, RestoredVerdict, Print, Reading, FinalRestored, FinalFresh, Held, DeferredAre, Defer;
    var call, p := calls[i], recorded[calls[i].callId];
    var o := OutcomeOf(h.tools, call, p);
    var seen := FailureCount(h.fingerprint, st.messages, FailurePoint(h.fingerprint, call, o));
    OutcomeSpelled(h, call, p);
    RestoredSpelled(h, call, p, seen);
    OutcomesStep(h, calls, recorded, msgs, i, st.outcomes);
    DeferredStep(h, calls, recorded, msgs, failed, i, st.deferred, o, RestoredVerdict(o, seen));
    forall fp
      ensures Remembered(h, calls, recorded, msgs, failed, i + 1, fp) <==> Remembered(h, calls, recorded, msgs, failed, i, fp)
    {
      RememberedStep(h, calls, recorded, msgs, failed, i, fp);
    }
    hide Remembered;
  }

  lemma FreshStep(h: Host, calls: seq<ToolCall>, recorded: map<string, Payload>, msgs: seq<Message>, failed: set<string>, i: nat,
                  before: set<string>)
    requires i < |calls| && calls[i].callId !in recorded
    requires forall fp :: fp in before <==> Remembered(h, calls, recorded, msgs, failed, i, fp)
    ensures var o := OutcomeOf(h.tools, calls[i], ResultAt(h, calls, recorded, i, msgs));
            var v := LiveVerdict(o, FailurePoint(h.fingerprint, calls[i], o), before);
            && v.code == HeldAgainst(h, calls, recorded, msgs, failed, i)
            && forall fp :: fp in v.failed <==> Remembered(h, calls, recorded, msgs, failed, i + 1, fp)
  {
    hide OutcomeOf, FailurePoint, LiveVerdict, Print, ResultAt, FinalFresh, Remembered;
    var p := ResultAt(h, calls, recorded, i, msgs);
    var o := OutcomeOf(h.tools, calls[i], p);
    var v := LiveVerdict(o, FailurePoint(h.fingerprint, calls[i], o), before);
    FreshVerdict(h, calls[i], p, before);
    FinalFails(h, calls[i], p);
    forall fp: string
      ensures fp in v.failed <==> Remembered(h, calls, recorded, msgs, failed, i + 1, fp)
    {
      RememberedStep(h, calls, recorded, msgs, failed, i, fp);
    }
  }

  lemma FinalFails(h: Host, call: ToolCall, p: Payload)
    ensures FinalFresh(h, call, p) ==> p.Failed?
  {}

  lemma RunFollows(h: Host, turn: nat, description: Option<string>, calls: seq<ToolCall>, recorded: map<string, Payload>,
                   msgs: seq<Message>, failed: set<string>, i: nat, st: BatchState)
    requires i < |calls| && calls[i].callId !in recorded && Follows(h, calls, recorded, msgs, failed, i, st)
    ensures Follows(h, calls, recorded, msgs, failed, i + 1, RunCall(h, turn, description, calls[i], st))
  {
    hide Told, OutcomeOf, FailurePoint, LiveVerdict, Print, Reading, FinalFresh, Held, HeldAgainst, DeferredAre, Defer, Execute, CallActions,
         Invokes, Remembered, OutcomesAre;
    var call, p := calls[i], Execute(h, st.messages, calls[i]);
    var o := OutcomeOf(h.tools, call, p);
    var v := LiveVerdict(o, FailurePoint(h.fingerprint, call, o), st.failed);
    OutcomeSpelled(h, call, p);
    FreshStep(h, calls, recorded, msgs, failed, i, st.failed);
    OutcomesStep(h, calls, recorded, msgs, i, st.outcomes);
    DeferredStep(h, calls, recorded, msgs, failed, i, st.deferred, o, v.code);
  }

  // ----- what the batch leads to

  /** What the resolver is told about the whole batch. */
  function AllTold(h: Host, calls: seq<ToolCall>, recorded: map<string, Payload>, msgs: seq<Message>): (outcomes: seq<Outcome>)
    ensures |outcomes| == |calls|
  {
    seq(|calls|, i requires 0 <= i < |calls| => Told(h, calls[i], ResultAt(h, calls, recorded, i, msgs)))
  }

  ghost predicate SomeSucceeded(h: Host, calls: seq<ToolCall>, recorded: map<string, Payload>, msgs: seq<Message>) {
    exists i :: 0 <= i < |calls| && ResultAt(h, calls, recorded, i, msgs).Succeeded?
  }

  ghost predicate OnlyReading(h: Host, calls: seq<ToolCall>, held: seq<(nat, Code)>) {
    forall d :: 0 <= d < |held| ==> Reads(h, calls, held[d])
  }

  ghost predicate Reads(h: Host, calls: seq<ToolCall>, one: (nat, Code)) { one.0 < |calls| && Reading(h, calls[one.0]) }

  /** The batch blocks: something held against it is not reading, or something is held and nothing succeeded. */
  ghost predicate Blocks(h: Host, calls: seq<ToolCall>, recorded: map<string, Payload>, msgs: seq<Message>, held: seq<(nat, Code)>) {
    held != [] && (!OnlyReading(h, calls, held) || !SomeSucceeded(h, calls, recorded, msgs))
  }

  /** The code a batch fails with: of the first call held against it that is not reading, else of the first one. */
  ghost predicate FailsAs(h: Host, calls: seq<ToolCall>, held: seq<(nat, Code)>, code: Code) {
    if OnlyReading(h, calls, held) then held != [] && code == held[0].1
    else exists d :: 0 <= d < |held| && held[d].1 == code && !Reads(h, calls, held[d])
                     && forall j :: 0 <= j < d ==> Reads(h, calls, held[j])
  }

  ghost predicate FailedWith(exit: Exit, code: Code, turn: nat, msgs: seq<Message>) {
    exit == Finished(AgentResult(FailedRun, if code == TurnLimitCode then TurnLimitText else if code == ResolverFailed then HostFailureText
                                            else FailureText(code), turn, msgs, None, Some(code)))
  }

  /** The resolver leaves the batch to the loop. */
  predicate LeftAlone(h: Host, context: Context) {
    h.resolver.Some? ==>
      var reply := h.resolver.value(context); reply.NoReply? || (reply.Resolution? && reply.disposition == ContinueModel)
  }

  /** What every batch leads to - any ids, fresh or resumed - in terms of what is held against it. */
  lemma BatchIsJudged(h: Host, turn: nat, a: Message, recorded: map<string, Payload>, msgs: seq<Message>, failed: set<string>)
    requires a.Assistant?
    ensures var calls := ToolCalls(a, turn);
            var held := Held(h, calls, recorded, msgs, failed, |calls|);
            var after := Grown(h, calls, recorded, |calls|, msgs);
            var context := ToolBatch(turn, after, AllTold(h, calls, recorded, msgs));
            var p := BatchPhase(h, turn, a, recorded, msgs, failed);
            && p.messages == after
            && (Blocks(h, calls, recorded, msgs, held) ==>
                  && p.Ends? && Unasked(p.trace)
                  && exists code :: FailsAs(h, calls, held, code) && FailedWith(p.exit, code, turn, after))
            && (!Blocks(h, calls, recorded, msgs, held) ==>
                  && (h.resolver.Some? ==> AskResolver(context) in p.trace)
                  && (held != [] ==> p.Ends? && (LeftAlone(h, context) ==> FailedWith(p.exit, held[0].1, turn, after)))
                  && (held == [] ==> (p.Goes? <==> LeftAlone(h, context))))
            && (p.Goes? ==> !p.corrected && forall fp :: fp in p.failed <==> Remembered(h, calls, recorded, msgs, failed, |calls|, fp))
  {
    hide BatchScan, ToolCalls, Held, Remembered, DeferredAre, Grown, OutcomesAre, CompleteHostResolution, Blocks, FailsAs, AllTold, OnlyReading;
    var calls := ToolCalls(a, turn);
    var st := BatchScan(h, turn, a.text, calls, recorded, |calls|, StartBatch(msgs, failed));
    ScanFollows(h, turn, a.text, calls, recorded, msgs, failed, |calls|);
    EveryScanCollects(h, turn, a.text, calls, recorded, |calls|, msgs, failed);
    var held := Held(h, calls, recorded, msgs, failed, |calls|);
    DecisionFollows(h, calls, recorded, msgs, held, st);
    if !Decide(st.outcomes, st.deferred).Blocked? && h.resolver.Some? {
      var asked := Consult(h, ToolBatch(turn, st.messages, st.outcomes));
      var p := BatchPhase(h, turn, a, recorded, msgs, failed);
      assert asked.trace[0] == AskResolver(ToolBatch(turn, st.messages, st.outcomes));
      assert p.trace[|st.trace|] == asked.trace[0];
    }
  }

  lemma DecisionFollows(h: Host, calls: seq<ToolCall>, recorded: map<string, Payload>, msgs: seq<Message>, held: seq<(nat, Code)>, st: BatchState)
    requires OutcomesAre(h, calls, recorded, msgs, |calls|, st.outcomes) && DeferredAre(h, calls, st.deferred, held)
    ensures st.outcomes == AllTold(h, calls, recorded, msgs)
    ensures var decision := Decide(st.outcomes, st.deferred);
            && (decision.Blocked? <==> Blocks(h, calls, recorded, msgs, held))
            && (decision.Blocked? ==> FailsAs(h, calls, held, decision.code))
            && (decision.ConsultThenFail? ==> held != [] && decision.code == held[0].1)
            && (decision.ConsultThenContinue? <==> held == [])
  {
    hide Reading, ResultAt, Told, HasSuccess, SomeSucceeded, FirstUnsafe, OnlyReading, FailsAs;
    SuccessFollows(h, calls, recorded, msgs, st.outcomes);
    FirstUnsafeFollows(h, calls, held, st.deferred);
  }

  lemma FirstUnsafeFollows(h: Host, calls: seq<ToolCall>, held: seq<(nat, Code)>, deferred: seq<Deferred>)
    requires DeferredAre(h, calls, deferred, held)
    ensures FirstUnsafe(deferred).None? <==> OnlyReading(h, calls, held)
    ensures FirstUnsafe(deferred).Some? ==> FailsAs(h, calls, held, FirstUnsafe(deferred).value)
    ensures FirstUnsafe(deferred).None? && deferred != [] ==> FailsAs(h, calls, held, deferred[0].code)
  {
    hide Reading, FirstUnsafe;
    FirstUnsafeFinds(deferred);
    assert forall d :: 0 <= d < |held| ==> (Reads(h, calls, held[d]) <==> deferred[d].outcome.effect == Some(ReadOnly));
  }

  lemma SuccessFollows(h: Host, calls: seq<ToolCall>, recorded: map<string, Payload>, msgs: seq<Message>, outcomes: seq<Outcome>)
    requires OutcomesAre(h, calls, recorded, msgs, |calls|, outcomes)
    ensures HasSuccess(outcomes) <==> SomeSucceeded(h, calls, recorded, msgs)
  {
    hide Reading, Writing, ResultAt;
    if i :| 0 <= i < |calls| && ResultAt(h, calls, recorded, i, msgs).Succeeded? {
      assert outcomes[i].failure == None;
    }
  }

  // ----- failures that end the run, and failures the model may repair

  lemma {:induction false} HeldStays(h: Host, calls: seq<ToolCall>, recorded: map<string, Payload>, msgs: seq<Message>, failed: set<string>,
                                     i: nat, n: nat)
    requires i < n <= |calls|
    ensures HeldAgainst(h, calls, recorded, msgs, failed, i).Some? ==>
              exists d :: 0 <= d < |Held(h, calls, recorded, msgs, failed, n)| && Held(h, calls, recorded, msgs, failed, n)[d].0 == i
  {
    hide HeldAgainst;
    if HeldAgainst(h, calls, recorded, msgs, failed, i).Some? {
      var held := Held(h, calls, recorded, msgs, failed, n);
      if i == n - 1 {
        assert held[|held| - 1].0 == i;
      } else {
        HeldStays(h, calls, recorded, msgs, failed, i, n - 1);
        var d :| 0 <= d < |Held(h, calls, recorded, msgs, failed, n - 1)| && Held(h, calls, recorded, msgs, failed, n - 1)[d].0 == i;
        assert held[d].0 == i;
      }
    }
  }

  ghost predicate EndsUnasked(p: Phase) {
    && p.Ends? && Unasked(p.trace) && p.exit.Finished? && p.exit.result.status == FailedRun && p.exit.result.errorCode.Some?
  }

  lemma HeldUnsafeEnds(h: Host, turn: nat, a: Message, recorded: map<string, Payload>, msgs: seq<Message>, failed: set<string>, i: nat)
    requires a.Assistant? && i < |ToolCalls(a, turn)| && !Reading(h, ToolCalls(a, turn)[i])
    requires HeldAgainst(h, ToolCalls(a, turn), recorded, msgs, failed, i).Some?
    ensures EndsUnasked(BatchPhase(h, turn, a, recorded, msgs, failed))
  {
    hide BatchPhase, ToolCalls, HeldAgainst, Held, Reading, FailsAs, AllTold;
    var calls := ToolCalls(a, turn);
    HeldStays(h, calls, recorded, msgs, failed, i, |calls|);
    BatchIsJudged(h, turn, a, recorded, msgs, failed);
  }

  /** A call of other than a registered read-only tool that fails with anything but an argument error ends the run
      unasked, whatever else the batch holds. */
  lemma FinalFailureEnds(h: Host, turn: nat, a: Message, recorded: map<string, Payload>, msgs: seq<Message>, failed: set<string>, i: nat)
    requires a.Assistant? && i < |ToolCalls(a, turn)| && ToolCalls(a, turn)[i].callId !in recorded
    requires var p := ResultAt(h, ToolCalls(a, turn), recorded, i, msgs);
             p.Failed? && p.code != ArgumentsInvalid && p.code != MalformedCall
    requires var name := ToolCalls(a, turn)[i].name; name in h.tools ==> h.tools[name] != ReadOnly
    ensures EndsUnasked(BatchPhase(h, turn, a, recorded, msgs, failed))
  {
    hide BatchPhase, ToolCalls, Remembered, Grown;
    HeldUnsafeEnds(h, turn, a, recorded, msgs, failed, i);
  }

  /** The same in terms of what the handler of a writing tool does: it crashes, reports an error of its own, or answers with
      a result that is too large or not serializable. */
  lemma CrashedWriteEnds(h: Host, turn: nat, a: Message, recorded: map<string, Payload>, msgs: seq<Message>, failed: set<string>, i: nat)
    requires a.Assistant? && i < |ToolCalls(a, turn)| && ToolCalls(a, turn)[i].callId !in recorded
    requires var call := ToolCalls(a, turn)[i];
             && call.malformed.None? && call.args.Mapping? && call.name in h.tools && h.tools[call.name] != ReadOnly
             && var reply := h.handler(Grown(h, ToolCalls(a, turn), recorded, i, msgs), call);
                reply.Crashed? || reply.OversizeResult? || reply.NotSerializable?
                || (reply.ToolError? && reply.code != ArgumentsInvalid && reply.code != MalformedCall)
    ensures EndsUnasked(BatchPhase(h, turn, a, recorded, msgs, failed))
  {
    hide BatchPhase, ToolCalls, Grown;
    FinalFailureEnds(h, turn, a, recorded, msgs, failed, i);
  }

  /** So does a well-formed call of a tool nobody registered. */
  lemma UnknownToolEnds(h: Host, turn: nat, a: Message, recorded: map<string, Payload>, msgs: seq<Message>, failed: set<string>, i: nat)
    requires a.Assistant? && i < |ToolCalls(a, turn)| && ToolCalls(a, turn)[i].callId !in recorded
    requires ToolCalls(a, turn)[i].malformed.None? && ToolCalls(a, turn)[i].name !in h.tools
    ensures EndsUnasked(BatchPhase(h, turn, a, recorded, msgs, failed))
  {
    hide BatchPhase, ToolCalls, Grown;
    FinalFailureEnds(h, turn, a, recorded, msgs, failed, i);
  }

  /** So does a failure of other than a registered read-only tool that was recorded before: argument errors are spared only
      while they are fresh. */
  lemma RestoredFailureEnds(h: Host, turn: nat, a: Message, recorded: map<string, Payload>, msgs: seq<Message>, failed: set<string>, i: nat)
    requires a.Assistant? && i < |ToolCalls(a, turn)| && ToolCalls(a, turn)[i].callId in recorded
    requires recorded[ToolCalls(a, turn)[i].callId].Failed?
    requires var name := ToolCalls(a, turn)[i].name; name in h.tools ==> h.tools[name] != ReadOnly
    ensures EndsUnasked(BatchPhase(h, turn, a, recorded, msgs, failed))
  {
    hide BatchPhase, ToolCalls, Remembered, Grown;
    HeldUnsafeEnds(h, turn, a, recorded, msgs, failed, i);
  }

  /** A fresh result the model may go on from: a success, or an argument error. */
  ghost predicate SuccessOrArgumentError(p: Payload) {
    p.Succeeded? || p.code == ArgumentsInvalid || p.code == MalformedCall
  }

  /** The fingerprint of the failure of call `i`. */
  function PrintAt(h: Host, calls: seq<ToolCall>, recorded: map<string, Payload>, msgs: seq<Message>, i: nat): Option<string>
    requires i < |calls|
  {
    var p := ResultAt(h, calls, recorded, i, msgs);
    if p.Failed? then Some(Print(h, calls[i], p)) else None
  }

  ghost predicate NewPrints(h: Host, calls: seq<ToolCall>, recorded: map<string, Payload>, msgs: seq<Message>, failed: set<string>) {
    && (forall i :: 0 <= i < |calls| && PrintAt(h, calls, recorded, msgs, i).Some? ==> PrintAt(h, calls, recorded, msgs, i).value !in failed)
    && (forall i, j :: 0 <= i < j < |calls| && PrintAt(h, calls, recorded, msgs, i).Some? ==>
          PrintAt(h, calls, recorded, msgs, i) != PrintAt(h, calls, recorded, msgs, j))
  }

  ghost predicate OnlyArgumentErrors(h: Host, calls: seq<ToolCall>, recorded: map<string, Payload>, msgs: seq<Message>) {
    forall i :: 0 <= i < |calls| ==> calls[i].callId !in recorded && SuccessOrArgumentError(ResultAt(h, calls, recorded, i, msgs))
  }

  /** A batch whose only failures are argument errors with new fingerprints goes on, whatever tools it calls, unless the
      resolver settles it; the next turn then knows exactly these fingerprints beside the earlier ones. */
  lemma ArgumentErrorsGoOn(h: Host, turn: nat, a: Message, recorded: map<string, Payload>, msgs: seq<Message>, failed: set<string>)
    requires a.Assistant?
    requires OnlyArgumentErrors(h, ToolCalls(a, turn), recorded, msgs)
    requires NewPrints(h, ToolCalls(a, turn), recorded, msgs, failed)
    ensures var calls := ToolCalls(a, turn);
            var context := ToolBatch(turn, Grown(h, calls, recorded, |calls|, msgs), AllTold(h, calls, recorded, msgs));
            var p := BatchPhase(h, turn, a, recorded, msgs, failed);
            && (p.Goes? <==> LeftAlone(h, context))
            && (p.Goes? ==> forall fp :: fp in p.failed <==>
                  fp in failed || exists i :: 0 <= i < |calls| && PrintAt(h, calls, recorded, msgs, i) == Some(fp))
  {
    hide BatchPhase, ToolCalls, AllTold, Grown, ResultAt, Print, Blocks, Writing, Reading, PrintAt, LeftAlone, Held, FreshPrint;
    var calls := ToolCalls(a, turn);
    BatchIsJudged(h, turn, a, recorded, msgs, failed);
    NothingHeld(h, calls, recorded, msgs, failed, |calls|);
    var p := BatchPhase(h, turn, a, recorded, msgs, failed);
    NothingBlocks(h, calls, recorded, msgs);
    forall i: nat, fp: string | i < |calls|
      ensures FreshPrint(h, calls, recorded, msgs, i, fp) <==> PrintAt(h, calls, recorded, msgs, i) == Some(fp)
    {
      ArgumentErrorIsFresh(h, calls, recorded, msgs, i, fp);
    }
  }

  lemma NothingBlocks(h: Host, calls: seq<ToolCall>, recorded: map<string, Payload>, msgs: seq<Message>)
    ensures !Blocks(h, calls, recorded, msgs, [])
  {}

  lemma ArgumentErrorIsFresh(h: Host, calls: seq<ToolCall>, recorded: map<string, Payload>, msgs: seq<Message>, i: nat, fp: string)
    requires i < |calls| && OnlyArgumentErrors(h, calls, recorded, msgs)
    ensures FreshPrint(h, calls, recorded, msgs, i, fp) <==> PrintAt(h, calls, recorded, msgs, i) == Some(fp)
  {
    hide ResultAt, Print;
  }

  lemma {:induction false} NothingHeld(h: Host, calls: seq<ToolCall>, recorded: map<string, Payload>, msgs: seq<Message>, failed: set<string>, n: nat)
    requires n <= |calls| && OnlyArgumentErrors(h, calls, recorded, msgs) && NewPrints(h, calls, recorded, msgs, failed)
    ensures Held(h, calls, recorded, msgs, failed, n) == []
    decreases n
  {
    hide ResultAt, Print, FreshPrint, Grown, Writing, Reading;
    if n > 0 {
      NothingHeld(h, calls, recorded, msgs, failed, n - 1);
      var fp := PrintAt(h, calls, recorded, msgs, n - 1);
      if fp.Some? {
        forall m: nat | m < n - 1
          ensures !FreshPrint(h, calls, recorded, msgs, m, fp.value)
        {
          ArgumentErrorIsFresh(h, calls, recorded, msgs, m, fp.value);
        }
      }
    }
  }

  /** Two fresh argument errors with one fingerprint are a repeat, and on other than a registered read-only tool the second
      ends the run unasked. */
  lemma RepeatEnds(h: Host, turn: nat, a: Message, recorded: map<string, Payload>, msgs: seq<Message>, failed: set<string>, i: nat, j: nat)
    requires a.Assistant? && i < j < |ToolCalls(a, turn)| && !Reading(h, ToolCalls(a, turn)[j])
    requires OnlyArgumentErrors(h, ToolCalls(a, turn), recorded, msgs)
    requires PrintAt(h, ToolCalls(a, turn), recorded, msgs, i).Some?
    requires PrintAt(h, ToolCalls(a, turn), recorded, msgs, i) == PrintAt(h, ToolCalls(a, turn), recorded, msgs, j)
    ensures EndsUnasked(BatchPhase(h, turn, a, recorded, msgs, failed))
  {
    hide BatchPhase, ToolCalls, ResultAt, Print, FreshPrint, Grown, Reading;
    var calls := ToolCalls(a, turn);
    ArgumentErrorIsFresh(h, calls, recorded, msgs, i, PrintAt(h, calls, recorded, msgs, j).value);
    HeldUnsafeEnds(h, turn, a, recorded, msgs, failed, j);
  }

  // ----- which result a call gets

  /** What becomes of one call, case by case: the argument errors may be tried again, an unknown tool may not, and a handler
      is reached only by a well-formed call of a registered tool. */
  lemma ExecuteSpelled(h: Host, msgs: seq<Message>, call: ToolCall)
    ensures var p := Execute(h, msgs, call);
            && (call.malformed == Some(ArgumentsNotAnObject) ==> p == Failed(ArgumentsInvalid, true, HostNote))
            && (call.malformed == Some(CallNotAnObject) || call.malformed == Some(NameMissing) ==> p == Failed(MalformedCall, true, HostNote))
            && (call.malformed.Some? && call.malformed.value.Unparsed? ==> p == Failed(MalformedCall, true, ForeignNote(call.malformed.value.error)))
            && (call.malformed.None? && call.name !in h.tools ==> p == Failed(ToolUnknown, false, HostNote))
            && (call.malformed.None? && call.name in h.tools && call.args.NonMapping? ==> p == Failed(ArgumentsInvalid, true, HostNote))
            && (call.malformed.None? && call.name in h.tools && call.args.Mapping? ==>
                  var reply := h.handler(msgs, call);
                  && (p.Succeeded? <==> reply.Returned?)
                  && (reply.Returned? ==> p.reviewRequired == reply.reviewRequired)
                  && (reply.OversizeResult? ==> p == Failed(ResultOversize, true, HostNote))
                  && (reply.InvalidArguments? ==> p == Failed(ArgumentsInvalid, true, HostNote))
                  && (reply.NotSerializable? ==> p == Failed(ResultNotSerializable, true, HostNote))
                  && (reply.Crashed? ==> p == Failed(ExecutionFailed, true, ForeignNote(reply.text)))
                  && (reply.ToolError? ==> p == Failed(reply.code, reply.retryable, ForeignNote(reply.text))))
  {}

  /** What is seen of a fresh call: it is announced, the first one with the reply's text, its handler runs if the call reaches
      one, and its result is saved before it is reported. Of a recorded call nothing is seen. */
  lemma CallSeen(h: Host, turn: nat, text: string, calls: seq<ToolCall>, recorded: map<string, Payload>, i: nat, st: BatchState)
    requires i < |calls|
    ensures var call, next := calls[i], CallStep(h, turn, text, calls, recorded, i, st);
            var result := Execute(h, st.messages, call);
            var saved := st.messages + [ToolResult(call.callId, result)];
            var reaches := call.malformed.None? && call.name in h.tools && call.args.Mapping?;
            if call.callId in recorded then next.trace == st.trace && next.messages == st.messages
            else
              && next.messages == saved
              && next.trace == st.trace + [Emit(ToolCalled(turn, call.callId, if i == 0 then Some(text) else None))]
                               + (if reaches then [RunHandler(call)] else [])
                               + [Save(saved), Emit(ToolFinished(turn, call.callId, result))]
  {
    hide LiveVerdict, RestoredVerdict, Execute, OutcomeOf, FailurePoint, FailureCount;
  }
}
