/** One batch run from any of its checkpoints. The scan of `LoopSpec` is reduced to the verdicts
    of `BatchDecision`, so that resuming after `k` results can be compared with never crashing. */
module BatchReplay {
  import opened Prelude
  import opened Transcript
  import opened FailureControl
  import opened HostContracts
  import opened LoopSpec
  import opened Pacing
  import opened LoopSafety
  import opened ResumeOrder
  import opened BatchDecision

  /** The tool messages that answer the first calls. */
  function AnswerMsgs(calls: seq<ToolCall>, results: seq<Payload>): (msgs: seq<Message>)
    requires |results| <= |calls|
    ensures |msgs| == |results|
  {
    seq(|results|, i requires 0 <= i < |results| => ToolResult(calls[i].callId, results[i]))
  }

  function Answered(base: seq<Message>, calls: seq<ToolCall>, results: seq<Payload>): (msgs: seq<Message>)
    requires |results| <= |calls|
    ensures |msgs| == |base| + |results| && base <= msgs
  {
    base + AnswerMsgs(calls, results)
  }

  /** Run the calls that have no result yet. */
  function AllResults(h: Host, base: seq<Message>, calls: seq<ToolCall>, results: seq<Payload>): (all: seq<Payload>)
    requires |results| <= |calls|
    ensures |all| == |calls| && results <= all
    decreases |calls| - |results|
  {
    if |results| == |calls| then results
    else AllResults(h, base, calls, results + [Execute(h, Answered(base, calls, results), calls[|results|])])
  }

  /** Handlers that see the same transcript again give the same results. */
  lemma {:induction false} AllResultsFromPrefix(h: Host, base: seq<Message>, calls: seq<ToolCall>, results: seq<Payload>, k: nat)
    requires |results| <= k <= |calls|
    ensures var all := AllResults(h, base, calls, results);
            && AllResults(h, base, calls, all[..k]) == all
            && (k < |calls| ==> all[k] == Execute(h, Answered(base, calls, all[..k]), calls[k]))
    decreases |calls| - |results|
  {
    var all := AllResults(h, base, calls, results);
    if k == |results| {
      assert all[..k] == results;
    } else {
      AllResultsFromPrefix(h, base, calls, results + [Execute(h, Answered(base, calls, results), calls[|results|])], k);
    }
  }

  function ItemOf(h: Host, call: ToolCall, payload: Payload): Item {
    var o := OutcomeOf(h.tools, call, payload);
    Item(o, FailurePoint(h.fingerprint, call, o))
  }

  function ItemsOf(h: Host, calls: seq<ToolCall>, results: seq<Payload>): seq<Item>
    requires |results| <= |calls|
  {
    seq(|results|, i requires 0 <= i < |results| => ItemOf(h, calls[i], results[i]))
  }

  /** A transcript that ends with an assistant message whose calls carry their own distinct ids. */
  ghost predicate Asks(base: seq<Message>, turn: nat, calls: seq<ToolCall>) {
    && base != [] && base[|base| - 1].Assistant? && turn == AssistantCount(base)
    && ExplicitIds(base[|base| - 1]) && calls == ToolCalls(base[|base| - 1], turn) && CallsDistinct(calls)
  }

  lemma NothingAnswered(base: seq<Message>, calls: seq<ToolCall>, results: seq<Payload>)
    requires |results| <= |calls|
    ensures Answered(base, calls, results[..0]) == base
  {
  }

  lemma AnsweredStep(base: seq<Message>, calls: seq<ToolCall>, results: seq<Payload>, i: nat)
    requires i < |results| <= |calls|
    ensures Answered(base, calls, results[..i + 1])
            == Answered(base, calls, results[..i]) + [ToolResult(calls[i].callId, results[i])]
  {
    assert AnswerMsgs(calls, results[..i + 1])
        == AnswerMsgs(calls, results[..i]) + [ToolResult(calls[i].callId, results[i])];
  }

  lemma AnswerFailure(h: Host, calls: seq<ToolCall>, i: nat, payload: Payload)
    requires i < |calls| && CallsDistinct(calls)
    ensures var item := ItemOf(h, calls[i], payload);
            FailureOf(h.fingerprint, calls, ToolResult(calls[i].callId, payload))
            == if item.outcome.failure.Some? then Some(item.fp) else None
  {
    LookupDistinct(calls, i);
  }

  lemma AnsweredFailure(h: Host, base: seq<Message>, turn: nat, calls: seq<ToolCall>, results: seq<Payload>, i: nat)
    requires Asks(base, turn, calls) && i < |results| <= |calls|
    ensures var item := ItemOf(h, calls[i], results[i]);
            FailureAt(h.fingerprint, Answered(base, calls, results[..i + 1]), |base| + i)
            == if item.outcome.failure.Some? then Some(item.fp) else None
  {
    hide ItemOf, FailureAt, FailureOf, ToolCalls;
    var msgs, a := Answered(base, calls, results[..i + 1]), base[|base| - 1];
    assert msgs[|base| - 1] == a && msgs[|base| + i] == ToolResult(calls[i].callId, results[i]);
    OwnRunStep(h.fingerprint, msgs, |base| - 1, |base| + i);
    ExplicitIdsIgnoreTurn(a, |base| - 1, turn);
    AnswerFailure(h, calls, i, results[i]);
  }

  /** The transcript lists the batch's failures in order after those before it. */
  lemma {:induction false} AnsweredTrail(h: Host, base: seq<Message>, turn: nat, calls: seq<ToolCall>, results: seq<Payload>, i: nat)
    requires Asks(base, turn, calls) && i <= |results| <= |calls|
    ensures FailureList(h.fingerprint, Answered(base, calls, results[..i]))
            == Trail(FailureList(h.fingerprint, base), ItemsOf(h, calls, results)[..i])
    decreases i
  {
    hide FailureAt, Asks, ItemOf, Answered;
    var history, items := FailureList(h.fingerprint, base), ItemsOf(h, calls, results);
    if i == 0 {
      NothingAnswered(base, calls, results);
    } else {
      AnsweredTrail(h, base, turn, calls, results, i - 1);
      AnsweredStep(base, calls, results, i - 1);
      AnsweredFailure(h, base, turn, calls, results, i - 1);
      ListAppend(h.fingerprint, Answered(base, calls, results[..i - 1]), ToolResult(calls[i - 1].callId, results[i - 1]));
      TrailStep(history, items, i - 1);
    }
  }

  // ----- the scan, reduced to verdicts

  /** The batch scan after `i` calls, when the first `k` results were already recorded. */
  ghost predicate ScanMatches(h: Host, base: seq<Message>, calls: seq<ToolCall>, results: seq<Payload>, k: nat, i: nat, st: BatchState)
    requires |results| == |calls| && k <= |calls| && i <= |calls|
  {
    var items := ItemsOf(h, calls, results);
    var judged := Judge(FailureList(h.fingerprint, base), items, k, i);
    && st.messages == Answered(base, calls, results[..Max(k, i)])
    && st.outcomes == Outcomes(items)[..i]
    && st.deferred == judged.deferred && st.failed == judged.failed
  }

  lemma RecallMatches(h: Host, base: seq<Message>, turn: nat, calls: seq<ToolCall>, results: seq<Payload>, k: nat, i: nat,
                      st: BatchState)
    requires Asks(base, turn, calls) && |results| == |calls| && i < k <= |calls|
    requires ScanMatches(h, base, calls, results, k, i, st)
    ensures ScanMatches(h, base, calls, results, k, i + 1, RecallCall(h, calls[i], results[i], st))
  {
    hide Asks, OutcomeOf, FailurePoint, Answered;
    var items := ItemsOf(h, calls, results);
    AnsweredTrail(h, base, turn, calls, results, k);
    assert items[i] == ItemOf(h, calls[i], results[i]);
    assert Outcomes(items)[..i + 1] == Outcomes(items)[..i] + [items[i].outcome];
  }

  lemma RunMatches(h: Host, base: seq<Message>, turn: nat, calls: seq<ToolCall>, results: seq<Payload>, k: nat, i: nat,
                   description: Option<string>, st: BatchState)
    requires |results| == |calls| && k <= i < |calls|
    requires ScanMatches(h, base, calls, results, k, i, st)
    requires results[i] == Execute(h, Answered(base, calls, results[..i]), calls[i])
    ensures ScanMatches(h, base, calls, results, k, i + 1, RunCall(h, turn, description, calls[i], st))
  {
    hide OutcomeOf, FailurePoint, Answered, Execute, CallActions, LiveVerdict;
    var items := ItemsOf(h, calls, results);
    AnsweredStep(base, calls, results, i);
    assert items[i] == ItemOf(h, calls[i], results[i]);
    assert Outcomes(items)[..i + 1] == Outcomes(items)[..i] + [items[i].outcome];
  }

  lemma {:induction false} ScanIsJudge(h: Host, base: seq<Message>, turn: nat, text: string, calls: seq<ToolCall>,
                                       results: seq<Payload>, k: nat, i: nat)
    requires Asks(base, turn, calls) && |results| == |calls| && k <= |calls| && i <= |calls|
    requires forall j :: k <= j < |calls| ==> results[j] == Execute(h, Answered(base, calls, results[..j]), calls[j])
    ensures var start := Answered(base, calls, results[..k]);
            var st := BatchScan(h, turn, text, calls, ResultsById(AnswerMsgs(calls, results[..k])), i,
                                StartBatch(start, FailedFingerprints(h.fingerprint, start)));
            ScanMatches(h, base, calls, results, k, i, st)
    decreases i
  {
    hide RunCall, RecallCall, Execute, ScanMatches, Asks, Answered, FailedFingerprints;
    var start := Answered(base, calls, results[..k]);
    var suffix := AnswerMsgs(calls, results[..k]);
    var st0 := StartBatch(start, FailedFingerprints(h.fingerprint, start));
    if i == 0 {
      StartMatches(h, base, turn, calls, results, k);
    } else {
      ScanIsJudge(h, base, turn, text, calls, results, k, i - 1);
      var st := BatchScan(h, turn, text, calls, ResultsById(suffix), i - 1, st0);
      RecordedAnswer(base, turn, calls, results, k, i - 1);
      if i - 1 < k {
        RecallMatches(h, base, turn, calls, results, k, i - 1, st);
      } else {
        RunMatches(h, base, turn, calls, results, k, i - 1, if i == 1 then Some(text) else None, st);
      }
    }
  }

  lemma RecordedAnswer(base: seq<Message>, turn: nat, calls: seq<ToolCall>, results: seq<Payload>, k: nat, i: nat)
    requires Asks(base, turn, calls) && |results| == |calls| && k <= |calls| && i < |calls|
    ensures var recorded := ResultsById(AnswerMsgs(calls, results[..k]));
            (calls[i].callId in recorded <==> i < k) && (i < k ==> recorded[calls[i].callId] == results[i])
  {
    hide ToolCalls;
    var suffix := AnswerMsgs(calls, results[..k]);
    assert Answers(calls, suffix);
    RecordedAreAnswered(calls, suffix, i);
  }

  lemma StartMatches(h: Host, base: seq<Message>, turn: nat, calls: seq<ToolCall>, results: seq<Payload>, k: nat)
    requires Asks(base, turn, calls) && |results| == |calls| && k <= |calls|
    ensures var start := Answered(base, calls, results[..k]);
            ScanMatches(h, base, calls, results, k, 0, StartBatch(start, FailedFingerprints(h.fingerprint, start)))
  {
    hide Asks, Answered;
    AnsweredTrail(h, base, turn, calls, results, k);
  }

  // ----- what the batch leads to

  /** The state after all calls, when the first `k` results come from a checkpoint. */
  function BatchFrom(h: Host, base: seq<Message>, turn: nat, text: string, calls: seq<ToolCall>, results: seq<Payload>): BatchState
    requires |results| <= |calls|
  {
    var start := Answered(base, calls, results);
    BatchScan(h, turn, text, calls, ResultsById(AnswerMsgs(calls, results)), |calls|,
              StartBatch(start, FailedFingerprints(h.fingerprint, start)))
  }

  lemma BatchFromJudges(h: Host, base: seq<Message>, turn: nat, text: string, calls: seq<ToolCall>, results: seq<Payload>)
    requires Asks(base, turn, calls) && |results| <= |calls|
    ensures ScanMatches(h, base, calls, AllResults(h, base, calls, results), |results|, |calls|,
                        BatchFrom(h, base, turn, text, calls, results))
  {
    hide Asks, ScanMatches, BatchScan, Execute;
    var all := AllResults(h, base, calls, results);
    forall j | |results| <= j < |calls|
      ensures all[j] == Execute(h, Answered(base, calls, all[..j]), calls[j])
    {
      AllResultsFromPrefix(h, base, calls, results, j);
    }
    assert all[..|results|] == results;
    ScanIsJudge(h, base, turn, text, calls, all, |results|, |calls|);
  }

  /** A batch whose results, wherever they came from, the two controls treat alike. */
  ghost predicate SteadyBatch(h: Host, calls: seq<ToolCall>, results: seq<Payload>)
    requires |results| <= |calls|
  {
    Steady(ItemsOf(h, calls, results))
  }

  /** Restarting a batch from a later checkpoint of itself reaches the same transcript, the same
      outcomes and an equally severe decision; a batch that goes on remembers the same failures. */
  lemma LaterCheckpointAgrees(h: Host, base: seq<Message>, turn: nat, text: string, calls: seq<ToolCall>,
                              results: seq<Payload>, k: nat)
    requires Asks(base, turn, calls) && |results| <= k <= |calls|
    requires SteadyBatch(h, calls, AllResults(h, base, calls, results))
    ensures var all := AllResults(h, base, calls, results);
            var early, late := BatchFrom(h, base, turn, text, calls, results), BatchFrom(h, base, turn, text, calls, all[..k]);
            var d1, d2 := Decide(early.outcomes, early.deferred), Decide(late.outcomes, late.deferred);
            && late.messages == early.messages == Answered(base, calls, all)
            && late.outcomes == early.outcomes
            && Severity(d1) == Severity(d2)
            && (d1.ConsultThenContinue? ==>
                  late.failed == early.failed == FailedFingerprints(h.fingerprint, early.messages))
  {
    hide Asks, BatchFrom, Answered, ItemsOf, Judge, Trail, AsSet, FailureList, AllResults, Decide;
    var all := AllResults(h, base, calls, results);
    AllResultsFromPrefix(h, base, calls, results, k);
    BatchFromJudges(h, base, turn, text, calls, results);
    BatchFromJudges(h, base, turn, text, calls, all[..k]);
    AnsweredTrail(h, base, turn, calls, all, |calls|);
    var history, items := FailureList(h.fingerprint, base), ItemsOf(h, calls, all);
    ItemsLength(h, calls, all);
    SteadyDecision(history, items, |results|);
    SteadyDecision(history, items, k);
    assert all[..|calls|] == all && items[..|calls|] == items && Outcomes(items)[..|calls|] == Outcomes(items);
  }

  lemma ItemsLength(h: Host, calls: seq<ToolCall>, results: seq<Payload>)
    requires |results| <= |calls|
    ensures |ItemsOf(h, calls, results)| == |results|
  {
  }

  /** Exactly what a crash does to the decision of a batch, for every fingerprint function: it keeps its severity,
      except that failures the live loop excused and a checkpoint recorded count as final, and that a recorded
      fingerprint met again by an unsafe failure counts as a repeat. */
  lemma ResumedBatchSeverity(h: Host, base: seq<Message>, turn: nat, text: string, calls: seq<ToolCall>, k: nat)
    requires Asks(base, turn, calls) && k <= |calls|
    ensures var all := AllResults(h, base, calls, []);
            var live, resumed := BatchFrom(h, base, turn, text, calls, []), BatchFrom(h, base, turn, text, calls, all[..k]);
            Severity(Decide(resumed.outcomes, resumed.deferred))
            == Max(Severity(Decide(live.outcomes, live.deferred)), ForcedSeverity(ItemsOf(h, calls, all), k))
  {
    hide Asks, BatchFrom, Answered, ItemsOf, ForcedSeverity;
    var all := AllResults(h, base, calls, []);
    AllResultsFromPrefix(h, base, calls, [], k);
    BatchFromJudges(h, base, turn, text, calls, []);
    BatchFromJudges(h, base, turn, text, calls, all[..k]);
    var history, items := FailureList(h.fingerprint, base), ItemsOf(h, calls, all);
    ItemsLength(h, calls, all);
    ResumedDecision(history, items, k);
    assert Outcomes(items)[..|calls|] == Outcomes(items);
  }

  /** Exactly when a crash keeps the code that a batch reports. */
  lemma ResumedBatchCode(h: Host, base: seq<Message>, turn: nat, text: string, calls: seq<ToolCall>, k: nat)
    requires Asks(base, turn, calls) && k <= |calls|
    ensures var all := AllResults(h, base, calls, []);
            var live, resumed := BatchFrom(h, base, turn, text, calls, []), BatchFrom(h, base, turn, text, calls, all[..k]);
            Reported(Decide(resumed.outcomes, resumed.deferred)) == Reported(Decide(live.outcomes, live.deferred))
            <==> CodeSurvives(FailureList(h.fingerprint, base), ItemsOf(h, calls, all), k)
  {
    hide Asks, BatchFrom, Answered, ItemsOf, CodeSurvives;
    var all := AllResults(h, base, calls, []);
    AllResultsFromPrefix(h, base, calls, [], k);
    BatchFromJudges(h, base, turn, text, calls, []);
    BatchFromJudges(h, base, turn, text, calls, all[..k]);
    var history, items := FailureList(h.fingerprint, base), ItemsOf(h, calls, all);
    ExecutedItems(h, base, calls);
    ReportedCodeIff(history, items, k);
    assert Outcomes(items)[..|calls|] == Outcomes(items);
  }

  /** Executed results meet the conditions under which only excused failures matter, when fingerprints tell codes. */
  lemma ExecutedItems(h: Host, base: seq<Message>, calls: seq<ToolCall>)
    ensures var items := ItemsOf(h, calls, AllResults(h, base, calls, []));
            |items| == |calls| && AllKnown(items) && (CodesReadable(h.fingerprint) ==> Readable(items))
  {
    var all := AllResults(h, base, calls, []);
    var items := ItemsOf(h, calls, all);
    forall j | 0 <= j < |calls|
      ensures Known(items[j].outcome)
    {
      AllResultsFromPrefix(h, base, calls, [], j);
      ExecutedResultsAreKnown(h, Answered(base, calls, all[..j]), calls[j]);
    }
  }

  /** When fingerprints tell their codes only excused failures move the severity. */
  lemma ReadableBatchSeverity(h: Host, base: seq<Message>, turn: nat, text: string, calls: seq<ToolCall>, k: nat)
    requires Asks(base, turn, calls) && k <= |calls| && CodesReadable(h.fingerprint)
    ensures var all := AllResults(h, base, calls, []);
            var items := ItemsOf(h, calls, all);
            var live, resumed := BatchFrom(h, base, turn, text, calls, []), BatchFrom(h, base, turn, text, calls, all[..k]);
            Severity(Decide(resumed.outcomes, resumed.deferred))
            == Max(Severity(Decide(live.outcomes, live.deferred)),
                   if UnsafeExcusedBefore(items, k) then 2
                   else if !ExcusedBefore(items, k) then 0
                   else if HasSuccess(Outcomes(items)) then 1 else 2)
  {
    hide Asks, BatchFrom, Answered, ItemsOf, UnsafeExcusedBefore, ExcusedBefore;
    var all := AllResults(h, base, calls, []);
    AllResultsFromPrefix(h, base, calls, [], k);
    BatchFromJudges(h, base, turn, text, calls, []);
    BatchFromJudges(h, base, turn, text, calls, all[..k]);
    var history, items := FailureList(h.fingerprint, base), ItemsOf(h, calls, all);
    ExecutedItems(h, base, calls);
    ReadableForcesOnlyExcused(history, items, k);
    assert Outcomes(items)[..|calls|] == Outcomes(items);
  }

  // ----- any batch, whatever ids its calls carry

  /** A failure that ends the batch and is not read-only: an unknown tool, a non-retryable failure, or any failure of a
      writing tool other than a repairable argument error. */
  ghost predicate UnsafeFailure(o: Outcome) {
    o.failure.Some? && LiveTerminal(o) && o.effect != Some(ReadOnly)
  }

  ghost predicate Unasked(trace: seq<Action>) { forall i :: 0 <= i < |trace| ==> !trace[i].AskResolver? }

  ghost predicate FailedOutcome(outcomes: seq<Outcome>, o: Outcome) { o.failure.Some? && o in outcomes }

  /** What a scan has collected: unsafe failures are deferred, what is deferred is a failure of the batch, and nobody
      has been asked yet. */
  ghost predicate ScanCollects(st: BatchState) {
    && ((exists i :: 0 <= i < |st.outcomes| && UnsafeFailure(st.outcomes[i])) ==> FirstUnsafe(st.deferred).Some?)
    && (forall i :: 0 <= i < |st.deferred| ==> FailedOutcome(st.outcomes, st.deferred[i].outcome))
    && Unasked(st.trace)
  }

  lemma Collects(st: BatchState, next: BatchState, o: Outcome, code: Option<Code>)
    requires ScanCollects(st) && next.outcomes == st.outcomes + [o] && next.deferred == Defer(st.deferred, o, code)
    requires UnsafeFailure(o) ==> code.Some?
    requires code.Some? ==> o.failure.Some?
    requires Unasked(next.trace)
    ensures ScanCollects(next)
  {
    if code.Some? {
      FirstUnsafeAppend(st.deferred, Deferred(o, code.value));
    }
    forall i | 0 <= i < |next.deferred|
      ensures FailedOutcome(next.outcomes, next.deferred[i].outcome)
    {
      if i == |st.deferred| {
        assert next.outcomes[|st.outcomes|] == o;
      }
    }
    if i :| 0 <= i < |next.outcomes| && UnsafeFailure(next.outcomes[i]) {
      assert i < |st.outcomes| ==> st.outcomes[i] == next.outcomes[i];
    }
  }

  lemma {:induction false} EveryScanCollects(h: Host, turn: nat, text: string, calls: seq<ToolCall>,
                                             recorded: map<string, Payload>, n: nat, msgs: seq<Message>, failed: set<string>)
    requires n <= |calls|
    ensures ScanCollects(BatchScan(h, turn, text, calls, recorded, n, StartBatch(msgs, failed)))
    decreases n
  {
    hide OutcomeOf, FailurePoint, Execute, Invokes, ScanCollects;
    if n == 0 {
      NothingCollected(msgs, failed);
    } else {
      EveryScanCollects(h, turn, text, calls, recorded, n - 1, msgs, failed);
      var st := BatchScan(h, turn, text, calls, recorded, n - 1, StartBatch(msgs, failed));
      StepCollects(h, turn, text, calls, recorded, n - 1, st);
    }
  }

  lemma NothingCollected(msgs: seq<Message>, failed: set<string>)
    ensures ScanCollects(StartBatch(msgs, failed))
  {}

  lemma StepCollects(h: Host, turn: nat, text: string, calls: seq<ToolCall>, recorded: map<string, Payload>, i: nat, st: BatchState)
    requires i < |calls| && ScanCollects(st)
    ensures ScanCollects(CallStep(h, turn, text, calls, recorded, i, st))
  {
    hide OutcomeOf, FailurePoint, Execute, Invokes;
    var call, next := calls[i], CallStep(h, turn, text, calls, recorded, i, st);
    if call.callId in recorded {
      var o := OutcomeOf(h.tools, call, recorded[call.callId]);
      var seen := FailureCount(h.fingerprint, st.messages, FailurePoint(h.fingerprint, call, o));
      Collects(st, next, o, RestoredVerdict(o, seen));
    } else {
      var payload := Execute(h, st.messages, call);
      var o := OutcomeOf(h.tools, call, payload);
      Collects(st, next, o, LiveVerdict(o, FailurePoint(h.fingerprint, call, o), st.failed).code);
    }
  }

  /** The state in which all calls of `a` leave the batch. */
  function Scanned(h: Host, turn: nat, a: Message, recorded: map<string, Payload>, msgs: seq<Message>, failed: set<string>): BatchState
    requires a.Assistant?
  {
    var calls := ToolCalls(a, turn);
    BatchScan(h, turn, a.text, calls, recorded, |calls|, StartBatch(msgs, failed))
  }

  /** In every batch - with ids or without, repeated ids or not, fresh or resumed - an unsafe failure ends the run without
      asking the resolver, with the code of the first deferred failure that is not read-only. */
  lemma UnsafeFailureBlocks(h: Host, turn: nat, a: Message, recorded: map<string, Payload>, msgs: seq<Message>,
                            failed: set<string>, i: nat)
    requires a.Assistant?
    requires var st := Scanned(h, turn, a, recorded, msgs, failed); i < |st.outcomes| && UnsafeFailure(st.outcomes[i])
    ensures var st, p := Scanned(h, turn, a, recorded, msgs, failed), BatchPhase(h, turn, a, recorded, msgs, failed);
            && FirstUnsafe(st.deferred).Some? && p.Ends? && p.messages == st.messages
            && p.exit == FailWithCode(FirstUnsafe(st.deferred).value, turn, st.messages, None).exit
            && Unasked(p.trace)
  {
    hide BatchScan, ToolCalls;
    var calls := ToolCalls(a, turn);
    EveryScanCollects(h, turn, a.text, calls, recorded, |calls|, msgs, failed);
  }

  /** When the resolver is asked about a batch: exactly when nothing is deferred, or only read-only failures are and
      some call succeeded. It is then asked about that batch. */
  lemma ResolverAskedIff(h: Host, turn: nat, a: Message, recorded: map<string, Payload>, msgs: seq<Message>, failed: set<string>)
    requires a.Assistant? && h.resolver.Some?
    ensures var st, p := Scanned(h, turn, a, recorded, msgs, failed), BatchPhase(h, turn, a, recorded, msgs, failed);
            && (!Unasked(p.trace) <==> st.deferred == [] || (FirstUnsafe(st.deferred).None? && HasSuccess(st.outcomes)))
            && (!Unasked(p.trace) ==> |st.trace| < |p.trace| && p.trace[|st.trace|] == AskResolver(ToolBatch(turn, st.messages, st.outcomes)))
  {
    hide BatchScan, ToolCalls;
    var calls := ToolCalls(a, turn);
    EveryScanCollects(h, turn, a.text, calls, recorded, |calls|, msgs, failed);
    var st, p := Scanned(h, turn, a, recorded, msgs, failed), BatchPhase(h, turn, a, recorded, msgs, failed);
    if !Decide(st.outcomes, st.deferred).Blocked? {
      var asked := Consult(h, ToolBatch(turn, st.messages, st.outcomes));
      assert asked.trace[0] == AskResolver(ToolBatch(turn, st.messages, st.outcomes));
      assert p.trace[|st.trace|] == asked.trace[0];
    }
  }

  /** Read-only failures beside a success never keep the resolver from being asked. */
  lemma ReadFailureNeverBlocks(h: Host, turn: nat, a: Message, recorded: map<string, Payload>, msgs: seq<Message>, failed: set<string>)
    requires a.Assistant? && h.resolver.Some?
    requires var st := Scanned(h, turn, a, recorded, msgs, failed);
             HasSuccess(st.outcomes)
             && forall i :: 0 <= i < |st.outcomes| && st.outcomes[i].failure.Some? ==> st.outcomes[i].effect == Some(ReadOnly)
    ensures var st, p := Scanned(h, turn, a, recorded, msgs, failed), BatchPhase(h, turn, a, recorded, msgs, failed);
            AskResolver(ToolBatch(turn, st.messages, st.outcomes)) in p.trace
  {
    hide BatchScan, ToolCalls, BatchPhase;
    var calls := ToolCalls(a, turn);
    var st := Scanned(h, turn, a, recorded, msgs, failed);
    EveryScanCollects(h, turn, a.text, calls, recorded, |calls|, msgs, failed);
    ResolverAskedIff(h, turn, a, recorded, msgs, failed);
    FirstUnsafeFinds(st.deferred);
    forall i | 0 <= i < |st.deferred|
      ensures st.deferred[i].outcome.effect == Some(ReadOnly)
    {
      assert FailedOutcome(st.outcomes, st.deferred[i].outcome);
    }
  }
}
