/** Resuming an open tail: which of its calls are taken for recorded, and exactly when the resumed batch keeps the order
    of `LoopSafety` and answers every call. */
module ResumeOrder {
  import opened Prelude
  import opened Transcript
  import opened FailureControl
  import opened HostContracts
  import opened LoopSpec
  import opened Pacing
  import opened LoopSafety

  // ----- what a restored tail records

  lemma {:induction false} RecordedIds(suffix: seq<Message>, id: string)
    requires forall i :: 0 <= i < |suffix| ==> suffix[i].ToolResult?
    ensures id in ResultsById(suffix) <==> id != "" && exists i :: 0 <= i < |suffix| && suffix[i].callId == id
    ensures forall i :: && 0 <= i < |suffix| && suffix[i].callId == id && id != ""
                        && (forall j :: 0 <= j < i ==> suffix[j].callId != id)
                        ==> ResultsById(suffix)[id] == suffix[i].payload
    decreases |suffix|
  {
    if suffix != [] {
      var n := |suffix| - 1;
      RecordedIds(suffix[..n], id);
      assert forall i :: 0 <= i < n ==> suffix[..n][i] == suffix[i];
    }
  }

  /** Calls that can be told apart by their ids. */
  ghost predicate CallsDistinct(calls: seq<ToolCall>) {
    && (forall i :: 0 <= i < |calls| ==> calls[i].callId != "")
    && (forall i, j :: 0 <= i < j < |calls| ==> calls[i].callId != calls[j].callId)
  }

  ghost predicate Answers(calls: seq<ToolCall>, suffix: seq<Message>) {
    && |suffix| <= |calls|
    && forall i :: 0 <= i < |suffix| ==> suffix[i].ToolResult? && suffix[i].callId == calls[i].callId
  }

  /** With distinct ids exactly the calls that have a result are recognized as recorded. */
  lemma RecordedAreAnswered(calls: seq<ToolCall>, suffix: seq<Message>, i: nat)
    requires CallsDistinct(calls) && Answers(calls, suffix) && i < |calls|
    ensures calls[i].callId in ResultsById(suffix) <==> i < |suffix|
    ensures i < |suffix| ==> ResultsById(suffix)[calls[i].callId] == suffix[i].payload
  {
    RecordedIds(suffix, calls[i].callId);
    if i < |suffix| {
      assert suffix[i].callId == calls[i].callId;
    }
  }

  lemma OrderlyAnswers(msgs: seq<Message>, t: nat)
    requires Orderly(msgs) && TailOf(msgs) == Some(t)
    ensures Answers(ToolCalls(msgs[t], AssistantCount(msgs)), msgs[t + 1..])
  {
    hide ToolCalls, AssistantCount, TailOf;
    var calls, suffix := ToolCalls(msgs[t], AssistantCount(msgs)), msgs[t + 1..];
    forall i | 0 <= i < |suffix|
      ensures suffix[i].ToolResult? && suffix[i].callId == calls[i].callId
    {
      assert suffix[i] == msgs[t + 1 + i];
    }
  }

  lemma CallsHaveIds(m: Message, turn: nat)
    requires m.Assistant?
    ensures forall i :: 0 <= i < |ToolCalls(m, turn)| ==> ToolCalls(m, turn)[i].callId != ""
  {}

  /** The id of call `i` is not that of one of the first `done` calls. */
  ghost predicate Fresh(calls: seq<ToolCall>, done: nat, i: int) {
    0 <= i < |calls| && forall j :: 0 <= j < done && j < |calls| ==> calls[j].callId != calls[i].callId
  }

  /** A resumed tail takes a call for recorded exactly when it is answered or carries the id of an answered one. */
  lemma RecordedIff(msgs: seq<Message>, t: nat, i: nat)
    requires Orderly(msgs) && TailOf(msgs) == Some(t) && i < |ToolCalls(msgs[t], AssistantCount(msgs))|
    ensures var calls := ToolCalls(msgs[t], AssistantCount(msgs));
            calls[i].callId in ResultsById(msgs[t + 1..]) <==> !Fresh(calls, |msgs| - t - 1, i)
  {
    var calls, suffix := ToolCalls(msgs[t], AssistantCount(msgs)), msgs[t + 1..];
    CallsHaveIds(msgs[t], AssistantCount(msgs));
    hide ToolCalls;
    OrderlyAnswers(msgs, t);
    RecordedIds(suffix, calls[i].callId);
    assert forall j :: 0 <= j < |suffix| ==> suffix[j].callId == calls[j].callId;
  }

  /** The first call that the resumed tail passes over, although it has no result. */
  function PassedOver(calls: seq<ToolCall>, done: nat, from: nat): (cut: nat)
    requires done <= from <= |calls|
    ensures from <= cut <= |calls|
    ensures forall i :: from <= i < cut ==> Fresh(calls, done, i)
    ensures cut < |calls| ==> !Fresh(calls, done, cut)
    decreases |calls| - from
  {
    if from < |calls| && forall j :: 0 <= j < done ==> calls[j].callId != calls[from].callId then PassedOver(calls, done, from + 1)
    else from
  }

  /** The last assistant message has calls that are answered one by one: it is neither a plain answer nor, in
      lifecycle mode, an explicit terminal call. */
  ghost predicate ResumesBatch(h: Host, msgs: seq<Message>) {
    match TailOf(msgs)
    case None => false
    case Some(t) =>
      var calls := ToolCalls(msgs[t], AssistantCount(msgs));
      calls != [] && !(h.requireTerminal && HasTerminalCall(calls))
  }

  ghost predicate AllFresh(calls: seq<ToolCall>, done: nat) {
    forall i :: done <= i < |calls| ==> Fresh(calls, done, i)
  }

  /** No unanswered call of the open tail carries the id of an answered one. */
  ghost predicate UnansweredTell(msgs: seq<Message>) {
    match TailOf(msgs)
    case None => true
    case Some(t) => AllFresh(ToolCalls(msgs[t], AssistantCount(msgs)), |msgs| - t - 1)
  }

  /** Among the first `n` calls none that is passed over stands before one that is to be run. */
  ghost predicate InOrder(calls: seq<ToolCall>, done: nat, n: nat) {
    forall i, j :: done <= i < j < n && Fresh(calls, done, j) ==> Fresh(calls, done, i)
  }

  ghost predicate RunsInOrder(msgs: seq<Message>) {
    match TailOf(msgs)
    case None => true
    case Some(t) => var calls := ToolCalls(msgs[t], AssistantCount(msgs)); InOrder(calls, |msgs| - t - 1, |calls|)
  }

  lemma ResumeReady(msgs: seq<Message>, t: nat)
    requires Orderly(msgs) && TailOf(msgs) == Some(t)
    ensures var calls, done := ToolCalls(msgs[t], AssistantCount(msgs)), |msgs| - t - 1;
            BatchReady(calls, AssistantCount(msgs), msgs, done) && done <= |calls|
  {}

  /** A tail that runs in order is resumed at its first unanswered call, up to the first call it passes over. */
  lemma ResumeRecorded(msgs: seq<Message>, t: nat, n: nat)
    requires Orderly(msgs) && TailOf(msgs) == Some(t) && n <= |ToolCalls(msgs[t], AssistantCount(msgs))|
    requires |msgs| - t - 1 >= 0 && InOrder(ToolCalls(msgs[t], AssistantCount(msgs)), |msgs| - t - 1, n)
    ensures var calls, done := ToolCalls(msgs[t], AssistantCount(msgs)), |msgs| - t - 1;
            done <= |calls| && Recorded(calls, ResultsById(msgs[t + 1..]), done, PassedOver(calls, done, done), n)
  {
    hide ToolCalls, ResultsById, PassedOver, Orderly;
    ResumeReady(msgs, t);
    var calls, done := ToolCalls(msgs[t], AssistantCount(msgs)), |msgs| - t - 1;
    var recorded, cut := ResultsById(msgs[t + 1..]), PassedOver(calls, done, done);
    forall i | 0 <= i < n && i < |calls|
      ensures calls[i].callId in recorded <==> i < done || cut <= i
    {
      RecordedIff(msgs, t, i);
    }
  }

  lemma TailMeansAssistant(msgs: seq<Message>)
    requires TailOf(msgs).Some?
    ensures AssistantCount(msgs) >= 1
  {
  }

  /** A tail is checked as a terminal call exactly when it is no batch. */
  lemma CheckedIff(h: Host, a: Message, calls: seq<ToolCall>, msgs: seq<Message>)
    requires a.Assistant?
    ensures ValidateTerminal(h, a, calls, msgs, true).NoTerminalCall? <==> !HasTerminalCall(calls)
  {
    hide Strip, ReadLifecycle;
  }

  lemma ResumeTraced(h: Host, msgs: seq<Message>, failed: set<string>)
    requires Orderly(msgs) && (ResumesBatch(h, msgs) ==> RunsInOrder(msgs))
    ensures PhaseKeeps(msgs, ResumePhase(h, msgs, failed))
  {
    hide ResumePhase, RunsInOrder, Orderly;
    if ResumesBatch(h, msgs) {
      BatchTailTraced(h, msgs, TailOf(msgs).value, failed);
    } else {
      OtherTailTraced(h, msgs, failed);
    }
  }

  lemma BatchTailTraced(h: Host, msgs: seq<Message>, t: nat, failed: set<string>)
    requires Orderly(msgs) && TailOf(msgs) == Some(t) && ResumesBatch(h, msgs) && RunsInOrder(msgs)
    ensures PhaseKeeps(msgs, ResumePhase(h, msgs, failed))
  {
    hide ResumePhase, BatchPhase, ToolCalls, ResultsById, PassedOver, PhaseKeeps, AssistantCount, InOrder, Orderly, ResumesBatch;
    var a, turn, done := msgs[t], AssistantCount(msgs), |msgs| - t - 1;
    var calls := ToolCalls(a, turn);
    ResumeReady(msgs, t);
    ResumeRecorded(msgs, t, |calls|);
    ResumedTrace(h, msgs, t, failed);
    BatchPhaseTraced(h, turn, a, ResultsById(msgs[t + 1..]), msgs, failed, done, PassedOver(calls, done, done));
  }

  lemma OtherTailTraced(h: Host, msgs: seq<Message>, failed: set<string>)
    requires Orderly(msgs) && !ResumesBatch(h, msgs)
    ensures PhaseKeeps(msgs, ResumePhase(h, msgs, failed))
  {
    hide BatchPhase, AnswerPhase, TerminalPhase, ToolCalls, ResultsById, ValidateTerminal, Orderly;
    if TailOf(msgs).Some? {
      var a, turn := msgs[TailOf(msgs).value], AssistantCount(msgs);
      var calls := ToolCalls(a, turn);
      TailMeansAssistant(msgs);
      CheckedIff(h, a, calls, msgs);
      if calls == [] {
        AnswerTraced(h, turn, a, msgs, h.requireTerminal);
      } else {
        TerminalTraced(h, turn, ValidateTerminal(h, a, calls, msgs, true), msgs, failed, false);
      }
    }
  }

  // ----- tails that are not resumed in order

  lemma {:induction false} ScanExtends(h: Host, turn: nat, text: string, calls: seq<ToolCall>, recorded: map<string, Payload>,
                                       m: nat, n: nat, st: BatchState)
    requires m <= n <= |calls|
    ensures BatchScan(h, turn, text, calls, recorded, m, st).trace <= BatchScan(h, turn, text, calls, recorded, n, st).trace
    decreases n
  {
    hide OutcomeOf, LiveVerdict, RestoredVerdict, Execute, CallActions, FailurePoint, FailureCount;
    if m < n {
      ScanExtends(h, turn, text, calls, recorded, m, n - 1, st);
    }
  }

  /** The first call to be run after one that is passed over. */
  ghost predicate OutOfOrder(calls: seq<ToolCall>, done: nat, cut: nat, j: nat) {
    && done <= cut < j < |calls| && Fresh(calls, done, j)
    && (forall i :: done <= i < cut ==> Fresh(calls, done, i)) && (forall i :: cut <= i < j ==> !Fresh(calls, done, i))
  }

  lemma FirstOutOfOrder(calls: seq<ToolCall>, done: nat, i: nat, j: nat) returns (cut: nat, first: nat)
    requires done <= i < j < |calls| && Fresh(calls, done, j) && !Fresh(calls, done, i)
    ensures OutOfOrder(calls, done, cut, first)
  {
    cut := PassedOver(calls, done, done);
    first := j;
    while exists k :: cut < k < first && Fresh(calls, done, k)
      invariant cut < first < |calls| && Fresh(calls, done, first)
      decreases first
    {
      var k :| cut < k < first && Fresh(calls, done, k);
      first := k;
    }
  }

  /** A call that runs out of order is announced while another one is next. */
  lemma AnnouncedOutOfOrder(h: Host, msgs: seq<Message>, t: nat, failed: set<string>, cut: nat, first: nat, rest: seq<Action>)
    requires Orderly(msgs) && TailOf(msgs) == Some(t)
    requires OutOfOrder(ToolCalls(msgs[t], AssistantCount(msgs)), |msgs| - t - 1, cut, first)
    ensures var turn := AssistantCount(msgs);
            var calls := ToolCalls(msgs[t], turn);
            var st := BatchScan(h, turn, msgs[t].text, calls, ResultsById(msgs[t + 1..]), first + 1, StartBatch(msgs, failed));
            !WellTraced(msgs, st.trace + rest)
  {
    hide ToolCalls, ResultsById, Execute, OutcomeOf, LiveVerdict, FailurePoint, Orderly, NextCall, AssistantCount, BatchScan;
    var turn := AssistantCount(msgs);
    var calls, done, recorded := ToolCalls(msgs[t], turn), |msgs| - t - 1, ResultsById(msgs[t + 1..]);
    ResumeReady(msgs, t);
    RecordedIff(msgs, t, first);
    PassesOverThere(msgs, t, cut, first);
    var start := StartBatch(msgs, failed);
    var st := BatchScan(h, turn, msgs[t].text, calls, recorded, first, start);
    BatchTraced(h, turn, msgs[t].text, calls, recorded, msgs, failed, done, cut, first);
    NextInBatch(msgs, st, turn, calls, done, cut);
    ScanRuns(h, turn, msgs[t].text, calls, recorded, first, start);
    var all := BatchScan(h, turn, msgs[t].text, calls, recorded, first + 1, start).trace + rest;
    assert all[..|st.trace|] == st.trace;
    if WellTraced(msgs, all) {
      WellTracedAt(msgs, all, |st.trace|);
      assert false;
    }
  }

  /** One more call of a scan, when it is run. */
  lemma ScanRuns(h: Host, turn: nat, text: string, calls: seq<ToolCall>, recorded: map<string, Payload>, n: nat, st: BatchState)
    requires n < |calls| && calls[n].callId !in recorded
    ensures var before, after := BatchScan(h, turn, text, calls, recorded, n, st), BatchScan(h, turn, text, calls, recorded, n + 1, st);
            && |before.trace| < |after.trace| && before.trace <= after.trace
            && after.trace[|before.trace|] == Emit(ToolCalled(turn, calls[n].callId, if n == 0 then Some(text) else None))
  {
    hide Execute, OutcomeOf, LiveVerdict, FailurePoint;
  }

  lemma PassesOverThere(msgs: seq<Message>, t: nat, cut: nat, first: nat)
    requires Orderly(msgs) && TailOf(msgs) == Some(t)
    requires OutOfOrder(ToolCalls(msgs[t], AssistantCount(msgs)), |msgs| - t - 1, cut, first)
    ensures Recorded(ToolCalls(msgs[t], AssistantCount(msgs)), ResultsById(msgs[t + 1..]), |msgs| - t - 1, cut, first)
  {
    hide ToolCalls, ResultsById;
    var calls := ToolCalls(msgs[t], AssistantCount(msgs));
    forall i | 0 <= i < first
      ensures calls[i].callId in ResultsById(msgs[t + 1..]) <==> i < |msgs| - t - 1 || cut <= i
    {
      RecordedIff(msgs, t, i);
    }
  }

  /** A well traced run of a resumed batch runs its calls in order. */
  lemma OnlyInOrder(h: Host, msgs: seq<Message>, failed: set<string>, trace: seq<Action>)
    requires Orderly(msgs) && ResumesBatch(h, msgs) && ResumePhase(h, msgs, failed).trace <= trace && WellTraced(msgs, trace)
    ensures RunsInOrder(msgs)
  {
    hide ToolCalls, Fresh, WellTraced, Orderly, AssistantCount, ResumePhase;
    var t := TailOf(msgs).value;
    var calls, done := ToolCalls(msgs[t], AssistantCount(msgs)), |msgs| - t - 1;
    if i, j :| done <= i < j && Fresh(calls, done, j) && !Fresh(calls, done, i) {
      FreshBounds(calls, done, j);
      RunsOutOfOrder(h, msgs, t, failed, i, j, trace);
    }
  }

  lemma RunsOutOfOrder(h: Host, msgs: seq<Message>, t: nat, failed: set<string>, i: nat, j: nat, trace: seq<Action>)
    requires Orderly(msgs) && ResumesBatch(h, msgs) && TailOf(msgs) == Some(t) && ResumePhase(h, msgs, failed).trace <= trace
    requires var calls, done := ToolCalls(msgs[t], AssistantCount(msgs)), |msgs| - t - 1;
             done <= i < j < |calls| && Fresh(calls, done, j) && !Fresh(calls, done, i)
    ensures !WellTraced(msgs, trace)
  {
    hide ToolCalls, ResultsById, Fresh, WellTraced, Orderly, AssistantCount, BatchScan, ResumePhase, ResumesBatch;
    var turn := AssistantCount(msgs);
    var calls, done, recorded := ToolCalls(msgs[t], turn), |msgs| - t - 1, ResultsById(msgs[t + 1..]);
    var cut, first := FirstOutOfOrder(calls, done, i, j);
    var start := StartBatch(msgs, failed);
    var st := BatchScan(h, turn, msgs[t].text, calls, recorded, first + 1, start);
    ScanExtends(h, turn, msgs[t].text, calls, recorded, first + 1, |calls|, start);
    ResumedTrace(h, msgs, t, failed);
    AnnouncedOutOfOrder(h, msgs, t, failed, cut, first, trace[|st.trace|..]);
    assert trace == st.trace + trace[|st.trace|..];
  }

  lemma FreshBounds(calls: seq<ToolCall>, done: nat, j: int)
    requires Fresh(calls, done, j)
    ensures 0 <= j < |calls|
  {}

  lemma ResumedTrace(h: Host, msgs: seq<Message>, t: nat, failed: set<string>)
    requires ResumesBatch(h, msgs) && TailOf(msgs) == Some(t)
    ensures var a, turn := msgs[t], AssistantCount(msgs);
            var calls, recorded := ToolCalls(a, turn), ResultsById(msgs[t + 1..]);
            var st := BatchScan(h, turn, a.text, calls, recorded, |calls|, StartBatch(msgs, failed));
            && ResumePhase(h, msgs, failed) == BatchPhase(h, turn, a, recorded, msgs, failed)
            && st.trace <= ResumePhase(h, msgs, failed).trace
            && st.messages == ResumePhase(h, msgs, failed).messages
  {
    hide ToolCalls, ResultsById, BatchScan, FinishBatch, ValidateTerminal;
    TailMeansAssistant(msgs);
    var a, turn := msgs[t], AssistantCount(msgs);
    var calls := ToolCalls(a, turn);
    CheckedIff(h, a, calls, msgs);
    FinishExtends(h, turn, BatchScan(h, turn, a.text, calls, ResultsById(msgs[t + 1..]), |calls|, StartBatch(msgs, failed)));
  }

  /** How far a resumed batch gets: each call after the answered ones adds at most its own result. */
  lemma {:induction false} ScanCounts(h: Host, turn: nat, text: string, calls: seq<ToolCall>, recorded: map<string, Payload>,
                                      done: nat, n: nat, st: BatchState)
    requires done <= n <= |calls| && forall i :: 0 <= i < done ==> calls[i].callId in recorded
    ensures var gained := |BatchScan(h, turn, text, calls, recorded, n, st).messages| - |st.messages|;
            gained <= n - done && (gained == n - done <==> forall i :: done <= i < n ==> calls[i].callId !in recorded)
    decreases n
  {
    hide OutcomeOf, LiveVerdict, RestoredVerdict, Execute, CallActions, FailurePoint, FailureCount;
    if n > done {
      ScanCounts(h, turn, text, calls, recorded, done, n - 1, st);
    } else if n > 0 {
      ScanRecalls(h, turn, text, calls, recorded, n, st);
    }
  }

  lemma {:induction false} ScanRecalls(h: Host, turn: nat, text: string, calls: seq<ToolCall>, recorded: map<string, Payload>,
                                       n: nat, st: BatchState)
    requires n <= |calls| && forall i :: 0 <= i < n ==> calls[i].callId in recorded
    ensures BatchScan(h, turn, text, calls, recorded, n, st).messages == st.messages
    decreases n
  {
    hide OutcomeOf, RestoredVerdict, FailurePoint, FailureCount;
    if n > 0 {
      ScanRecalls(h, turn, text, calls, recorded, n - 1, st);
    }
  }

  /** A resumed batch leaves a result for each of its calls, in order, if and only if no unanswered call carries the id
      of an answered one. */
  lemma ResumeAnswersIff(h: Host, msgs: seq<Message>, failed: set<string>)
    requires Orderly(msgs) && ResumesBatch(h, msgs)
    ensures var t, after := TailOf(msgs).value, ResumePhase(h, msgs, failed).messages;
            var calls := ToolCalls(msgs[t], AssistantCount(msgs));
            && t < |after| && after[t] == msgs[t]
            && (|after[t + 1..]| == |calls| && Answers(calls, after[t + 1..]) <==> UnansweredTell(msgs))
  {
    hide ToolCalls, ResumePhase, AssistantCount, Orderly, Answers, AllFresh;
    var t, after := TailOf(msgs).value, ResumePhase(h, msgs, failed).messages;
    var calls := ToolCalls(msgs[t], AssistantCount(msgs));
    ResumePaced(h, msgs, failed);
    ResumeGains(h, msgs, t, failed);
    ResumeReady(msgs, t);
    assert |after[t + 1..]| == |after| - t - 1;
    if UnansweredTell(msgs) {
      ResumeStaysOrderly(h, msgs, t, failed);
    }
  }

  lemma ResumeGains(h: Host, msgs: seq<Message>, t: nat, failed: set<string>)
    requires Orderly(msgs) && ResumesBatch(h, msgs) && TailOf(msgs) == Some(t)
    ensures var calls := ToolCalls(msgs[t], AssistantCount(msgs));
            |ResumePhase(h, msgs, failed).messages| == t + 1 + |calls| <==> AllFresh(calls, |msgs| - t - 1)
  {
    hide ToolCalls, ResultsById, ResumePhase, BatchScan, AssistantCount, Orderly, ResumesBatch;
    var turn := AssistantCount(msgs);
    var calls, done, recorded := ToolCalls(msgs[t], turn), |msgs| - t - 1, ResultsById(msgs[t + 1..]);
    ResumeReady(msgs, t);
    ResumedTrace(h, msgs, t, failed);
    forall i: nat | i < |calls|
      ensures calls[i].callId in recorded <==> !Fresh(calls, done, i)
    {
      RecordedIff(msgs, t, i);
    }
    ScanCounts(h, turn, msgs[t].text, calls, recorded, done, |calls|, StartBatch(msgs, failed));
  }

  lemma ResumeStaysOrderly(h: Host, msgs: seq<Message>, t: nat, failed: set<string>)
    requires Orderly(msgs) && ResumesBatch(h, msgs) && TailOf(msgs) == Some(t) && UnansweredTell(msgs)
    ensures var after := ResumePhase(h, msgs, failed).messages;
            msgs <= after && Answers(ToolCalls(msgs[t], AssistantCount(msgs)), after[t + 1..])
  {
    hide ToolCalls, ResultsById, ResumePhase, BatchScan, AssistantCount, Orderly, Answers;
    var turn := AssistantCount(msgs);
    var calls, done, recorded := ToolCalls(msgs[t], turn), |msgs| - t - 1, ResultsById(msgs[t + 1..]);
    ResumeReady(msgs, t);
    ResumedTrace(h, msgs, t, failed);
    assert InOrder(calls, done, |calls|);
    ResumeRecorded(msgs, t, |calls|);
    BatchTraced(h, turn, msgs[t].text, calls, recorded, msgs, failed, done, PassedOver(calls, done, done), |calls|);
    OrderlyAnswers(ResumePhase(h, msgs, failed).messages, t);
  }

  /** When an invocation is well traced, whatever the model, handlers and resolver answer: exactly when no call of a
      batch it resumes is passed over before one that runs. Calls of fresh batches always run in order. */
  lemma SessionTraced(h: Host, msgs: seq<Message>, maxTurns: nat)
    requires Orderly(msgs)
    ensures WellTraced(msgs, Session(h, msgs, maxTurns).trace) <==> (ResumesBatch(h, msgs) ==> RunsInOrder(msgs))
  {
    hide ResumePhase, RunsInOrder, ResumesBatch;
    var failed := FailedFingerprints(h.fingerprint, msgs);
    var phase, run := ResumePhase(h, msgs, failed), Session(h, msgs, maxTurns);
    if ResumesBatch(h, msgs) ==> RunsInOrder(msgs) {
      ResumeTraced(h, msgs, failed);
      if phase.Goes? {
        LoopTraced(h, Durable(msgs, phase.trace), phase.messages, phase.failed, phase.corrected, maxTurns);
        WellTracedConcat(msgs, phase.trace, Loop(h, phase.messages, phase.failed, phase.corrected, maxTurns).trace);
      }
    }
    if ResumesBatch(h, msgs) && WellTraced(msgs, run.trace) {
      OnlyInOrder(h, msgs, failed, run.trace);
    }
  }

  // ----- a checkpoint of the loop itself that is not resumed in order

  /** Three calls of which the first two carry one id. */
  function Twins(): Message {
    Assistant("", [RawCall("a", "x", Mapping("")), RawCall("b", "x", Mapping("")), RawCall("c", "y", Mapping(""))], [])
  }

  lemma TwinCalls(turn: nat)
    ensures var calls := ToolCalls(Twins(), turn);
            && |calls| == 3 && calls[0].callId == calls[1].callId == "x" && calls[2].callId == "y"
            && calls[0].name == "a" && calls[1].name == "b" && calls[2].name == "c" && !HasTerminalCall(calls)
  {}

  lemma ReadOff(result: Message)
    requires result.ToolResult? && result.callId == "x"
    ensures ResultsById([result]) == map["x" := result.payload]
  {
    assert [result][..0] == [];
  }

  /** Resumed from the first result of such a reply, the loop takes it for the second call's too, never runs that
      call, runs the third, and leaves a transcript that is not in order. */
  lemma TwinIsPassedOver(h: Host, opening: seq<Message>, failed: set<string>, payload: Payload)
    ensures var saved := opening + [Twins()] + [ToolResult("x", payload)];
            var calls := ToolCalls(Twins(), AssistantCount(saved));
            var after := saved + [ToolResult("y", Execute(h, saved, calls[2]))];
            && Orderly(saved) && ResumesBatch(h, saved) && !UnansweredTell(saved) && !RunsInOrder(saved)
            && ResumePhase(h, saved, failed).messages == after && !Orderly(after)
            && (forall maxTurns: nat :: !WellTraced(saved, Session(h, saved, maxTurns).trace))
  {
    var saved := opening + [Twins()] + [ToolResult("x", payload)];
    var t, turn := |opening|, AssistantCount(saved);
    var calls := ToolCalls(Twins(), turn);
    TwinTail(h, opening, payload);
    TwinCalls(turn);
    hide ToolCalls, AssistantCount, Execute, ResumePhase, TailOf, Orderly, Session, BatchScan, Twins;
    ReadOff(ToolResult("x", payload));
    assert saved[t + 1..] == [ToolResult("x", payload)];
    TwinScan(h, turn, calls, payload, saved, failed);
    ResumedTrace(h, saved, t, failed);
    TwinDisorder(saved, t, ToolResult("y", Execute(h, saved, calls[2])));
    forall maxTurns: nat
      ensures !WellTraced(saved, Session(h, saved, maxTurns).trace)
    {
      SessionTraced(h, saved, maxTurns);
    }
  }

  lemma TwinTail(h: Host, opening: seq<Message>, payload: Payload)
    ensures var saved := opening + [Twins()] + [ToolResult("x", payload)];
            && TailOf(saved) == Some(|opening|) && saved[|opening|] == Twins() && |saved| == |opening| + 2
            && Orderly(saved) && ResumesBatch(h, saved) && !UnansweredTell(saved) && !RunsInOrder(saved)
  {
    var base := opening + [Twins()];
    var saved := base + [ToolResult("x", payload)];
    TailAfterAssistant(opening, Twins());
    TailAfterResult(base, ToolResult("x", payload));
    TwinCalls(AssistantCount(saved));
    hide ToolCalls, AssistantCount, TailOf;
    var calls := ToolCalls(Twins(), AssistantCount(saved));
    assert calls[0].callId == calls[1].callId && !Fresh(calls, 1, 1) && Fresh(calls, 1, 2);
  }

  lemma TwinDisorder(saved: seq<Message>, t: nat, result: Message)
    requires TailOf(saved) == Some(t) && saved[t] == Twins() && |saved| == t + 2
    requires result.ToolResult? && result.callId == "y"
    ensures !Orderly(saved + [result])
  {
    hide ToolCalls, AssistantCount, TailOf, Twins, HasTerminalCall;
    var after := saved + [result];
    TailAfterResult(saved, result);
    TwinCalls(AssistantCount(after));
    assert after[t + 2] == result && after[t] == saved[t];
  }

  lemma TwinScan(h: Host, turn: nat, calls: seq<ToolCall>, payload: Payload, saved: seq<Message>, failed: set<string>)
    requires |calls| == 3 && calls[0].callId == calls[1].callId == "x" && calls[2].callId == "y"
    ensures BatchScan(h, turn, "", calls, map["x" := payload], 3, StartBatch(saved, failed)).messages
            == saved + [ToolResult("y", Execute(h, saved, calls[2]))]
  {
    hide OutcomeOf, LiveVerdict, RestoredVerdict, Execute, CallActions, FailurePoint, FailureCount;
    var start, recorded := StartBatch(saved, failed), map["x" := payload];
    assert BatchScan(h, turn, "", calls, recorded, 0, start) == start;
    assert BatchScan(h, turn, "", calls, recorded, 1, start).messages == saved;
    assert BatchScan(h, turn, "", calls, recorded, 2, start).messages == saved;
  }

  /** The loop writes that checkpoint when the model replies so. */
  lemma TwinIsWritten(h: Host, opening: seq<Message>, failed: set<string>, corrected: bool, last: bool)
    requires h.model(opening) == Reply("", Twins().calls, [])
    ensures var base := opening + [Twins()];
            var call := ToolCalls(Twins(), AssistantCount(opening) + 1)[0];
            Save(base + [ToolResult("x", Execute(h, base, call))]) in TurnPhase(h, opening, failed, corrected, last).trace
  {
    hide ToolCalls, AssistantCount, Execute, BatchPhase, TurnPhase, ReplyPhase, Twins;
    var turn, base := AssistantCount(opening) + 1, opening + [Twins()];
    TwinCalls(turn);
    TwinBatch(h, turn, base, failed);
    TwinReply(h, turn, base, failed, corrected, last);
    TwinTurn(h, opening, failed, corrected, last);
  }

  lemma TwinTurn(h: Host, opening: seq<Message>, failed: set<string>, corrected: bool, last: bool)
    requires h.model(opening) == Reply("", Twins().calls, [])
    ensures var reply := ReplyPhase(h, AssistantCount(opening) + 1, Twins(), opening + [Twins()], failed, corrected, last);
            forall action :: action in reply.trace ==> action in TurnPhase(h, opening, failed, corrected, last).trace
  {
    hide ReplyPhase, AssistantCount;
  }

  lemma TwinReply(h: Host, turn: nat, base: seq<Message>, failed: set<string>, corrected: bool, last: bool)
    ensures ReplyPhase(h, turn, Twins(), base, failed, corrected, last).trace == BatchPhase(h, turn, Twins(), map[], base, failed).trace
  {
    TwinCalls(turn);
    hide ToolCalls, BatchPhase, AnswerPhase, TerminalPhase;
  }

  lemma TwinBatch(h: Host, turn: nat, base: seq<Message>, failed: set<string>)
    ensures var call := ToolCalls(Twins(), turn)[0];
            Save(base + [ToolResult("x", Execute(h, base, call))]) in BatchPhase(h, turn, Twins(), map[], base, failed).trace
  {
    TwinCalls(turn);
    hide ToolCalls, Execute, OutcomeOf, LiveVerdict, FailurePoint, FinishBatch;
    var calls := ToolCalls(Twins(), turn);
    var start := StartBatch(base, failed);
    var action := Save(base + [ToolResult("x", Execute(h, base, calls[0]))]);
    assert BatchScan(h, turn, "", calls, map[], 0, start) == start;
    var one, all := BatchScan(h, turn, "", calls, map[], 1, start), BatchScan(h, turn, "", calls, map[], 3, start);
    assert action in one.trace;
    ScanExtends(h, turn, "", calls, map[], 1, 3, start);
    hide BatchScan;
    FinishExtends(h, turn, all);
    assert one.trace <= FinishBatch(h, turn, all).trace;
  }

  lemma FinishExtends(h: Host, turn: nat, st: BatchState)
    ensures st.trace <= FinishBatch(h, turn, st).trace && FinishBatch(h, turn, st).messages == st.messages
  {
    hide Consult, BlockingFailure;
  }
}
