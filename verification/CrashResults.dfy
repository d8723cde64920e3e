/** What the caller of a crashed and restarted run gets back, and how much of a run that stops at its turn limit
    survives a chain of crashes. */
module CrashResults {
  import opened Prelude
  import opened Transcript
  import opened FailureControl
  import opened HostContracts
  import opened LoopSpec
  import opened Pacing
  import opened LoopSafety
  import opened ResumeOrder
  import opened BatchDecision
  import opened BatchReplay
  import opened CrashResume

  // ----- the result that is returned

  /** What an invocation is called with. */
  datatype Request = Request(restored: seq<Message>, input: Option<string>)

  function Opening(system: string, req: Request): seq<Message> {
    [System(Prompt(system))] + req.restored + (if req.input.Some? then [Human(req.input.value)] else [])
  }

  function ResultOf(exit: Exit, req: Request): AgentResult {
    match exit
    case Finished(result) => result
    case Raised(code) =>
      AgentResult(FailedRun, FailureResponse(code), AssistantCount(req.restored), req.restored, None, Some(code))
  }

  lemma InvocationResult(h: Host, system: string, req: Request, maxTurns: nat)
    ensures Invocation(h, system, req.restored, req.input, maxTurns) == ResultOf(Session(h, Opening(system, req), maxTurns).exit, req)
  {}

  /** How a crashed invocation is called again: with the last checkpoint, or as before when there was none. */
  function Again(system: string, req: Request, saved: seq<Message>): Request {
    if saved == Opening(system, req) || saved == [] then req else Request(saved[1..], None)
  }

  /** The request that the last invocation of a chain is called with. */
  function LastRequest(h: Host, system: string, req: Request, maxTurns: nat, crashes: seq<nat>): Request
    decreases |crashes|
  {
    var opening := Opening(system, req);
    var run := Session(h, opening, maxTurns);
    if crashes == [] || crashes[0] >= |run.trace| then req
    else LastRequest(h, system, Again(system, req, Durable(opening, run.trace[..crashes[0]])), maxTurns, crashes[1..])
  }

  /** The result of the invocation that ends the chain. */
  function ChainResult(h: Host, system: string, req: Request, maxTurns: nat, crashes: seq<nat>): AgentResult {
    var last := LastRequest(h, system, req, maxTurns, crashes);
    Invocation(h, system, last.restored, last.input, maxTurns)
  }

  /** Equal, except for the code a failed run reports and the text that goes with it. */
  ghost predicate SameResult(r1: AgentResult, r2: AgentResult) { SameExit(Finished(r1), Finished(r2)) }

  lemma AgainOpens(system: string, req: Request, saved: seq<Message>)
    requires Opening(system, req) <= saved
    ensures Opening(system, Again(system, req, saved)) == saved
    ensures req.restored <= Again(system, req, saved).restored
  {
    var opening := Opening(system, req);
    assert saved[0] == opening[0] && [saved[0]] + saved[1..] == saved;
    if saved != opening {
      assert opening[1..] <= saved[1..] && req.restored <= opening[1..];
    }
  }

  /** A chain of crashes restarts from where an uninterrupted run would have been. */
  lemma {:induction false} ChainEndsAlike(h: Host, system: string, req: Request, maxTurns: nat, crashes: seq<nat>)
    requires Orderly(Opening(system, req))
    requires var run := Session(h, Opening(system, req), maxTurns); TameRun(h, Opening(system, req), run.messages) && WithinBudget(run.exit)
    ensures var last := LastRequest(h, system, req, maxTurns, crashes);
            SameExit(Session(h, Opening(system, last), maxTurns).exit, Session(h, Opening(system, req), maxTurns).exit)
    decreases |crashes|
  {
    hide Session, TameTail, TameFrom, Orderly, Opening, Again;
    var opening := Opening(system, req);
    var run := Session(h, opening, maxTurns);
    if crashes != [] && crashes[0] < |run.trace| {
      var saved := Durable(opening, run.trace[..crashes[0]]);
      RestartsAlike(h, opening, maxTurns, crashes[0]);
      AgainOpens(system, req, saved);
      ChainEndsAlike(h, system, Again(system, req, saved), maxTurns, crashes[1..]);
    }
  }

  /** Nothing beyond `opening` is durable after `p` actions of a trace. */
  ghost predicate SavesNothingBefore(opening: seq<Message>, trace: seq<Action>, p: nat) {
    forall i :: 0 <= i < p && i < |trace| && trace[i].Save? ==> trace[i].messages == opening
  }

  /** Every crash that happens comes before a checkpoint of anything beyond the opening. */
  ghost predicate NothingSaved(opening: seq<Message>, trace: seq<Action>, crashes: seq<nat>) {
    forall c :: 0 <= c < |crashes| && (forall b :: 0 <= b <= c ==> crashes[b] < |trace|) ==> SavesNothingBefore(opening, trace, crashes[c])
  }

  lemma {:induction false} DurableSaves(start: seq<Message>, trace: seq<Action>, p: nat)
    requires Paced(start, trace) && p <= |trace|
    ensures Durable(start, trace[..p]) == start <==> SavesNothingBefore(start, trace, p)
    decreases p
  {
    hide PaceOk;
    DurableIsSave(start, trace, p);
    if p > 0 && Durable(start, trace[..p]) == start {
      var next, rest := After(start, trace[0]), trace[1..];
      CutStep(start, trace, p);
      DurableBetween(next, rest, p - 1);
      FirstSaveGrows(start, trace);
      DurableSaves(next, rest, p - 1);
      forall i | 0 < i < p && trace[i].Save?
        ensures trace[i].messages == start
      {
        assert trace[i] == rest[i - 1];
      }
    }
  }

  lemma FirstSaveGrows(start: seq<Message>, trace: seq<Action>)
    requires trace != [] && Paced(start, trace)
    ensures start <= After(start, trace[0])
  {}

  /** When a chain hands over what it was given and nothing more, for every host and transcript: exactly when each crash
      that happens comes before a checkpoint of anything beyond the opening. */
  lemma {:induction false} HandsOverNothingIff(h: Host, system: string, req: Request, maxTurns: nat, crashes: seq<nat>)
    ensures var opening, last := Opening(system, req), LastRequest(h, system, req, maxTurns, crashes);
            && req.restored <= last.restored
            && (last.restored == req.restored <==> NothingSaved(opening, Session(h, opening, maxTurns).trace, crashes))
    decreases |crashes|
  {
    hide Session, SavesNothingBefore, Opening;
    var opening := Opening(system, req);
    var trace := Session(h, opening, maxTurns).trace;
    if crashes != [] && crashes[0] < |trace| {
      var saved := Durable(opening, trace[..crashes[0]]);
      var again := Again(system, req, saved);
      SessionPaced(h, opening, maxTurns);
      DurableBetween(opening, trace, crashes[0]);
      DurableSaves(opening, trace, crashes[0]);
      AgainOpens(system, req, saved);
      HandsOverNothingIff(h, system, again, maxTurns, crashes[1..]);
      if saved == opening {
        FirstCrashFirst(opening, trace, crashes);
      } else {
        AgainIsLonger(system, req, saved);
        assert !SavesNothingBefore(opening, trace, crashes[0]);
      }
    }
  }

  lemma AgainIsLonger(system: string, req: Request, saved: seq<Message>)
    requires Opening(system, req) < saved
    ensures |req.restored| < |Again(system, req, saved).restored|
  {}

  lemma FirstCrashFirst(opening: seq<Message>, trace: seq<Action>, crashes: seq<nat>)
    requires crashes != [] && crashes[0] < |trace| && SavesNothingBefore(opening, trace, crashes[0])
    ensures NothingSaved(opening, trace, crashes) <==> NothingSaved(opening, trace, crashes[1..])
  {
    hide SavesNothingBefore;
    var rest := crashes[1..];
    if NothingSaved(opening, trace, crashes) {
      forall c | 0 <= c < |rest| && (forall b :: 0 <= b <= c ==> rest[b] < |trace|)
        ensures SavesNothingBefore(opening, trace, rest[c])
      {
        assert forall b :: 0 < b <= c + 1 ==> crashes[b] == rest[b - 1];
        assert rest[c] == crashes[c + 1];
      }
    }
    if NothingSaved(opening, trace, rest) {
      forall c | 0 <= c < |crashes| && (forall b :: 0 <= b <= c ==> crashes[b] < |trace|)
        ensures SavesNothingBefore(opening, trace, crashes[c])
      {
        if c > 0 {
          assert forall b :: 0 <= b <= c - 1 ==> rest[b] == crashes[b + 1];
          assert rest[c - 1] == crashes[c];
        }
      }
    }
  }

  /** What the caller gets after any chain of crashes: for a run that finishes, the uninterrupted result up to a failed
      run's code; for one that raises, the same failure, but with the transcript the last invocation was handed - the
      uninterrupted one exactly when every crash came before a checkpoint of anything new. */
  lemma ReturnedResults(h: Host, system: string, req: Request, maxTurns: nat, crashes: seq<nat>)
    requires Orderly(Opening(system, req))
    requires var run := Session(h, Opening(system, req), maxTurns); TameRun(h, Opening(system, req), run.messages) && WithinBudget(run.exit)
    ensures var live, chain := Invocation(h, system, req.restored, req.input, maxTurns), ChainResult(h, system, req, maxTurns, crashes);
            var run := Session(h, Opening(system, req), maxTurns);
            var handed := LastRequest(h, system, req, maxTurns, crashes).restored;
            && req.restored <= handed
            && (run.exit.Finished? ==> SameResult(chain, live))
            && (run.exit.Raised? ==> chain == live.(messages := handed, turns := AssistantCount(handed)))
            && (chain.messages == live.messages <==>
                  run.exit.Finished? || NothingSaved(Opening(system, req), run.trace, crashes))
  {
    hide Session, TameRun, Orderly, Opening, LastRequest, AssistantCount, NothingSaved;
    ChainEndsAlike(h, system, req, maxTurns, crashes);
    HandsOverNothingIff(h, system, req, maxTurns, crashes);
    InvocationResult(h, system, req, maxTurns);
    InvocationResult(h, system, LastRequest(h, system, req, maxTurns, crashes), maxTurns);
  }

  /** A host whose resolver always raises, in lifecycle mode. */
  function RaisingHost(): Host {
    Host(map[], (name: string, args: Args, code: Code) => "", true, (seen: seq<Message>) => Reply("hi", [], []),
         (seen: seq<Message>, call: ToolCall) => OversizeResult, Some((context: Context) => ResolverRaised),
         (args: Args) => None, (args: Args) => Err(""), (l: Lifecycle, seen: seq<Message>) => "", None)
  }

  /** Its run raises after one checkpoint, whatever came before. */
  lemma RaisingTurn(msgs: seq<Message>)
    requires TailOf(msgs) == None
    ensures var saved := msgs + [Assistant("hi", [], [])];
            var run := Session(RaisingHost(), msgs, 1);
            && run.exit == Raised(ResolverFailed) && |run.trace| == 4 && Durable(msgs, run.trace[..3]) == saved
            && Session(RaisingHost(), saved, 1).exit == Raised(ResolverFailed)
  {
    hide FailedFingerprints, AssistantCount, Durable, ReplyPhase, ResumePhase, AnswerPhase, TurnPhase, RaisingHost, TailOf;
    var h, a := RaisingHost(), Assistant("hi", [], []);
    var saved, failed := msgs + [a], FailedFingerprints(h.fingerprint, msgs);
    var turn := AssistantCount(msgs) + 1;
    AppendOne(msgs, a);
    RaisingReply(turn, saved, FailedFingerprints(h.fingerprint, saved));
    RaisingPhase(msgs, failed);
    ResumeAtReply(h, turn, saved, FailedFingerprints(h.fingerprint, saved));
    NoTailGoes(h, msgs, failed);
    var run := Session(h, msgs, 1);
    var start := [Emit(TurnStarted(turn)), AskModel(msgs), Save(saved)];
    assert run.trace[..3] == start;
    SavedLast(msgs, start, saved);
  }

  lemma RaisingPhase(msgs: seq<Message>, failed: set<string>)
    ensures var turn, saved := AssistantCount(msgs) + 1, msgs + [Assistant("hi", [], [])];
            TurnPhase(RaisingHost(), msgs, failed, false, true)
            == Ends([Emit(TurnStarted(turn)), AskModel(msgs), Save(saved), AskResolver(AssistantResponse(turn, saved))], saved, Raised(ResolverFailed))
  {
    RaisingReply(AssistantCount(msgs) + 1, msgs + [Assistant("hi", [], [])], failed);
    hide ReplyPhase, AssistantCount;
  }

  lemma NoTailGoes(h: Host, msgs: seq<Message>, failed: set<string>)
    requires TailOf(msgs) == None
    ensures ResumePhase(h, msgs, failed) == Goes([], msgs, failed, false)
  {}

  lemma RaisingReply(turn: nat, saved: seq<Message>, failed: set<string>)
    ensures var h, a := RaisingHost(), Assistant("hi", [], []);
            var answer := Ends([AskResolver(AssistantResponse(turn, saved))], saved, Raised(ResolverFailed));
            && AnswerPhase(h, turn, a, saved, true) == answer && ReplyPhase(h, turn, a, saved, failed, false, true) == answer
            && h.requireTerminal && ToolCalls(a, turn) == []
  {
    assert ToolCalls(Assistant("hi", [], []), turn) == [];
  }

  lemma SavedLast(msgs: seq<Message>, start: seq<Action>, saved: seq<Message>)
    requires |start| == 3 && !start[0].Save? && !start[1].Save? && start[2] == Save(saved)
    ensures Durable(msgs, start) == saved
  {
    var last := [start[2]];
    assert start[1..][1..] == last && last[1..] == [];
    assert Durable(msgs, last) == Durable(saved, []) == saved;
    assert Durable(msgs, start[1..]) == Durable(msgs, last);
  }

  /** The witness: uninterrupted, the failure comes back with the empty transcript that was handed in; crashed once
      after its checkpoint, with the owner's message and the reply. */
  lemma RaisedTranscriptMoves(system: string, text: string)
    ensures var req := Request([], Some(text));
            && Invocation(RaisingHost(), system, [], Some(text), 1).messages == []
            && ChainResult(RaisingHost(), system, req, 1, [3]).messages == [Human(text), Assistant("hi", [], [])]
  {
    hide Session, Durable;
    var req := Request([], Some(text));
    var opening := Opening(system, req);
    assert opening == [System(Prompt(system)), Human(text)];
    RaisingTurn(opening);
    var saved := opening + [Assistant("hi", [], [])];
    var again := Request([Human(text), Assistant("hi", [], [])], None);
    assert saved[1..] == again.restored;
    assert Opening(system, again) == saved;
    assert [3][1..] == [];
    assert LastRequest(RaisingHost(), system, again, 1, []) == again;
    InvocationResult(RaisingHost(), system, req, 1);
    InvocationResult(RaisingHost(), system, again, 1);
  }

  // ----- runs that stop at their turn limit

  /** More turns never lose anything. */
  lemma {:induction false} MoreTurnsReachFurther(h: Host, msgs: seq<Message>, failed: set<string>, c1: bool, left: nat, c2: bool, budget: nat)
    requires left <= budget && failed == FailedFingerprints(h.fingerprint, msgs)
    requires TameFrom(h, Loop(h, msgs, failed, c1, left).messages, |msgs|)
    ensures Loop(h, msgs, failed, c1, left).messages <= Loop(h, msgs, failed, c2, budget).messages
    decreases left
  {
    hide TurnPhase, TameFrom;
    if left == 0 {
      LoopPaced(h, msgs, msgs, failed, c2, budget);
    } else {
      var whole, phase := Loop(h, msgs, failed, c1, left).messages, TurnPhase(h, msgs, failed, c1, left == 1);
      LoopGrows(h, msgs, failed, c1, left);
      TamePrefix(h, whole, phase.messages, |msgs|);
      TurnGoesOn(h, msgs, failed, c1, left == 1, c2, budget == 1);
      if phase.Goes? {
        TameLater(h, whole, |msgs|, |phase.messages|);
        MoreTurnsReachFurther(h, phase.messages, phase.failed, phase.corrected, left - 1,
                              TurnPhase(h, msgs, failed, c2, budget == 1).corrected, budget - 1);
      }
    }
  }

  /** Resumed from any part of its transcript, a loop gets at least as far. */
  lemma {:induction false} LoopReaches(h: Host, msgs: seq<Message>, failed: set<string>, corrected: bool, left: nat, budget: nat, saved: seq<Message>)
    requires left <= budget && failed == FailedFingerprints(h.fingerprint, msgs)
    requires var run := Loop(h, msgs, failed, corrected, left); TameFrom(h, run.messages, |msgs|) && msgs < saved <= run.messages
    ensures Loop(h, msgs, failed, corrected, left).messages <= Session(h, saved, budget).messages
    decreases left
  {
    hide TurnPhase, TameFrom, Session;
    var run := Loop(h, msgs, failed, corrected, left);
    assert left > 0;
    var phase := TurnPhase(h, msgs, failed, corrected, left == 1);
    LoopGrows(h, msgs, failed, corrected, left);
    TamePrefix(h, run.messages, phase.messages, |msgs|);
    TameLater(h, run.messages, |msgs|, |phase.messages|);
    TurnGoesOn(h, msgs, failed, corrected, left == 1, corrected, left == 1);
    if |saved| <= |phase.messages| {
      assert saved <= phase.messages;
      TurnReaches(h, msgs, failed, corrected, left, budget, saved);
    } else {
      assert phase.messages < saved;
      LoopReaches(h, phase.messages, phase.failed, phase.corrected, left - 1, budget, saved);
    }
  }

  lemma TurnReaches(h: Host, msgs: seq<Message>, failed: set<string>, corrected: bool, left: nat, budget: nat, saved: seq<Message>)
    requires 0 < left <= budget && failed == FailedFingerprints(h.fingerprint, msgs)
    requires TameFrom(h, Loop(h, msgs, failed, corrected, left).messages, |msgs|)
    requires msgs < saved <= TurnPhase(h, msgs, failed, corrected, left == 1).messages
    ensures Loop(h, msgs, failed, corrected, left).messages <= Session(h, saved, budget).messages
  {
    hide ReplyPhase, ResumePhase, TameFrom;
    var whole, phase := Loop(h, msgs, failed, corrected, left).messages, TurnPhase(h, msgs, failed, corrected, left == 1);
    var m := h.model(msgs);
    assert m.Reply?;
    var a, turn := Assistant(m.text, m.calls, m.invalid), AssistantCount(msgs) + 1;
    ReplyPaced(h, turn, a, msgs + [a], failed, corrected, left == 1);
    assert msgs + [a] <= phase.messages && msgs + [a] <= saved;
    LoopGrows(h, msgs, failed, corrected, left);
    TamePrefix(h, whole, phase.messages, |msgs|);
    ReplyResumes(h, msgs, turn, a, failed, corrected, left == 1, saved);
    if phase.Goes? {
      TameLater(h, whole, |msgs|, |phase.messages|);
      var resumed := ResumePhase(h, saved, FailedFingerprints(h.fingerprint, saved));
      MoreTurnsReachFurther(h, phase.messages, phase.failed, phase.corrected, left - 1, resumed.corrected, budget);
    }
  }

  /** So does an invocation. */
  lemma SessionReaches(h: Host, msgs: seq<Message>, maxTurns: nat, saved: seq<Message>)
    requires Orderly(msgs)
    requires var run := Session(h, msgs, maxTurns); TameRun(h, msgs, run.messages) && msgs <= saved <= run.messages
    ensures Session(h, msgs, maxTurns).messages <= Session(h, saved, maxTurns).messages
  {
    hide ResumePhase, TameRun, TameFrom, Orderly, Loop;
    var run := Session(h, msgs, maxTurns);
    var phase := ResumePhase(h, msgs, FailedFingerprints(h.fingerprint, msgs));
    ResumeSetup(h, msgs, maxTurns, saved);
    ResumeGrows(h, msgs, maxTurns);
    if |saved| <= |phase.messages| {
      assert saved <= phase.messages;
      if phase.Goes? {
        var resumed := ResumePhase(h, saved, FailedFingerprints(h.fingerprint, saved));
        MoreTurnsReachFurther(h, phase.messages, phase.failed, phase.corrected, maxTurns, resumed.corrected, maxTurns);
      }
    } else {
      assert phase.messages < saved;
      LoopReaches(h, phase.messages, phase.failed, phase.corrected, maxTurns, maxTurns, saved);
    }
  }

  lemma {:induction false} ChainKeeps(h: Host, start: seq<Message>, cur: seq<Message>, maxTurns: nat, crashes: seq<nat>)
    requires Orderly(start) && TameRun(h, start, Session(h, start, maxTurns).messages) && start <= cur
    requires var whole := Session(h, start, maxTurns).messages; whole <= cur || whole <= Session(h, cur, maxTurns).messages
    ensures Session(h, start, maxTurns).messages <= CrashRun(h, cur, maxTurns, crashes).messages
    decreases |crashes|
  {
    hide Session, Orderly, TameRun;
    var whole, run := Session(h, start, maxTurns).messages, Session(h, cur, maxTurns);
    SessionPaced(h, cur, maxTurns);
    if crashes != [] && crashes[0] < |run.trace| {
      var saved := Durable(cur, run.trace[..crashes[0]]);
      DurableBetween(cur, run.trace, crashes[0]);
      if |saved| < |whole| {
        assert saved <= whole;
        SessionReaches(h, start, maxTurns, saved);
      } else {
        assert whole <= saved;
      }
      ChainKeeps(h, start, saved, maxTurns, crashes[1..]);
    }
  }

  /** However often it crashes, a tame run loses nothing it would have written: the transcript of the uninterrupted run,
      also of one that stops at its turn limit, is a prefix of every chain's. */
  lemma CrashesLoseNothing(h: Host, msgs: seq<Message>, maxTurns: nat, crashes: seq<nat>)
    requires Orderly(msgs) && TameRun(h, msgs, Session(h, msgs, maxTurns).messages)
    ensures Session(h, msgs, maxTurns).messages <= CrashRun(h, msgs, maxTurns, crashes).messages
  {
    hide Session, Orderly, TameRun;
    SessionPaced(h, msgs, maxTurns);
    ChainKeeps(h, msgs, msgs, maxTurns, crashes);
  }
}
