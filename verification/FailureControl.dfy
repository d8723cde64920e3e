/** How one batch of tool results decides whether the run may go on: the live control that
    remembers fingerprints in a set, and the control rebuilt from a restored transcript. */
module FailureControl {
  import opened Prelude
  import opened Transcript

  datatype Failure = Failure(code: Code, retryable: bool)

  datatype Outcome = Outcome(callId: string, name: string, effect: Option<EffectClass>,
                             failure: Option<Failure>)

  datatype Deferred = Deferred(outcome: Outcome, code: Code)

  predicate Repairable(code: Code) {
    code.ArgumentsInvalid? || code.MalformedCall?
  }

  function OutcomeOf(tools: map<string, EffectClass>, call: ToolCall, payload: Payload): Outcome {
    Outcome(call.callId, call.name,
            if call.name in tools then Some(tools[call.name]) else None,
            if payload.Failed? then Some(Failure(ErrorCode(payload), payload.retryable)) else None)
  }

  function Defer(deferred: seq<Deferred>, o: Outcome, code: Option<Code>): seq<Deferred> {
    if code.Some? then deferred + [Deferred(o, code.value)] else deferred
  }

  /** The verdict of the live control on one outcome, and the set it leaves behind. */
  datatype Verdict = Verdict(code: Option<Code>, failed: set<string>)

  function RepeatVerdict(fp: string, failed: set<string>): Verdict {
    if fp in failed then Verdict(Some(RepeatedFailure), failed) else Verdict(None, failed + {fp})
  }

  /** The fingerprint of a failed outcome. */
  function FailurePoint(fingerprint: Printer, call: ToolCall, o: Outcome): string {
    if o.failure.Some? then Fingerprint(fingerprint, call, o.failure.value.code) else ""
  }

  /** `_repeated_failure_code`; `fp` is the outcome's fingerprint. */
  function LiveVerdict(o: Outcome, fp: string, failed: set<string>): Verdict {
    match o.failure
    case None => Verdict(None, failed)
    case Some(f) =>
      if f.code.ToolUnknown? then Verdict(Some(ToolUnknown), failed)
      else if Repairable(f.code) then RepeatVerdict(fp, failed)
      else if !f.retryable then Verdict(Some(f.code), failed)
      else if o.effect != None && o.effect != Some(ReadOnly) then Verdict(Some(f.code), failed)
      else RepeatVerdict(fp, failed)
  }

  /** `_restored_terminal_failure_code`; `seen` counts the fingerprint in the transcript. */
  function RestoredVerdict(o: Outcome, seen: nat): Option<Code> {
    match o.failure
    case None => None
    case Some(f) =>
      if f.code.ToolUnknown? then Some(f.code)
      else if !f.retryable || o.effect != Some(ReadOnly) then Some(f.code)
      else if seen >= 2 then Some(RepeatedFailure)
      else None
  }

  function FirstUnsafe(deferred: seq<Deferred>): Option<Code> {
    if deferred == [] then None
    else if deferred[0].outcome.effect != Some(ReadOnly) then Some(deferred[0].code)
    else FirstUnsafe(deferred[1..])
  }

  predicate HasSuccess(outcomes: seq<Outcome>) {
    exists i :: 0 <= i < |outcomes| && outcomes[i].failure == None
  }

  /** `_blocking_batch_failure`. */
  function BlockingFailure(outcomes: seq<Outcome>, deferred: seq<Deferred>): Option<Code> {
    if deferred == [] then None
    else match FirstUnsafe(deferred)
      case Some(code) => Some(code)
      case None => if HasSuccess(outcomes) then None else Some(deferred[0].code)
  }

  /** What a finished batch leads to. */
  datatype Decision =
    | Blocked(code: Code)                  // fail without asking the host resolver
    | ConsultThenFail(code: Code)          // ask the resolver; fail unless it settles
    | ConsultThenContinue                    // ask the resolver; otherwise call the model again

  function Decide(outcomes: seq<Outcome>, deferred: seq<Deferred>): Decision {
    match BlockingFailure(outcomes, deferred)
    case Some(code) => Blocked(code)
    case None => if deferred == [] then ConsultThenContinue else ConsultThenFail(deferred[0].code)
  }

  function Severity(d: Decision): nat {
    match d case Blocked(_) => 2 case ConsultThenFail(_) => 1 case ConsultThenContinue => 0
  }

  /** The four outcomes of a batch, from which decision `Decide` takes. */
  lemma DecisionCases(outcomes: seq<Outcome>, deferred: seq<Deferred>)
    ensures Severity(Decide(outcomes, deferred)) ==
            if deferred == [] then 0
            else if (exists i :: 0 <= i < |deferred| && deferred[i].outcome.effect != Some(ReadOnly)) then 2
            else if HasSuccess(outcomes) then 1 else 2
  {
    FirstUnsafeFinds(deferred);
  }

  /** The blocking code is that of the first deferred failure that is not read-only. */
  lemma {:induction false} FirstUnsafeFinds(deferred: seq<Deferred>)
    ensures FirstUnsafe(deferred).None? <==>
            forall i :: 0 <= i < |deferred| ==> deferred[i].outcome.effect == Some(ReadOnly)
    ensures FirstUnsafe(deferred).Some? ==>
            exists i :: && 0 <= i < |deferred|
                        && deferred[i].outcome.effect != Some(ReadOnly)
                        && FirstUnsafe(deferred) == Some(deferred[i].code)
                        && forall j :: 0 <= j < i ==> deferred[j].outcome.effect == Some(ReadOnly)
  {
    if deferred != [] && deferred[0].outcome.effect == Some(ReadOnly) {
      FirstUnsafeFinds(deferred[1..]);
      if FirstUnsafe(deferred).Some? {
        var i :| && 0 <= i < |deferred[1..]|
                 && deferred[1..][i].outcome.effect != Some(ReadOnly)
                 && FirstUnsafe(deferred[1..]) == Some(deferred[1..][i].code)
                 && forall j :: 0 <= j < i ==> deferred[1..][j].outcome.effect == Some(ReadOnly);
        assert deferred[i + 1] == deferred[1..][i];
        assert forall j :: 1 <= j < i + 1 ==> deferred[j] == deferred[1..][j - 1];
      }
    }
    assert forall i :: 1 <= i < |deferred| ==> deferred[i] == deferred[1..][i - 1];
  }

  lemma FirstUnsafeAppend(deferred: seq<Deferred>, d: Deferred)
    ensures FirstUnsafe(deferred + [d]) ==
            match FirstUnsafe(deferred) {
              case Some(c) => Some(c)
              case None => if d.outcome.effect != Some(ReadOnly) then Some(d.code) else None
            }
  {
    if deferred != [] {
      assert (deferred + [d])[1..] == deferred[1..] + [d];
    }
  }

  // ----- where the two controls can part

  /** The live control ends the batch with this failure whatever was recorded before. */
  predicate LiveTerminal(o: Outcome)
    requires o.failure.Some?
  {
    var f := o.failure.value;
    || f.code == ToolUnknown
    || (!Repairable(f.code) && (!f.retryable || (o.effect != None && o.effect != Some(ReadOnly))))
  }

  predicate RestoredTerminal(o: Outcome)
    requires o.failure.Some?
  {
    var f := o.failure.value;
    f.code == ToolUnknown || !f.retryable || o.effect != Some(ReadOnly)
  }

  /** Failures the live loop lets the model repair but a restored transcript treats as final. */
  predicate Excused(o: Outcome) {
    o.failure.Some? && RestoredTerminal(o) && !LiveTerminal(o)
  }

  /** A failure on a name without a registered tool is always an argument error or an unknown
      tool; `ExecutedResultsAreKnown` shows that every executed call satisfies this. */
  predicate Known(o: Outcome) {
    o.failure.Some? && o.effect == None ==>
      o.failure.value.code == ToolUnknown || Repairable(o.failure.value.code)
  }

  /** A fingerprint tells its code. */
  ghost predicate CodesReadable(fingerprint: Printer) {
    forall n1: string, a1: Args, c1: Code, n2: string, a2: Args, c2: Code ::
      fingerprint(n1, a1, c1) == fingerprint(n2, a2, c2) ==> c1 == c2
  }

  /** The source's joined form tells its code when no code's text holds a bar, however much of the rest is cut off. */
  lemma JoinedCodesAreReadable(fingerprint: Printer, head: (string, Args) -> string, text: Code -> string)
    requires forall n: string, a: Args, c: Code :: fingerprint(n, a, c) == head(n, a) + "|" + text(c)
    requires forall c: Code :: '|' !in text(c)
    requires forall c: Code, d: Code :: text(c) == text(d) ==> c == d
    ensures CodesReadable(fingerprint)
  {
    forall n1: string, a1: Args, c1: Code, n2: string, a2: Args, c2: Code | fingerprint(n1, a1, c1) == fingerprint(n2, a2, c2)
      ensures c1 == c2
    {
      JoinKeepsCode(head(n1, a1), text(c1), head(n2, a2), text(c2));
    }
  }
}
