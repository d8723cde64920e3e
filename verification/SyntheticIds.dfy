/** Ids synthesized for id-less calls (`app/agents/harness.py`): the loop writes the turn number into them, the
    transcript scans the message index. When a failure under such an id is found again, exactly. */
module SyntheticIds {
  import opened Prelude
  import opened Transcript

  lemma {:induction false} DecimalLength(n: nat)
    ensures |Decimal(n)| >= 1 && (n >= 10 ==> |Decimal(n)| >= 2)
  {
    if n >= 10 { DecimalLength(n / 10); }
  }

  lemma {:induction false} DecimalInjective(m: nat, n: nat)
    requires Decimal(m) == Decimal(n)
    ensures m == n
    decreases m
  {
    DecimalLength(m);
    DecimalLength(n);
    if m >= 10 && n >= 10 {
      var a, b := Decimal(m), Decimal(n);
      assert a[..|a| - 1] == Decimal(m / 10) && b[..|b| - 1] == Decimal(n / 10);
      assert a[|a| - 1] == "0123456789"[m % 10] && b[|b| - 1] == "0123456789"[n % 10];
      DecimalInjective(m / 10, n / 10);
      DigitsDiffer(m % 10, n % 10);
    } else {
      DigitsDiffer(m % 10, n % 10);
    }
  }

  lemma DigitsDiffer(i: nat, j: nat)
    requires i < 10 && j < 10
    ensures "0123456789"[i] == "0123456789"[j] <==> i == j
  {
    var digits := "0123456789";
    assert forall k :: 0 <= k < 10 ==> digits[k] as int == '0' as int + k;
  }

  /** An id synthesized at one number is the one synthesized at another only if the numbers agree. */
  lemma SyntheticIdsTell(prefix: string, s: nat, t: nat, index: nat)
    ensures SyntheticId(prefix, s, index) == SyntheticId(prefix, t, index) <==> s == t
  {
    var a, b := SyntheticId(prefix, s, index), SyntheticId(prefix, t, index);
    var from := |prefix| + 1;
    assert a[from..from + |Decimal(s)|] == Decimal(s) && b[from..from + |Decimal(t)|] == Decimal(t);
    if a == b {
      assert |Decimal(s)| == |Decimal(t)|;
      DecimalInjective(s, t);
    }
  }

  /** The call at position `c` carries no id of its own. */
  predicate IdLess(a: Message, c: nat)
    requires a.Assistant? && c < |a.calls| + |a.invalid|
  {
    if c < |a.calls| then a.calls[c].NotAnObject? || a.calls[c].id == "" else a.invalid[c - |a.calls|].id == ""
  }

  /** Read under another number an id-less call keeps everything but its id. */
  lemma IdLessMoves(a: Message, c: nat, s: nat, t: nat)
    requires a.Assistant? && c < |a.calls| + |a.invalid| && IdLess(a, c)
    ensures var p, q := ToolCalls(a, s)[c], ToolCalls(a, t)[c];
            (p.callId == q.callId <==> s == t) && p.name == q.name && p.args == q.args
  {
    hide SyntheticId;
    if c < |a.calls| {
      var raw := a.calls[c];
      SyntheticIdsTell("malformed", s, t, c);
      if raw.RawCall? { SyntheticIdsTell(raw.name, s, t, c); }
    } else {
      SyntheticIdsTell("invalid", s, t, c - |a.calls|);
    }
  }

  lemma {:induction false} LookupUnique(calls: seq<ToolCall>, c: nat, id: string)
    requires c < |calls| && forall d :: 0 <= d < |calls| && d != c ==> calls[d].callId != id
    ensures LookupCall(calls, id) == if calls[c].callId == id then Some(calls[c]) else None
    decreases |calls|
  {
    var front := calls[..|calls| - 1];
    if c < |front| {
      LookupUnique(front, c, id);
    } else {
      LookupNowhere(front, id);
    }
  }

  lemma {:induction false} LookupNowhere(calls: seq<ToolCall>, id: string)
    requires forall d :: 0 <= d < |calls| ==> calls[d].callId != id
    ensures LookupCall(calls, id) == None
    decreases |calls|
  {
    if calls != [] { LookupNowhere(calls[..|calls| - 1], id); }
  }

  /** The failure of an id-less call, recorded under the id of turn `turn`, is found again by the scans if and only if
      its assistant message stands at that very index - provided no other call of the message takes the id. */
  lemma SyntheticIdsAreLost(fingerprint: Printer, msgs: seq<Message>, i: nat, j: nat, turn: nat, c: nat)
    requires j < |msgs| && OwnerOf(msgs, j) == Some(i) && c < |msgs[i].calls| + |msgs[i].invalid| && IdLess(msgs[i], c)
    requires msgs[j].ToolResult? && msgs[j].payload.Failed? && msgs[j].callId == ToolCalls(msgs[i], turn)[c].callId
    requires forall d :: 0 <= d < |ToolCalls(msgs[i], i)| && d != c ==> ToolCalls(msgs[i], i)[d].callId != msgs[j].callId
    ensures FailureAt(fingerprint, msgs, j) ==
            if i == turn then Some(Fingerprint(fingerprint, ToolCalls(msgs[i], turn)[c], ErrorCode(msgs[j].payload))) else None
  {
    IdLessMoves(msgs[i], c, i, turn);
    LookupUnique(ToolCalls(msgs[i], i), c, msgs[j].callId);
  }

  /** In the loop the turn is one more than the assistant messages before, the index counts them all: the failure is
      recovered exactly when a single other message, the system message, came before. */
  lemma RecoveredOnlyAtTheStart(fingerprint: Printer, before: seq<Message>, a: Message, results: seq<Message>, c: nat, payload: Payload)
    requires a.Assistant? && c < |a.calls| + |a.invalid| && IdLess(a, c) && payload.Failed?
    requires forall k :: 0 <= k < |results| ==> results[k].ToolResult?
    requires var id := ToolCalls(a, AssistantCount(before) + 1)[c].callId;
             forall d :: 0 <= d < |ToolCalls(a, |before|)| && d != c ==> ToolCalls(a, |before|)[d].callId != id
    ensures var call := ToolCalls(a, AssistantCount(before) + 1)[c];
            var shown := before + [a] + results;
            FailedFingerprints(fingerprint, shown + [ToolResult(call.callId, payload)])
            == FailedFingerprints(fingerprint, shown)
               + if |before| - AssistantCount(before) == 1 then {Fingerprint(fingerprint, call, ErrorCode(payload))} else {}
  {
    hide FailureAt, FailureList, AsSet, RegularCall, UnparsedCall;
    var turn := AssistantCount(before) + 1;
    var call := ToolCalls(a, turn)[c];
    hide ToolCalls;
    var shown := before + [a] + results;
    var all := shown + [ToolResult(call.callId, payload)];
    var i, j := |before|, |shown|;
    assert all[i] == a && all[j] == ToolResult(call.callId, payload);
    OwnerOfRun(all, i, j);
    SyntheticIdsAreLost(fingerprint, all, i, j, turn, c);
    ListAppend(fingerprint, shown, all[j]);
    FailureAppend(FailureList(fingerprint, shown), Fingerprint(fingerprint, call, ErrorCode(payload)));
  }

  /** Both cases occur: after a system message alone the failure is found again, after an owner's message it is not. */
  lemma BothCasesOccur(fingerprint: Printer, prompt: string, request: string, args: Args, payload: Payload)
    requires payload.Failed? && args.Mapping?
    ensures var a := Assistant("", [RawCall("search", "", args)], []);
            var call := ToolCalls(a, 1)[0];
            var answer := ToolResult(call.callId, payload);
            && FailedFingerprints(fingerprint, [System(Prompt(prompt)), a, answer]) == {Fingerprint(fingerprint, call, ErrorCode(payload))}
            && FailedFingerprints(fingerprint, [System(Prompt(prompt)), Human(request), a, answer]) == {}
  {
    var a := Assistant("", [RawCall("search", "", args)], []);
    var answer := ToolResult(ToolCalls(a, 1)[0].callId, payload);
    hide ToolCalls, FailedFingerprints, Decimal;
    var alone, asked := [System(Prompt(prompt))], [System(Prompt(prompt)), Human(request)];
    FirstAnswer(fingerprint, alone, args, payload);
    FirstAnswer(fingerprint, asked, args, payload);
    assert alone + [a, answer] == [System(Prompt(prompt)), a, answer];
    assert asked + [a, answer] == [System(Prompt(prompt)), Human(request), a, answer];
  }

  lemma FirstAnswer(fingerprint: Printer, opening: seq<Message>, args: Args, payload: Payload)
    requires payload.Failed? && args.Mapping?
    requires forall k :: 0 <= k < |opening| ==> !opening[k].ToolResult? && !opening[k].Assistant?
    ensures var a := Assistant("", [RawCall("search", "", args)], []);
            var call := ToolCalls(a, 1)[0];
            FailedFingerprints(fingerprint, opening + [a, ToolResult(call.callId, payload)])
            == if |opening| == 1 then {Fingerprint(fingerprint, call, ErrorCode(payload))} else {}
  {
    hide ToolCalls, Decimal, FailureList, FailureAt, IdLess, FailedFingerprints, AssistantCount;
    var a := Assistant("", [RawCall("search", "", args)], []);
    OnlyCall(args, 1);
    OnlyCall(args, |opening|);
    var call := ToolCalls(a, 1)[0];
    NothingFailed(fingerprint, opening + [a]);
    NoAssistants(opening);
    assert opening + [a] + [] == opening + [a];
    assert opening + [a] + [ToolResult(call.callId, payload)] == opening + [a, ToolResult(call.callId, payload)];
    RecoveredOnlyAtTheStart(fingerprint, opening, a, [], 0, payload);
    NoneFound(fingerprint, opening + [a]);
  }

  lemma OnlyCall(args: Args, n: nat)
    ensures var a := Assistant("", [RawCall("search", "", args)], []); |ToolCalls(a, n)| == 1 && IdLess(a, 0)
  {}

  lemma NoneFound(fingerprint: Printer, msgs: seq<Message>)
    requires FailureList(fingerprint, msgs) == []
    ensures FailedFingerprints(fingerprint, msgs) == {}
  {}

  lemma {:induction false} NoAssistants(msgs: seq<Message>)
    requires forall k :: 0 <= k < |msgs| ==> !msgs[k].Assistant?
    ensures AssistantCount(msgs) == 0
    decreases |msgs|
  {
    if msgs != [] { NoAssistants(msgs[..|msgs| - 1]); }
  }

  lemma {:induction false} NothingFailed(fingerprint: Printer, msgs: seq<Message>)
    requires forall k :: 0 <= k < |msgs| ==> !msgs[k].ToolResult?
    ensures FailureList(fingerprint, msgs) == []
    decreases |msgs|
  {
    if msgs != [] {
      NothingFailed(fingerprint, msgs[..|msgs| - 1]);
    }
  }
}
