/** The canonical native transcript of `app/agents/harness.py`: messages, the calls an
    assistant message selects, and the failure fingerprints that can be read back from it. */
module Transcript {
  import opened Prelude

  datatype EffectClass = ReadOnly | ProposalOnly | DurableLocalWrite | ExternalWrite

  /** Tool arguments: a JSON object, or anything else. `text` stands for the JSON value. */
  datatype Args = Mapping(text: string) | NonMapping(text: string)

  /** One entry of `AIMessage.tool_calls`. An empty `name` or `id` stands for a missing,
      empty or non-string field; the source treats these alike. */
  datatype RawCall = NotAnObject | RawCall(name: string, id: string, args: Args)

  /** One entry of `AIMessage.invalid_tool_calls`, with the same convention. */
  datatype InvalidCall = InvalidCall(name: string, id: string, args: Args, error: string)

  /** Error codes. `OtherCode` and `ModelFailure` carry the codes the host does not name. */
  datatype Code =
    | ToolUnknown | ArgumentsInvalid | MalformedCall | ResultOversize | ResultNotSerializable
    | ExecutionFailed | RepeatedFailure | ResolverFailed | InvalidTerminalResponse | TurnLimitCode
    | SinkFailed | ModelFailure(text: string) | OtherCode(text: string)

  /** The message text of a failure: fixed by the host, or taken from the handler's exception or the parser's error. */
  datatype Note = HostNote | ForeignNote(text: string)

  /** What a tool message carries once its JSON content is decoded. */
  datatype Payload =
    | Succeeded(reviewRequired: bool)
    | Failed(code: Code, retryable: bool, note: Note)

  /** Why a call cannot be executed as given. */
  datatype Defect = CallNotAnObject | NameMissing | ArgumentsNotAnObject | Unparsed(error: string)

  datatype TerminalError =
    | NotTheOnlyCall | Defective(defect: Defect) | BadArguments(text: string) | TextBesideCall | Rejected(text: string)

  datatype SystemContent = Prompt(text: string) | CorrectionOf(error: TerminalError)

  datatype Message =
    | System(content: SystemContent)
    | Human(text: string)
    | Assistant(text: string, calls: seq<RawCall>, invalid: seq<InvalidCall>)
    | ToolResult(callId: string, payload: Payload)

  datatype ToolCall = ToolCall(callId: string, name: string, args: Args, malformed: Option<Defect>)

  const MALFORMED_NAME := "malformed_tool_call"
  const TERMINAL_TOOL := "emit_conversation_response"

  function Decimal(n: nat): string {
    if n < 10 then ["0123456789"[n]] else Decimal(n / 10) + ["0123456789"[n % 10]]
  }

  /** An id synthesized for a call that carries none. */
  function SyntheticId(prefix: string, turn: nat, index: nat): string {
    prefix + "-" + Decimal(turn) + "-" + Decimal(index)
  }

  function RegularCall(raw: RawCall, turn: nat, index: nat): ToolCall {
    match raw
    case NotAnObject =>
      ToolCall(SyntheticId("malformed", turn, index), MALFORMED_NAME, Mapping("{}"), Some(CallNotAnObject))
    case RawCall(name, id, args) =>
      if name == "" then
        ToolCall(if id != "" then id else SyntheticId("malformed", turn, index),
                 MALFORMED_NAME, args, Some(NameMissing))
      else
        ToolCall(if id != "" then id else SyntheticId(name, turn, index), name, args,
                 if args.Mapping? then None else Some(ArgumentsNotAnObject))
  }

  function UnparsedCall(raw: InvalidCall, turn: nat, index: nat): ToolCall {
    ToolCall(if raw.id != "" then raw.id else SyntheticId("invalid", turn, index),
             if raw.name != "" then raw.name else MALFORMED_NAME, raw.args,
             Some(if raw.error == "tool arguments must be an object" then ArgumentsNotAnObject
                  else Unparsed(if raw.error != "" then raw.error else "tool call could not be parsed")))
  }

  /** Every call of one assistant message, parsed ones first. */
  function ToolCalls(m: Message, turn: nat): (calls: seq<ToolCall>)
    requires m.Assistant?
  {
    seq(|m.calls|, i requires 0 <= i < |m.calls| => RegularCall(m.calls[i], turn, i))
    + seq(|m.invalid|, i requires 0 <= i < |m.invalid| => UnparsedCall(m.invalid[i], turn, i))
  }

  method CollectToolCalls(m: Message, turn: nat) returns (calls: seq<ToolCall>)
    requires m.Assistant?
    ensures calls == ToolCalls(m, turn)
  {
    hide RegularCall, UnparsedCall;
    calls := [];
    for index := 0 to |m.calls|
      invariant calls == ToolCalls(m, turn)[..index]
    {
      calls := calls + [RegularCall(m.calls[index], turn, index)];
    }
    for index := 0 to |m.invalid|
      invariant calls == ToolCalls(m, turn)[..|m.calls| + index]
    {
      calls := calls + [UnparsedCall(m.invalid[index], turn, index)];
    }
  }

  ghost predicate ExplicitIds(m: Message)
    requires m.Assistant?
  {
    && (forall i :: 0 <= i < |m.calls| ==> m.calls[i].RawCall? && m.calls[i].id != "")
    && (forall i :: 0 <= i < |m.invalid| ==> m.invalid[i].id != "")
  }

  lemma ExplicitIdsIgnoreTurn(m: Message, s: nat, t: nat)
    requires m.Assistant? && ExplicitIds(m)
    ensures ToolCalls(m, s) == ToolCalls(m, t)
    ensures forall i :: 0 <= i < |ToolCalls(m, s)| ==> ToolCalls(m, s)[i].callId != ""
  {
  }

  /** `{call.call_id: call for call in calls}[id]`: the last call with that id. */
  function LookupCall(calls: seq<ToolCall>, id: string): Option<ToolCall> {
    if calls == [] then None
    else if calls[|calls| - 1].callId == id then Some(calls[|calls| - 1])
    else LookupCall(calls[..|calls| - 1], id)
  }

  lemma LookupDistinct(calls: seq<ToolCall>, i: nat)
    requires i < |calls|
    requires forall a, b :: 0 <= a < b < |calls| ==> calls[a].callId != calls[b].callId
    ensures LookupCall(calls, calls[i].callId) == Some(calls[i])
  {
    if i < |calls| - 1 {
      var init := calls[..|calls| - 1];
      assert init[i] == calls[i];
      LookupDistinct(init, i);
    }
  }

  function AssistantCount(msgs: seq<Message>): nat {
    if msgs == [] then 0
    else AssistantCount(msgs[..|msgs| - 1]) + if msgs[|msgs| - 1].Assistant? then 1 else 0
  }

  function ResultCount(msgs: seq<Message>): nat {
    if msgs == [] then 0
    else ResultCount(msgs[..|msgs| - 1]) + if msgs[|msgs| - 1].ToolResult? then 1 else 0
  }

  lemma AppendOne(msgs: seq<Message>, m: Message)
    ensures AssistantCount(msgs + [m]) == AssistantCount(msgs) + if m.Assistant? then 1 else 0
    ensures ResultCount(msgs + [m]) == ResultCount(msgs) + if m.ToolResult? then 1 else 0
  {
    assert (msgs + [m])[..|msgs|] == msgs;
  }

  // ----- failures readable from the transcript

  /** An empty code is read back as the generic one. */
  function ErrorCode(p: Payload): Code
    requires p.Failed?
  {
    if p.code == OtherCode("") then ExecutionFailed else p.code
  }

  /** The failure fingerprint of a tool name, its arguments and a code. The source joins the
      name, truncated JSON and code, so distinct failures may share one; it is left arbitrary. */
  type Printer = (string, Args, Code) -> string

  function Fingerprint(fingerprint: Printer, call: ToolCall, code: Code): string {
    fingerprint(call.name, call.args, code)
  }

  /** In the joined form the code can be read back whenever codes hold no bar. */
  lemma JoinKeepsCode(head1: string, code1: string, head2: string, code2: string)
    requires '|' !in code1 && '|' !in code2
    requires head1 + "|" + code1 == head2 + "|" + code2
    ensures code1 == code2
  {
    var fp := head1 + "|" + code1;
    var p1, p2 := |head1|, |head2|;
    assert fp[p1] == '|' && fp[p2] == '|';
    assert fp[p1 + 1..] == code1 && fp[p2 + 1..] == code2;
    assert forall j :: p1 < j < |fp| ==> fp[j] == code1[j - p1 - 1];
    assert forall j :: p2 < j < |fp| ==> fp[j] == code2[j - p2 - 1];
    assert p1 == p2;
  }

  /** Index of the assistant message whose unbroken run of tool results contains `j`. */
  function OwnerOf(msgs: seq<Message>, j: nat): (owner: Option<nat>)
    requires j < |msgs|
    ensures owner.Some? ==> owner.value < j && msgs[owner.value].Assistant?
  {
    if !msgs[j].ToolResult? || j == 0 then None
    else if msgs[j - 1].Assistant? then Some(j - 1)
    else OwnerOf(msgs, j - 1)
  }

  /** The failure one tool result records against the calls it may answer. */
  function FailureOf(fingerprint: Printer, calls: seq<ToolCall>, m: Message): Option<string>
    requires m.ToolResult?
  {
    if !m.payload.Failed? then None
    else match LookupCall(calls, m.callId)
      case None => None
      case Some(call) => Some(Fingerprint(fingerprint, call, ErrorCode(m.payload)))
  }

  /** The fingerprint of the failure recorded at `j`, as both transcript scans attribute it:
      ids missing from the owner are synthesized from its message index. */
  function FailureAt(fingerprint: Printer, msgs: seq<Message>, j: nat): Option<string>
    requires j < |msgs|
  {
    match OwnerOf(msgs, j)
    case None => None
    case Some(i) => FailureOf(fingerprint, ToolCalls(msgs[i], i), msgs[j])
  }

  /** Every failure the transcript records, in order. */
  function FailureList(fingerprint: Printer, msgs: seq<Message>): seq<string> {
    if msgs == [] then []
    else
      Extend(FailureList(fingerprint, msgs[..|msgs| - 1]), FailureAt(fingerprint, msgs, |msgs| - 1))
  }

  function Extend<T>(items: seq<T>, item: Option<T>): seq<T> {
    if item.Some? then items + [item.value] else items
  }

  function AsSet(fps: seq<string>): set<string> {
    if fps == [] then {} else AsSet(fps[..|fps| - 1]) + {fps[|fps| - 1]}
  }

  function FailedFingerprints(fingerprint: Printer, msgs: seq<Message>): set<string> {
    AsSet(FailureList(fingerprint, msgs))
  }

  function Occurrences(fps: seq<string>, fp: string): nat {
    if fps == [] then 0
    else Occurrences(fps[..|fps| - 1], fp) + if fps[|fps| - 1] == fp then 1 else 0
  }

  function FailureCount(fingerprint: Printer, msgs: seq<Message>, fp: string): nat {
    Occurrences(FailureList(fingerprint, msgs), fp)
  }

  /** One more failure joins the set and raises one count. */
  lemma FailureAppend(fps: seq<string>, f: string)
    ensures AsSet(fps + [f]) == AsSet(fps) + {f}
    ensures forall fp :: Occurrences(fps + [f], fp) == Occurrences(fps, fp) + if f == fp then 1 else 0
  {
    assert (fps + [f])[..|fps|] == fps;
  }

  lemma {:induction false} FailureConcat(a: seq<string>, b: seq<string>, fp: string)
    ensures AsSet(a + b) == AsSet(a) + AsSet(b)
    ensures Occurrences(a + b, fp) == Occurrences(a, fp) + Occurrences(b, fp)
    decreases |b|
  {
    if b == [] {
      assert a + b == a;
    } else {
      var n := |b| - 1;
      assert a + b == (a + b[..n]) + [b[n]];
      FailureConcat(a, b[..n], fp);
      FailureAppend(a + b[..n], b[n]);
    }
  }

  /** The set holds exactly the fingerprints the count scan sees at least once. */
  lemma {:induction false} FailedMeansCounted(fps: seq<string>, fp: string)
    ensures fp in AsSet(fps) <==> Occurrences(fps, fp) >= 1
    decreases |fps|
  {
    if fps != [] {
      FailedMeansCounted(fps[..|fps| - 1], fp);
    }
  }

  lemma OwnerOfPrefix(msgs: seq<Message>, n: nat, j: nat)
    requires j < n <= |msgs|
    ensures OwnerOf(msgs[..n], j) == OwnerOf(msgs, j)
  {
  }

  lemma FailureAtPrefix(fingerprint: Printer, msgs: seq<Message>, n: nat, j: nat)
    requires j < n <= |msgs|
    ensures FailureAt(fingerprint, msgs[..n], j) == FailureAt(fingerprint, msgs, j)
  {
    OwnerOfPrefix(msgs, n, j);
  }

  /** One more message adds at most its own failure. */
  lemma ListAppend(fingerprint: Printer, msgs: seq<Message>, m: Message)
    ensures var at := FailureAt(fingerprint, msgs + [m], |msgs|);
            FailureList(fingerprint, msgs + [m]) == Extend(FailureList(fingerprint, msgs), at)
    ensures !m.ToolResult? ==> FailureList(fingerprint, msgs + [m]) == FailureList(fingerprint, msgs)
  {
    assert (msgs + [m])[..|msgs|] == msgs;
  }

  lemma ListStep(fingerprint: Printer, msgs: seq<Message>, n: nat, at: Option<string>)
    requires n < |msgs| && FailureAt(fingerprint, msgs, n) == at
    ensures FailureList(fingerprint, msgs[..n + 1]) == Extend(FailureList(fingerprint, msgs[..n]), at)
  {
    hide FailureList, FailureAt;
    assert msgs[..n + 1] == msgs[..n] + [msgs[n]];
    ListAppend(fingerprint, msgs[..n], msgs[n]);
    FailureAtPrefix(fingerprint, msgs, n + 1, n);
  }

  /** The results between an assistant message and `cursor` are its own unbroken run. */
  ghost predicate OwnRun(msgs: seq<Message>, index: nat, cursor: nat) {
    && index < cursor <= |msgs| && msgs[index].Assistant?
    && forall j :: index < j < cursor ==> msgs[j].ToolResult?
  }

  lemma OwnRunStep(fingerprint: Printer, msgs: seq<Message>, index: nat, cursor: nat)
    requires OwnRun(msgs, index, cursor) && cursor < |msgs| && msgs[cursor].ToolResult?
    ensures OwnRun(msgs, index, cursor + 1)
    ensures FailureAt(fingerprint, msgs, cursor) == FailureOf(fingerprint, ToolCalls(msgs[index], index), msgs[cursor])
  {
    OwnerOfRun(msgs, index, cursor);
  }

  lemma OwnerOfRun(msgs: seq<Message>, index: nat, cursor: nat)
    requires OwnRun(msgs, index, cursor) && cursor < |msgs| && msgs[cursor].ToolResult?
    ensures OwnerOf(msgs, cursor) == Some(index)
  {
    if cursor > index + 1 {
      OwnerOfRun(msgs, index, cursor - 1);
    }
  }

  /** No scan attributes message `n` to an earlier assistant message. */
  ghost predicate Detached(msgs: seq<Message>, n: nat) {
    n < |msgs| ==> OwnerOf(msgs, n) == None
  }

  /** The inner loop of both scans: the failures of one assistant message's results. */
  method ScanRun(fingerprint: Printer, msgs: seq<Message>, index: nat)
    returns (failures: seq<string>, cursor: nat)
    requires index < |msgs| && msgs[index].Assistant?
    ensures index < cursor && OwnRun(msgs, index, cursor) && Detached(msgs, cursor)
    ensures FailureList(fingerprint, msgs[..cursor]) == FailureList(fingerprint, msgs[..index]) + failures
  {
    hide FailureList, FailureAt, FailureOf, ToolCalls, OwnerOf;
    RunStarts(fingerprint, msgs, index);
    var calls := CollectToolCalls(msgs[index], index);
    failures, cursor := [], index + 1;
    while cursor < |msgs| && msgs[cursor].ToolResult?
      invariant index < cursor && OwnRun(msgs, index, cursor)
      invariant FailureList(fingerprint, msgs[..cursor]) == FailureList(fingerprint, msgs[..index]) + failures
    {
      var failure := FailureOf(fingerprint, calls, msgs[cursor]);
      RunGrows(fingerprint, msgs, index, cursor, failures);
      if failure.Some? {
        failures := failures + [failure.value];
      }
      cursor := cursor + 1;
    }
    RunEnds(msgs, index, cursor);
  }

  lemma RunStarts(fingerprint: Printer, msgs: seq<Message>, index: nat)
    requires index < |msgs| && msgs[index].Assistant?
    ensures OwnRun(msgs, index, index + 1)
    ensures FailureList(fingerprint, msgs[..index + 1]) == FailureList(fingerprint, msgs[..index]) + []
  {
    ListStep(fingerprint, msgs, index, None);
    assert FailureList(fingerprint, msgs[..index]) + [] == FailureList(fingerprint, msgs[..index]);
  }

  lemma RunGrows(fingerprint: Printer, msgs: seq<Message>, index: nat, cursor: nat, failures: seq<string>)
    requires OwnRun(msgs, index, cursor) && cursor < |msgs| && msgs[cursor].ToolResult?
    requires FailureList(fingerprint, msgs[..cursor]) == FailureList(fingerprint, msgs[..index]) + failures
    ensures OwnRun(msgs, index, cursor + 1)
    ensures FailureList(fingerprint, msgs[..cursor + 1]) == FailureList(fingerprint, msgs[..index])
            + Extend(failures, FailureOf(fingerprint, ToolCalls(msgs[index], index), msgs[cursor]))
  {
    hide FailureList, FailureAt, FailureOf, ToolCalls, OwnerOf;
    OwnRunStep(fingerprint, msgs, index, cursor);
    var failure := FailureOf(fingerprint, ToolCalls(msgs[index], index), msgs[cursor]);
    ListStep(fingerprint, msgs, cursor, failure);
    if failure.Some? {
      assert FailureList(fingerprint, msgs[..index]) + failures + [failure.value]
          == FailureList(fingerprint, msgs[..index]) + (failures + [failure.value]);
    }
  }

  lemma RunEnds(msgs: seq<Message>, index: nat, cursor: nat)
    requires OwnRun(msgs, index, cursor) && (cursor < |msgs| ==> !msgs[cursor].ToolResult?)
    ensures Detached(msgs, cursor)
  {}

  /** The nested scan of `_failed_tool_fingerprints_from_messages`. */
  method ScanFailedFingerprints(fingerprint: Printer, msgs: seq<Message>) returns (fingerprints: set<string>)
    ensures fingerprints == FailedFingerprints(fingerprint, msgs)
  {
    fingerprints := {};
    ghost var seen := 0;
    for index := 0 to |msgs|
      invariant index <= seen <= |msgs|
      invariant forall j :: index <= j < seen ==> msgs[j].ToolResult?
      invariant Detached(msgs, seen)
      invariant fingerprints == FailedFingerprints(fingerprint, msgs[..seen])
    {
      if msgs[index].Assistant? {
        var failures, cursor := ScanRun(fingerprint, msgs, index);
        FailureConcat(FailureList(fingerprint, msgs[..index]), failures, "");
        fingerprints := fingerprints + AsSet(failures);
        seen := cursor;
      } else if seen == index {
        ListStep(fingerprint, msgs, index, None);
        seen := index + 1;
      }
    }
    assert msgs[..seen] == msgs;
  }

  /** The nested scan of `_failed_tool_fingerprint_count`. */
  method CountFailures(fingerprint: Printer, msgs: seq<Message>, fp: string) returns (count: nat)
    ensures count == FailureCount(fingerprint, msgs, fp)
  {
    count := 0;
    ghost var seen := 0;
    for index := 0 to |msgs|
      invariant index <= seen <= |msgs|
      invariant forall j :: index <= j < seen ==> msgs[j].ToolResult?
      invariant Detached(msgs, seen)
      invariant count == FailureCount(fingerprint, msgs[..seen], fp)
    {
      if msgs[index].Assistant? {
        var failures, cursor := ScanRun(fingerprint, msgs, index);
        FailureConcat(FailureList(fingerprint, msgs[..index]), failures, fp);
        count := count + Occurrences(failures, fp);
        seen := cursor;
      } else if seen == index {
        ListStep(fingerprint, msgs, index, None);
        seen := index + 1;
      }
    }
    assert msgs[..seen] == msgs;
  }
}
