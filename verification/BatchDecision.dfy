/** Live control against restored control over one batch: which decision a batch reaches when
    the first `k` of its results are judged from the transcript and the rest are judged live. */
module BatchDecision {
  import opened Prelude
  import opened Transcript
  import opened FailureControl

  /** One result of the batch: its outcome and, when it failed, its fingerprint. */
  datatype Item = Item(outcome: Outcome, fp: string)

  datatype Judged = Judged(deferred: seq<Deferred>, failed: set<string>)

  /** The failures the transcript lists once these results are in it. */
  function Trail(history: seq<string>, items: seq<Item>): seq<string> {
    if items == [] then history
    else
      var last := items[|items| - 1];
      var before := Trail(history, items[..|items| - 1]);
      if last.outcome.failure.Some? then before + [last.fp] else before
  }

  /** The first `i` verdicts, when `history` lists the failures before the batch. An
      uninterrupted batch has `k == 0`; a resumed one has `k` results to restore. */
  function Judge(history: seq<string>, items: seq<Item>, k: nat, i: nat): Judged
    requires k <= |items| && i <= |items|
    decreases i
  {
    if i == 0 then Judged([], AsSet(Trail(history, items[..k])))
    else
      var before := Judge(history, items, k, i - 1);
      var item := items[i - 1];
      if i - 1 < k then
        var seen := Occurrences(Trail(history, items[..k]), item.fp);
        Judged(Defer(before.deferred, item.outcome, RestoredVerdict(item.outcome, seen)), before.failed)
      else
        var v := LiveVerdict(item.outcome, item.fp, before.failed);
        Judged(Defer(before.deferred, item.outcome, v.code), v.failed)
  }

  function Outcomes(items: seq<Item>): seq<Outcome> {
    seq(|items|, i requires 0 <= i < |items| => items[i].outcome)
  }

  function DecisionAt(history: seq<string>, items: seq<Item>, k: nat): Decision
    requires k <= |items|
  {
    Decide(Outcomes(items), Judge(history, items, k, |items|).deferred)
  }

  ghost predicate FailedItem(items: seq<Item>, j: int) {
    0 <= j < |items| && items[j].outcome.failure.Some?
  }

  lemma TrailStep(history: seq<string>, items: seq<Item>, i: nat)
    requires i < |items|
    ensures var before, after := Trail(history, items[..i]), Trail(history, items[..i + 1]);
            if items[i].outcome.failure.Some? then
              && after == before + [items[i].fp]
              && AsSet(after) == AsSet(before) + {items[i].fp}
              && forall f :: Occurrences(after, f) == Occurrences(before, f) + if items[i].fp == f then 1 else 0
            else after == before
  {
    assert items[..i + 1][..i] == items[..i];
    FailureAppend(Trail(history, items[..i]), items[i].fp);
  }

  lemma {:induction false} TrailHolds(history: seq<string>, items: seq<Item>, j: nat)
    requires FailedItem(items, j)
    ensures items[j].fp in AsSet(Trail(history, items))
    decreases |items|
  {
    var n := |items| - 1;
    TrailStep(history, items, n);
    assert items[..n + 1] == items;
    if j < n {
      assert items[..n][j] == items[j];
      TrailHolds(history, items[..n], j);
    }
  }

  function Max(a: nat, b: nat): nat { if a < b then b else a }

  /** While nothing is deferred, the live set is exactly what the transcript records. */
  lemma {:induction false} QuietSet(history: seq<string>, items: seq<Item>, k: nat, i: nat)
    requires k <= |items| && i <= |items|
    requires Judge(history, items, k, i).deferred == []
    ensures Judge(history, items, k, i).failed == AsSet(Trail(history, items[..Max(k, i)]))
    decreases i
  {
    hide LiveVerdict, RestoredVerdict, Trail, Defer;
    if i > 0 {
      QuietStep(history, items, k, i - 1);
      hide Judge;
      QuietSet(history, items, k, i - 1);
      if i - 1 >= k {
        TrailStep(history, items, i - 1);
      }
    }
  }

  /** A verdict that defers nothing: nothing was deferred before, and a live failure is new and not final. */
  lemma QuietStep(history: seq<string>, items: seq<Item>, k: nat, i: nat)
    requires k <= |items| && i < |items| && Judge(history, items, k, i + 1).deferred == []
    ensures var before, after := Judge(history, items, k, i), Judge(history, items, k, i + 1);
            && before.deferred == []
            && (i < k || items[i].outcome.failure.None? ==> after.failed == before.failed)
            && (i >= k && items[i].outcome.failure.Some? ==>
                  !LiveTerminal(items[i].outcome) && items[i].fp !in before.failed
                  && after.failed == before.failed + {items[i].fp})
  {}

  /** No failure of the batch ends it: none is terminal, and none repeats an earlier one. */
  ghost predicate Quiet(history: seq<string>, items: seq<Item>, k: nat) {
    forall j :: FailedItem(items, j) ==>
      && !LiveTerminal(items[j].outcome)
      && (j < k ==> !RestoredTerminal(items[j].outcome))
      && Occurrences(Trail(history, items), items[j].fp) < 2
  }

  lemma {:induction false} TrailGrows(history: seq<string>, items: seq<Item>, i: nat, f: string)
    requires i <= |items|
    ensures Occurrences(Trail(history, items[..i]), f) <= Occurrences(Trail(history, items), f)
    decreases |items| - i
  {
    if i < |items| {
      TrailStep(history, items, i);
      TrailGrows(history, items, i + 1, f);
    } else {
      assert items[..i] == items;
    }
  }

  lemma {:induction false} QuietDefersNothing(history: seq<string>, items: seq<Item>, k: nat, i: nat)
    requires k <= |items| && i <= |items| && Quiet(history, items, k)
    ensures Judge(history, items, k, i).deferred == []
    decreases i
  {
    if i > 0 {
      var j := i - 1;
      QuietDefersNothing(history, items, k, j);
      if items[j].outcome.failure.Some? {
        assert FailedItem(items, j);
        if j < k {
          TrailGrows(history, items, k, items[j].fp);
        } else {
          QuietSet(history, items, k, j);
          TrailStep(history, items, j);
          TrailGrows(history, items, i, items[j].fp);
          FailedMeansCounted(Trail(history, items[..j]), items[j].fp);
        }
      }
    }
  }

  lemma {:induction false} NothingDeferredIsQuiet(history: seq<string>, items: seq<Item>, k: nat, i: nat)
    requires k <= i <= |items|
    requires Judge(history, items, k, i).deferred == []
    ensures Quiet(history, items[..i], k)
    decreases i
  {
    hide Quiet, LiveVerdict, RestoredVerdict;
    if i == k {
      QuietWhenRestored(history, items, k);
    } else {
      var j := i - 1;
      QuietStep(history, items, k, j);
      NothingDeferredIsQuiet(history, items, k, j);
      QuietSet(history, items, k, j);
      QuietGrows(history, items, k, j, Judge(history, items, k, j).failed);
    }
  }

  lemma QuietWhenRestored(history: seq<string>, items: seq<Item>, k: nat)
    requires k <= |items| && Judge(history, items, k, k).deferred == []
    ensures Quiet(history, items[..k], k)
  {
    hide Judge, Trail;
    RestoredQuiet(history, items, k, k);
    assert forall j :: FailedItem(items[..k], j) ==> FailedItem(items, j) && items[..k][j] == items[j];
  }

  /** A quiet batch stays quiet with one more live result that is new and not final. */
  lemma QuietGrows(history: seq<string>, items: seq<Item>, k: nat, j: nat, failed: set<string>)
    requires k <= j < |items| && Quiet(history, items[..j], k) && failed == AsSet(Trail(history, items[..j]))
    requires items[j].outcome.failure.Some? ==> !LiveTerminal(items[j].outcome) && items[j].fp !in failed
    ensures Quiet(history, items[..j + 1], k)
  {
    hide Trail, LiveTerminal, RestoredTerminal, AsSet, Occurrences;
    var shown := items[..j + 1];
    TrailStep(history, items, j);
    FailedMeansCounted(Trail(history, items[..j]), items[j].fp);
    forall m | FailedItem(shown, m) && m < j
      ensures !LiveTerminal(shown[m].outcome) && (m < k ==> !RestoredTerminal(shown[m].outcome))
      ensures Occurrences(Trail(history, shown), shown[m].fp) < 2
    {
      assert FailedItem(items[..j], m) && items[..j][m] == shown[m];
      TrailHolds(history, items[..j], m);
      FailedMeansCounted(Trail(history, items[..j]), shown[m].fp);
    }
  }

  lemma {:induction false} RestoredQuiet(history: seq<string>, items: seq<Item>, k: nat, i: nat)
    requires i <= k <= |items|
    requires Judge(history, items, k, i).deferred == []
    ensures forall j :: FailedItem(items, j) && j < i ==>
              && !RestoredTerminal(items[j].outcome)
              && Occurrences(Trail(history, items[..k]), items[j].fp) < 2
    decreases i
  {
    if i > 0 {
      RestoredQuiet(history, items, k, i - 1);
    }
  }

  /** Nothing is deferred exactly when the whole batch is quiet. */
  lemma DeferredIffNotQuiet(history: seq<string>, items: seq<Item>, k: nat)
    requires k <= |items|
    ensures Judge(history, items, k, |items|).deferred == [] <==> Quiet(history, items, k)
  {
    assert items[..|items|] == items;
    if Judge(history, items, k, |items|).deferred == [] {
      NothingDeferredIsQuiet(history, items, k, |items|);
    }
    if Quiet(history, items, k) {
      QuietDefersNothing(history, items, k, |items|);
    }
  }

  /** A failure judged from the transcript that the live loop would have excused. */
  ghost predicate ExcusedBefore(items: seq<Item>, k: nat) {
    exists j :: FailedItem(items, j) && j < k && Excused(items[j].outcome)
  }

  ghost predicate UnsafeExcusedBefore(items: seq<Item>, k: nat) { exists j :: UnsafeExcusedAt(items, k, j) }

  lemma DeferredAfterResume(history: seq<string>, items: seq<Item>, k: nat)
    requires k <= |items|
    ensures Judge(history, items, k, |items|).deferred == [] <==>
            Judge(history, items, 0, |items|).deferred == [] && !ExcusedBefore(items, k)
  {
    DeferredIffNotQuiet(history, items, 0);
    DeferredIffNotQuiet(history, items, k);
  }

  // ----- failures that are not read-only

  /** Items whose fingerprints tell their codes. */
  ghost predicate Readable(items: seq<Item>) {
    forall i, j :: FailedItem(items, i) && FailedItem(items, j) && items[i].fp == items[j].fp ==>
      items[i].outcome.failure == items[j].outcome.failure
      || items[i].outcome.failure.value.code == items[j].outcome.failure.value.code
  }

  ghost predicate AllKnown(items: seq<Item>) {
    forall j :: 0 <= j < |items| ==> Known(items[j].outcome)
  }

  ghost predicate RepairableOnly(items: seq<Item>, f: string) {
    forall j :: FailedItem(items, j) && items[j].fp == f ==> Repairable(items[j].outcome.failure.value.code)
  }

  lemma LiveRemembers(item: Item, failed: set<string>, f: string)
    requires item.outcome.failure.Some? && item.fp == f ==> Repairable(item.outcome.failure.value.code)
    ensures f in LiveVerdict(item.outcome, item.fp, failed).failed <==>
            f in failed || (item.outcome.failure.Some? && item.fp == f)
  {
  }

  /** Repairable fingerprints are never left out of the live set. */
  lemma {:induction false} RepairableRemembered(history: seq<string>, items: seq<Item>, k: nat, i: nat, f: string)
    requires k <= |items| && i <= |items| && RepairableOnly(items, f)
    ensures f in Judge(history, items, k, i).failed <==> f in AsSet(Trail(history, items[..Max(k, i)]))
    decreases i
  {
    if i > 0 {
      RepairableRemembered(history, items, k, i - 1, f);
      if i - 1 >= k {
        TrailStep(history, items, i - 1);
        assert FailedItem(items, i - 1) <==> items[i - 1].outcome.failure.Some?;
        LiveRemembers(items[i - 1], Judge(history, items, k, i - 1).failed, f);
      }
    }
  }

  /** The verdict taken at item `j` when the first `k` are restored. */
  function CodeAt(history: seq<string>, items: seq<Item>, k: nat, j: nat): Option<Code>
    requires k <= |items| && j < |items|
  {
    if j < k then RestoredVerdict(items[j].outcome, Occurrences(Trail(history, items[..k]), items[j].fp))
    else LiveVerdict(items[j].outcome, items[j].fp, Judge(history, items, k, j).failed).code
  }

  ghost predicate UnsafeAt(history: seq<string>, items: seq<Item>, k: nat, j: int)
    requires k <= |items|
  {
    0 <= j < |items| && items[j].outcome.effect != Some(ReadOnly) && CodeAt(history, items, k, j).Some?
  }

  lemma {:induction false} FirstUnsafeIsSomeItem(history: seq<string>, items: seq<Item>, k: nat, i: nat)
    requires k <= |items| && i <= |items|
    ensures FirstUnsafe(Judge(history, items, k, i).deferred).Some? <==>
            exists j :: j < i && UnsafeAt(history, items, k, j)
    decreases i
  {
    if i > 0 {
      FirstUnsafeIsSomeItem(history, items, k, i - 1);
      var before := Judge(history, items, k, i - 1).deferred;
      var code := CodeAt(history, items, k, i - 1);
      if code.Some? {
        FirstUnsafeAppend(before, Deferred(items[i - 1].outcome, code.value));
      } else {
        assert before + [] == before;
      }
      assert UnsafeAt(history, items, k, i - 1) <==>
             items[i - 1].outcome.effect != Some(ReadOnly) && code.Some?;
    }
  }

  /** A failure the live control remembers when it meets it. */
  ghost predicate Records(items: seq<Item>, m: int) {
    FailedItem(items, m) && !LiveTerminal(items[m].outcome)
  }

  /** What the set holds, for every fingerprint function: everything the first `k` results show, and after them
      the failures that are not final. */
  lemma {:induction false} RememberedExactly(history: seq<string>, items: seq<Item>, k: nat, i: nat, f: string)
    requires k <= |items| && i <= |items|
    ensures f in Judge(history, items, k, i).failed <==>
            f in AsSet(Trail(history, items[..k])) || exists m :: k <= m < i && Records(items, m) && items[m].fp == f
    decreases i
  {
    if i > 0 {
      RememberedExactly(history, items, k, i - 1, f);
      assert i - 1 >= k && Records(items, i - 1) && items[i - 1].fp == f ==>
             f in Judge(history, items, k, i).failed;
    }
  }

  lemma {:induction false} TrailMembers(history: seq<string>, items: seq<Item>, f: string)
    ensures f in AsSet(Trail(history, items)) <==>
            f in AsSet(history) || exists m :: FailedItem(items, m) && items[m].fp == f
    decreases |items|
  {
    if items != [] {
      var n := |items| - 1;
      var front := items[..n];
      TrailMembers(history, front, f);
      TrailStep(history, items, n);
      assert items[..n + 1] == items;
      forall m | FailedItem(items, m) && m < n
        ensures FailedItem(front, m) && front[m] == items[m]
      {}
    }
  }

  /** The results on both sides of the crash meet in one fingerprint: a failure recorded before it and a failure,
      not read-only, after it. */
  ghost predicate MeetsAt(items: seq<Item>, k: nat, j: int) {
    && FailedItem(items, j) && j >= k && items[j].outcome.effect != Some(ReadOnly)
    && exists m :: m < k && FailedItem(items, m) && items[m].fp == items[j].fp
  }

  ghost predicate Meets(items: seq<Item>, k: nat) { exists j :: MeetsAt(items, k, j) }

  ghost predicate UnsafeExcusedAt(items: seq<Item>, k: nat, j: int) {
    j < k && FailedItem(items, j) && Excused(items[j].outcome) && items[j].outcome.effect != Some(ReadOnly)
  }

  lemma RepeatMoves(history: seq<string>, items: seq<Item>, k: nat, j: nat)
    requires k <= j < |items|
    ensures items[j].fp in Judge(history, items, k, j).failed <==>
            || items[j].fp in Judge(history, items, 0, j).failed
            || exists m :: m < k && FailedItem(items, m) && items[m].fp == items[j].fp
  {
    var f := items[j].fp;
    RememberedExactly(history, items, k, j, f);
    RememberedExactly(history, items, 0, j, f);
    TrailMembers(history, items[..k], f);
    assert items[..0] == [];
    forall m | FailedItem(items, m) && m < k
      ensures FailedItem(items[..k], m) && items[..k][m] == items[m]
    {}
    if exists m :: 0 <= m < j && Records(items, m) && items[m].fp == f {
      var m :| 0 <= m < j && Records(items, m) && items[m].fp == f;
      assert m < k ==> FailedItem(items, m);
    }
    if exists m :: k <= m < j && Records(items, m) && items[m].fp == f {
      var m :| k <= m < j && Records(items, m) && items[m].fp == f;
      assert 0 <= m < j;
    }
  }

  /** What moves an unsafe verdict: an excused failure judged from the transcript, or a meeting. */
  lemma UnsafeVerdictMoves(history: seq<string>, items: seq<Item>, k: nat, j: nat)
    requires k <= |items| && j < |items|
    ensures UnsafeAt(history, items, k, j) <==>
            UnsafeAt(history, items, 0, j) || UnsafeExcusedAt(items, k, j) || MeetsAt(items, k, j)
  {
    if j >= k {
      RepeatMoves(history, items, k, j);
    }
  }

  /** For every fingerprint function: a resumed batch meets an unsafe final failure exactly when the live one does,
      an excused one was recorded, or a fingerprint recorded before the crash comes back unsafe. */
  lemma UnsafeAfterResume(history: seq<string>, items: seq<Item>, k: nat)
    requires k <= |items|
    ensures FirstUnsafe(Judge(history, items, k, |items|).deferred).Some? <==>
            || FirstUnsafe(Judge(history, items, 0, |items|).deferred).Some?
            || UnsafeExcusedBefore(items, k)
            || Meets(items, k)
  {
    hide UnsafeAt, Excused;
    FirstUnsafeIsSomeItem(history, items, k, |items|);
    FirstUnsafeIsSomeItem(history, items, 0, |items|);
    forall j: nat | j < |items|
      ensures UnsafeAt(history, items, k, j) <==>
              UnsafeAt(history, items, 0, j) || UnsafeExcusedAt(items, k, j) || MeetsAt(items, k, j)
    {
      UnsafeVerdictMoves(history, items, k, j);
    }
    UnsafeBounds(history, items, k);
    UnsafeBounds(history, items, 0);
    if UnsafeExcusedBefore(items, k) {
      var j :| UnsafeExcusedAt(items, k, j);
      assert UnsafeAt(history, items, k, j);
    }
    if Meets(items, k) {
      var j :| MeetsAt(items, k, j);
      assert UnsafeAt(history, items, k, j);
    }
    if exists j :: j < |items| && UnsafeAt(history, items, 0, j) {
      var j :| j < |items| && UnsafeAt(history, items, 0, j);
      assert UnsafeAt(history, items, k, j);
    }
  }

  lemma UnsafeBounds(history: seq<string>, items: seq<Item>, k: nat)
    requires k <= |items|
    ensures forall j :: UnsafeAt(history, items, k, j) ==> 0 <= j < |items|
  {}

  /** When fingerprints tell their codes a meeting changes nothing: the live control meets the repeat as well. */
  lemma ReadableMeetingsAreLive(history: seq<string>, items: seq<Item>, k: nat)
    requires k <= |items| && AllKnown(items) && Readable(items) && Meets(items, k)
    ensures FirstUnsafe(Judge(history, items, 0, |items|).deferred).Some?
  {
    FirstUnsafeIsSomeItem(history, items, 0, |items|);
    var j :| MeetsAt(items, k, j);
    var m :| m < k && FailedItem(items, m) && items[m].fp == items[j].fp;
    assert Known(items[j].outcome);
    RememberedExactly(history, items, 0, j, items[j].fp);
    if !LiveTerminal(items[j].outcome) {
      assert Records(items, m) && 0 <= m < j;
    }
    assert UnsafeAt(history, items, 0, j);
  }

  // ----- the decision

  /** The least severity that a crash after `k` results forces: by excused failures, now judged from the
      transcript, and by fingerprints that meet across it. */
  ghost function ForcedSeverity(items: seq<Item>, k: nat): nat {
    if UnsafeExcusedBefore(items, k) || Meets(items, k) then 2
    else if !ExcusedBefore(items, k) then 0
    else if HasSuccess(Outcomes(items)) then 1 else 2
  }

  lemma SeverityCases(history: seq<string>, items: seq<Item>, k: nat)
    requires k <= |items|
    ensures var deferred := Judge(history, items, k, |items|).deferred;
            Severity(DecisionAt(history, items, k)) ==
            if deferred == [] then 0
            else if FirstUnsafe(deferred).Some? then 2
            else if HasSuccess(Outcomes(items)) then 1 else 2
  {
  }

  /** The decision a resumed batch takes, in terms of the uninterrupted one, for every fingerprint function: as
      severe as it, unless an excused failure or a meeting of fingerprints makes it worse. */
  lemma ResumedDecision(history: seq<string>, items: seq<Item>, k: nat)
    requires k <= |items|
    ensures Severity(DecisionAt(history, items, k))
            == Max(Severity(DecisionAt(history, items, 0)), ForcedSeverity(items, k))
  {
    SeverityCases(history, items, k);
    SeverityCases(history, items, 0);
    DeferredAfterResume(history, items, k);
    UnsafeAfterResume(history, items, k);
    if Meets(items, k) { hide DecisionAt, Judge; }
  }

  /** A crash leaves the decision of a batch alone exactly when it forces nothing more severe. */
  lemma ResumeAgreesIff(history: seq<string>, items: seq<Item>, k: nat)
    requires k <= |items|
    ensures Severity(DecisionAt(history, items, k)) == Severity(DecisionAt(history, items, 0))
            <==> ForcedSeverity(items, k) <= Severity(DecisionAt(history, items, 0))
  {
    ResumedDecision(history, items, k);
  }

  /** When fingerprints tell their codes, only excused failures force anything. */
  lemma ReadableForcesOnlyExcused(history: seq<string>, items: seq<Item>, k: nat)
    requires k <= |items| && AllKnown(items) && Readable(items)
    ensures Severity(DecisionAt(history, items, k)) ==
            Max(Severity(DecisionAt(history, items, 0)),
                if UnsafeExcusedBefore(items, k) then 2
                else if !ExcusedBefore(items, k) then 0
                else if HasSuccess(Outcomes(items)) then 1 else 2)
  {
    ResumedDecision(history, items, k);
    if Meets(items, k) {
      ReadableMeetingsAreLive(history, items, k);
      SeverityCases(history, items, 0);
    }
  }

  // ----- batches without excused failures, for any fingerprint function

  ghost predicate Steady(items: seq<Item>) {
    forall j :: FailedItem(items, j) ==> Known(items[j].outcome) && !Excused(items[j].outcome)
  }

  function FirstUnsafeFailure(items: seq<Item>): Option<Code> {
    if items == [] then None
    else
      var last := items[|items| - 1].outcome;
      match FirstUnsafeFailure(items[..|items| - 1])
      case Some(code) => Some(code)
      case None => if last.failure.Some? && last.effect != Some(ReadOnly) then Some(last.failure.value.code) else None
  }

  lemma {:induction false} SteadyFirstUnsafe(history: seq<string>, items: seq<Item>, k: nat, i: nat)
    requires k <= |items| && i <= |items| && Steady(items)
    ensures FirstUnsafe(Judge(history, items, k, i).deferred) == FirstUnsafeFailure(items[..i])
    decreases i
  {
    if i > 0 {
      SteadyFirstUnsafe(history, items, k, i - 1);
      assert items[..i][..i - 1] == items[..i - 1];
      var before := Judge(history, items, k, i - 1).deferred;
      var code := CodeAt(history, items, k, i - 1);
      assert FailedItem(items, i - 1) <==> items[i - 1].outcome.failure.Some?;
      if code.Some? {
        FirstUnsafeAppend(before, Deferred(items[i - 1].outcome, code.value));
      } else {
        assert before + [] == before;
      }
    }
  }

  /** Without excused failures every crash point leaves the decision alone; the code may differ
      only when it names a repeated or read-only failure. */
  lemma SteadyDecision(history: seq<string>, items: seq<Item>, k: nat)
    requires k <= |items| && Steady(items)
    ensures var resumed, live := DecisionAt(history, items, k), DecisionAt(history, items, 0);
            && Severity(resumed) == Severity(live)
            && (FirstUnsafeFailure(items).Some? ==> resumed == live == Blocked(FirstUnsafeFailure(items).value))
            && (Severity(resumed) == 0 ==>
                  && Judge(history, items, k, |items|).failed == AsSet(Trail(history, items))
                  && Judge(history, items, 0, |items|).failed == AsSet(Trail(history, items)))
  {
    assert items[..|items|] == items;
    SeverityCases(history, items, k);
    SeverityCases(history, items, 0);
    DeferredAfterResume(history, items, k);
    SteadyFirstUnsafe(history, items, k, |items|);
    SteadyFirstUnsafe(history, items, 0, |items|);
    if Severity(DecisionAt(history, items, k)) == 0 {
      QuietSet(history, items, k, |items|);
      QuietSet(history, items, 0, |items|);
    }
  }

  // ----- the reported code

  /** The code a batch reports when it fails. */
  function Reported(d: Decision): Option<Code> {
    match d case Blocked(code) => Some(code) case ConsultThenFail(code) => Some(code) case ConsultThenContinue => None
  }

  /** Item `j` is the first whose failure is deferred when the first `k` are restored. */
  ghost predicate FirstAt(history: seq<string>, items: seq<Item>, k: nat, j: int)
    requires k <= |items|
  {
    0 <= j < |items| && CodeAt(history, items, k, j).Some? && forall m :: 0 <= m < j ==> CodeAt(history, items, k, m).None?
  }

  lemma {:induction false} HeadIsFirst(history: seq<string>, items: seq<Item>, k: nat, i: nat)
    requires k <= |items| && i <= |items|
    ensures Judge(history, items, k, i).deferred == [] <==> forall m :: 0 <= m < i ==> CodeAt(history, items, k, m).None?
    ensures forall j :: j < i && FirstAt(history, items, k, j) ==>
              Judge(history, items, k, i).deferred != []
              && Judge(history, items, k, i).deferred[0].code == CodeAt(history, items, k, j).value
    decreases i
  {
    if i > 0 {
      HeadIsFirst(history, items, k, i - 1);
      hide LiveVerdict, RestoredVerdict;
      assert Judge(history, items, k, i).deferred
          == Defer(Judge(history, items, k, i - 1).deferred, items[i - 1].outcome, CodeAt(history, items, k, i - 1));
    }
  }

  lemma {:induction false} FirstExists(history: seq<string>, items: seq<Item>, k: nat, i: nat)
    requires k <= |items| && i <= |items| && exists m :: 0 <= m < i && CodeAt(history, items, k, m).Some?
    ensures exists j :: j < i && FirstAt(history, items, k, j)
    decreases i
  {
    hide CodeAt;
    if m :| 0 <= m < i - 1 && CodeAt(history, items, k, m).Some? {
      FirstExists(history, items, k, i - 1);
    } else {
      assert FirstAt(history, items, k, i - 1);
    }
  }

  /** Among the first `k` results one before item `live` has a fingerprint that comes again before the crash. */
  ghost predicate EarlyRepeat(history: seq<string>, items: seq<Item>, k: nat, live: nat)
    requires k <= |items|
  {
    exists j :: FailedItem(items, j) && j < k && j < live && Occurrences(Trail(history, items[..k]), items[j].fp) >= 2
  }

  /** The live run stops at a final failure that the resumed run, seeing an earlier repeat, no longer names. */
  ghost predicate CodeMoves(history: seq<string>, items: seq<Item>, k: nat)
    requires k <= |items|
  {
    exists live: nat :: FirstAt(history, items, 0, live) && CodeAt(history, items, 0, live) != Some(RepeatedFailure)
                        && EarlyRepeat(history, items, k, live)
  }

  /** Up to the first live deferral an item's verdict moves only by an early repeat. */
  lemma VerdictMoves(history: seq<string>, items: seq<Item>, k: nat, live: nat, j: nat)
    requires k <= |items| && Steady(items) && FirstUnsafeFailure(items).None? && FirstAt(history, items, 0, live) && j <= live
    ensures CodeAt(history, items, k, j) ==
            if j < live && j < k && FailedItem(items, j) && Occurrences(Trail(history, items[..k]), items[j].fp) >= 2
            then Some(RepeatedFailure) else CodeAt(history, items, 0, j)
  {
    if j >= k {
      LaterVerdict(history, items, k, live, j);
    } else {
      assert FailedItem(items, j) <==> items[j].outcome.failure.Some?;
      SafeItems(items, j);
      assert j < live ==> CodeAt(history, items, 0, j).None?;
      if j == live && FailedItem(items, j) && !LiveTerminal(items[j].outcome) {
        LiveRepeatCounts(history, items, k, live);
      }
    }
  }

  lemma LaterVerdict(history: seq<string>, items: seq<Item>, k: nat, live: nat, j: nat)
    requires k <= j <= live && FirstAt(history, items, 0, live)
    ensures CodeAt(history, items, k, j) == CodeAt(history, items, 0, j)
  {
    var f := items[j].fp;
    RepeatMoves(history, items, k, j);
    RememberedExactly(history, items, 0, j, f);
    if m :| m < k && FailedItem(items, m) && items[m].fp == f {
      assert CodeAt(history, items, 0, m).None?;
      assert Records(items, m) && 0 <= m < j;
    }
  }

  lemma SafeItems(items: seq<Item>, j: nat)
    requires j < |items| && FirstUnsafeFailure(items).None?
    ensures items[j].outcome.failure.Some? ==> items[j].outcome.effect == Some(ReadOnly)
    decreases |items|
  {
    if j < |items| - 1 {
      var front := items[..|items| - 1];
      assert front[j] == items[j];
      SafeItems(front, j);
    }
  }

  lemma LiveRepeatCounts(history: seq<string>, items: seq<Item>, k: nat, live: nat)
    requires live < k <= |items| && FirstAt(history, items, 0, live) && FailedItem(items, live)
    requires !LiveTerminal(items[live].outcome)
    ensures Occurrences(Trail(history, items[..k]), items[live].fp) >= 2
  {
    hide Judge;
    RepeatIsCounted(history, items, k, live);
  }

  /** Exactly when a crash changes the code that a batch without excused failures reports: no failure is unsafe, the
      live run names a final failure, and a failure before it repeats within the restored results. */
  lemma ReportedCodeAgreesIff(history: seq<string>, items: seq<Item>, k: nat)
    requires k <= |items| && Steady(items)
    ensures Reported(DecisionAt(history, items, k)) == Reported(DecisionAt(history, items, 0))
            <==> FirstUnsafeFailure(items).Some? || !CodeMoves(history, items, k)
  {
    hide CodeAt, Judge, Trail, FirstUnsafeFailure;
    SteadyDecision(history, items, k);
    HeadIsFirst(history, items, 0, |items|);
    if FirstUnsafeFailure(items).None? {
      ReportedHead(history, items, k);
      ReportedHead(history, items, 0);
      if exists m :: 0 <= m < |items| && CodeAt(history, items, 0, m).Some? {
        FirstExists(history, items, 0, |items|);
        var live: nat :| FirstAt(history, items, 0, live);
        FirstAfterCrash(history, items, k, live);
        assert forall other: nat :: FirstAt(history, items, 0, other) ==> other == live;
      }
    }
  }

  /** Without unsafe failures the reported code is that of the first deferral. */
  lemma ReportedHead(history: seq<string>, items: seq<Item>, k: nat)
    requires k <= |items| && Steady(items) && FirstUnsafeFailure(items).None?
    ensures Reported(DecisionAt(history, items, k)) ==
            var deferred := Judge(history, items, k, |items|).deferred;
            if deferred == [] then None else Some(deferred[0].code)
  {
    assert items[..|items|] == items;
    SteadyFirstUnsafe(history, items, k, |items|);
  }

  /** What a resumed batch reports, by the first live deferral. */
  lemma FirstAfterCrash(history: seq<string>, items: seq<Item>, k: nat, live: nat)
    requires k <= |items| && Steady(items) && FirstUnsafeFailure(items).None? && FirstAt(history, items, 0, live)
    ensures Reported(DecisionAt(history, items, 0)) == CodeAt(history, items, 0, live)
    ensures Reported(DecisionAt(history, items, k)) ==
            if EarlyRepeat(history, items, k, live) then Some(RepeatedFailure) else CodeAt(history, items, 0, live)
  {
    hide CodeAt, Judge, Trail, FirstUnsafeFailure;
    ReportedHead(history, items, k);
    ReportedHead(history, items, 0);
    HeadIsFirst(history, items, 0, |items|);
    HeadIsFirst(history, items, k, |items|);
    forall j: nat | j <= live
      ensures CodeAt(history, items, k, j) ==
              if j < live && j < k && FailedItem(items, j) && Occurrences(Trail(history, items[..k]), items[j].fp) >= 2
              then Some(RepeatedFailure) else CodeAt(history, items, 0, j)
    {
      VerdictMoves(history, items, k, live, j);
    }
    if EarlyRepeat(history, items, k, live) {
      var j :| FailedItem(items, j) && j < k && j < live && Occurrences(Trail(history, items[..k]), items[j].fp) >= 2;
      assert CodeAt(history, items, k, j).Some?;
      FirstExists(history, items, k, live);
      var first: nat :| first < live && FirstAt(history, items, k, first);
      assert CodeAt(history, items, 0, first).None?;
    } else {
      assert FirstAt(history, items, k, live);
    }
  }

  // ----- the reported code of any batch

  ghost predicate FirstUnsafeAt(history: seq<string>, items: seq<Item>, k: nat, j: int)
    requires k <= |items|
  {
    UnsafeAt(history, items, k, j) && forall m :: 0 <= m < j ==> !UnsafeAt(history, items, k, m)
  }

  /** The item whose code a batch reports: its first unsafe deferral or, without any, its first deferral. */
  ghost predicate ReportsAt(history: seq<string>, items: seq<Item>, k: nat, j: int)
    requires k <= |items|
  {
    || FirstUnsafeAt(history, items, k, j)
    || (FirstAt(history, items, k, j) && forall m :: 0 <= m < |items| ==> !UnsafeAt(history, items, k, m))
  }

  lemma {:induction false} FirstUnsafeCode(history: seq<string>, items: seq<Item>, k: nat, i: nat, j: nat)
    requires k <= |items| && j < i <= |items| && FirstUnsafeAt(history, items, k, j)
    ensures FirstUnsafe(Judge(history, items, k, i).deferred) == CodeAt(history, items, k, j)
    decreases i
  {
    hide CodeAt, Judge, FirstUnsafe;
    var before := Judge(history, items, k, i - 1).deferred;
    JudgeStep(history, items, k, i - 1);
    var code := CodeAt(history, items, k, i - 1);
    if code.Some? {
      FirstUnsafeAppend(before, Deferred(items[i - 1].outcome, code.value));
    }
    if j < i - 1 {
      FirstUnsafeCode(history, items, k, i - 1, j);
    } else {
      FirstUnsafeIsSomeItem(history, items, k, i - 1);
      assert forall m :: UnsafeAt(history, items, k, m) ==> 0 <= m;
    }
  }

  lemma JudgeStep(history: seq<string>, items: seq<Item>, k: nat, i: nat)
    requires k <= |items| && i < |items|
    ensures Judge(history, items, k, i + 1).deferred
            == Defer(Judge(history, items, k, i).deferred, items[i].outcome, CodeAt(history, items, k, i))
  {
    hide LiveVerdict, RestoredVerdict;
  }

  lemma {:induction false} FirstUnsafeExists(history: seq<string>, items: seq<Item>, k: nat, m: nat)
    requires k <= |items| && UnsafeAt(history, items, k, m)
    ensures exists j: nat :: j <= m && FirstUnsafeAt(history, items, k, j)
    decreases m
  {
    hide UnsafeAt;
    if n: nat :| n < m && UnsafeAt(history, items, k, n) {
      FirstUnsafeExists(history, items, k, n);
    } else {
      assert FirstUnsafeAt(history, items, k, m);
    }
  }

  /** A batch reports the code of that item, and nothing when there is none. */
  lemma ReportedBy(history: seq<string>, items: seq<Item>, k: nat)
    requires k <= |items|
    ensures forall j: nat :: ReportsAt(history, items, k, j) ==>
              j < |items| && Reported(DecisionAt(history, items, k)) == CodeAt(history, items, k, j)
    ensures Reported(DecisionAt(history, items, k)).Some? ==> exists j: nat :: ReportsAt(history, items, k, j)
  {
    hide CodeAt, Judge, UnsafeAt;
    FirstUnsafeIsSomeItem(history, items, k, |items|);
    HeadIsFirst(history, items, k, |items|);
    UnsafeBounds(history, items, k);
    forall j: nat | FirstUnsafeAt(history, items, k, j)
      ensures FirstUnsafe(Judge(history, items, k, |items|).deferred) == CodeAt(history, items, k, j)
    {
      FirstUnsafeCode(history, items, k, |items|, j);
    }
    if m: nat :| m < |items| && UnsafeAt(history, items, k, m) {
      FirstUnsafeExists(history, items, k, m);
      var j: nat :| FirstUnsafeAt(history, items, k, j);
      assert ReportsAt(history, items, k, j);
    } else if exists m :: 0 <= m < |items| && CodeAt(history, items, k, m).Some? {
      FirstExists(history, items, k, |items|);
      var j: nat :| FirstAt(history, items, k, j);
      assert ReportsAt(history, items, k, j);
    }
  }

  /** A deferral of item `r` that only says its fingerprint came back. */
  ghost predicate NamesRepeat(items: seq<Item>, k: nat, r: nat) {
    FailedItem(items, r) && if r < k then !RestoredTerminal(items[r].outcome) else !LiveTerminal(items[r].outcome)
  }

  ghost predicate ExcusedAt(items: seq<Item>, k: nat, r: nat) {
    r < k && FailedItem(items, r) && Excused(items[r].outcome)
  }

  /** What a resumed batch defers includes what the live one defers. */
  lemma LiveDefersToo(history: seq<string>, items: seq<Item>, k: nat, j: nat)
    requires k <= |items| && j < |items| && CodeAt(history, items, 0, j).Some?
    ensures CodeAt(history, items, k, j).Some?
  {
    hide Judge, Trail;
    if j >= k {
      RepeatMoves(history, items, k, j);
    } else if !RestoredTerminal(items[j].outcome) {
      RepeatIsCounted(history, items, k, j);
    }
  }

  /** A failure whose fingerprint the live set held is counted twice once it is recorded. */
  lemma RepeatIsCounted(history: seq<string>, items: seq<Item>, k: nat, j: nat)
    requires j < k <= |items| && items[j].outcome.failure.Some? && items[j].fp in Judge(history, items, 0, j).failed
    ensures Occurrences(Trail(history, items[..k]), items[j].fp) >= 2
  {
    hide Judge, Trail, Occurrences;
    RememberedIsShown(history, items, j);
    TrailStep(history, items, j);
    FailedMeansCounted(Trail(history, items[..j]), items[j].fp);
    assert items[..k][..j + 1] == items[..j + 1];
    TrailGrows(history, items[..k], j + 1, items[j].fp);
  }

  lemma RememberedIsShown(history: seq<string>, items: seq<Item>, j: nat)
    requires j < |items| && items[j].fp in Judge(history, items, 0, j).failed
    ensures items[j].fp in AsSet(Trail(history, items[..j]))
  {
    var f := items[j].fp;
    RememberedExactly(history, items, 0, j, f);
    TrailMembers(history, items[..j], f);
    TrailMembers(history, items[..0], f);
    if m :| 0 <= m < j && Records(items, m) && items[m].fp == f {
      assert FailedItem(items[..j], m) && items[..j][m] == items[m];
    }
  }

  /** The codes an item can be deferred with: its own, or that of a repeat. */
  lemma DeferredCode(history: seq<string>, items: seq<Item>, k: nat, j: nat)
    requires k <= |items| && j < |items| && CodeAt(history, items, k, j).Some?
    ensures FailedItem(items, j)
    ensures CodeAt(history, items, k, j) == if NamesRepeat(items, k, j) then Some(RepeatedFailure) else Some(items[j].outcome.failure.value.code)
    ensures !NamesRepeat(items, k, j) && !ExcusedAt(items, k, j) ==>
              LiveTerminal(items[j].outcome) && CodeAt(history, items, 0, j) == CodeAt(history, items, k, j)
  {}

  /** A final failure that the resumed batch reports is the one the live batch reports. */
  lemma FinalIsReported(history: seq<string>, items: seq<Item>, k: nat, r: nat)
    requires k <= |items| && ReportsAt(history, items, k, r) && r < |items| && CodeAt(history, items, 0, r).Some?
    ensures ReportsAt(history, items, 0, r)
  {
    hide CodeAt;
    forall m: nat | m < |items| && CodeAt(history, items, 0, m).Some?
      ensures CodeAt(history, items, k, m).Some?
    {
      LiveDefersToo(history, items, k, m);
    }
    assert forall m: nat :: m < |items| && UnsafeAt(history, items, 0, m) ==> UnsafeAt(history, items, k, m);
    assert FirstUnsafeAt(history, items, k, r) ==> FirstUnsafeAt(history, items, 0, r);
  }

  lemma ReportedIff(history: seq<string>, items: seq<Item>, k: nat)
    requires k <= |items|
    ensures Reported(DecisionAt(history, items, k)).Some? <==> exists m: nat :: m < |items| && CodeAt(history, items, k, m).Some?
  {
    hide CodeAt, Judge;
    HeadIsFirst(history, items, k, |items|);
  }

  /** The item that the resumed batch reports was not excused before the crash, and where it is reported as a repeat the
      live batch reports a repeat as well. */
  ghost predicate CodeSurvives(history: seq<string>, items: seq<Item>, k: nat)
    requires k <= |items|
  {
    forall r: nat :: ReportsAt(history, items, k, r) ==>
      && !ExcusedAt(items, k, r)
      && (NamesRepeat(items, k, r) ==> Reported(DecisionAt(history, items, 0)) == Some(RepeatedFailure))
  }

  /** Exactly when a crash leaves the reported code of a batch alone, whatever failures it holds and whatever
      fingerprints they share. */
  lemma ReportedCodeIff(history: seq<string>, items: seq<Item>, k: nat)
    requires k <= |items| && AllKnown(items)
    ensures Reported(DecisionAt(history, items, k)) == Reported(DecisionAt(history, items, 0)) <==> CodeSurvives(history, items, k)
  {
    hide CodeAt, DecisionAt, ReportsAt, NamesRepeat;
    ReportedBy(history, items, k);
    ReportedBy(history, items, 0);
    ReportedIff(history, items, k);
    ReportedIff(history, items, 0);
    forall r: nat | ReportsAt(history, items, k, r)
      ensures Reported(DecisionAt(history, items, k)) == Reported(DecisionAt(history, items, 0)) <==>
                && !ExcusedAt(items, k, r)
                && (NamesRepeat(items, k, r) ==> Reported(DecisionAt(history, items, 0)) == Some(RepeatedFailure))
    {
      ReporterDecides(history, items, k, r);
    }
    if m: nat :| m < |items| && CodeAt(history, items, 0, m).Some? {
      LiveDefersToo(history, items, k, m);
    }
  }

  lemma ReporterDecides(history: seq<string>, items: seq<Item>, k: nat, r: nat)
    requires k <= |items| && AllKnown(items) && ReportsAt(history, items, k, r)
    ensures Reported(DecisionAt(history, items, k)) == Reported(DecisionAt(history, items, 0)) <==>
              && !ExcusedAt(items, k, r)
              && (NamesRepeat(items, k, r) ==> Reported(DecisionAt(history, items, 0)) == Some(RepeatedFailure))
  {
    hide CodeAt, DecisionAt, ReportsAt, NamesRepeat;
    ReportedBy(history, items, k);
    ReportedBy(history, items, 0);
    ReporterDefers(history, items, k, r);
    DeferredCode(history, items, k, r);
    if ExcusedAt(items, k, r) {
      ExcusedCode(items, k, r);
      if j: nat :| ReportsAt(history, items, 0, j) {
        ReporterDefers(history, items, 0, j);
        LiveCodeIsFinal(history, items, j);
      }
    } else if !NamesRepeat(items, k, r) {
      FinalIsReported(history, items, k, r);
    }
  }

  lemma ReporterDefers(history: seq<string>, items: seq<Item>, k: nat, r: nat)
    requires k <= |items| && ReportsAt(history, items, k, r)
    ensures r < |items| && CodeAt(history, items, k, r).Some?
  {}

  lemma ExcusedCode(items: seq<Item>, k: nat, r: nat)
    requires AllKnown(items) && ExcusedAt(items, k, r)
    ensures Repairable(items[r].outcome.failure.value.code) && !NamesRepeat(items, k, r)
  {}

  lemma LiveCodeIsFinal(history: seq<string>, items: seq<Item>, j: nat)
    requires j < |items| && CodeAt(history, items, 0, j).Some?
    ensures !Repairable(CodeAt(history, items, 0, j).value)
  {
    DeferredCode(history, items, 0, j);
  }

  // ----- the boundaries, by example

  /** An argument error on a writing tool: repaired by a live run, fatal to a resumed one. */
  lemma RepairOnWriteDiffersAfterResume(fp: string)
    ensures var o := Outcome("call-1", "create_item", Some(ExternalWrite), Some(Failure(ArgumentsInvalid, true)));
            && DecisionAt([], [Item(o, fp)], 0) == ConsultThenContinue
            && DecisionAt([], [Item(o, fp)], 1) == Blocked(ArgumentsInvalid)
  {
    var o := Outcome("call-1", "create_item", Some(ExternalWrite), Some(Failure(ArgumentsInvalid, true)));
    var items := [Item(o, fp)];
    assert items[..0] == [] && items[..1] == items;
    assert Judge([], items, 0, 1).deferred == [];
    assert Judge([], items, 1, 0).deferred == [];
    assert Judge([], items, 1, 1).deferred == [Deferred(o, ArgumentsInvalid)];
  }

  /** The same happens to a read-only tool whose argument error is flagged non-retryable. */
  lemma FinalRepairOnReadDiffersAfterResume(fp: string)
    ensures var o := Outcome("call-1", "search", Some(ReadOnly), Some(Failure(ArgumentsInvalid, false)));
            && DecisionAt([], [Item(o, fp)], 0) == ConsultThenContinue
            && DecisionAt([], [Item(o, fp)], 1) == Blocked(ArgumentsInvalid)
  {
    var o := Outcome("call-1", "search", Some(ReadOnly), Some(Failure(ArgumentsInvalid, false)));
    var items := [Item(o, fp)];
    assert items[..0] == [] && items[..1] == items;
    assert Judge([], items, 0, 1).deferred == [];
    assert Judge([], items, 1, 0).deferred == [];
    var deferred := Judge([], items, 1, 1).deferred;
    assert deferred == [Deferred(o, ArgumentsInvalid)];
    assert FirstUnsafe(deferred[1..]) == None;
    assert Outcomes(items) == [o];
  }

  /** A fingerprint that two failures share: the live run asks the resolver, the resumed one fails unasked. */
  lemma MeetingDiffersAfterResume(fp: string, ok: Outcome, gone: Code)
    requires ok.failure == None && gone.OtherCode?
    ensures var a := Outcome("call-1", "search", Some(ReadOnly), Some(Failure(gone, false)));
            var b := Outcome("call-2", "create_item", Some(ExternalWrite), Some(Failure(ArgumentsInvalid, true)));
            var items := [Item(a, fp), Item(b, fp), Item(ok, "")];
            && DecisionAt([], items, 0) == ConsultThenFail(gone)
            && Severity(DecisionAt([], items, 1)) == 2
  {
    var a := Outcome("call-1", "search", Some(ReadOnly), Some(Failure(gone, false)));
    var b := Outcome("call-2", "create_item", Some(ExternalWrite), Some(Failure(ArgumentsInvalid, true)));
    var items := [Item(a, fp), Item(b, fp), Item(ok, "")];
    assert items[..0] == [] && Outcomes(items)[2] == ok;
    MeetingLive(items, a, b, fp);
    hide Judge;
    assert FirstUnsafe([Deferred(a, gone)][1..]) == None;
    assert FailedItem(items, 0) && MeetsAt(items, 1, 1);
    ResumedDecision([], items, 1);
  }

  lemma MeetingLive(items: seq<Item>, a: Outcome, b: Outcome, fp: string)
    requires |items| == 3 && items[0] == Item(a, fp) && items[1] == Item(b, fp) && items[2].outcome.failure == None
    requires a.failure.Some? && a.failure.value.code.OtherCode? && !a.failure.value.retryable
    requires b.failure == Some(Failure(ArgumentsInvalid, true))
    ensures Judge([], items, 0, 3).deferred == [Deferred(a, a.failure.value.code)]
  {
    assert items[..0] == [];
    assert Judge([], items, 0, 0) == Judged([], {});
    assert Judge([], items, 0, 1) == Judged([Deferred(a, a.failure.value.code)], {});
    assert Judge([], items, 0, 2) == Judged([Deferred(a, a.failure.value.code)], {fp});
  }

  /** Calls A, B, A that all fail: both runs fail, but they report different codes. */
  lemma ReportedCodeMayDiffer(a: Outcome, b: Outcome, x: string, y: string, gone: Code)
    requires a.failure == Some(Failure(ExecutionFailed, true)) && a.effect == Some(ReadOnly)
    requires b.failure == Some(Failure(gone, false)) && b.effect == Some(ReadOnly)
    requires x != y && gone.OtherCode?
    ensures var items := [Item(a, x), Item(b, y), Item(a, x)];
            && Steady(items)
            && DecisionAt([], items, 0) == Blocked(gone)
            && DecisionAt([], items, 3) == Blocked(RepeatedFailure)
  {
    var items := [Item(a, x), Item(b, y), Item(a, x)];
    assert FailedItem(items, 0) && FailedItem(items, 1) && FailedItem(items, 2);
    LiveCode(items);
    RestoredCode(items);
    FirstDeferred(items, 0, 1);
    FirstDeferred(items, 3, 0);
    ReadOnlyFailuresBlock([], items, 0);
    ReadOnlyFailuresBlock([], items, 3);
  }

  lemma LiveCode(items: seq<Item>)
    requires |items| == 3 && items[0].outcome.failure == Some(Failure(ExecutionFailed, true))
    requires items[0].outcome.effect == Some(ReadOnly)
    ensures CodeAt([], items, 0, 0) == None
  {
    assert Trail([], items[..0]) == [] && AsSet([]) == {};
  }

  lemma RestoredCode(items: seq<Item>)
    requires |items| == 3 && items[0] == items[2] && items[1].outcome.failure.Some?
    requires items[0].outcome.failure == Some(Failure(ExecutionFailed, true))
    requires items[0].outcome.effect == Some(ReadOnly)
    ensures CodeAt([], items, 3, 0) == Some(RepeatedFailure)
  {
    TrailStep([], items, 0);
    TrailStep([], items, 1);
    TrailStep([], items, 2);
  }

  /** After any history a batch of nothing but read-only failures, resumed at any point, fails unasked as soon as it
      defers something. */
  lemma ReadOnlyFailuresBlock(history: seq<string>, items: seq<Item>, k: nat)
    requires k <= |items|
    requires forall j :: 0 <= j < |items| ==> items[j].outcome.effect == Some(ReadOnly) && items[j].outcome.failure.Some?
    requires Judge(history, items, k, |items|).deferred != []
    ensures DecisionAt(history, items, k) == Blocked(Judge(history, items, k, |items|).deferred[0].code)
  {
    FirstUnsafeIsSomeItem(history, items, k, |items|);
    assert !HasSuccess(Outcomes(items));
  }

  lemma FirstDeferred(items: seq<Item>, k: nat, j: nat)
    requires |items| == 3 && j < 2 && (k == 0 || k == 3)
    requires forall m :: 0 <= m < j ==> CodeAt([], items, k, m).None?
    requires CodeAt([], items, k, j).Some?
    ensures Judge([], items, k, 3).deferred != []
    ensures Judge([], items, k, 3).deferred[0].code == CodeAt([], items, k, j).value
  {
    assert Judge([], items, k, 1).deferred == Defer([], items[0].outcome, CodeAt([], items, k, 0));
    assert Judge([], items, k, 2).deferred
        == Defer(Judge([], items, k, 1).deferred, items[1].outcome, CodeAt([], items, k, 1));
    assert Judge([], items, k, 3).deferred
        == Defer(Judge([], items, k, 2).deferred, items[2].outcome, CodeAt([], items, k, 2));
  }
}
