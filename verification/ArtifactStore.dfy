/** The content-addressed store of `app/artifacts/store.py`: payload files and their metadata sidecars, under
    puts, prunes and crashes between any two file writes. */
module ArtifactStore {
  import opened Prelude

  const DAY := 86_400_000_000
  const IMMUTABLE: set<string> := {"audit", "audit_event", "audit_metadata", "run_summary"}

  type Key = string
  type Payload = seq<bv8>
  type Hash = Payload -> Key

  datatype Meta = Meta(key: Key, mediaType: string, dataClass: string, size: nat, createdAt: int, expiresAt: Option<int>)

  /** The store's settings: days by class (None keeps forever) and for all other classes. */
  datatype Policy = Policy(days: map<string, Option<nat>>, otherwise: nat)

  /** `_retention_for`, the expiry. */
  function Expiry(policy: Policy, dataClass: string, createdAt: int): Option<int> {
    if dataClass in policy.days then
      match policy.days[dataClass] case None => None case Some(n) => Some(createdAt + n * DAY)
    else if dataClass in IMMUTABLE then None
    else Some(createdAt + policy.otherwise * DAY)
  }

  /** What is on disk. */
  datatype Files = Files(payloads: map<Key, Payload>, sidecars: map<Key, Meta>)

  /** A put's content after redaction, with its type, class and time; a prune's time and directory order. */
  datatype Operation =
    Put(payload: Payload, mediaType: string, dataClass: string, now: int) | Prune(order: seq<Key>, at: int)

  datatype PutError = Inconsistent | Conflicts

  function NewMeta(hash: Hash, policy: Policy, op: Operation): Meta
    requires op.Put?
  {
    Meta(hash(op.payload), op.mediaType, op.dataClass, |op.payload|, op.now, Expiry(policy, op.dataClass, op.now))
  }

  /** What `put` answers. */
  function Answer(hash: Hash, policy: Policy, f: Files, op: Operation): Result<Meta, PutError>
    requires op.Put?
  {
    var k := hash(op.payload);
    if k in f.payloads || k in f.sidecars then
      if k !in f.payloads || k !in f.sidecars then Err(Inconsistent)
      else if f.sidecars[k].mediaType != op.mediaType || f.sidecars[k].dataClass != op.dataClass then Err(Conflicts)
      else Ok(f.sidecars[k])
    else Ok(NewMeta(hash, policy, op))
  }

  predicate Expired(m: Meta, now: int) { m.expiresAt.Some? && now >= m.expiresAt.value }

  predicate Prunable(f: Files, k: Key, now: int) { k in f.sidecars && Expired(f.sidecars[k], now) }

  function DropPayload(f: Files, k: Key, now: int): Files {
    if Prunable(f, k, now) then f.(payloads := f.payloads - {k}) else f
  }

  function DropBoth(f: Files, k: Key, now: int): Files {
    if Prunable(f, k, now) then Files(f.payloads - {k}, f.sidecars - {k}) else f
  }

  /** A prune that has visited `order`. */
  function Visited(f: Files, order: seq<Key>, now: int): Files {
    if order == [] then f else DropBoth(Visited(f, order[..|order| - 1], now), order[|order| - 1], now)
  }

  function AddPayload(f: Files, hash: Hash, op: Operation): Files
    requires op.Put?
  {
    f.(payloads := f.payloads[hash(op.payload) := op.payload])
  }

  function AddBoth(hash: Hash, policy: Policy, f: Files, op: Operation): Files
    requires op.Put?
  {
    AddPayload(f, hash, op).(sidecars := f.sidecars[hash(op.payload) := NewMeta(hash, policy, op)])
  }

  predicate Present(f: Files, k: Key) { k in f.payloads || k in f.sidecars }

  /** An operation that crashes once `done` file writes - counting two for each visited entry - are behind it. */
  datatype Step = Step(op: Operation, done: nat)

  function After(hash: Hash, policy: Policy, f: Files, step: Step): Files {
    match step.op
    case Put(p, _, _, _) =>
      if Present(f, hash(p)) || step.done == 0 then f
      else if step.done == 1 then AddPayload(f, hash, step.op)
      else AddBoth(hash, policy, f, step.op)
    case Prune(order, now) =>
      if step.done >= 2 * |order| then Visited(f, order, now)
      else
        var g := Visited(f, order[..step.done / 2], now);
        if step.done % 2 == 0 then g else DropPayload(g, order[step.done / 2], now)
  }

  function Run(hash: Hash, policy: Policy, steps: seq<Step>): Files {
    if steps == [] then Files(map[], map[])
    else After(hash, policy, Run(hash, policy, steps[..|steps| - 1]), steps[|steps| - 1])
  }

  // ----- what single steps do

  /** What a prune visits and finds expired goes, all of it; nothing else changes. */
  lemma {:induction false} VisitedFacts(f: Files, order: seq<Key>, now: int, k: Key)
    ensures var g := Visited(f, order, now);
            && (k in g.payloads <==> k in f.payloads && !(k in order && Prunable(f, k, now)))
            && (k in g.sidecars <==> k in f.sidecars && !(k in order && Prunable(f, k, now)))
            && (k in g.payloads ==> g.payloads[k] == f.payloads[k])
            && (k in g.sidecars ==> g.sidecars[k] == f.sidecars[k])
    decreases |order|
  {
    if order != [] {
      var front, last := order[..|order| - 1], order[|order| - 1];
      VisitedFacts(f, front, now, k);
      VisitedFacts(f, front, now, last);
      assert order == front + [last];
    }
  }

  lemma PruneOutcome(hash: Hash, policy: Policy, f: Files, step: Step, k: Key)
    requires step.op.Prune?
    ensures var g := After(hash, policy, f, step);
            && (k in g.payloads ==> k in f.payloads && g.payloads[k] == f.payloads[k])
            && (k in g.sidecars ==> k in f.sidecars && g.sidecars[k] == f.sidecars[k])
            && (k in f.payloads && k !in g.payloads ==> k in f.sidecars && Expired(f.sidecars[k], step.op.at))
            && (k in f.sidecars && k !in g.sidecars ==> Expired(f.sidecars[k], step.op.at) && k !in g.payloads)
  {
    var order, now := step.op.order, step.op.at;
    VisitedFacts(f, if step.done >= 2 * |order| then order else order[..step.done / 2], now, k);
  }

  /** How long content is kept, class by class: the policy's days for a class it names, for ever when it names none;
      otherwise for ever for the four audit and summary classes, and the general number of days for the rest. */
  lemma KeptFor(hash: Hash, policy: Policy, op: Operation)
    requires op.Put?
    ensures var kept, group := NewMeta(hash, policy, op).expiresAt, op.dataClass;
            && (group in policy.days && policy.days[group].Some? ==> kept == Some(op.now + policy.days[group].value * 86_400_000_000))
            && (group in policy.days && policy.days[group].None? ==> kept == None)
            && (group !in policy.days && group in ["audit", "audit_event", "audit_metadata", "run_summary"] ==> kept == None)
            && (group !in policy.days && group !in ["audit", "audit_event", "audit_metadata", "run_summary"] ==>
                  kept == Some(op.now + policy.otherwise * 86_400_000_000))
  {
    var names := ["audit", "audit_event", "audit_metadata", "run_summary"];
    assert forall c :: c in names <==> c in IMMUTABLE by {
      assert names[0] == "audit" && names[1] == "audit_event" && names[2] == "audit_metadata" && names[3] == "run_summary";
    }
  }

  /** What a put answers and leaves, from the files alone: content not there yet is stored whole with new metadata; there
      whole, it is left alone and answered with the recorded metadata, or refused when type or class differ. */
  lemma PutAnswers(hash: Hash, policy: Policy, f: Files, op: Operation)
    requires op.Put?
    ensures var k, r, g := hash(op.payload), Answer(hash, policy, f, op), After(hash, policy, f, Step(op, 2));
            && (k !in f.payloads && k !in f.sidecars ==>
                  && r.Ok? && r.value.key == k && r.value.mediaType == op.mediaType && r.value.dataClass == op.dataClass
                  && r.value.size == |op.payload| && r.value.createdAt == op.now
                  && g.payloads == f.payloads[k := op.payload] && g.sidecars == f.sidecars[k := r.value])
            && (k in f.payloads || k in f.sidecars ==> g == f)
            && (r == Err(Inconsistent) <==> (k in f.payloads) != (k in f.sidecars))
            && (r == Err(Conflicts) <==>
                  && k in f.payloads && k in f.sidecars
                  && (f.sidecars[k].mediaType != op.mediaType || f.sidecars[k].dataClass != op.dataClass))
            && (k in f.payloads && k in f.sidecars && r.Ok? ==> r.value == f.sidecars[k])
  {}

  /** What a completed prune removes: exactly the listed content whose recorded expiry is not after now. */
  lemma PrunedIff(hash: Hash, policy: Policy, f: Files, order: seq<Key>, now: int, k: Key)
    ensures var g := After(hash, policy, f, Step(Prune(order, now), 2 * |order|));
            var due := k in order && k in f.sidecars && f.sidecars[k].expiresAt.Some? && f.sidecars[k].expiresAt.value <= now;
            && (k in g.payloads <==> k in f.payloads && !due) && (k in g.sidecars <==> k in f.sidecars && !due)
            && (k in g.payloads ==> g.payloads[k] == f.payloads[k]) && (k in g.sidecars ==> g.sidecars[k] == f.sidecars[k])
  {
    VisitedFacts(f, order, now, k);
  }

  // ----- over whole runs

  /** Every file is where its content says, with the size and the expiry its class promises; what lacks a
      payload has expired by `now`. */
  ghost predicate Sound(hash: Hash, policy: Policy, f: Files, now: int) {
    && (forall k :: k in f.payloads ==> hash(f.payloads[k]) == k)
    && (forall k :: k in f.sidecars ==>
          var m := f.sidecars[k];
          m.key == k && m.expiresAt == Expiry(policy, m.dataClass, m.createdAt)
          && (k in f.payloads ==> m.size == |f.payloads[k]|)
          && (k !in f.payloads ==> Expired(m, now)))
  }

  predicate PrunedBy(steps: seq<Step>, now: int) {
    forall i :: 0 <= i < |steps| && steps[i].op.Prune? ==> steps[i].op.at <= now
  }

  /** Over any run of puts and prunes, each crashing anywhere, the store stays sound: payloads hash to their
      keys, and a sidecar without a payload is one whose time has come. */
  lemma {:induction false} StoreStaysSound(hash: Hash, policy: Policy, steps: seq<Step>, now: int)
    requires PrunedBy(steps, now)
    ensures Sound(hash, policy, Run(hash, policy, steps), now)
    decreases |steps|
  {
    if steps != [] {
      var before, step := steps[..|steps| - 1], steps[|steps| - 1];
      assert steps[|steps| - 1] == step;
      StoreStaysSound(hash, policy, before, now);
      StepStaysSound(hash, policy, Run(hash, policy, before), step, now);
    }
  }

  lemma StepStaysSound(hash: Hash, policy: Policy, f: Files, step: Step, now: int)
    requires Sound(hash, policy, f, now) && (step.op.Prune? ==> step.op.at <= now)
    ensures Sound(hash, policy, After(hash, policy, f, step), now)
  {
    if step.op.Prune? {
      PruneCutSound(hash, policy, f, step, now);
    }
  }

  lemma PruneCutSound(hash: Hash, policy: Policy, f: Files, step: Step, now: int)
    requires Sound(hash, policy, f, now) && step.op.Prune? && step.op.at <= now
    ensures Sound(hash, policy, After(hash, policy, f, step), now)
  {
    hide After, Expiry;
    var g := After(hash, policy, f, step);
    forall k | k in g.payloads || k in g.sidecars
      ensures k in g.payloads ==> k in f.payloads && g.payloads[k] == f.payloads[k]
      ensures k in g.sidecars ==> k in f.sidecars && g.sidecars[k] == f.sidecars[k]
      ensures k in g.sidecars && k !in g.payloads ==> Expired(g.sidecars[k], now)
    {
      PruneOutcome(hash, policy, f, step, k);
    }
  }

  /** Whether the run never prunes at or after the artifact's expiry. */
  predicate PrunedBefore(steps: seq<Step>, m: Meta) {
    forall i :: 0 <= i < |steps| && steps[i].op.Prune? ==> !Expired(m, steps[i].op.at)
  }

  /** A complete artifact stays, payload and metadata unchanged, through any puts, crashes and prunes before
      its recorded expiry - forever when it has none. */
  lemma {:induction false} ArtifactsSurvive(hash: Hash, policy: Policy, steps: seq<Step>, more: seq<Step>, k: Key)
    requires var f := Run(hash, policy, steps);
             k in f.payloads && k in f.sidecars && PrunedBefore(more, f.sidecars[k])
    ensures var f, g := Run(hash, policy, steps), Run(hash, policy, steps + more);
            k in g.payloads && g.payloads[k] == f.payloads[k] && k in g.sidecars && g.sidecars[k] == f.sidecars[k]
    decreases |more|
  {
    if more == [] {
      assert steps + more == steps;
    } else {
      var front, step := more[..|more| - 1], more[|more| - 1];
      assert (steps + more)[..|steps + more| - 1] == steps + front;
      assert PrunedBefore(front, Run(hash, policy, steps).sidecars[k]);
      ArtifactsSurvive(hash, policy, steps, front, k);
      if step.op.Prune? { PruneOutcome(hash, policy, Run(hash, policy, steps + front), step, k); }
    }
  }

  /** Putting the same content again changes no file, and answers with the metadata first recorded. */
  lemma RepeatedPutChangesNothing(hash: Hash, policy: Policy, steps: seq<Step>, more: seq<Step>, op: Operation, done: nat, again: int)
    requires op.Put? && hash(op.payload) !in Run(hash, policy, steps).payloads && hash(op.payload) !in Run(hash, policy, steps).sidecars
    requires PrunedBefore(more, NewMeta(hash, policy, op)) && done >= 2
    ensures var f := Run(hash, policy, steps + [Step(op, done)] + more);
            && Answer(hash, policy, f, op.(now := again)) == Ok(NewMeta(hash, policy, op))
            && After(hash, policy, f, Step(op.(now := again), done)) == f
            && hash(op.payload) in f.payloads && f.payloads[hash(op.payload)] == op.payload
  {
    var k := hash(op.payload);
    var base := Run(hash, policy, steps);
    var f := Run(hash, policy, steps + [Step(op, done)]);
    assert (steps + [Step(op, done)])[..|steps|] == steps;
    assert f == After(hash, policy, base, Step(op, done));
    ArtifactsSurvive(hash, policy, steps + [Step(op, done)], more, k);
  }

  /** A prune that completes, its clock not behind earlier prunes, leaves exactly the unexpired sidecars, each
      with its payload: what a crash inside an earlier prune left behind is cleared. */
  lemma FullPruneClears(hash: Hash, policy: Policy, steps: seq<Step>, order: seq<Key>, now: int, k: Key)
    requires PrunedBy(steps, now) && forall x :: x in Run(hash, policy, steps).sidecars ==> x in order
    ensures var f := Run(hash, policy, steps);
            var g := Visited(f, order, now);
            && (k in g.sidecars <==> k in f.sidecars && !Expired(f.sidecars[k], now))
            && (k in g.sidecars ==> k in f.payloads && k in g.payloads && g.payloads[k] == f.payloads[k])
  {
    StoreStaysSound(hash, policy, steps, now);
    var f := Run(hash, policy, steps);
    VisitedFacts(f, order, now, k);
  }

  /** The other leftover is permanent: a payload whose put crashed before its sidecar is never pruned, and
      every later put of that content is refused. */
  lemma {:induction false} OrphanPayloadStays(hash: Hash, policy: Policy, steps: seq<Step>, more: seq<Step>, op: Operation)
    requires op.Put?
    requires var f := Run(hash, policy, steps); hash(op.payload) in f.payloads && hash(op.payload) !in f.sidecars
    ensures var g := Run(hash, policy, steps + more);
            && hash(op.payload) in g.payloads && hash(op.payload) !in g.sidecars
            && Answer(hash, policy, g, op) == Err(Inconsistent)
    decreases |more|
  {
    if more == [] {
      assert steps + more == steps;
    } else {
      var front, step := more[..|more| - 1], more[|more| - 1];
      assert (steps + more)[..|steps + more| - 1] == steps + front;
      OrphanPayloadStays(hash, policy, steps, front, op);
      if step.op.Prune? { PruneOutcome(hash, policy, Run(hash, policy, steps + front), step, hash(op.payload)); }
    }
  }

  // ----- when a put is refused as inconsistent

  /** Step `i` was a put of this content that found nothing of it and crashed between its two files. */
  predicate PutCutAt(hash: Hash, policy: Policy, steps: seq<Step>, k: Key, i: int) {
    && 0 <= i < |steps| && steps[i].op.Put? && hash(steps[i].op.payload) == k && steps[i].done == 1
    && !Present(Run(hash, policy, steps[..i]), k)
  }

  /** The keys a prune is done with when it stops. */
  function Finished(step: Step): seq<Key>
    requires step.op.Prune?
  {
    if step.done >= 2 * |step.op.order| then step.op.order else step.op.order[..step.done / 2]
  }

  /** A prune that stops between deleting the payload of `k` and its sidecar. */
  predicate StopsInside(f: Files, step: Step, k: Key) {
    && step.op.Prune? && step.done < 2 * |step.op.order| && step.done % 2 == 1
    && step.op.order[step.done / 2] == k && k !in Finished(step) && Prunable(f, k, step.op.at)
  }

  predicate Clears(step: Step, k: Key, m: Meta) {
    step.op.Prune? && k in Finished(step) && Expired(m, step.op.at)
  }

  /** Step `i` was a prune that stopped inside `k`, a complete artifact until then, and no later step finished the job. */
  ghost predicate PruneCutAt(hash: Hash, policy: Policy, steps: seq<Step>, k: Key, i: int) {
    && 0 <= i < |steps|
    && var f := Run(hash, policy, steps[..i]);
       && k in f.payloads && StopsInside(f, steps[i], k)
       && forall j :: i < j < |steps| ==> !Clears(steps[j], k, f.sidecars[k])
  }

  predicate OrphanPayload(f: Files, k: Key) { k in f.payloads && k !in f.sidecars }

  predicate OrphanSidecar(f: Files, k: Key) { k !in f.payloads && k in f.sidecars }

  lemma PruneStep(hash: Hash, policy: Policy, f: Files, step: Step, k: Key)
    requires step.op.Prune?
    ensures var g := After(hash, policy, f, step);
            && (k in g.sidecars <==> k in f.sidecars && !(k in Finished(step) && Prunable(f, k, step.op.at)))
            && (k in g.sidecars ==> g.sidecars[k] == f.sidecars[k])
            && (k in g.payloads <==> k in f.payloads && !(k in Finished(step) && Prunable(f, k, step.op.at)) && !StopsInside(f, step, k))
  {
    VisitedFacts(f, Finished(step), step.op.at, k);
  }

  lemma RunStep(hash: Hash, policy: Policy, steps: seq<Step>)
    requires steps != []
    ensures Run(hash, policy, steps) == After(hash, policy, Run(hash, policy, steps[..|steps| - 1]), steps[|steps| - 1])
  {}

  /** Over every run: a payload lacks its sidecar exactly when a put of it was cut. */
  lemma {:induction false} OrphanPayloadIff(hash: Hash, policy: Policy, steps: seq<Step>, k: Key)
    ensures OrphanPayload(Run(hash, policy, steps), k) <==> exists i :: PutCutAt(hash, policy, steps, k, i)
    decreases |steps|
  {
    if steps != [] {
      var n := |steps| - 1;
      var front, step := steps[..n], steps[n];
      var f := Run(hash, policy, front);
      OrphanPayloadIff(hash, policy, front, k);
      RunStep(hash, policy, steps);
      CutsAreKept(hash, policy, steps, k);
      hide Run;
      if step.op.Prune? { PruneStep(hash, policy, f, step, k); }
      if OrphanPayload(f, k) {
        var i :| PutCutAt(hash, policy, front, k, i);
        assert PutCutAt(hash, policy, steps, k, i);
      } else if OrphanPayload(Run(hash, policy, steps), k) {
        assert PutCutAt(hash, policy, steps, k, n);
      } else {
        assert !PutCutAt(hash, policy, steps, k, n);
      }
    }
  }

  lemma CutsAreKept(hash: Hash, policy: Policy, steps: seq<Step>, k: Key)
    requires steps != []
    ensures forall i :: i < |steps| - 1 ==>
              (PutCutAt(hash, policy, steps, k, i) <==> PutCutAt(hash, policy, steps[..|steps| - 1], k, i))
  {
    var front := steps[..|steps| - 1];
    forall i | 0 <= i < |front|
      ensures steps[..i] == front[..i] && steps[i] == front[i]
    {}
  }

  lemma SidecarStep(hash: Hash, policy: Policy, f: Files, step: Step, k: Key)
    ensures var g := After(hash, policy, f, step);
            && (OrphanSidecar(g, k) <==>
                (OrphanSidecar(f, k) && !Clears(step, k, f.sidecars[k])) || (k in f.payloads && StopsInside(f, step, k)))
            && (OrphanSidecar(g, k) ==> k in f.sidecars && g.sidecars[k] == f.sidecars[k])
  {
    if step.op.Prune? { PruneStep(hash, policy, f, step, k); }
  }

  lemma PruneCutFront(hash: Hash, policy: Policy, steps: seq<Step>, k: Key, i: int)
    requires 0 <= i < |steps| - 1
    ensures var front := steps[..|steps| - 1];
            PruneCutAt(hash, policy, steps, k, i) <==>
            PruneCutAt(hash, policy, front, k, i) && !Clears(steps[|steps| - 1], k, Run(hash, policy, front[..i]).sidecars[k])
  {
    hide Run, Clears, StopsInside;
    var front := steps[..|steps| - 1];
    assert steps[..i] == front[..i] && steps[i] == front[i];
    assert forall j :: 0 <= j < |front| ==> front[j] == steps[j];
  }

  lemma PruneCutLast(hash: Hash, policy: Policy, steps: seq<Step>, k: Key)
    requires steps != []
    ensures var f := Run(hash, policy, steps[..|steps| - 1]);
            PruneCutAt(hash, policy, steps, k, |steps| - 1) <==> k in f.payloads && StopsInside(f, steps[|steps| - 1], k)
  {
    hide Run;
  }

  /** What a cut prune leaves stays as long as nothing clears it. */
  lemma {:induction false} CutSidecarStays(hash: Hash, policy: Policy, steps: seq<Step>, k: Key, i: int)
    requires PruneCutAt(hash, policy, steps, k, i)
    ensures OrphanSidecar(Run(hash, policy, steps), k)
    ensures k in Run(hash, policy, steps[..i]).sidecars
    ensures Run(hash, policy, steps).sidecars[k] == Run(hash, policy, steps[..i]).sidecars[k]
    decreases |steps|
  {
    var n := |steps| - 1;
    var front := steps[..n];
    hide Run, After, Clears, StopsInside;
    RunStep(hash, policy, steps);
    SidecarStep(hash, policy, Run(hash, policy, front), steps[n], k);
    if i < n {
      PruneCutFront(hash, policy, steps, k, i);
      assert steps[..i] == front[..i];
      CutSidecarStays(hash, policy, front, k, i);
    } else {
      PruneCutLast(hash, policy, steps, k);
    }
  }

  lemma {:induction false} OrphanSidecarWasCut(hash: Hash, policy: Policy, steps: seq<Step>, k: Key)
    requires OrphanSidecar(Run(hash, policy, steps), k)
    ensures exists i :: PruneCutAt(hash, policy, steps, k, i)
    decreases |steps|
  {
    NothingAtFirst(hash, policy);
    var n := |steps| - 1;
    var front := steps[..n];
    hide Run, After, Clears, StopsInside, PruneCutAt;
    RunStep(hash, policy, steps);
    SidecarStep(hash, policy, Run(hash, policy, front), steps[n], k);
    if OrphanSidecar(Run(hash, policy, front), k) {
      OrphanSidecarWasCut(hash, policy, front, k);
      var i :| PruneCutAt(hash, policy, front, k, i);
      CutBounds(hash, policy, front, k, i);
      CutSidecarStays(hash, policy, front, k, i);
      assert front[..i] == steps[..i];
      PruneCutFront(hash, policy, steps, k, i);
      PruneCutLast(hash, policy, steps, k);
      assert PruneCutAt(hash, policy, steps, k, i) || PruneCutAt(hash, policy, steps, k, n);
    } else {
      PruneCutLast(hash, policy, steps, k);
      assert PruneCutAt(hash, policy, steps, k, n);
    }
  }

  lemma NothingAtFirst(hash: Hash, policy: Policy)
    ensures Run(hash, policy, []) == Files(map[], map[])
  {}

  lemma CutBounds(hash: Hash, policy: Policy, steps: seq<Step>, k: Key, i: int)
    requires PruneCutAt(hash, policy, steps, k, i)
    ensures 0 <= i < |steps|
  {}

  /** Over every run: a sidecar lacks its payload exactly when a prune was cut inside it and not made up for. */
  lemma OrphanSidecarIff(hash: Hash, policy: Policy, steps: seq<Step>, k: Key)
    ensures OrphanSidecar(Run(hash, policy, steps), k) <==> exists i :: PruneCutAt(hash, policy, steps, k, i)
  {
    hide Run, PruneCutAt;
    if OrphanSidecar(Run(hash, policy, steps), k) {
      OrphanSidecarWasCut(hash, policy, steps, k);
    }
    if i :| PruneCutAt(hash, policy, steps, k, i) {
      CutSidecarStays(hash, policy, steps, k, i);
    }
  }

  /** When a put is refused as inconsistent: exactly when just one of its two files is there, which is exactly when an
      earlier put of the content was cut between its files - then for ever - or an earlier prune was cut inside it and
      no later prune has finished the job. */
  lemma InconsistentIff(hash: Hash, policy: Policy, steps: seq<Step>, op: Operation)
    requires op.Put?
    ensures var k := hash(op.payload);
            Answer(hash, policy, Run(hash, policy, steps), op) == Err(Inconsistent) <==>
            (exists i :: PutCutAt(hash, policy, steps, k, i)) || (exists i :: PruneCutAt(hash, policy, steps, k, i))
  {
    var k := hash(op.payload);
    OrphanPayloadIff(hash, policy, steps, k);
    OrphanSidecarIff(hash, policy, steps, k);
    hide Run, PutCutAt, PruneCutAt;
  }

  /** Both happen: one cut put, or one whole put and a prune cut inside it. */
  lemma BothRefusalsHappen(hash: Hash, policy: Policy, p: Payload, mediaType: string, at: int)
    requires policy.days == map["report" := Some(1)]
    ensures var op := Put(p, mediaType, "report", at);
            && Answer(hash, policy, Run(hash, policy, [Step(op, 1)]), op) == Err(Inconsistent)
            && Answer(hash, policy, Run(hash, policy, [Step(op, 2), Step(Prune([hash(p)], at + DAY), 1)]), op) == Err(Inconsistent)
            && Answer(hash, policy, Run(hash, policy, [Step(op, 2), Step(Prune([hash(p)], at + DAY), 2)]), op).Ok?
  {
    var op, k := Put(p, mediaType, "report", at), hash(p);
    var one, cut, whole := [Step(op, 2)], Step(Prune([k], at + DAY), 1), Step(Prune([k], at + DAY), 2);
    assert [Step(op, 1)][..0] == [] && one[..0] == [] && Run(hash, policy, []) == Files(map[], map[]);
    assert [Step(op, 2), cut][..1] == one && [Step(op, 2), whole][..1] == one;
    var f := Run(hash, policy, one);
    assert f == AddBoth(hash, policy, Files(map[], map[]), op);
    assert Prunable(f, k, at + DAY);
    PruneStep(hash, policy, f, cut, k);
    PruneStep(hash, policy, f, whole, k);
    assert k !in Finished(cut) && k in Finished(whole) by { assert Finished(whole)[0] == k; }
  }

  // ----- the store

  /** `ArtifactStore` over its directory. */
  class Store {
    const hash: Hash
    const policy: Policy
    var payloads: map<Key, Payload>
    var sidecars: map<Key, Meta>

    constructor (hash: Hash, policy: Policy)
      ensures View() == Files(map[], map[]) && this.hash == hash && this.policy == policy
    {
      this.hash, this.policy, payloads, sidecars := hash, policy, map[], map[];
    }

    ghost function View(): Files
      reads this
    {
      Files(payloads, sidecars)
    }

    /** `put`, uncrashed, once its content is redacted. */
    method Put(payload: Payload, mediaType: string, dataClass: string, now: int) returns (r: Result<Meta, PutError>)
      modifies this
      ensures View() == After(hash, policy, old(View()), Step(Operation.Put(payload, mediaType, dataClass, now), 2))
      ensures r == Answer(hash, policy, old(View()), Operation.Put(payload, mediaType, dataClass, now))
    {
      var key := hash(payload);
      var meta := Meta(key, mediaType, dataClass, |payload|, now, Expiry(policy, dataClass, now));
      if key in payloads || key in sidecars {
        if key !in payloads || key !in sidecars { return Err(Inconsistent); }
        var existing := sidecars[key];
        if existing.mediaType != mediaType || existing.dataClass != dataClass { return Err(Conflicts); }
        return Ok(existing);
      }
      payloads := payloads[key := payload];
      sidecars := sidecars[key := meta];
      r := Ok(meta);
    }

    /** `prune`, uncrashed, over the directory's order. */
    method Prune(order: seq<Key>, now: int) returns (removed: seq<Key>)
      modifies this
      ensures View() == After(hash, policy, old(View()), Step(Operation.Prune(order, now), 2 * |order|))
      ensures forall k :: k in removed <==> k in order && Prunable(old(View()), k, now)
    {
      removed := [];
      var i := 0;
      while i < |order|
        invariant 0 <= i <= |order|
        invariant View() == Visited(old(View()), order[..i], now)
        invariant forall k :: k in removed <==> k in order[..i] && Prunable(old(View()), k, now)
      {
        var k := order[i];
        assert order[..i + 1][..i] == order[..i];
        VisitedFacts(old(View()), order[..i], now, k);
        if k in sidecars && !(sidecars[k].expiresAt.None? || now < sidecars[k].expiresAt.value) {
          payloads := payloads - {k};
          sidecars := sidecars - {k};
          removed := removed + [k];
        }
        i := i + 1;
      }
      assert order[..|order|] == order;
    }
  }
}
