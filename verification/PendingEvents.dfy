/** The `model_turn_pending` events of `app/agents/harness.py`: when a slow model call reports that it is still
    running, within one budget for the whole invocation. Times are seconds as reals. */
module PendingEvents {
  import opened Prelude

  const MAX_PENDING := 12

  datatype ScheduleError = RepeatNotPositive | Negative | Unordered

  predicate Ordered(s: seq<real>) { forall i :: 0 < i < |s| ==> s[i - 1] <= s[i] }

  predicate NonNegative(s: seq<real>) { forall i :: 0 <= i < |s| ==> s[i] >= 0.0 }

  /** The time before entry `i`; a schedule starts from zero. */
  function Before(s: seq<real>, i: nat): real
    requires i <= |s|
  {
    if i == 0 then 0.0 else s[i - 1]
  }

  method CheckTimes(initial: seq<real>) returns (refused: Option<ScheduleError>)
    ensures refused == if !NonNegative(initial) then Some(Negative) else if !Ordered(initial) then Some(Unordered) else None
  {
    var i := 0;
    while i < |initial|
      invariant 0 <= i <= |initial| && forall j :: 0 <= j < i ==> initial[j] >= 0.0
    {
      if initial[i] < 0.0 { return Some(Negative); }
      i := i + 1;
    }
    i := 1;
    while i < |initial|
      invariant 1 <= i && forall j :: 0 < j < i && j < |initial| ==> initial[j - 1] <= initial[j]
    {
      if initial[i] < initial[i - 1] { return Some(Unordered); }
      i := i + 1;
    }
    return None;
  }

  /** The initial times, then one every `repeat` seconds until there are twelve. */
  function Extended(s: seq<real>, repeat: real): (r: seq<real>)
    ensures s <= r && (|s| <= MAX_PENDING ==> |r| == MAX_PENDING)
    decreases MAX_PENDING - |s|
  {
    if |s| >= MAX_PENDING then s else Extended(s + [Before(s, |s|) + repeat], repeat)
  }

  lemma {:induction false} ExtendedByRepeat(s: seq<real>, repeat: real, i: nat)
    requires |s| <= i < MAX_PENDING
    ensures Extended(s, repeat)[i] == Before(Extended(s, repeat), i) + repeat
    decreases MAX_PENDING - |s|
  {
    var longer := s + [Before(s, |s|) + repeat];
    if i > |s| {
      ExtendedByRepeat(longer, repeat, i);
    } else {
      assert longer <= Extended(longer, repeat);
    }
  }

  lemma {:induction false} ExtendedIsOrdered(s: seq<real>, repeat: real)
    requires repeat > 0.0 && Ordered(s)
    ensures Ordered(Extended(s, repeat))
    decreases MAX_PENDING - |s|
  {
    if |s| < MAX_PENDING {
      ExtendedIsOrdered(s + [Before(s, |s|) + repeat], repeat);
    }
  }

  /** `_pending_elapsed_schedule`. */
  method PendingElapsedSchedule(initial: seq<real>, repeat: real) returns (r: Result<seq<real>, ScheduleError>)
    ensures r == if repeat <= 0.0 then Err(RepeatNotPositive)
                 else if !NonNegative(initial) then Err(Negative)
                 else if !Ordered(initial) then Err(Unordered)
                 else Ok(Extended(initial, repeat)[..MAX_PENDING])
    ensures r.Ok? ==> |r.value| == 12 && Ordered(r.value)
  {
    if repeat <= 0.0 { return Err(RepeatNotPositive); }
    var refused := CheckTimes(initial);
    if refused.Some? { return Err(refused.value); }
    var elapsed := initial;
    var next := Before(elapsed, |elapsed|) + repeat;
    while |elapsed| < MAX_PENDING
      invariant next == Before(elapsed, |elapsed|) + repeat
      invariant Extended(elapsed, repeat) == Extended(initial, repeat)
    {
      elapsed := elapsed + [next];
      next := next + repeat;
    }
    ExtendedIsOrdered(initial, repeat);
    r := Ok(elapsed[..MAX_PENDING]);
  }

  /** How many scheduled times pass while a call of this duration runs. */
  function Passed(schedule: seq<real>, duration: real): (n: nat)
    ensures n <= |schedule|
  {
    if schedule == [] || duration <= schedule[0] then 0 else 1 + Passed(schedule[1..], duration)
  }

  /** Exactly the leading times that the call outlasts. */
  lemma {:induction false} PassedAreOutlasted(schedule: seq<real>, duration: real)
    ensures var n := Passed(schedule, duration);
            (forall i :: 0 <= i < n ==> schedule[i] < duration) && (n < |schedule| ==> duration <= schedule[n])
    decreases |schedule|
  {
    if schedule != [] && schedule[0] < duration {
      PassedAreOutlasted(schedule[1..], duration);
      assert forall i :: 0 < i < |schedule| ==> schedule[i] == schedule[1..][i - 1];
    }
  }

  function Min(a: nat, b: nat): nat { if a < b then a else b }

  /** One model call: it reports each scheduled time it outlasts, while the budget lasts. */
  method ModelCall(schedule: seq<real>, duration: real, budget: nat) returns (reported: seq<real>, left: nat)
    ensures reported == schedule[..Min(budget, Passed(schedule, duration))]
    ensures left == budget - |reported|
  {
    reported, left := [], budget;
    var i := 0;
    while i < |schedule|
      invariant 0 <= i <= |schedule| && reported == schedule[..i] && left == budget - i && i <= budget
      invariant Passed(schedule, duration) == i + Passed(schedule[i..], duration)
    {
      if left == 0 { break; }
      if duration <= schedule[i] { break; }
      reported := reported + [schedule[i]];
      left := left - 1;
      i := i + 1;
    }
  }

  /** What a run of calls reports, the budget handed from call to call. */
  function Reported(schedule: seq<real>, durations: seq<real>, budget: nat): nat
    decreases |durations|
  {
    if durations == [] then 0
    else
      var n := Min(budget, Passed(schedule, durations[0]));
      n + Reported(schedule, durations[1..], budget - n)
  }

  function AllPassed(schedule: seq<real>, durations: seq<real>): nat {
    if durations == [] then 0 else Passed(schedule, durations[0]) + AllPassed(schedule, durations[1..])
  }

  /** The budget is spent in order and nothing else limits it: a run reports exactly what its calls outlast, up
      to twelve. */
  lemma {:induction false} BudgetIsShared(schedule: seq<real>, durations: seq<real>, budget: nat)
    ensures Reported(schedule, durations, budget) == Min(budget, AllPassed(schedule, durations))
    decreases |durations|
  {
    if durations != [] {
      BudgetIsShared(schedule, durations[1..], budget - Min(budget, Passed(schedule, durations[0])));
    }
  }

  /** The calls of one invocation, from a full budget. */
  method InvocationEvents(schedule: seq<real>, durations: seq<real>) returns (count: nat)
    ensures count == Min(MAX_PENDING, AllPassed(schedule, durations))
  {
    count := 0;
    var left: nat := MAX_PENDING;
    var i := 0;
    while i < |durations|
      invariant 0 <= i <= |durations|
      invariant count + Reported(schedule, durations[i..], left) == Reported(schedule, durations, MAX_PENDING)
    {
      var reported;
      reported, left := ModelCall(schedule, durations[i], left);
      count := count + |reported|;
      assert durations[i..][0] == durations[i] && durations[i..][1..] == durations[i + 1..];
      i := i + 1;
    }
    BudgetIsShared(schedule, durations, MAX_PENDING);
  }
}
