/** Wall times in gaps and folds: `app/agents/action_items.py` decides whether a naive local time names one
    instant by trying both folds. Instants and wall times are counted in one unit (microseconds); a zone is
    a first offset and transitions, read as `zoneinfo` reads them. */
module WallTime {
  import opened Prelude

  /** From instant `at` on, the offset is `offset`. */
  datatype Transition = Transition(at: int, offset: int)

  datatype Zone = Zone(first: int, transitions: seq<Transition>)
  {
    /** The offset of segment `i`: before transition `i`, from transition `i - 1` on. */
    function Offset(i: nat): int
      requires i <= |transitions|
    {
      if i == 0 then first else transitions[i - 1].offset
    }

    function Low(k: nat): int
      requires k < |transitions|
    {
      if Offset(k) < Offset(k + 1) then Offset(k) else Offset(k + 1)
    }

    function High(k: nat): int
      requires k < |transitions|
    {
      if Offset(k) < Offset(k + 1) then Offset(k + 1) else Offset(k)
    }

    /** Transitions are further apart than the wall time they shift. */
    ghost predicate Spaced() {
      forall k :: 0 <= k && k + 1 < |transitions| ==>
        transitions[k].at + High(k) <= transitions[k + 1].at + Low(k + 1)
    }

    /** Where a transition stands among instants, and among wall times of each fold. */
    function UtcMark(k: nat): int
      requires k < |transitions|
    {
      transitions[k].at
    }

    function WallMark(fold: nat, k: nat): int
      requires k < |transitions|
    {
      transitions[k].at + if fold == 0 then High(k) else Low(k)
    }

    /** How many of the first `n` transitions lie at or before instant `u` (`bisect_right`). */
    function UtcIndex(u: int, n: nat): (i: nat)
      requires n <= |transitions|
      ensures i <= n
    {
      if n == 0 then 0 else if UtcMark(n - 1) <= u then n else UtcIndex(u, n - 1)
    }

    function WallIndex(fold: nat, w: int, n: nat): (i: nat)
      requires n <= |transitions|
      ensures i <= n
    {
      if n == 0 then 0 else if WallMark(fold, n - 1) <= w then n else WallIndex(fold, w, n - 1)
    }

    /** `astimezone(zone)` of an instant, without its zone. */
    function ToWall(u: int): int {
      u + Offset(UtcIndex(u, |transitions|))
    }

    /** `utcoffset()` of a wall time at a fold. */
    function WallOffset(fold: nat, w: int): int {
      Offset(WallIndex(fold, w, |transitions|))
    }

    /** No instant shows a wall time in a gap. */
    ghost predicate InGap(w: int) {
      exists k: nat :: k < |transitions| && UtcMark(k) + Offset(k) <= w < UtcMark(k) + Offset(k + 1)
    }

    /** Two instants show a wall time in a fold. */
    ghost predicate InFold(w: int) {
      exists k: nat :: k < |transitions| && UtcMark(k) + Offset(k + 1) <= w < UtcMark(k) + Offset(k)
    }
  }

  datatype TimeError = DoesNotExist | IsAmbiguous

  /** `candidate.astimezone(UTC).astimezone(timezone)` gives the wall time back. */
  predicate RoundTrips(z: Zone, w: int, fold: nat) {
    z.ToWall(w - z.WallOffset(fold, w)) == w
  }

  /** A datetime as parsed: an instant when it carries an offset, else a wall time with its fold. */
  datatype Moment = Aware(instant: int) | Naive(wall: int, fold: nat)

  /** The offsets that fold 0 and fold 1 confirm. */
  function ValidOffsets(z: Zone, w: int): set<int> { Confirmed(z, w, 0) + Confirmed(z, w, 1) }

  function Confirmed(z: Zone, w: int, fold: nat): set<int> { if RoundTrips(z, w, fold) then {z.WallOffset(fold, w)} else {} }

  /** `_notion_datetime_to_utc`. */
  function ToUtc(z: Zone, m: Moment): Result<int, TimeError> {
    match m
    case Aware(u) => Ok(u)
    case Naive(w, fold) =>
      var valid := ValidOffsets(z, w);
      if valid == {} then Err(DoesNotExist)
      else if |valid| > 1 then Err(IsAmbiguous)
      else Ok(w - z.WallOffset(if fold == 0 then 0 else 1, w))
  }

  // ----- where the indices lie

  lemma {:induction false} UtcIndexMarks(z: Zone, u: int, n: nat)
    requires z.Spaced() && n <= |z.transitions|
    ensures forall k :: 0 <= k < z.UtcIndex(u, n) ==> z.UtcMark(k) <= u
    ensures forall k :: z.UtcIndex(u, n) <= k < n ==> u < z.UtcMark(k)
  {
    if n > 0 {
      if z.UtcMark(n - 1) <= u {
        forall k | 0 <= k < n
          ensures z.UtcMark(k) <= u
        {
          MarksAscend(z, k, n - 1);
        }
      } else {
        UtcIndexMarks(z, u, n - 1);
      }
    }
  }

  lemma {:induction false} MarksAscend(z: Zone, i: nat, j: nat)
    requires z.Spaced() && i <= j < |z.transitions|
    ensures z.UtcMark(i) <= z.UtcMark(j)
    ensures forall fold :: z.WallMark(fold, i) <= z.WallMark(fold, j)
    ensures i < j ==> z.WallMark(0, i) <= z.WallMark(1, j)
    decreases j - i
  {
    if i < j {
      MarksAscend(z, i, j - 1);
    }
  }

  lemma {:induction false} WallIndexMarks(z: Zone, fold: nat, w: int, n: nat)
    requires z.Spaced() && n <= |z.transitions|
    ensures forall k :: 0 <= k < z.WallIndex(fold, w, n) ==> z.WallMark(fold, k) <= w
    ensures forall k :: z.WallIndex(fold, w, n) <= k < n ==> w < z.WallMark(fold, k)
  {
    if n > 0 {
      if z.WallMark(fold, n - 1) <= w {
        forall k | 0 <= k < n
          ensures z.WallMark(fold, k) <= w
        {
          MarksAscend(z, k, n - 1);
        }
      } else {
        WallIndexMarks(z, fold, w, n - 1);
      }
    }
  }

  /** The two folds look at one segment, or at the two around one transition. */
  lemma FoldsAreNeighbours(z: Zone, w: int)
    requires z.Spaced()
    ensures var n := |z.transitions|;
            z.WallIndex(0, w, n) <= z.WallIndex(1, w, n) <= z.WallIndex(0, w, n) + 1
  {
    var n := |z.transitions|;
    WallIndexMarks(z, 0, w, n);
    WallIndexMarks(z, 1, w, n);
    var i, j := z.WallIndex(0, w, n), z.WallIndex(1, w, n);
    if j < n { assert z.WallMark(1, j) <= z.WallMark(0, j); }
    if i + 1 < n { MarksAscend(z, i, i + 1); }
  }

  /** Whatever instant shows `w`, fold 0 or fold 1 finds it. */
  lemma FoldsFindEveryInstant(z: Zone, w: int, u: int)
    requires z.Spaced() && z.ToWall(u) == w
    ensures u == w - z.WallOffset(0, w) || u == w - z.WallOffset(1, w)
  {
    hide Zone.Spaced, Zone.WallIndex, Zone.UtcIndex;
    var n := |z.transitions|;
    var s := z.UtcIndex(u, n);
    UtcIndexMarks(z, u, n);
    FoldsAreNeighbours(z, w);
    WallIndexMarks(z, 0, w, n);
    WallIndexMarks(z, 1, w, n);
    if s > 0 { assert z.UtcMark(s - 1) <= u; assert z.WallMark(1, s - 1) <= w; }
    if s < n { assert u < z.UtcMark(s); assert w < z.WallMark(0, s); }
    assert z.WallIndex(0, w, n) <= s <= z.WallIndex(1, w, n);
  }

  /** A wall time between marks of its segment is shown by that segment's instant. */
  lemma SegmentShows(z: Zone, w: int, s: nat)
    requires z.Spaced() && s <= |z.transitions|
    requires s > 0 ==> z.UtcMark(s - 1) + z.Offset(s) <= w
    requires s < |z.transitions| ==> w < z.UtcMark(s) + z.Offset(s)
    ensures z.ToWall(w - z.Offset(s)) == w
  {
    var n, u := |z.transitions|, w - z.Offset(s);
    UtcIndexMarks(z, u, n);
    if s > 0 { assert z.UtcMark(s - 1) <= u; }
    if s < n { assert u < z.UtcMark(s); }
    assert z.UtcIndex(u, n) == s;
  }

  /** When both folds look at one segment, that segment shows the wall time. */
  lemma AgreeingFolds(z: Zone, w: int)
    requires z.Spaced() && z.WallIndex(0, w, |z.transitions|) == z.WallIndex(1, w, |z.transitions|)
    ensures z.ToWall(w - z.WallOffset(0, w)) == w && z.WallOffset(0, w) == z.WallOffset(1, w)
    ensures !z.InGap(w) && !z.InFold(w)
  {
    hide Zone.Spaced, Zone.WallIndex, Zone.ToWall;
    var n := |z.transitions|;
    var s := z.WallIndex(0, w, n);
    WallIndexMarks(z, 0, w, n);
    WallIndexMarks(z, 1, w, n);
    if s > 0 { assert z.WallMark(0, s - 1) <= w && z.Offset(s) <= z.High(s - 1); }
    if s < n { assert w < z.WallMark(1, s) && z.Low(s) <= z.Offset(s); }
    SegmentShows(z, w, s);
    forall k: nat | k < n
      ensures !(z.UtcMark(k) + z.Low(k) <= w < z.UtcMark(k) + z.High(k))
    {
      assert if k < s then z.WallMark(0, k) <= w else w < z.WallMark(1, k);
    }
  }

  lemma DifferingMarks(z: Zone, w: int)
    requires z.Spaced() && z.WallIndex(0, w, |z.transitions|) != z.WallIndex(1, w, |z.transitions|)
    ensures var k := z.WallIndex(0, w, |z.transitions|);
            && k < |z.transitions| && z.WallIndex(1, w, |z.transitions|) == k + 1
            && z.WallMark(1, k) <= w < z.WallMark(0, k)
  {
    FoldsAreNeighbours(z, w);
    WallIndexMarks(z, 0, w, |z.transitions|);
    WallIndexMarks(z, 1, w, |z.transitions|);
  }

  /** When the folds differ, the wall time lies in the gap or the fold of the transition between them. */
  lemma DifferingFolds(z: Zone, w: int)
    requires z.Spaced() && z.WallIndex(0, w, |z.transitions|) != z.WallIndex(1, w, |z.transitions|)
    ensures z.InGap(w) <==> !z.InFold(w)
    ensures z.InGap(w) ==> forall u :: z.ToWall(u) != w
    ensures z.InFold(w) ==> RoundTrips(z, w, 0) && RoundTrips(z, w, 1) && z.WallOffset(0, w) != z.WallOffset(1, w)
  {
    hide Zone.ToWall, Zone.Spaced, Zone.WallIndex, Zone.InGap, Zone.InFold;
    DifferingMarks(z, w);
    var k := z.WallIndex(0, w, |z.transitions|);
    OneTransition(z, w, k);
    if z.Offset(k) > z.Offset(k + 1) {
      FoldHasTwoInstants(z, w, k);
    } else {
      GapHasNoInstant(z, w, k);
    }
  }

  lemma FoldHasTwoInstants(z: Zone, w: int, k: nat)
    requires z.Spaced() && k < |z.transitions| && z.Offset(k) > z.Offset(k + 1)
    requires z.WallMark(1, k) <= w < z.WallMark(0, k)
    ensures z.ToWall(w - z.Offset(k)) == w && z.ToWall(w - z.Offset(k + 1)) == w
  {
    hide Zone.ToWall;
    if k > 0 { MarksAscend(z, k - 1, k); }
    if k + 1 < |z.transitions| { MarksAscend(z, k, k + 1); }
    SegmentShows(z, w, k);
    SegmentShows(z, w, k + 1);
  }

  lemma OneTransition(z: Zone, w: int, k: nat)
    requires z.Spaced() && k < |z.transitions| && z.WallMark(1, k) <= w < z.WallMark(0, k)
    ensures z.InGap(w) <==> z.Offset(k) < z.Offset(k + 1)
    ensures z.InFold(w) <==> z.Offset(k + 1) < z.Offset(k)
  {
    hide Zone.Spaced;
    forall j: nat | j < |z.transitions| && j != k
      ensures !(z.WallMark(1, j) <= w < z.WallMark(0, j))
    {
      if j < k { MarksAscend(z, j, k); } else { MarksAscend(z, k, j); }
    }
    if z.InGap(w) {
      var j: nat :| j < |z.transitions| && z.UtcMark(j) + z.Offset(j) <= w < z.UtcMark(j) + z.Offset(j + 1);
      assert z.WallMark(1, j) <= w < z.WallMark(0, j);
    }
    if z.InFold(w) {
      var j: nat :| j < |z.transitions| && z.UtcMark(j) + z.Offset(j + 1) <= w < z.UtcMark(j) + z.Offset(j);
      assert z.WallMark(1, j) <= w < z.WallMark(0, j);
    }
    assert z.Offset(k) < z.Offset(k + 1) ==> z.UtcMark(k) + z.Offset(k) <= w < z.UtcMark(k) + z.Offset(k + 1);
    assert z.Offset(k + 1) < z.Offset(k) ==> z.UtcMark(k) + z.Offset(k + 1) <= w < z.UtcMark(k) + z.Offset(k);
  }

  lemma GapHasNoInstant(z: Zone, w: int, k: nat)
    requires z.Spaced() && k < |z.transitions| && z.Offset(k) <= z.Offset(k + 1)
    requires z.WallMark(1, k) <= w < z.WallMark(0, k)
    ensures forall u :: z.ToWall(u) != w
  {
    hide Zone.ToWall, Zone.WallMark;
    forall u
      ensures z.ToWall(u) != w
    {
      OutsideTheGap(z, w, k, u);
    }
  }

  /** An instant before the transition shows a wall time before the gap, one after it a wall time past it. */
  lemma OutsideTheGap(z: Zone, w: int, k: nat, u: int)
    requires z.Spaced() && k < |z.transitions| && z.Offset(k) <= z.Offset(k + 1)
    requires z.WallMark(1, k) <= w < z.WallMark(0, k)
    ensures z.ToWall(u) != w
  {
    hide Zone.UtcIndex, Zone.Spaced;
    var s := z.UtcIndex(u, |z.transitions|);
    UtcIndexMarks(z, u, |z.transitions|);
    if s <= k {
      MarksAscend(z, s, k);
      assert z.ToWall(u) < z.WallMark(0, s);
      assert s == k ==> z.ToWall(u) < z.WallMark(1, k);
    } else {
      assert z.UtcMark(s - 1) <= u;
      MarksAscend(z, k, s - 1);
      assert z.ToWall(u) >= z.WallMark(1, s - 1);
      assert s == k + 1 ==> z.ToWall(u) >= z.WallMark(0, k);
    }
  }

  // ----- what the answer means

  /** Trying folds 0 and 1 is complete: a naive wall time is refused as nonexistent exactly in a gap, where no
      instant shows it; refused as ambiguous exactly in a fold, where two instants show it; and otherwise
      turned into the one instant that shows it. */
  lemma WallTimeIsDecided(z: Zone, w: int, fold: nat)
    requires z.Spaced()
    ensures var r := ToUtc(z, Naive(w, fold));
            && (r == Err(DoesNotExist) <==> forall u :: z.ToWall(u) != w)
            && (r == Err(DoesNotExist) <==> z.InGap(w))
            && (r == Err(IsAmbiguous) <==> exists u, v :: u != v && z.ToWall(u) == w && z.ToWall(v) == w)
            && (r == Err(IsAmbiguous) <==> z.InFold(w))
            && (forall u :: r == Ok(u) <==> (z.ToWall(u) == w && forall v :: z.ToWall(v) == w ==> v == u))
  {
    hide Zone.ToWall, Zone.WallOffset, Zone.Spaced, Zone.WallIndex, Zone.InGap, Zone.InFold;
    forall u | z.ToWall(u) == w
      ensures u == w - z.WallOffset(0, w) || u == w - z.WallOffset(1, w)
    {
      FoldsFindEveryInstant(z, w, u);
    }
    if z.WallIndex(0, w, |z.transitions|) == z.WallIndex(1, w, |z.transitions|) {
      AgreeingFolds(z, w);
      assert ValidOffsets(z, w) == {z.WallOffset(0, w)};
    } else {
      DifferingFolds(z, w);
      if z.InFold(w) {
        var a, b := w - z.WallOffset(0, w), w - z.WallOffset(1, w);
        assert ValidOffsets(z, w) == {z.WallOffset(0, w), z.WallOffset(1, w)};
        assert a != b && z.ToWall(a) == w && z.ToWall(b) == w;
      } else {
        assert ValidOffsets(z, w) == {};
      }
    }
  }

  /** Reading an instant's own wall time gives the instant back, or is refused as ambiguous. */
  lemma WallTimeReadsBack(z: Zone, u: int, fold: nat)
    requires z.Spaced()
    ensures ToUtc(z, Naive(z.ToWall(u), fold)) in {Ok(u), Err(IsAmbiguous)}
  {
    WallTimeIsDecided(z, z.ToWall(u), fold);
  }

  /** `_raise_for_invalid_local_wall_time`, then the conversion. */
  method NotionDatetimeToUtc(z: Zone, m: Moment) returns (r: Result<int, TimeError>)
    ensures r == ToUtc(z, m)
  {
    hide Zone.ToWall, Zone.WallOffset;
    if m.Aware? { return Ok(m.instant); }
    var valid: set<int> := {};
    var fold := 0;
    while fold < 2
      invariant 0 <= fold <= 2
      invariant valid == if fold == 0 then {} else if fold == 1 then Confirmed(z, m.wall, 0) else ValidOffsets(z, m.wall)
    {
      ghost var before := valid;
      var offset := z.WallOffset(fold, m.wall);
      if z.ToWall(m.wall - offset) == m.wall { valid := valid + {offset}; }
      assert valid == before + Confirmed(z, m.wall, fold);
      fold := fold + 1;
    }
    hide ValidOffsets;
    if valid == {} { return Err(DoesNotExist); }
    if |valid| > 1 { return Err(IsAmbiguous); }
    r := Ok(m.wall - z.WallOffset(if m.fold == 0 then 0 else 1, m.wall));
  }
}
