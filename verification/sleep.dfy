/**
 System sleep as the inference queue sees it: a ticker that notices gaps in the wall clock, the
 overlap of the recorded sleeps with a request, and the bill for the time that is left.
 Instants and durations are whole nanoseconds.
 */
module SleepDetector {
  import opened Model

  const SECOND := 1_000_000_000

  /** The machine slept for `duration` up to the instant `at`. */
  datatype SleepEvent = SleepEvent(at: int, duration: int)

  ghost predicate Asleep(e: SleepEvent, t: int)
  {
    e.at - e.duration <= t < e.at
  }

  // ----- Overlap of recorded sleeps with a window -----

  function Overlap(e: SleepEvent, start: int, end: int): (d: int)
    ensures d >= 0
  {
    var from := if start > e.at - e.duration then start else e.at - e.duration;
    var to := if end < e.at then end else e.at;
    if to > from then to - from else 0
  }

  function TotalOverlap(events: seq<SleepEvent>, start: int, end: int): (total: int)
    ensures total >= 0
  {
    if events == [] then 0
    else TotalOverlap(events[..|events|-1], start, end) + Overlap(events[|events|-1], start, end)
  }

  /** How many of the recorded sleeps contain the instant t. */
  ghost function Multiplicity(events: seq<SleepEvent>, t: int): nat
  {
    if events == [] then 0
    else Multiplicity(events[..|events|-1], t) + (if Asleep(events[|events|-1], t) then 1 else 0)
  }

  /** The number of instants of [start, end) inside some recorded sleep. */
  ghost function Covered(events: seq<SleepEvent>, start: int, end: int): (n: nat)
    ensures start <= end ==> n <= end - start
    decreases end - start
  {
    if end <= start then 0
    else Covered(events, start, end - 1) + (if Multiplicity(events, end - 1) > 0 then 1 else 0)
  }

  ghost predicate Disjoint(events: seq<SleepEvent>)
  {
    forall i, j, t | 0 <= i < j < |events| :: !(Asleep(events[i], t) && Asleep(events[j], t))
  }

  /** The overlaps measure time: the parts of a window add up, whatever was recorded. */
  lemma {:induction false} TotalAdditive(events: seq<SleepEvent>, a: int, b: int, c: int)
    requires a <= b <= c
    ensures TotalOverlap(events, a, b) + TotalOverlap(events, b, c) == TotalOverlap(events, a, c)
  {
    if events != [] {
      TotalAdditive(events[..|events|-1], a, b, c);
    }
  }

  lemma {:induction false} TotalOfInstant(events: seq<SleepEvent>, t: int)
    ensures TotalOverlap(events, t, t + 1) == Multiplicity(events, t)
  {
    if events != [] {
      TotalOfInstant(events[..|events|-1], t);
    }
  }

  lemma {:induction false} EmptyWindow(events: seq<SleepEvent>, start: int, end: int)
    requires end <= start
    ensures TotalOverlap(events, start, end) == 0
  {
    if events != [] {
      EmptyWindow(events[..|events|-1], start, end);
    }
  }

  lemma {:induction false} AsleepCounted(events: seq<SleepEvent>, i: nat, t: int)
    requires i < |events| && Asleep(events[i], t)
    ensures Multiplicity(events, t) >= 1
  {
    if i < |events| - 1 {
      AsleepCounted(events[..|events|-1], i, t);
    }
  }

  lemma {:induction false} CountedAsleep(events: seq<SleepEvent>, t: int) returns (i: nat)
    requires Multiplicity(events, t) >= 1
    ensures i < |events| && Asleep(events[i], t)
  {
    i := |events| - 1;
    if !Asleep(events[i], t) {
      i := CountedAsleep(events[..|events|-1], t);
    }
  }

  /** Two sleeps around one instant are counted twice. */
  lemma {:induction false} CountedTwice(events: seq<SleepEvent>, i: nat, j: nat, t: int)
    requires i < j < |events| && Asleep(events[i], t) && Asleep(events[j], t)
    ensures Multiplicity(events, t) >= 2
  {
    var front := events[..|events|-1];
    if j == |events| - 1 {
      AsleepCounted(front, i, t);
    } else {
      CountedTwice(front, i, j, t);
    }
  }

  lemma {:induction false} CountedOnce(events: seq<SleepEvent>, t: int)
    requires Disjoint(events)
    ensures Multiplicity(events, t) <= 1
  {
    if events != [] {
      var front, n := events[..|events|-1], |events| - 1;
      forall i, j, x | 0 <= i < j < |front| ensures !(Asleep(front[i], x) && Asleep(front[j], x)) {
        assert front[i] == events[i] && front[j] == events[j];
      }
      CountedOnce(front, t);
      if Asleep(events[n], t) && Multiplicity(front, t) >= 1 {
        var i := CountedAsleep(front, t);
        assert false;
      }
    }
  }

  lemma {:induction false} TotalIsCovered(events: seq<SleepEvent>, start: int, end: int)
    requires Disjoint(events)
    ensures TotalOverlap(events, start, end) == Covered(events, start, end)
    decreases end - start
  {
    if end <= start {
      EmptyWindow(events, start, end);
    } else {
      CountedOnce(events, end - 1);
      TotalIsCovered(events, start, end - 1);
      TotalAdditive(events, start, end - 1, end);
      TotalOfInstant(events, end - 1);
    }
  }

  /** The sum of overlaps is the time slept in every window. */
  ghost predicate Measures(events: seq<SleepEvent>)
  {
    forall start, end | start <= end :: TotalOverlap(events, start, end) == Covered(events, start, end)
  }

  /** It is so exactly when no two recorded sleeps overlap. */
  lemma MeasuresIffDisjoint(events: seq<SleepEvent>)
    ensures Measures(events) <==> Disjoint(events)
  {
    if Disjoint(events) {
      forall start, end | start <= end ensures TotalOverlap(events, start, end) == Covered(events, start, end) {
        TotalIsCovered(events, start, end);
      }
    }
    if Measures(events) {
      forall i, j, t | 0 <= i < j < |events| ensures !(Asleep(events[i], t) && Asleep(events[j], t)) {
        TotalOfInstant(events, t);
        assert TotalOverlap(events, t, t + 1) == Covered(events, t, t + 1) <= 1;
        if Asleep(events[i], t) && Asleep(events[j], t) {
          CountedTwice(events, i, j, t);
          assert false;
        }
      }
    }
  }

  // ----- What the ticker records -----

  /** The sleeps recorded by a ticker that last saw `last` and then reads the clock again and again. */
  function Recorded(last: int, clock: seq<int>): seq<SleepEvent>
  {
    if clock == [] then []
    else
      var n := |clock| - 1;
      Recorded(last, clock[..n]) + Noticed(LastReading(last, clock[..n]), clock[n])
  }

  /** What one tick adds: a gap of more than five seconds is a sleep of all but one second of it. */
  function Noticed(last: int, now: int): seq<SleepEvent>
  {
    if now - last > 5 * SECOND then [SleepEvent(now, now - last - SECOND)] else []
  }

  function LastReading(last: int, clock: seq<int>): int
  {
    if clock == [] then last else clock[|clock|-1]
  }

  ghost predicate NonDecreasing(last: int, clock: seq<int>)
  {
    && (clock != [] ==> last <= clock[0])
    && forall i | 0 < i < |clock| :: clock[i-1] <= clock[i]
  }

  lemma {:induction false} RecordedAreDisjoint(last: int, clock: seq<int>)
    requires NonDecreasing(last, clock)
    ensures last <= LastReading(last, clock)
    ensures forall i | 0 <= i < |Recorded(last, clock)| :: Recorded(last, clock)[i].at <= LastReading(last, clock)
    ensures Disjoint(Recorded(last, clock))
  {
    if clock != [] {
      RecordedAreDisjoint(last, clock[..|clock|-1]);
    }
  }

  /** Two readings of the clock, one after the other, the first perhaps the one the ticker began with. */
  ghost predicate Readings(last: int, clock: seq<int>, i: nat, a: int, b: int)
  {
    i < |clock| && b == clock[i] && a == (if i == 0 then last else clock[i-1])
  }

  /** An instant counts as slept exactly when it lies between two readings more than five seconds apart, and not in the
      first of those seconds. */
  lemma {:induction false} AsleepIff(last: int, clock: seq<int>, t: int)
    ensures (exists k | 0 <= k < |Recorded(last, clock)| :: Asleep(Recorded(last, clock)[k], t)) <==>
            exists i: nat, a, b | Readings(last, clock, i, a, b) :: b - a > 5_000_000_000 && a + 1_000_000_000 <= t < b
  {
    if clock != [] {
      var n := |clock| - 1;
      var front, events := clock[..n], Recorded(last, clock);
      var a, b := LastReading(last, front), clock[n];
      var before := Recorded(last, front);
      AsleepIff(last, front, t);
      assert Readings(last, clock, n, a, b);
      assert forall i: nat, x, y | i < n :: Readings(last, clock, i, x, y) <==> Readings(last, front, i, x, y);
      if b - a > 5_000_000_000 && a + 1_000_000_000 <= t < b {
        assert Asleep(events[|before|], t);
      }
      forall k | 0 <= k < |before| ensures events[k] == before[k] {
      }
    }
  }

  /** While the clock never goes back, the total is the time slept inside the window, and no more than the window. */
  lemma SleepMeasure(last: int, clock: seq<int>, start: int, end: int)
    requires NonDecreasing(last, clock) && start <= end
    ensures TotalOverlap(Recorded(last, clock), start, end) == Covered(Recorded(last, clock), start, end)
    ensures 0 <= TotalOverlap(Recorded(last, clock), start, end) <= end - start
  {
    RecordedAreDisjoint(last, clock);
    TotalIsCovered(Recorded(last, clock), start, end);
  }

  lemma RecordedTwice(t: int)
    requires t > 5 * SECOND
    ensures Recorded(0, [t, 0, t]) == [SleepEvent(t, t - SECOND), SleepEvent(t, t - SECOND)]
  {
    assert [t][..0] == [] && [t, 0][..1] == [t] && [t, 0, t][..2] == [t, 0];
    assert Recorded(0, [t]) == [SleepEvent(t, t - SECOND)];
    assert Recorded(0, [t, 0]) == [SleepEvent(t, t - SECOND)];
  }

  lemma OverlapsTwice(e: SleepEvent, start: int, end: int)
    ensures TotalOverlap([e, e], start, end) == 2 * Overlap(e, start, end)
  {
    assert [e, e][..1] == [e] && [e][..0] == [];
    assert TotalOverlap([e], start, end) == Overlap(e, start, end);
  }

  /** A clock set back lets the same ten seconds be slept twice: 18 seconds of sleep inside 10. */
  lemma ClockSetBack()
    ensures var events := Recorded(0, [10 * SECOND, 0, 10 * SECOND]);
            TotalOverlap(events, 0, 10 * SECOND) == 18 * SECOND && !Disjoint(events)
  {
    hide Recorded, TotalOverlap;
    var e := SleepEvent(10 * SECOND, 9 * SECOND);
    RecordedTwice(10 * SECOND);
    OverlapsTwice(e, 0, 10 * SECOND);
    assert Asleep([e, e][0], SECOND) && Asleep([e, e][1], SECOND);
  }

  // ----- Billing -----

  /** Awake time of a request: elapsed time less recorded sleep, never below zero. */
  function BilledTime(events: seq<SleepEvent>, start: int, end: int): (d: int)
    ensures d >= 0
  {
    var d := end - start - TotalOverlap(events, start, end);
    if d < 0 then 0 else d
  }

  /** The cost in milli-cents of a request at `bid` milli-cents a second, truncated. */
  function Cost(events: seq<SleepEvent>, start: int, end: int, bid: int): int
  {
    TruncDiv(BilledTime(events, start, end) * bid, SECOND)
  }

  function Charged(cost: int): int
  {
    if cost > 0 then cost else 0
  }

  lemma Monotone(a: int, b: int, c: int)
    requires a <= b && c >= 0
    ensures a * c <= b * c
  {
  }

  /**
   While the clock never goes back: the clamp is idle, what is billed is the waking instants of the
   request at its bid, rounded down, and that never exceeds the elapsed time at the bid.
   */
  lemma BillIsFair(last: int, clock: seq<int>, start: int, end: int, bid: int)
    requires NonDecreasing(last, clock) && start <= end && bid >= 0
    ensures var events := Recorded(last, clock);
            var awake := (end - start) - Covered(events, start, end);
            var cost := Cost(events, start, end, bid);
            && BilledTime(events, start, end) == awake
            && cost * SECOND <= awake * bid < (cost + 1) * SECOND
            && 0 <= cost && cost * SECOND <= (end - start) * bid
            && Charged(cost) == cost
  {
    SleepMeasure(last, clock, start, end);
    var awake := BilledTime(Recorded(last, clock), start, end);
    Monotone(0, awake, bid);
    Monotone(awake, end - start, bid);
  }

  /** A bid of zero or less costs nothing, whatever was slept. */
  lemma NothingForNothing(events: seq<SleepEvent>, start: int, end: int, bid: int)
    requires bid <= 0
    ensures Charged(Cost(events, start, end, bid)) == 0
  {
    Monotone(0, BilledTime(events, start, end), -bid);
    assert BilledTime(events, start, end) * bid == -(BilledTime(events, start, end) * -bid);
  }

  /** Ten seconds at 3 a second, with a gap from the second to the eighth: five seconds count as slept, five are paid. */
  lemma TenSecondsWithAGap()
    ensures var events := Recorded(0, [2 * SECOND, 8 * SECOND, 10 * SECOND]);
            Charged(Cost(events, 0, 10 * SECOND, 3)) == 15
  {
    var a, b, c := 2 * SECOND, 8 * SECOND, 10 * SECOND;
    assert [a][..0] == [] && [a, b][..1] == [a] && [a, b, c][..2] == [a, b];
    assert Recorded(0, [a]) == [];
    assert Recorded(0, [a, b]) == [SleepEvent(b, 5 * SECOND)];
    assert Recorded(0, [a, b, c]) == [SleepEvent(b, 5 * SECOND)];
    var e := SleepEvent(b, 5 * SECOND);
    assert [e][..0] == [];
    assert TotalOverlap([e], 0, c) == Overlap(e, 0, c);
  }

  /** Cutting a request in two never raises its bill, and lowers it by one milli-cent at most. */
  lemma BillOfParts(last: int, clock: seq<int>, a: int, b: int, c: int, bid: int)
    requires NonDecreasing(last, clock) && a <= b <= c && bid >= 0
    ensures var events := Recorded(last, clock);
            Cost(events, a, b, bid) + Cost(events, b, c, bid) <= Cost(events, a, c, bid)
            <= Cost(events, a, b, bid) + Cost(events, b, c, bid) + 1
  {
    var events := Recorded(last, clock);
    TotalAdditive(events, a, b, c);
    SleepMeasure(last, clock, a, b);
    SleepMeasure(last, clock, b, c);
    SleepMeasure(last, clock, a, c);
    var x, y := BilledTime(events, a, b), BilledTime(events, b, c);
    assert BilledTime(events, a, c) == x + y;
    CostOfSum(x, y, bid);
  }

  lemma CostOfSum(x: int, y: int, bid: int)
    requires x >= 0 && y >= 0 && bid >= 0
    ensures TruncDiv(x * bid, SECOND) + TruncDiv(y * bid, SECOND) <= TruncDiv((x + y) * bid, SECOND)
            <= TruncDiv(x * bid, SECOND) + TruncDiv(y * bid, SECOND) + 1
  {
    Monotone(0, x, bid);
    Monotone(0, y, bid);
    assert (x + y) * bid == x * bid + y * bid;
    FloorOfSum(x * bid, y * bid);
  }

  lemma FloorOfSum(x: int, y: int)
    requires x >= 0 && y >= 0
    ensures x / SECOND + y / SECOND <= (x + y) / SECOND <= x / SECOND + y / SECOND + 1
  {
  }

  // ----- The detector as it runs -----

  class Detector {
    var last: int
    var events: seq<SleepEvent>
    ghost const first: int            // the reading taken when the detector started
    ghost var clock: seq<int>         // every reading since

    ghost predicate Valid()
      reads this
    {
      events == Recorded(first, clock) && last == LastReading(first, clock)
    }

    constructor (now: int)
      ensures Valid() && first == now && clock == []
    {
      last, events, first, clock := now, [], now, [];
    }

    method Tick(now: int)
      requires Valid()
      modifies this
      ensures Valid() && clock == old(clock) + [now]
    {
      var elapsed := now - last;
      last := now;
      if elapsed > 5 * SECOND {
        events := events + [SleepEvent(now, elapsed - SECOND)];
      }
      clock := clock + [now];
      assert clock[..|clock|-1] == old(clock);
    }

    /** Sums the overlaps one event at a time. */
    method SleepDuring(start: int, end: int) returns (total: int)
      requires Valid()
      ensures total == TotalOverlap(events, start, end)
      ensures NonDecreasing(first, clock) && start <= end ==> total == Covered(events, start, end)
    {
      total := 0;
      var i := 0;
      while i < |events|
        invariant 0 <= i <= |events|
        invariant total == TotalOverlap(events[..i], start, end)
      {
        var e := events[i];
        var overlapStart := e.at - e.duration;
        if start > overlapStart { overlapStart := start; }
        var overlapEnd := e.at;
        if end < overlapEnd { overlapEnd := end; }
        if overlapEnd > overlapStart {
          total := total + (overlapEnd - overlapStart);
        }
        assert events[..i+1][..i] == events[..i];
        i := i + 1;
      }
      assert events[..i] == events;
      if NonDecreasing(first, clock) && start <= end {
        SleepMeasure(first, clock, start, end);
      }
    }

    /** The billing part of processEntry. */
    method Bill(start: int, end: int, bid: int) returns (charge: int)
      requires Valid()
      ensures charge == Charged(Cost(events, start, end, bid))
      ensures NonDecreasing(first, clock) && start <= end && bid >= 0 ==>
                charge * SECOND <= (end - start - Covered(events, start, end)) * bid < (charge + 1) * SECOND
    {
      var wall := end - start;
      var slept := SleepDuring(start, end);
      wall := wall - slept;
      if wall < 0 {
        wall := 0;
      }
      var cost := TruncDiv(wall * bid, SECOND);
      charge := if cost > 0 then cost else 0;
      if NonDecreasing(first, clock) && start <= end && bid >= 0 {
        BillIsFair(first, clock, start, end, bid);
      }
    }
  }
}
