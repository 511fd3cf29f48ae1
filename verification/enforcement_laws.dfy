/**
 What ticks, scope ticks, freezing and unfreezing do, limit type by limit type: readings, rows, flags and Docker calls
 named one by one, and who is stopped or paused because of them.
 */
module EnforcementLaws {
  import opened Model
  import opened StoreState
  import opened EnforcementState
  import opened EnforcementRuns
  import opened EnforcementBlocks
  import P = SpendingState
  import B = ByteSeconds
  import T = EnforcementTicks
  import S = StoreTotals

  // ----- The calls of each type -----

  /** The call that enforces lt is answered; types that need none always work. */
  predicate Enforceable(lt: LimitType, p: Probe)
  {
    && (lt.Cpu? || lt.Disk? ==> (lt, Pause) !in p.fails)
    && (lt.Ram? ==> (lt, UpdateMemory) !in p.fails)
    && (lt.Net? ==> (lt, Disconnect) !in p.fails)
    && ((lt.DiskIoBytes? || lt.DiskIoOps?) && p.cgroup ==> (lt, Throttle) !in p.fails)
    && (lt.RamUsageBsec? || lt.DiskUsageBsec? || lt.RamRequestBsec? || lt.DiskRequestBsec? ==> (lt, Stop) !in p.fails)
  }

  /** The call that undoes it is answered; pausing has its own rules. */
  predicate Undoable(lt: LimitType, p: Probe)
  {
    && (lt.Ram? ==> (lt, UpdateMemory) !in p.fails)
    && (lt.Net? ==> (lt, Reconnect) !in p.fails)
    && ((lt.DiskIoBytes? || lt.DiskIoOps?) && p.cgroup ==> (lt, Unthrottle) !in p.fails)
  }

  /** Some level holds c for lt: its own flag, the host's, or that of the segment in its row. */
  predicate Holds(s: Sys, c: ContainerId, lt: LimitType)
  {
    || (c, lt) in s.enforced || (Host, lt) in s.scopeEnforced
    || (c in s.db.containers && s.db.containers[c].segment.Some?
        && (Segment(s.db.containers[c].segment.value), lt) in s.scopeEnforced)
  }

  lemma HoldsLaw(s: Sys, c: ContainerId, lt: LimitType)
    ensures HeldFor(s, c, lt) <==> Holds(s, c, lt)
  {
  }

  /** c is paused, is seen to be, nothing else holds it, and Docker will not let it go. */
  predicate Stuck(s: Sys, c: ContainerId, lt: LimitType, p: Probe)
  {
    && c in s.paused && (lt, Inspect) !in p.fails && (lt, Unpause) in p.fails
    && c !in s.frozen && !Holds(s, c, if lt == Cpu then Disk else Cpu)
  }

  /** Enforcing lt on c: one flag, one pause or one stop, if the call works. */
  lemma EnforceLaw(s: Sys, c: ContainerId, lt: LimitType, p: Probe)
    ensures var s' := Enforce(s, c, lt, p); var acts := Enforceable(lt, p);
            && s'.enforced == (if acts then s.enforced + {(c, lt)} else s.enforced)
            && s'.paused == (if acts && (lt == Cpu || lt == Disk) then s.paused + {c} else s.paused)
            && s'.running == (if acts && IsByteSecond(lt) then s.running - {c} else s.running)
            && s'.db == s.db && s'.proxy == s.proxy && s'.frozen == s.frozen && s'.workers == s.workers
            && s'.scopeEnforced == s.scopeEnforced
  {
  }

  lemma ReleaseLaw(s: Sys, c: ContainerId, lt: LimitType, p: Probe)
    ensures var s' := Release(s, c, lt, p);
            var cleared := if lt == Cpu || lt == Disk then !Stuck(s, c, lt, p) else Undoable(lt, p);
            && s'.enforced == (if cleared then s.enforced - {(c, lt)} else s.enforced)
            && s'.running == s.running && s'.db == s.db && s'.proxy == s.proxy && s'.frozen == s.frozen
            && s'.workers == s.workers && s'.scopeEnforced == s.scopeEnforced
  {
  }

  // ----- What a tick reads -----

  /** The usage of a metered type, as the meters show it. CPU time is read in microseconds and kept in whole seconds;
      the network row is what somebody else wrote; spending is the tracker's. */
  predicate Shows(s: Sys, c: ContainerId, lt: LimitType, p: Probe, u: int)
  {
    match lt
    case Cpu => p.cgroup && Cpu in p.readings && TruncatedSeconds(p.readings[Cpu], u)
    case Ram => p.cgroup && Ram in p.readings && u == p.readings[Ram]
    case Disk => Disk in p.readings && u == p.readings[Disk]
    case Net => p.cgroup && u == Val(s.db.usage, (c, Net))
    case DiskIoBytes => p.cgroup && DiskIoBytes in p.readings && u == p.readings[DiskIoBytes]
    case DiskIoOps => p.cgroup && DiskIoOps in p.readings && u == p.readings[DiskIoOps]
    case Spending => P.GetSpending(s.proxy, c) == u
    case _ => false
  }

  /** u whole seconds are contained in that many microseconds. */
  predicate TruncatedSeconds(micros: int, u: int)
  {
    if micros >= 0 then u * 1_000_000 <= micros < (u + 1) * 1_000_000
    else (u - 1) * 1_000_000 < micros <= u * 1_000_000
  }

  lemma ReadingLaw(s: Sys, c: ContainerId, lt: LimitType, p: Probe)
    ensures match CurrentUsage(s, c, lt, p)
            case Some(u) => Shows(s, c, lt, p, u)
            case None => forall u :: !Shows(s, c, lt, p, u)
  {
  }

  lemma ShowsOnce(s: Sys, c: ContainerId, lt: LimitType, p: Probe, u: int, v: int)
    requires Shows(s, c, lt, p, u) && Shows(s, c, lt, p, v)
    ensures u == v
  {
  }

  /** What a byte-second counter gains in a second: the RAM or the disk in use, or the RAM or disk limit. */
  lemma SampleLaw(s: Sys, c: ContainerId, p: Probe)
    ensures Sample(s, c, RamRequestBsec, p) == Val(s.db.limits, (c, Ram))
    ensures Sample(s, c, DiskRequestBsec, p) == Val(s.db.limits, (c, Disk))
    ensures Sample(s, c, RamUsageBsec, p) ==
            if p.cgroup && RamUsageBsec in p.readings then p.readings[RamUsageBsec] else 0
    ensures Sample(s, c, DiskUsageBsec, p) == if DiskUsageBsec in p.readings then p.readings[DiskUsageBsec] else 0
  {
  }

  // ----- One type inside the loop -----

  lemma TypePlace(lt: LimitType) returns (k: nat)
    requires !lt.Other?
    ensures k < |ALL_LIMIT_TYPES| && ALL_LIMIT_TYPES[k] == lt
    ensures forall i | 0 <= i < |ALL_LIMIT_TYPES| && i != k :: ALL_LIMIT_TYPES[i] != lt
  {
    B.AllTypesDistinct();
    k := match lt
      case Cpu => 0
      case Ram => 1
      case Disk => 2
      case Net => 3
      case DiskIoBytes => 4
      case DiskIoOps => 5
      case Spending => 6
      case RamUsageBsec => 7
      case DiskUsageBsec => 8
      case RamRequestBsec => 9
      case DiskRequestBsec => 10;
  }

  /** What the turn of a type does to its row and, for types that do not pause, to its flag. */
  lemma TurnLaw(s: Sys, c: ContainerId, lt: LimitType, slept: bool, p: Probe)
    requires c !in s.frozen
    ensures var s', limited := CheckOne(s, c, lt, slept, p), Val(s.db.limits, (c, lt)) != 0;
            && (IsByteSecond(lt) ==>
                  Val(s'.db.usage, (c, lt)) ==
                  Val(s.db.usage, (c, lt)) +
                    (if limited && !Flagged(s, c, lt) && !slept then Sample(s, c, lt, p) else 0))
            && (!IsByteSecond(lt) && limited ==> forall u | Shows(s, c, lt, p, u) :: Val(s'.db.usage, (c, lt)) == u)
            && (!IsByteSecond(lt) && (!limited || forall u :: !Shows(s, c, lt, p, u)) ==> s' == s)
            && (!limited ==> s' == s)
  {
    ReadingLaw(s, c, lt, p);
    if CurrentUsage(s, c, lt, p).Some? {
      forall u | Shows(s, c, lt, p, u) ensures u == CurrentUsage(s, c, lt, p).value {
        ShowsOnce(s, c, lt, p, u, CurrentUsage(s, c, lt, p).value);
      }
    }
    var db := Metered(s, c, lt, slept, p);
    if db.Some? {
      DecideKeepsDb(s.(db := db.value), c, lt, Val(db.value.usage, (c, lt)) >= Val(s.db.limits, (c, lt)), p);
    }
    hide CurrentUsage, Shows, Sample, Decide;
  }

  lemma DecideKeepsDb(s: Sys, c: ContainerId, lt: LimitType, exceeded: bool, p: Probe)
    ensures Decide(s, c, lt, exceeded, p).db == s.db
  {
    EnforceLaw(s, c, lt, p);
    ReleaseLaw(s, c, lt, p);
    hide Enforce, Release;
  }

  lemma TurnFlagLaw(s: Sys, c: ContainerId, lt: LimitType, slept: bool, p: Probe)
    requires !IsPauseType(lt) && Val(s.db.limits, (c, lt)) != 0 && Metered(s, c, lt, slept, p).Some?
    ensures var s' := CheckOne(s, c, lt, slept, p);
            Flagged(s', c, lt) <==>
              if Val(s'.db.usage, (c, lt)) >= Val(s.db.limits, (c, lt)) then Flagged(s, c, lt) || Enforceable(lt, p)
              else Flagged(s, c, lt) && !Undoable(lt, p)
  {
    var s1 := s.(db := Metered(s, c, lt, slept, p).value);
    var exceeded := Val(s1.db.usage, (c, lt)) >= Val(s.db.limits, (c, lt));
    EnforceLaw(s1, c, lt, p);
    ReleaseLaw(s1, c, lt, p);
    DecideKeepsDb(s1, c, lt, exceeded, p);
    assert Flagged(s1, c, lt) <==> Flagged(s, c, lt);
    hide Enforce, Release, Metered, Enforceable, Undoable, HeldFor;
  }

  // ----- A whole tick -----

  /** A worker whose container is frozen, stopped or cannot be inspected does nothing at all. */
  lemma IdleTick(s: Sys, c: ContainerId, slept: bool, p: Probe)
    requires c in s.frozen || !p.alive || c !in s.running
    ensures Check(s, c, slept, p) == s
  {
  }

  /** Up to its turn a type meets what the tick began with; after its turn nobody touches it. */
  lemma TurnInTick(s: Sys, c: ContainerId, lt: LimitType, slept: bool, p: Probe) returns (before: Sys)
    requires T.Looks(s, c, p) && !lt.Other?
    ensures before.frozen == s.frozen && before.db.limits == s.db.limits && before.proxy == s.proxy
    ensures Val(before.db.usage, (c, lt)) == Val(s.db.usage, (c, lt)) && (Flagged(before, c, lt) <==> Flagged(s, c, lt))
    ensures var turned, s' := CheckOne(before, c, lt, slept, p), Check(s, c, slept, p);
            && (Flagged(s', c, lt) <==> Flagged(turned, c, lt))
            && Val(s'.db.usage, (c, lt)) ==
               if lt == Spending && P.GetSpending(s.proxy, c) > 0 then P.GetSpending(s.proxy, c)
               else Val(turned.db.usage, (c, lt))
  {
    var n := |ALL_LIMIT_TYPES|;
    var k := TypePlace(lt);
    before := CheckFirst(s, c, slept, p, k);
    B.FirstElsewhere(s, c, slept, p, 0, k, c, lt);
    B.FirstElsewhere(s, c, slept, p, k + 1, n, c, lt);
    CheckFirstKeeps(s, c, slept, p, k);
    CheckFirstKeeps(s, c, slept, p, n);
    assert CheckFirst(s, c, slept, p, 0) == s;
    assert CheckFirst(s, c, slept, p, k + 1) == CheckOne(before, c, lt, slept, p);
    hide CheckFirst, CheckOne, TickKeeps, P.GetSpending;
  }

  lemma SameShows(s: Sys, s': Sys, c: ContainerId, lt: LimitType, p: Probe, u: int)
    requires s'.proxy == s.proxy && Val(s'.db.usage, (c, lt)) == Val(s.db.usage, (c, lt))
    ensures Shows(s', c, lt, p, u) <==> Shows(s, c, lt, p, u)
  {
  }

  /** The usage rows of c after a tick: meters are written for limited types, counters gain their sample while they are
      limited, unflagged and awake, and spending follows the tracker. */
  lemma TickRowLaw(s: Sys, c: ContainerId, lt: LimitType, slept: bool, p: Probe)
    requires T.Looks(s, c, p) && !lt.Other?
    ensures var was, now := Val(s.db.usage, (c, lt)), Val(Check(s, c, slept, p).db.usage, (c, lt));
            var limited := Val(s.db.limits, (c, lt)) != 0;
            && (IsByteSecond(lt) && limited && !Flagged(s, c, lt) && !slept ==> now == was + Sample(s, c, lt, p))
            && (IsByteSecond(lt) && !(limited && !Flagged(s, c, lt) && !slept) ==> now == was)
            && (lt == Spending && (limited || P.GetSpending(s.proxy, c) > 0) ==> now == P.GetSpending(s.proxy, c))
            && (!IsByteSecond(lt) && limited ==> forall u | Shows(s, c, lt, p, u) :: now == u)
            && (!IsByteSecond(lt) && lt != Spending && (!limited || forall u :: !Shows(s, c, lt, p, u)) ==> now == was)
  {
    var before := TurnInTick(s, c, lt, slept, p);
    TurnLaw(before, c, lt, slept, p);
    B.SampleDepends(s, before, c, lt, p);
    forall u ensures Shows(before, c, lt, p, u) <==> Shows(s, c, lt, p, u) {
      SameShows(s, before, c, lt, p, u);
    }
    if lt == Spending {
      assert Shows(s, c, lt, p, P.GetSpending(s.proxy, c));
    }
    hide Check, CheckOne, Sample, P.GetSpending, Shows;
  }

  /** Nobody else's rows, and no rows of other kinds, move in a tick. */
  lemma TickOtherRows(s: Sys, c: ContainerId, slept: bool, p: Probe, d: ContainerId, lt: LimitType)
    requires d != c || lt.Other?
    ensures Val(Check(s, c, slept, p).db.usage, (d, lt)) == Val(s.db.usage, (d, lt))
    ensures Flagged(Check(s, c, slept, p), d, lt) <==> Flagged(s, d, lt)
  {
    var n := |ALL_LIMIT_TYPES|;
    B.FirstElsewhere(s, c, slept, p, 0, n, d, lt);
    assert CheckFirst(s, c, slept, p, 0) == s;
    hide CheckFirst, P.GetSpending;
  }

  /** The flag of a type that does not pause, after a tick: set when the usage written reaches the limit and the call
      works, cleared when it does not and the call that undoes it works; untouched without a limit or a reading. */
  lemma TickFlagLaw(s: Sys, c: ContainerId, lt: LimitType, slept: bool, p: Probe)
    requires T.Looks(s, c, p) && !IsPauseType(lt) && !lt.Other?
    ensures var s', limit := Check(s, c, slept, p), Val(s.db.limits, (c, lt));
            var looked := limit != 0 && (IsByteSecond(lt) || exists u :: Shows(s, c, lt, p, u));
            Flagged(s', c, lt) <==>
              if !looked then Flagged(s, c, lt)
              else if Val(s'.db.usage, (c, lt)) >= limit then Flagged(s, c, lt) || Enforceable(lt, p)
              else Flagged(s, c, lt) && !Undoable(lt, p)
  {
    var limit := Val(s.db.limits, (c, lt));
    var before := TurnInTick(s, c, lt, slept, p);
    ReadingLaw(before, c, lt, p);
    forall u ensures Shows(before, c, lt, p, u) <==> Shows(s, c, lt, p, u) {
      SameShows(s, before, c, lt, p, u);
    }
    MeteredIff(before, c, lt, slept, p);
    if limit != 0 && Metered(before, c, lt, slept, p).Some? {
      TurnFlagLaw(before, c, lt, slept, p);
      SpendingTurn(before, c, slept, p);
    } else {
      TurnLaw(before, c, lt, slept, p);
    }
    hide Check, CheckOne, Metered, P.GetSpending, Shows, CurrentUsage, Enforceable, Undoable;
  }

  lemma MeteredIff(s: Sys, c: ContainerId, lt: LimitType, slept: bool, p: Probe)
    ensures Metered(s, c, lt, slept, p).Some? <==> IsByteSecond(lt) || CurrentUsage(s, c, lt, p).Some?
  {
    hide CurrentUsage, Sample;
  }

  lemma SpendingTurn(s: Sys, c: ContainerId, slept: bool, p: Probe)
    requires c !in s.frozen
    ensures Val(s.db.limits, (c, Spending)) != 0 ==>
              Val(CheckOne(s, c, Spending, slept, p).db.usage, (c, Spending)) == P.GetSpending(s.proxy, c)
  {
    TurnLaw(s, c, Spending, slept, p);
    assert Shows(s, c, Spending, p, P.GetSpending(s.proxy, c));
    hide CheckOne, P.GetSpending;
  }

  // ----- Who is stopped -----

  /** The counter of lt is limited, has not stopped c yet, reaches the limit with the sample due, and Docker will stop c. */
  predicate StopDue(s: Sys, c: ContainerId, lt: LimitType, slept: bool, p: Probe)
  {
    && (lt.RamUsageBsec? || lt.DiskUsageBsec? || lt.RamRequestBsec? || lt.DiskRequestBsec?)
    && Val(s.db.limits, (c, lt)) != 0 && !Flagged(s, c, lt) && (lt, Stop) !in p.fails
    && Val(s.db.usage, (c, lt)) + (if slept then 0 else Sample(s, c, lt, p)) >= Val(s.db.limits, (c, lt))
  }

  lemma TurnStops(s: Sys, c: ContainerId, lt: LimitType, slept: bool, p: Probe)
    requires c !in s.frozen
    ensures CheckOne(s, c, lt, slept, p).running == if StopDue(s, c, lt, slept, p) then s.running - {c} else s.running
  {
    var db := Metered(s, c, lt, slept, p);
    if db.Some? {
      var s1 := s.(db := db.value);
      EnforceLaw(s1, c, lt, p);
      ReleaseLaw(s1, c, lt, p);
    }
    hide Enforce, Release, CurrentUsage, Sample, HeldFor, Stuck;
  }

  lemma SameStopDue(s: Sys, s': Sys, c: ContainerId, lt: LimitType, slept: bool, p: Probe)
    requires B.SameInputs(s, s', c, lt)
    ensures StopDue(s', c, lt, slept, p) <==> StopDue(s, c, lt, slept, p)
  {
    B.SampleDepends(s, s', c, lt, p);
    hide Sample;
  }

  /** The turn of the n-th type stops c exactly when its counter was due at the beginning of the tick. */
  lemma NthTurnStops(s: Sys, c: ContainerId, slept: bool, p: Probe, n: nat)
    requires n < |ALL_LIMIT_TYPES| && c !in s.frozen
    ensures CheckFirst(s, c, slept, p, n + 1).running ==
            if StopDue(s, c, ALL_LIMIT_TYPES[n], slept, p) then CheckFirst(s, c, slept, p, n).running - {c}
            else CheckFirst(s, c, slept, p, n).running
  {
    var front, lt := CheckFirst(s, c, slept, p, n), ALL_LIMIT_TYPES[n];
    assert CheckFirst(s, c, slept, p, 0) == s;
    assert CheckFirst(s, c, slept, p, n + 1) == CheckOne(front, c, lt, slept, p);
    hide CheckFirst, CheckOne, StopDue;
    B.AllTypesDistinct();
    B.FirstElsewhere(s, c, slept, p, 0, n, c, lt);
    SameStopDue(s, front, c, lt, slept, p);
    TurnStops(front, c, lt, slept, p);
  }

  predicate DueAmong(s: Sys, c: ContainerId, slept: bool, p: Probe, n: nat)
    requires n <= |ALL_LIMIT_TYPES|
  {
    exists i | 0 <= i < n :: StopDue(s, c, ALL_LIMIT_TYPES[i], slept, p)
  }

  lemma DueNext(s: Sys, c: ContainerId, slept: bool, p: Probe, n: nat)
    requires n < |ALL_LIMIT_TYPES|
    ensures DueAmong(s, c, slept, p, n + 1) <==>
              DueAmong(s, c, slept, p, n) || StopDue(s, c, ALL_LIMIT_TYPES[n], slept, p)
  {
    hide StopDue;
  }

  lemma {:induction false} FirstStops(s: Sys, c: ContainerId, slept: bool, p: Probe, n: nat)
    requires n <= |ALL_LIMIT_TYPES| && c !in s.frozen
    ensures CheckFirst(s, c, slept, p, n).running ==
            if DueAmong(s, c, slept, p, n) then s.running - {c} else s.running
  {
    if n == 0 {
      assert CheckFirst(s, c, slept, p, 0) == s;
    } else {
      hide CheckFirst, StopDue, DueAmong, ALL_LIMIT_TYPES;
      FirstStops(s, c, slept, p, n - 1);
      NthTurnStops(s, c, slept, p, n - 1);
      DueNext(s, c, slept, p, n - 1);
    }
  }

  /** A tick stops its own container exactly when some byte-second counter is due, and never another one. */
  lemma TickStopsIff(s: Sys, c: ContainerId, slept: bool, p: Probe, d: ContainerId)
    requires T.Looks(s, c, p)
    ensures d in s.running && d !in Check(s, c, slept, p).running <==>
              d == c && exists lt :: StopDue(s, c, lt, slept, p)
    ensures Check(s, c, slept, p).running <= s.running
  {
    var n := |ALL_LIMIT_TYPES|;
    FirstStops(s, c, slept, p, n);
    DueSomewhere(s, c, slept, p);
    assert Check(s, c, slept, p).running == CheckFirst(s, c, slept, p, n).running;
    hide CheckFirst, StopDue, DueAmong, Check;
  }

  lemma DueSomewhere(s: Sys, c: ContainerId, slept: bool, p: Probe)
    ensures DueAmong(s, c, slept, p, |ALL_LIMIT_TYPES|) <==> exists lt :: StopDue(s, c, lt, slept, p)
  {
    if exists lt :: StopDue(s, c, lt, slept, p) {
      var lt :| StopDue(s, c, lt, slept, p);
      var k := TypePlace(lt);
      assert StopDue(s, c, ALL_LIMIT_TYPES[k], slept, p);
    }
    hide StopDue;
  }

  // ----- The members of a scope -----

  /** A member that can be reached now. */
  predicate Member(s: Sys, cs: seq<ContainerId>, ps: Probes, d: ContainerId)
  {
    d in cs && d in s.running && d in ps && ps[d].alive
  }

  lemma EnforceOneLaw(s: Sys, c: ContainerId, lt: LimitType, p: Probe, d: ContainerId)
    ensures var s', acts := Enforce(s, c, lt, p), d == c && Enforceable(lt, p);
            && (Flagged(s', d, lt) <==> Flagged(s, d, lt) || acts)
            && (d in s'.running <==> d in s.running && !(acts && IsByteSecond(lt)))
            && (forall t | t != lt :: Flagged(s', d, t) <==> Flagged(s, d, t))
  {
    EnforceLaw(s, c, lt, p);
    hide Enforce, Enforceable;
  }

  lemma {:induction false} EnforceEachLaw(s: Sys, cs: seq<ContainerId>, lt: LimitType, ps: Probes, d: ContainerId)
    ensures var s', acts := EnforceEach(s, cs, lt, ps), Member(s, cs, ps, d) && Enforceable(lt, ps[d]);
            && (Flagged(s', d, lt) <==> Flagged(s, d, lt) || acts)
            && (d in s'.running <==> d in s.running && !(acts && IsByteSecond(lt)))
            && (forall t | t != lt :: Flagged(s', d, t) <==> Flagged(s, d, t))
  {
    if cs != [] {
      hide Enforce, Enforceable, Flagged;
      var front, c := cs[..|cs|-1], cs[|cs|-1];
      assert cs == front + [c];
      EnforceEachLaw(s, front, lt, ps, d);
      var s1 := EnforceEach(s, front, lt, ps);
      if Reached(s1, c, ps) {
        EnforceOneLaw(s1, c, lt, ps[c], d);
      }
    }
  }

  /** A scope that goes over its limit flags and, for byte-seconds, stops exactly the members it can reach and Docker
      acts on, and nobody else. */
  lemma ScopeStopsIff(s: Sys, scope: Scope, lt: LimitType, exceeded: bool, cs: seq<ContainerId>, ps: Probes, d: ContainerId)
    ensures var s' := ScopeOne(s, scope, lt, exceeded, cs, ps);
            var acts := exceeded && (scope, lt) !in s.scopeEnforced && Member(s, cs, ps, d) && Enforceable(lt, ps[d]);
            && (d in s'.running <==> d in s.running && !(acts && IsByteSecond(lt)))
            && (exceeded ==> (Flagged(s', d, lt) <==> Flagged(s, d, lt) || acts))
            && (forall t | t != lt :: Flagged(s', d, t) <==> Flagged(s, d, t))
  {
    EnforceEachLaw(s, cs, lt, ps, d);
    ReleaseEachLaw(Cleared(s, scope, lt), cs, lt, ps, d);
    hide EnforceEach, ReleaseEach, Enforceable, Member;
  }

  lemma {:induction false} ReleaseEachLaw(s: Sys, cs: seq<ContainerId>, lt: LimitType, ps: Probes, d: ContainerId)
    ensures var s' := ReleaseEach(s, cs, lt, ps);
            && s'.running == s.running
            && (forall t | t != lt :: Flagged(s', d, t) <==> Flagged(s, d, t))
            && (!IsPauseType(lt) ==>
                  (Flagged(s', d, lt) <==> Flagged(s, d, lt) && !(Member(s, cs, ps, d) && Undoable(lt, ps[d]))))
  {
    if cs != [] {
      var front, c := cs[..|cs|-1], cs[|cs|-1];
      assert cs == front + [c];
      ReleaseEachLaw(s, front, lt, ps, d);
      var s1 := ReleaseEach(s, front, lt, ps);
      if Reached(s1, c, ps) {
        ReleaseLaw(s1, c, lt, ps[c]);
      }
      hide Release, Undoable, Stuck;
    }
  }

  /** A scope back under its limit clears the flag of the members it can reach and whose enforcement it can undo. */
  lemma ScopeReleasesIff(s: Sys, scope: Scope, lt: LimitType, cs: seq<ContainerId>, ps: Probes, d: ContainerId)
    requires !IsPauseType(lt)
    ensures var s' := ScopeOne(s, scope, lt, false, cs, ps);
            Flagged(s', d, lt) <==>
              Flagged(s, d, lt) && !((scope, lt) in s.scopeEnforced && Member(s, cs, ps, d) && Undoable(lt, ps[d]))
  {
    ReleaseEachLaw(Cleared(s, scope, lt), cs, lt, ps, d);
    hide ReleaseEach, Undoable;
  }

  // ----- Stopped until somebody starts it -----

  /** A container flagged for byte-seconds does not run. */
  ghost predicate StoppedOk(s: Sys, c: ContainerId)
  {
    forall lt | IsByteSecond(lt) && Flagged(s, c, lt) :: c !in s.running
  }

  lemma TickStoppedOk(s: Sys, step: Step, c: ContainerId)
    requires StoppedOk(s, c) && step.Tick?
    ensures StoppedOk(Apply(s, step), c)
  {
    var s' := Apply(s, step);
    var d, p := step.c, step.p;
    if d in s.workers && T.Looks(s, d, p) {
      forall lt | IsByteSecond(lt) && Flagged(s', c, lt) ensures c !in s'.running {
        TickStopsIff(s, d, step.slept, p, c);
        if d == c {
          NewFlagStops(s, c, lt, step.slept, p);
        } else {
          TickOtherRows(s, d, step.slept, p, c, lt);
        }
      }
    } else {
      hide CheckFirst;
    }
    hide Check;
  }

  /** A byte-second flag that a tick leaves set was there before, or the tick stopped the container for it. */
  lemma NewFlagStops(s: Sys, c: ContainerId, lt: LimitType, slept: bool, p: Probe)
    requires T.Looks(s, c, p) && IsByteSecond(lt) && Flagged(Check(s, c, slept, p), c, lt)
    ensures Flagged(s, c, lt) || StopDue(s, c, lt, slept, p)
  {
    TickFlagLaw(s, c, lt, slept, p);
    TickRowLaw(s, c, lt, slept, p);
    hide Check, Sample;
  }

  lemma {:induction false} ScopeCheckStoppedOk(s: Sys, scope: Scope, order: seq<LimitType>, totals: map<LimitType, int>,
                                               cs: seq<ContainerId>, ps: Probes, c: ContainerId)
    requires StoppedOk(s, c)
    ensures StoppedOk(ScopeCheck(s, scope, order, totals, cs, ps), c)
  {
    if order != [] {
      var front, lt := order[..|order|-1], order[|order|-1];
      ScopeCheckStoppedOk(s, scope, front, totals, cs, ps, c);
      var s1, limit := ScopeCheck(s, scope, front, totals, cs, ps), Val(s.db.scopeLimits, (scope, lt));
      var exceeded := Val(totals, lt) >= limit;
      if limit != 0 {
        ScopeOneStoppedOk(s1, scope, lt, exceeded, cs, ps, c);
      }
      hide ScopeOne, StoppedOk;
    }
  }

  lemma ScopeOneStoppedOk(s: Sys, scope: Scope, lt: LimitType, exceeded: bool, cs: seq<ContainerId>, ps: Probes,
                          c: ContainerId)
    requires StoppedOk(s, c)
    ensures StoppedOk(ScopeOne(s, scope, lt, exceeded, cs, ps), c)
  {
    ScopeStopsIff(s, scope, lt, exceeded, cs, ps, c);
    if !exceeded && IsByteSecond(lt) {
      ScopeReleasesIff(s, scope, lt, cs, ps, c);
    }
    hide ScopeOne, Member, Enforceable, Undoable;
  }

  lemma StepStoppedOk(s: Sys, step: Step, c: ContainerId)
    requires StoppedOk(s, c) && step != StartByUser(c)
    ensures StoppedOk(Apply(s, step), c)
  {
    match step
    case Tick(_, _, _) => TickStoppedOk(s, step, c); hide Apply, StoppedOk;
    case ScopeTick(scope, order, totals, cs, ps) =>
      ScopeCheckStoppedOk(s, scope, order, totals, cs, ps, c);
      hide ScopeCheck, StoppedOk;
    case _ =>
      FewerFlags(s, step, c);
      hide Apply;
  }

  lemma FewerFlags(s: Sys, step: Step, c: ContainerId)
    requires !step.Tick? && !step.ScopeTick? && step != StartByUser(c)
    ensures forall lt | Flagged(Apply(s, step), c, lt) :: Flagged(s, c, lt)
    ensures c in Apply(s, step).running ==> c in s.running
  {
    hide Check, ScopeCheck, RemoveContainer, CopyLimits, PauseHeld, WithoutScope;
  }

  /** Over every run: a container stopped for a byte-second limit stays stopped as long as the flag is set, until
      somebody starts it. */
  lemma {:induction false} StoppedUntilStarted(s: Sys, steps: seq<Step>, c: ContainerId)
    requires StoppedOk(s, c) && forall i | 0 <= i < |steps| :: steps[i] != StartByUser(c)
    ensures StoppedOk(After(s, steps), c)
    decreases |steps|
  {
    if steps != [] {
      hide StoppedOk, Apply;
      StepStoppedOk(s, steps[0], c);
      StoppedUntilStarted(Apply(s, steps[0]), steps[1..], c);
    }
  }

  // ----- Freezing -----

  /** Freeze, completely: who is frozen and paused, what is stored, and the answer. */
  lemma FreezeLaw(s: Sys, c: ContainerId, fails: set<Call>)
    ensures var (s', answer) := Freeze(s, c, fails);
            var freezes := c in s.workers && c !in s.frozen && Pause !in fails;
            && (answer == NotTracked <==> c !in s.workers)
            && (answer == DockerError <==> c in s.workers && c !in s.frozen && Pause in fails)
            && (answer == Done <==> c in s.workers && (c in s.frozen || Pause !in fails))
            && (forall d :: d in s'.frozen <==> d in s.frozen || (d == c && freezes))
            && (forall d :: d in s'.paused <==> d in s.paused || (d == c && freezes))
            && (forall d :: d in s'.db.containers <==> d in s.db.containers)
            && (forall d | d in s.db.containers ::
                  s'.db.containers[d] == Row(s.db.containers[d].segment,
                                             s.db.containers[d].frozen || (d == c && freezes)))
            && s'.running == s.running && s'.enforced == s.enforced && s'.workers == s.workers
  {
  }

  /** Unfreeze, completely. The freeze always ends; the pause ends with it exactly when no level holds the container for
      CPU or disk, and Docker shows the pause and lifts it. */
  lemma UnfreezeLaw(s: Sys, c: ContainerId, fails: set<Call>)
    requires c in s.workers && c in s.frozen
    ensures var (s', answer) := Unfreeze(s, c, fails);
            var held := Holds(s, c, Cpu) || Holds(s, c, Disk);
            && (forall d :: d in s'.frozen <==> d in s.frozen && d != c)
            && (forall d :: d in s'.paused <==>
                  d in s.paused && !(d == c && !held && Inspect !in fails && Unpause !in fails))
            && (forall d :: d in s'.db.containers <==> d in s.db.containers)
            && (forall d | d in s.db.containers ::
                  s'.db.containers[d] == Row(s.db.containers[d].segment, s.db.containers[d].frozen && d != c))
            && (answer == StillEnforced <==> held)
            && (answer == DockerError <==> !held && c in s.paused && Inspect !in fails && Unpause in fails)
            && answer != NotTracked
            && s'.running == s.running && s'.enforced == s.enforced && s'.workers == s.workers
  {
    var thawed := s.(db := SetFrozen(s.db, c, false), frozen := s.frozen - {c});
    HoldsLaw(thawed, c, Cpu);
    HoldsLaw(thawed, c, Disk);
    assert Holds(thawed, c, Cpu) == Holds(s, c, Cpu) && Holds(thawed, c, Disk) == Holds(s, c, Disk);
    hide Holds, HeldFor;
  }

  /** Nothing to end: untracked or unfrozen containers are left alone. */
  lemma UnfreezeOther(s: Sys, c: ContainerId, fails: set<Call>)
    requires c !in s.workers || c !in s.frozen
    ensures Unfreeze(s, c, fails) == (s, if c in s.workers then Done else NotTracked)
  {
  }

  /** Freezing and unfreezing a tracked, unfrozen container ends with it unpaused exactly when nothing holds it for CPU or
      disk and Docker obeys; held, it stays paused. Whatever was paused besides is paused still. */
  lemma FreezeUnfreeze(s: Sys, c: ContainerId, fails: set<Call>)
    requires c in s.workers && c !in s.frozen
    ensures var frozen := Freeze(s, c, {}).0;
            var s' := Unfreeze(frozen, c, fails).0;
            var held := Holds(s, c, Cpu) || Holds(s, c, Disk);
            && c in frozen.frozen && c in frozen.paused
            && c !in s'.frozen
            && (c !in s'.paused <==> !held && Inspect !in fails && Unpause !in fails)
            && (forall d | d != c :: (d in s'.paused <==> d in s.paused) && (d in s'.frozen <==> d in s.frozen))
  {
    FreezeLaw(s, c, {});
    var frozen := Freeze(s, c, {}).0;
    assert Holds(frozen, c, Cpu) == Holds(s, c, Cpu) && Holds(frozen, c, Disk) == Holds(s, c, Disk);
    hide Freeze, Unfreeze;
    UnfreezeLaw(frozen, c, fails);
  }

  // ----- Workers -----

  /** A worker starts once, without flags and with the stored frozen state, and ends without leaving any of it. */
  lemma WorkerLaw(s: Sys, c: ContainerId, d: ContainerId, lt: LimitType)
    ensures var s' := StartContainer(s, c);
            && (d in s'.workers <==> d in s.workers || d == c)
            && (Flagged(s', d, lt) <==> Flagged(s, d, lt) && (d != c || c in s.workers))
            && (d in s'.frozen <==> if d == c && c !in s.workers then RowFrozen(s.db, c) else d in s.frozen)
    ensures var s' := StopContainer(s, c);
            && (d in s'.workers <==> d in s.workers && d != c)
            && (Flagged(s', d, lt) <==> Flagged(s, d, lt) && (d != c || c !in s.workers))
            && (d in s'.frozen <==> d in s.frozen && (d != c || c !in s.workers))
  {
  }

  /** A restart forgets every flag and block, keeps what Docker shows, and takes freezes and workers from the store. */
  lemma RestartLaw(s: Sys, c: ContainerId, scope: Scope, lt: LimitType)
    ensures var s' := Restart(s);
            && (c in s'.workers <==> c in s.db.containers) && (c in s'.frozen <==> RowFrozen(s.db, c))
            && !Flagged(s', c, lt) && (scope, lt) !in s'.scopeEnforced && !P.Flag(s'.proxy.blocked, scope)
            && s'.running == s.running && s'.paused == s.paused && s'.db == s.db
  {
  }

  /** Removed and registered again, a container has no flag, no freeze, no limit, no usage and no spending; Docker shows
      what it showed. */
  lemma RemovedAndBackIsClean(s: Sys, c: ContainerId, lt: LimitType)
    requires c in s.workers
    ensures var s' := Apply(Apply(s, Remove(c)), Register(c));
            && c in s'.workers && c !in s'.frozen && !Flagged(s', c, lt)
            && Val(s'.db.limits, (c, lt)) == 0 && Val(s'.db.usage, (c, lt)) == 0 && P.GetSpending(s'.proxy, c) == 0
            && (c in s'.paused <==> c in s.paused) && (c in s'.running <==> c in s.running)
  {
    hide AccumulateFirst, Check, ScopeCheck;
  }

  /** What a step of the manager asks of the store, besides what ticks write. */
  function StoreOps(s: Sys, step: Step): seq<S.Op>
  {
    match step
    case Register(c) => [S.Op.Register(c)]
    case Remove(c) => [S.Op.Remove(c)]
    case Clone(from, to) =>
      if from in s.db.containers && to !in s.db.containers then [S.Op.Register(to), S.Op.Copy(from, to)] else []
    case Limit(c, lt, v) => [S.Op.Limit(c, lt, v)]
    case ScopeLimit(scope, lt, v) => [S.Op.ScopeLimit(scope, lt, v)]
    case AssignTo(c, g) => [S.Op.AssignTo(c, g)]
    case UnassignFrom(c, g) => [S.Op.UnassignFrom(c, g)]
    case NewSegment(g) => [S.Op.NewSegment(g)]
    case DropSegment(g) => [S.Op.DropSegment(g)]
    case FreezeStep(c, fails) =>
      if c in s.workers && c !in s.frozen && Pause !in fails then [S.Op.Freeze(c, true)] else []
    case UnfreezeStep(c, _) => if c in s.workers && c in s.frozen then [S.Op.Freeze(c, false)] else []
    case Charge(c, micro) =>
      [S.Op.Use(c, Spending, TruncDiv(Val(s.proxy.spending, c) + micro, 1_000))]
    case _ => []
  }

  lemma OneOp(db: Db, op: S.Op)
    ensures S.DoAll(db, [op]) == S.Do(db, op)
  {
    assert [op][..0] == [];
  }

  lemma TwoOps(db: Db, a: S.Op, b: S.Op)
    ensures S.DoAll(db, [a, b]) == S.Do(S.Do(db, a), b)
  {
    assert [a, b][..1] == [a];
    OneOp(db, a);
    hide S.Do;
  }

  lemma CloneDb(s: Sys, from: ContainerId, to: ContainerId)
    ensures Apply(s, Clone(from, to)).db ==
            if from in s.db.containers && to !in s.db.containers then CopyLimits(RegisterContainer(s.db, to), from, to)
            else s.db
  {
    hide CopyLimits, RegisterContainer, Flags, Check, ScopeCheck;
  }

  lemma RegisterThenCopy(db: Db, from: ContainerId, to: ContainerId)
    ensures S.DoAll(db, [S.Op.Register(to), S.Op.Copy(from, to)]) == CopyLimits(RegisterContainer(db, to), from, to)
  {
    TwoOps(db, S.Op.Register(to), S.Op.Copy(from, to));
    hide S.DoAll, CopyLimits, RegisterContainer;
  }

  lemma CloneIsStoreOps(s: Sys, from: ContainerId, to: ContainerId)
    ensures Apply(s, Clone(from, to)).db == S.DoAll(s.db, StoreOps(s, Clone(from, to)))
  {
    hide Apply, CopyLimits, RegisterContainer, S.Do;
    CloneDb(s, from, to);
    RegisterThenCopy(s.db, from, to);
    assert S.DoAll(s.db, []) == s.db;
    hide S.DoAll;
  }

  lemma SettingIsStoreOps(s: Sys, step: Step)
    requires step.Limit? || step.ScopeLimit? || step.NewSegment? || step.DropSegment? || step.Charge?
    ensures Apply(s, step).db == S.DoAll(s.db, StoreOps(s, step))
  {
    match step
    case Limit(c, lt, v) => OneOp(s.db, S.Op.Limit(c, lt, v));
    case ScopeLimit(scope, lt, v) => OneOp(s.db, S.Op.ScopeLimit(scope, lt, v));
    case NewSegment(g) => OneOp(s.db, S.Op.NewSegment(g));
    case DropSegment(g) => OneOp(s.db, S.Op.DropSegment(g));
    case Charge(c, micro) => OneOp(s.db, S.Op.Use(c, Spending, TruncDiv(Val(s.proxy.spending, c) + micro, 1_000)));
    hide S.DoAll, Check, ScopeCheck, RemoveContainer, CopyLimits, Freeze, Unfreeze, CreateSegment, DeleteSegment;
  }

  lemma RowIsStoreOps(s: Sys, step: Step)
    requires step.AssignTo? || step.UnassignFrom? || step.FreezeStep? || step.UnfreezeStep?
    ensures Apply(s, step).db == S.DoAll(s.db, StoreOps(s, step))
  {
    match step
    case AssignTo(c, g) => OneOp(s.db, S.Op.AssignTo(c, g));
    case UnassignFrom(c, g) => OneOp(s.db, S.Op.UnassignFrom(c, g));
    case FreezeStep(c, _) => OneOp(s.db, S.Op.Freeze(c, true));
    case UnfreezeStep(c, _) => OneOp(s.db, S.Op.Freeze(c, false));
    hide Check, ScopeCheck, RemoveContainer, CopyLimits, PauseHeld, Assign, Unassign, SetFrozen;
  }

  /** The manager and the store run together: the database after a step that is no tick is what its operations make. */
  lemma StepIsStoreOps(s: Sys, step: Step)
    requires !step.Tick? && !step.ScopeTick?
    ensures Apply(s, step).db == S.DoAll(s.db, StoreOps(s, step))
  {
    match step
    case Register(c) => OneOp(s.db, S.Op.Register(c)); hide S.DoAll;
    case Remove(c) => OneOp(s.db, S.Op.Remove(c)); hide S.DoAll, RemoveContainer;
    case Clone(from, to) => CloneIsStoreOps(s, from, to); hide Apply, StoreOps;
    case Limit(_, _, _) => SettingIsStoreOps(s, step); hide Apply, StoreOps;
    case ScopeLimit(_, _, _) => SettingIsStoreOps(s, step); hide Apply, StoreOps;
    case NewSegment(_) => SettingIsStoreOps(s, step); hide Apply, StoreOps;
    case DropSegment(_) => SettingIsStoreOps(s, step); hide Apply, StoreOps;
    case Charge(_, _) => SettingIsStoreOps(s, step); hide Apply, StoreOps;
    case AssignTo(_, _) => RowIsStoreOps(s, step); hide Apply, StoreOps;
    case UnassignFrom(_, _) => RowIsStoreOps(s, step); hide Apply, StoreOps;
    case FreezeStep(_, _) => RowIsStoreOps(s, step); hide Apply, StoreOps;
    case UnfreezeStep(_, _) => RowIsStoreOps(s, step); hide Apply, StoreOps;
    case RestartDaemon =>
    case StartByUser(_) =>
  }
}
