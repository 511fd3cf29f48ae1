/** One tick of a worker and one tick of a scope, exactly: what becomes of flags and the pause bit. */
module EnforcementTicks {
  import opened Model
  import opened StoreState
  import opened EnforcementState
  import opened EnforcementRuns
  import P = SpendingState
  import StoreTotals

  // ----- The pause bit after a tick -----

  /** What the pause of c depends on. */
  predicate SamePause(s: Sys, s': Sys, c: ContainerId)
  {
    && s'.frozen == s.frozen && s'.scopeEnforced == s.scopeEnforced
    && s'.db.containers == s.db.containers && s'.db.limits == s.db.limits
    && (c in s'.paused <==> c in s.paused)
    && (Flagged(s', c, Cpu) <==> Flagged(s, c, Cpu)) && (Flagged(s', c, Disk) <==> Flagged(s, c, Disk))
  }

  lemma OtherTypesLeavePause(s: Sys, c: ContainerId, lt: LimitType, slept: bool, p: Probe)
    requires !IsPauseType(lt)
    ensures SamePause(s, CheckOne(s, c, lt, slept, p), c)
  {
    hide Metered, EnforcingCall, ReleasingCall, OtherPauseActive;
    MeteredKeeps(s, c, lt, slept, p);
  }

  lemma MeteredKeeps(s: Sys, c: ContainerId, lt: LimitType, slept: bool, p: Probe)
    ensures Metered(s, c, lt, slept, p).Some? ==>
              Metered(s, c, lt, slept, p).value == s.db.(usage := Metered(s, c, lt, slept, p).value.usage)
  {
  }

  /** What a tick finds out about a type: nothing when it has no limit or cannot be read. */
  datatype Verdict = Skipped | Over | Under

  function VerdictOf(s: Sys, c: ContainerId, lt: LimitType, p: Probe): Verdict
  {
    var limit, usage := Val(s.db.limits, (c, lt)), CurrentUsage(s, c, lt, p);
    if limit == 0 || usage.None? then Skipped else if usage.value >= limit then Over else Under
  }

  /** Docker shows a pause and lifts it when asked. */
  predicate Obeys(p: Probe, lt: LimitType)
  {
    Works(p, lt, Inspect) && Works(p, lt, Unpause)
  }

  /** The flag of a pause type after its turn; `held` says that something else needs the pause. */
  predicate FlagAfter(v: Verdict, lt: LimitType, p: Probe, flagged: bool, paused: bool, held: bool)
  {
    match v
    case Skipped => flagged
    case Over => flagged || Works(p, lt, Pause)
    case Under => flagged && paused && !held && Works(p, lt, Inspect) && !Works(p, lt, Unpause)
  }

  predicate PausedAfter(v: Verdict, lt: LimitType, p: Probe, flagged: bool, paused: bool, held: bool)
  {
    match v
    case Skipped => paused
    case Over => paused || (!flagged && Works(p, lt, Pause))
    case Under => paused && (held || !Obeys(p, lt))
  }

  /** One pause type, whatever its limit, its reading and Docker's answers. */
  lemma CheckPauseType(s: Sys, c: ContainerId, lt: LimitType, slept: bool, p: Probe)
    requires IsPauseType(lt)
    ensures var s', other := CheckOne(s, c, lt, slept, p), OtherPauseType(lt);
            var v, flagged, paused, held :=
              VerdictOf(s, c, lt, p), Flagged(s, c, lt), c in s.paused, OtherPauseActive(s, c, lt);
            && (Flagged(s', c, lt) <==> FlagAfter(v, lt, p, flagged, paused, held))
            && (c in s'.paused <==> PausedAfter(v, lt, p, flagged, paused, held))
            && (Flagged(s', c, other) <==> Flagged(s, c, other))
            && s'.frozen == s.frozen && s'.scopeEnforced == s.scopeEnforced
            && s'.db.containers == s.db.containers && s'.db.limits == s.db.limits
  {
    var v := VerdictOf(s, c, lt, p);
    if v != Skipped {
      var s1 := s.(db := SetUsage(s.db, c, lt, CurrentUsage(s, c, lt, p).value));
      assert CheckOne(s, c, lt, slept, p) == Decide(s1, c, lt, v.Over?, p);
      hide CheckOne, Metered, CurrentUsage, VerdictOf;
      DecidePause(s1, c, lt, v.Over?, p);
      assert OtherPauseActive(s1, c, lt) <==> OtherPauseActive(s, c, lt);
    }
  }

  lemma DecidePause(s: Sys, c: ContainerId, lt: LimitType, exceeded: bool, p: Probe)
    requires IsPauseType(lt)
    ensures var s', v := Decide(s, c, lt, exceeded, p), if exceeded then Over else Under;
            var flagged, paused, held := Flagged(s, c, lt), c in s.paused, OtherPauseActive(s, c, lt);
            && (Flagged(s', c, lt) <==> FlagAfter(v, lt, p, flagged, paused, held))
            && (c in s'.paused <==> PausedAfter(v, lt, p, flagged, paused, held))
            && (Flagged(s', c, OtherPauseType(lt)) <==> Flagged(s, c, OtherPauseType(lt)))
            && s'.frozen == s.frozen && s'.scopeEnforced == s.scopeEnforced && s'.db == s.db
  {
    hide OtherPauseActive;
  }

  lemma SamePauseTrans(a: Sys, b: Sys, d: Sys, c: ContainerId)
    requires SamePause(a, b, c) && SamePause(b, d, c)
    ensures SamePause(a, d, c)
  {
  }

  lemma LaterTypeLeavesPause(s: Sys, c: ContainerId, slept: bool, p: Probe, n: nat)
    requires 3 <= n < |ALL_LIMIT_TYPES|
    ensures SamePause(CheckFirst(s, c, slept, p, n), CheckFirst(s, c, slept, p, n + 1), c)
  {
    var front, lt := CheckFirst(s, c, slept, p, n), ALL_LIMIT_TYPES[n];
    assert !IsPauseType(lt);
    assert CheckFirst(s, c, slept, p, n + 1) == CheckOne(front, c, lt, slept, p);
    hide CheckFirst, CheckOne, SamePause;
    OtherTypesLeavePause(front, c, lt, slept, p);
  }

  /** After the disk check no type of the loop touches the pause. */
  lemma {:induction false} RestLeavesPause(s: Sys, c: ContainerId, slept: bool, p: Probe, n: nat)
    requires 3 <= n <= |ALL_LIMIT_TYPES|
    ensures SamePause(CheckFirst(s, c, slept, p, 3), CheckFirst(s, c, slept, p, n), c)
  {
    if n > 3 {
      hide CheckFirst, SamePause;
      RestLeavesPause(s, c, slept, p, n - 1);
      LaterTypeLeavesPause(s, c, slept, p, n - 1);
      SamePauseTrans(CheckFirst(s, c, slept, p, 3), CheckFirst(s, c, slept, p, n - 1), CheckFirst(s, c, slept, p, n), c);
    } else {
      hide CheckFirst;
    }
  }

  lemma SyncLeavesPause(s: Sys, c: ContainerId)
    ensures SamePause(s, SyncSpending(s, c), c)
  {
  }

  /** The worker of c runs its loop. */
  predicate Looks(s: Sys, c: ContainerId, p: Probe)
  {
    c !in s.frozen && p.alive && c in s.running
  }

  lemma FirstThree(s: Sys, c: ContainerId, slept: bool, p: Probe)
    ensures var s1 := CheckOne(s, c, Cpu, slept, p);
            var s2 := CheckOne(s1, c, Ram, slept, p);
            CheckFirst(s, c, slept, p, 3) == CheckOne(s2, c, Disk, slept, p)
  {
    hide CheckOne;
    assert ALL_LIMIT_TYPES[0] == Cpu && ALL_LIMIT_TYPES[1] == Ram && ALL_LIMIT_TYPES[2] == Disk;
    assert CheckFirst(s, c, slept, p, 0) == s;
    assert CheckFirst(s, c, slept, p, 1) == CheckOne(s, c, Cpu, slept, p);
    assert CheckFirst(s, c, slept, p, 2) == CheckOne(CheckOne(s, c, Cpu, slept, p), c, Ram, slept, p);
  }

  /** What the CPU turn leaves for the disk turn: the pause, and whether CPU still needs it. */
  predicate PausedAfterCpu(s: Sys, c: ContainerId, p: Probe)
  {
    PausedAfter(VerdictOf(s, c, Cpu, p), Cpu, p, Flagged(s, c, Cpu), c in s.paused, HeldFor(s, c, Disk))
  }

  predicate FlaggedAfterCpu(s: Sys, c: ContainerId, p: Probe)
  {
    FlagAfter(VerdictOf(s, c, Cpu, p), Cpu, p, Flagged(s, c, Cpu), c in s.paused, HeldFor(s, c, Disk))
  }

  predicate HeldForCpuAfter(s: Sys, c: ContainerId, p: Probe)
  {
    FlaggedAfterCpu(s, c, p) || ScopeHolds(s, c, Cpu)
  }

  /** A tick, exactly: what its loop over eleven types does to flags and pause is one CPU turn and one disk turn. */
  lemma TickExact(s: Sys, c: ContainerId, slept: bool, p: Probe)
    requires Looks(s, c, p)
    ensures var s', disk := Check(s, c, slept, p), VerdictOf(s, c, Disk, p);
            var flagged, paused, held := Flagged(s, c, Disk), PausedAfterCpu(s, c, p), HeldForCpuAfter(s, c, p);
            && (Flagged(s', c, Cpu) <==> FlaggedAfterCpu(s, c, p))
            && (Flagged(s', c, Disk) <==> FlagAfter(disk, Disk, p, flagged, paused, held))
            && (c in s'.paused <==> PausedAfter(disk, Disk, p, flagged, paused, held))
  {
    var n := |ALL_LIMIT_TYPES|;
    var s1 := CheckOne(s, c, Cpu, slept, p);
    var s2 := CheckOne(s1, c, Ram, slept, p);
    CheckPauseType(s, c, Cpu, slept, p);
    OtherTypesLeavePause(s1, c, Ram, slept, p);
    hide CheckOne;
    CheckPauseType(s2, c, Disk, slept, p);
    assert VerdictOf(s2, c, Disk, p) == VerdictOf(s, c, Disk, p);
    hide VerdictOf, FlagAfter, PausedAfter;
    FirstThree(s, c, slept, p);
    RestLeavesPause(s, c, slept, p, n);
    SyncLeavesPause(CheckFirst(s, c, slept, p, n), c);
    hide CheckFirst, SyncSpending;
  }

  /** Docker does what it is asked for both pause types, and so far every flag came with a pause. */
  predicate PauseCallsWork(p: Probe)
  {
    Works(p, Cpu, Pause) && Obeys(p, Cpu) && Works(p, Disk, Pause) && Obeys(p, Disk)
  }

  predicate FlagsArePauses(s: Sys, c: ContainerId)
  {
    Flagged(s, c, Cpu) || Flagged(s, c, Disk) ==> c in s.paused
  }

  /**
   From flags lost in a restart and any pause left behind. Without scopes, one tick restores the truth -
   paused exactly when a limit is exceeded - exactly when there was nothing to undo, or the tick looks at some
   pause type and no type it skips is flagged.
   */
  lemma RestartSelfStabilises(s: Sys, c: ContainerId, slept: bool, p: Probe)
    requires Looks(s, c, p) && PauseCallsWork(p) && FlagsArePauses(s, c)
    requires !ScopeHolds(s, c, Cpu) && !ScopeHolds(s, c, Disk)
    ensures var s', cpu, disk := Check(s, c, slept, p), VerdictOf(s, c, Cpu, p), VerdictOf(s, c, Disk, p);
            && (cpu != Skipped ==> (Flagged(s', c, Cpu) <==> cpu.Over?))
            && (disk != Skipped ==> (Flagged(s', c, Disk) <==> disk.Over?))
            && ((c in s'.paused <==> cpu.Over? || disk.Over?) <==>
                  || cpu.Over? || disk.Over? || c !in s.paused
                  || (!(cpu.Skipped? && disk.Skipped?)
                      && (cpu.Skipped? ==> !Flagged(s, c, Cpu)) && (disk.Skipped? ==> !Flagged(s, c, Disk))))
  {
    TickExact(s, c, slept, p);
    hide Check, VerdictOf;
  }

  /**
   The documentation keeps a container paused until every level releases it. A tick does, exactly, as follows.
   The CPU turn lifts the pause when usage is under the limit, nothing holds disk and Docker obeys. The disk turn
   lifts it when usage is under the limit, CPU is neither held by a scope nor flagged any more and Docker obeys;
   a new disk flag restores it.
   */
  lemma TickKeepsScopePauseIff(s: Sys, c: ContainerId, slept: bool, p: Probe)
    requires Looks(s, c, p) && c in s.paused
    ensures var cpu, disk := VerdictOf(s, c, Cpu, p), VerdictOf(s, c, Disk, p);
            var cpuKeeps := !(cpu.Under? && !HeldFor(s, c, Disk) && Obeys(p, Cpu));
            var cpuFlagged := if cpu.Under? then Flagged(s, c, Cpu) && !HeldFor(s, c, Disk) && Works(p, Cpu, Inspect)
                                                 && !Works(p, Cpu, Unpause)
                              else Flagged(s, c, Cpu) || (cpu.Over? && Works(p, Cpu, Pause));
            c in Check(s, c, slept, p).paused <==>
              if disk.Over? then cpuKeeps || (!Flagged(s, c, Disk) && Works(p, Disk, Pause))
              else cpuKeeps && !(disk.Under? && !ScopeHolds(s, c, Cpu) && !cpuFlagged && Obeys(p, Disk))
  {
    TickExact(s, c, slept, p);
    hide Check, VerdictOf;
  }

  /** Container 0 is paused because the host is over its CPU limit; its own limits are far away. */
  const HELD_BY_HOST := Sys(
    EMPTY_DB.(containers := map[0 := Row(None, false)], limits := map[(0, Cpu) := 100, (0, Disk) := 100]),
    P.NEW_TRACKER, {0}, {0}, {0}, {(0, Cpu)}, {}, {(Host, Cpu)})

  const QUIET := Probe(true, true, map[Cpu := 0, Disk := 0], {})

  /** Its own worker unpauses it on the next tick, with the host still flagged. */
  lemma ScopePauseIsLost()
    ensures var s' := Check(HELD_BY_HOST, 0, false, QUIET);
            Inv(HELD_BY_HOST) && (Host, Cpu) in s'.scopeEnforced && 0 !in s'.paused
  {
    TickKeepsScopePauseIff(HELD_BY_HOST, 0, false, QUIET);
    CheckKeeps(HELD_BY_HOST, 0, false, QUIET);
    hide Check, TickKeeps;
  }

  lemma {:induction false} UnlimitedLeavesPause(s: Sys, c: ContainerId, slept: bool, p: Probe, n: nat)
    requires n <= |ALL_LIMIT_TYPES| && Val(s.db.limits, (c, Cpu)) == 0 && Val(s.db.limits, (c, Disk)) == 0
    ensures SamePause(s, CheckFirst(s, c, slept, p, n), c)
  {
    if n > 0 {
      UnlimitedLeavesPause(s, c, slept, p, n - 1);
      var front, lt := CheckFirst(s, c, slept, p, n - 1), ALL_LIMIT_TYPES[n-1];
      if IsPauseType(lt) {
        assert CheckOne(front, c, lt, slept, p) == front;
      } else {
        OtherTypesLeavePause(front, c, lt, slept, p);
      }
      hide CheckOne;
      SamePauseTrans(s, front, CheckFirst(s, c, slept, p, n), c);
    }
  }

  /** Taking both limits away leaves an enforced container paused and flagged: ticks no longer look at it. */
  lemma RemovedLimitsReleaseNothing(s: Sys, c: ContainerId, slept: bool, p: Probe)
    requires Val(s.db.limits, (c, Cpu)) == 0 && Val(s.db.limits, (c, Disk)) == 0
    ensures SamePause(s, Check(s, c, slept, p), c)
  {
    UnlimitedLeavesPause(s, c, slept, p, |ALL_LIMIT_TYPES|);
    SyncLeavesPause(CheckFirst(s, c, slept, p, |ALL_LIMIT_TYPES|), c);
    hide CheckFirst, SyncSpending;
  }

  // ----- The pause bit after a tick of a scope -----

  /** A scope under its limit lifts the pause of d: it was flagged, d is a running member that is not frozen,
      no level holds d for the other pause type, and Docker obeys. Other levels holding it for the same type
      do not matter. */
  predicate Lifts(s: Sys, scope: Scope, lt: LimitType, exceeded: bool, cs: seq<ContainerId>, ps: Probes, d: ContainerId)
  {
    && !exceeded && (scope, lt) in s.scopeEnforced && IsPauseType(lt)
    && d in cs && Reached(s, d, ps) && Obeys(ps[d], lt)
    && d !in s.frozen && !HeldFor(s, d, OtherPauseType(lt))
  }

  /** A scope over its limit pauses d. */
  predicate Imposes(s: Sys, scope: Scope, lt: LimitType, exceeded: bool, cs: seq<ContainerId>, ps: Probes, d: ContainerId)
  {
    && exceeded && (scope, lt) !in s.scopeEnforced && IsPauseType(lt)
    && d in cs && Reached(s, d, ps) && Works(ps[d], lt, Pause)
  }

  /** What releasing d depends on besides the pause itself. */
  predicate SameHold(s: Sys, s': Sys, d: ContainerId, lt: LimitType)
  {
    && s'.running == s.running && s'.frozen == s.frozen
    && (HeldFor(s', d, OtherPauseType(lt)) <==> HeldFor(s, d, OtherPauseType(lt)))
  }

  lemma {:induction false} ReleaseEachUnpausesIff(s: Sys, cs: seq<ContainerId>, lt: LimitType, ps: Probes, d: ContainerId)
    requires IsPauseType(lt)
    ensures var s' := ReleaseEach(s, cs, lt, ps);
            && SameHold(s, s', d, lt)
            && (d in s'.paused <==>
                  && d in s.paused
                  && !(d in cs && Reached(s, d, ps) && Obeys(ps[d], lt)
                       && d !in s.frozen && !HeldFor(s, d, OtherPauseType(lt))))
  {
    if cs != [] {
      var front, c := cs[..|cs|-1], cs[|cs|-1];
      assert cs == front + [c];
      ReleaseEachUnpausesIff(s, front, lt, ps, d);
      var s1 := ReleaseEach(s, front, lt, ps);
      if Reached(s1, c, ps) {
        ReleaseOneUnpausesIff(s1, c, lt, ps[c], d);
      }
      hide Release, HeldFor;
    }
  }

  lemma ReleaseOneUnpausesIff(s: Sys, c: ContainerId, lt: LimitType, p: Probe, d: ContainerId)
    requires IsPauseType(lt)
    ensures SameHold(s, Release(s, c, lt, p), d, lt)
    ensures d in Release(s, c, lt, p).paused <==>
              && d in s.paused
              && !(d == c && Obeys(p, lt) && d !in s.frozen && !HeldFor(s, d, OtherPauseType(lt)))
  {
  }

  lemma {:induction false} EnforceEachPausesIff(s: Sys, cs: seq<ContainerId>, lt: LimitType, ps: Probes, d: ContainerId)
    requires IsPauseType(lt)
    ensures EnforceEach(s, cs, lt, ps).running == s.running
    ensures d in EnforceEach(s, cs, lt, ps).paused <==>
              d in s.paused || (d in cs && Reached(s, d, ps) && Works(ps[d], lt, Pause))
  {
    if cs != [] {
      var front, c := cs[..|cs|-1], cs[|cs|-1];
      assert cs == front + [c];
      EnforceEachPausesIff(s, front, lt, ps, d);
    }
  }

  lemma {:induction false} EachLeavesPause(s: Sys, cs: seq<ContainerId>, lt: LimitType, ps: Probes)
    requires !IsPauseType(lt)
    ensures EnforceEach(s, cs, lt, ps).paused == s.paused && ReleaseEach(s, cs, lt, ps).paused == s.paused
  {
    if cs != [] {
      EachLeavesPause(s, cs[..|cs|-1], lt, ps);
    }
  }

  /** One type of a scope, exactly: a pause is lifted or imposed under just these conditions. */
  lemma ScopeOnePauseIff(s: Sys, scope: Scope, lt: LimitType, exceeded: bool, cs: seq<ContainerId>, ps: Probes,
                         d: ContainerId)
    ensures d in ScopeOne(s, scope, lt, exceeded, cs, ps).paused <==>
              if d in s.paused then !Lifts(s, scope, lt, exceeded, cs, ps, d)
              else Imposes(s, scope, lt, exceeded, cs, ps, d)
  {
    var cleared := Cleared(s, scope, lt);
    if IsPauseType(lt) {
      EnforceEachPausesIff(s, cs, lt, ps, d);
      ReleaseEachUnpausesIff(cleared, cs, lt, ps, d);
      assert HeldFor(cleared, d, OtherPauseType(lt)) <==> HeldFor(s, d, OtherPauseType(lt));
    } else {
      EachLeavesPause(s, cs, lt, ps);
      EachLeavesPause(cleared, cs, lt, ps);
    }
    hide EnforceEach, ReleaseEach, HeldFor;
  }

  /** The documentation pauses every member of a scope that goes over its CPU, network or disk I/O limit. With every
      member reached and Docker obeying, all are paused exactly when the type is CPU or disk, or they were before. */
  lemma ScopePausesMembersIff(s: Sys, scope: Scope, lt: LimitType, cs: seq<ContainerId>, ps: Probes)
    requires (scope, lt) !in s.scopeEnforced
    requires forall d | d in cs :: Reached(s, d, ps) && Works(ps[d], lt, Pause)
    ensures (forall d | d in cs :: d in ScopeOne(s, scope, lt, true, cs, ps).paused) <==>
              IsPauseType(lt) || forall d | d in cs :: d in s.paused
  {
    forall d | d in cs
      ensures d in ScopeOne(s, scope, lt, true, cs, ps).paused <==> d in s.paused || IsPauseType(lt)
    {
      ScopeOnePauseIff(s, scope, lt, true, cs, ps, d);
    }
    hide ScopeOne, Reached;
  }

  /** Container 0 in segment 1, which has a network limit of 5 and has used 9. */
  const CHATTY := Sys(
    EMPTY_DB.(containers := map[0 := Row(Some(1), false)], segments := {1}, usage := map[(0, Net) := 9],
              scopeLimits := map[(Segment(1), Net) := 5]),
    P.NEW_TRACKER, {0}, {}, {0}, {}, {}, {})

  lemma ChattyTotals()
    ensures FullScopeTick(CHATTY, Segment(1), [Net], map[Net := 9], [0])
  {
    forall lt ensures StoreTotals.Total(CHATTY.db, Segment(1), lt) == if lt == Net then 9 else 0 {
      assert ListByScope(CHATTY.db, Segment(1)) == {0} && {0} - {0} == {};
      StoreTotals.SumTake(CHATTY.db.usage, {0}, lt, 0);
    }
  }

  /** The tick flags the segment and its member, disconnects the network, and the member runs on unpaused. */
  lemma NetworkLimitPausesNobody()
    ensures Inv(CHATTY) && FullScopeTick(CHATTY, Segment(1), [Net], map[Net := 9], [0])
    ensures var s' := ScopeCheck(CHATTY, Segment(1), [Net], map[Net := 9], [0], map[0 := QUIET]);
            (Segment(1), Net) in s'.scopeEnforced && Flagged(s', 0, Net) && 0 in s'.running && 0 !in s'.paused
  {
    ChattyTotals();
    hide FullScopeTick;
    var none: seq<LimitType>, nobody: seq<ContainerId> := [], [];
    ScopeCheckNext(CHATTY, Segment(1), none, Net, map[Net := 9], [0], map[0 := QUIET]);
    assert none + [Net] == [Net];
    assert [0][..0] == nobody;
    assert EnforceEach(CHATTY, nobody, Net, map[0 := QUIET]) == CHATTY;
    ScopeOnePauseIff(CHATTY, Segment(1), Net, true, [0], map[0 := QUIET], 0);
  }

  /** The turn of order[k] in a scope tick: the state it meets, and whether it counts at all. */
  function Before(s: Sys, scope: Scope, order: seq<LimitType>, totals: map<LimitType, int>,
                  cs: seq<ContainerId>, ps: Probes, k: nat): Sys
    requires k <= |order|
  {
    ScopeCheck(s, scope, order[..k], totals, cs, ps)
  }

  predicate LiftsAt(s: Sys, scope: Scope, order: seq<LimitType>, totals: map<LimitType, int>,
                    cs: seq<ContainerId>, ps: Probes, d: ContainerId, k: nat)
    requires k < |order|
  {
    var limit := Val(s.db.scopeLimits, (scope, order[k]));
    limit != 0 && Lifts(Before(s, scope, order, totals, cs, ps, k), scope, order[k],
                        Val(totals, order[k]) >= limit, cs, ps, d)
  }

  predicate ImposesAt(s: Sys, scope: Scope, order: seq<LimitType>, totals: map<LimitType, int>,
                      cs: seq<ContainerId>, ps: Probes, d: ContainerId, k: nat)
    requires k < |order|
  {
    var limit := Val(s.db.scopeLimits, (scope, order[k]));
    limit != 0 && Imposes(Before(s, scope, order, totals, cs, ps, k), scope, order[k],
                          Val(totals, order[k]) >= limit, cs, ps, d)
  }

  lemma ScopeTurn(s: Sys, scope: Scope, order: seq<LimitType>, totals: map<LimitType, int>,
                  cs: seq<ContainerId>, ps: Probes, d: ContainerId, k: nat)
    requires k < |order|
    ensures d in Before(s, scope, order, totals, cs, ps, k + 1).paused <==>
              if d in Before(s, scope, order, totals, cs, ps, k).paused
              then !LiftsAt(s, scope, order, totals, cs, ps, d, k)
              else ImposesAt(s, scope, order, totals, cs, ps, d, k)
  {
    var lt := order[k];
    var limit := Val(s.db.scopeLimits, (scope, lt));
    assert order[..k+1] == order[..k] + [lt];
    ScopeCheckNext(s, scope, order[..k], lt, totals, cs, ps);
    ScopeOnePauseIff(Before(s, scope, order, totals, cs, ps, k), scope, lt, Val(totals, lt) >= limit, cs, ps, d);
    hide ScopeOne, ScopeCheck, Lifts, Imposes;
  }

  /** A whole scope tick drops the pause of d exactly when one of its turns lifts it and no later turn imposes it. */
  lemma {:induction false} ScopeTickUnpausesIff(s: Sys, scope: Scope, order: seq<LimitType>, totals: map<LimitType, int>,
                                                cs: seq<ContainerId>, ps: Probes, d: ContainerId, n: nat)
    requires d in s.paused && n <= |order|
    ensures d !in Before(s, scope, order, totals, cs, ps, n).paused <==>
              exists k: nat | k < n ::
                LiftsAt(s, scope, order, totals, cs, ps, d, k) &&
                forall j: nat | k < j < n :: !ImposesAt(s, scope, order, totals, cs, ps, d, j)
  {
    if n > 0 {
      ScopeTickUnpausesIff(s, scope, order, totals, cs, ps, d, n - 1);
      ScopeTurn(s, scope, order, totals, cs, ps, d, n - 1);
      hide LiftsAt, ImposesAt, Before;
    }
  }

  /** Container 0 in segment 1, both the segment and the host flagged for CPU; the segment is under its limit again. */
  const HELD_TWICE := Sys(
    EMPTY_DB.(containers := map[0 := Row(Some(1), false)], segments := {1}, scopeLimits := map[(Segment(1), Cpu) := 100]),
    P.NEW_TRACKER, {0}, {0}, {0}, {(0, Cpu)}, {}, {(Host, Cpu), (Segment(1), Cpu)})

  /** The segment's release unpauses it, with the host still flagged for the same type. */
  lemma HostPauseIsLostToSegment()
    ensures var s' := ScopeCheck(HELD_TWICE, Segment(1), [Cpu], map[], [0], map[0 := QUIET]);
            && Inv(HELD_TWICE) && FullScopeTick(HELD_TWICE, Segment(1), [Cpu], map[], [0])
            && (Host, Cpu) in s'.scopeEnforced && 0 !in s'.paused
  {
    var order, ps := [Cpu], map[0 := QUIET];
    assert order[..0] == [] && order[..1] == order;
    assert Before(HELD_TWICE, Segment(1), order, map[], [0], ps, 0) == HELD_TWICE;
    ScopeTurn(HELD_TWICE, Segment(1), order, map[], [0], ps, 0, 0);
    assert LiftsAt(HELD_TWICE, Segment(1), order, map[], [0], ps, 0, 0);
    ScopeCheckFlags(HELD_TWICE, Segment(1), order, map[], [0], ps);
    forall lt ensures StoreTotals.Total(HELD_TWICE.db, Segment(1), lt) == 0 {
      assert ListByScope(HELD_TWICE.db, Segment(1)) == {0} && {0} - {0} == {};
      StoreTotals.SumTake(HELD_TWICE.db.usage, {0}, lt, 0);
    }
    hide ScopeCheck, TickKeeps;
  }
}
