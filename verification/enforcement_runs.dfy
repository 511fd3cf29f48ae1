/** What holds over every run of the enforcement manager. */
module EnforcementRuns {
  import opened Model
  import opened StoreState
  import opened EnforcementState
  import P = SpendingState
  import StoreTotals

  // ----- The pause bit -----

  /** A running container that is frozen or flagged for a pause type is paused. */
  predicate PauseOk(s: Sys, c: ContainerId)
  {
    c in s.running && (c in s.frozen || Flagged(s, c, Cpu) || Flagged(s, c, Disk)) ==> c in s.paused
  }

  ghost predicate Inv(s: Sys)
  {
    && s.workers == s.db.containers.Keys
    && (forall c :: c in s.frozen <==> RowFrozen(s.db, c))
    && (forall c :: PauseOk(s, c))
  }

  /** s' differs from s in flags, Docker, usage and blocks only: what every tick keeps. */
  ghost predicate TickKeeps(s: Sys, s': Sys)
  {
    && s'.frozen == s.frozen && s'.workers == s.workers
    && s'.db == s.db.(usage := s'.db.usage)
    && (forall c :: PauseOk(s, c) ==> PauseOk(s', c))
    && s'.running <= s.running
    && (forall c | c in s.frozen && c in s.paused :: c in s'.paused)
  }

  lemma TickKeepsTrans(a: Sys, b: Sys, c: Sys)
    requires TickKeeps(a, b) && TickKeeps(b, c)
    ensures TickKeeps(a, c)
  {
  }

  lemma EnforceKeeps(s: Sys, c: ContainerId, lt: LimitType, p: Probe)
    ensures TickKeeps(s, Enforce(s, c, lt, p)) && Enforce(s, c, lt, p).scopeEnforced == s.scopeEnforced
    ensures Enforce(s, c, lt, p).db == s.db && Enforce(s, c, lt, p).proxy == s.proxy
  {
  }

  lemma ReleaseKeeps(s: Sys, c: ContainerId, lt: LimitType, p: Probe)
    ensures TickKeeps(s, Release(s, c, lt, p)) && Release(s, c, lt, p).scopeEnforced == s.scopeEnforced
    ensures Release(s, c, lt, p).db == s.db && Release(s, c, lt, p).proxy == s.proxy
  {
  }

  /** A release unpauses exactly when it sees the pause, nothing else needs it and Docker obeys. */
  lemma ReleaseUnpausesIff(s: Sys, c: ContainerId, lt: LimitType, p: Probe, d: ContainerId)
    requires IsPauseType(lt) && d in s.paused
    ensures d !in Release(s, c, lt, p).paused <==>
            && d == c && SeenPaused(s, c, lt, p) && Works(p, lt, Unpause)
            && c !in s.frozen && !HeldFor(s, c, if lt == Cpu then Disk else Cpu)
  {
  }

  lemma MeteredTickKeeps(s: Sys, c: ContainerId, lt: LimitType, slept: bool, p: Probe)
    ensures Metered(s, c, lt, slept, p).Some? ==> TickKeeps(s, s.(db := Metered(s, c, lt, slept, p).value))
  {
    hide CurrentUsage, Sample;
  }

  lemma DecideKeeps(s: Sys, c: ContainerId, lt: LimitType, exceeded: bool, p: Probe)
    ensures var s' := Decide(s, c, lt, exceeded, p);
            TickKeeps(s, s') && s'.scopeEnforced == s.scopeEnforced && s'.proxy == s.proxy
  {
    assert TickKeeps(s, s);
    EnforceKeeps(s, c, lt, p);
    ReleaseKeeps(s, c, lt, p);
    hide Enforce, Release, TickKeeps;
  }

  lemma CheckOneKeeps(s: Sys, c: ContainerId, lt: LimitType, slept: bool, p: Probe)
    ensures TickKeeps(s, CheckOne(s, c, lt, slept, p)) && CheckOne(s, c, lt, slept, p).scopeEnforced == s.scopeEnforced
    ensures CheckOne(s, c, lt, slept, p).proxy == s.proxy
  {
    assert TickKeeps(s, s);
    MeteredTickKeeps(s, c, lt, slept, p);
    hide Metered, TickKeeps, Decide;
    var db := Metered(s, c, lt, slept, p);
    if db.Some? {
      var s1 := s.(db := db.value);
      var exceeded := Val(s1.db.usage, (c, lt)) >= Val(s.db.limits, (c, lt));
      DecideKeeps(s1, c, lt, exceeded, p);
      TickKeepsTrans(s, s1, Decide(s1, c, lt, exceeded, p));
    }
  }

  lemma {:induction false} CheckFirstKeeps(s: Sys, c: ContainerId, slept: bool, p: Probe, n: nat)
    requires n <= |ALL_LIMIT_TYPES|
    ensures TickKeeps(s, CheckFirst(s, c, slept, p, n)) && CheckFirst(s, c, slept, p, n).scopeEnforced == s.scopeEnforced
    ensures CheckFirst(s, c, slept, p, n).proxy == s.proxy
  {
    if n > 0 {
      hide TickKeeps, CheckOne;
      var front := CheckFirst(s, c, slept, p, n - 1);
      CheckFirstKeeps(s, c, slept, p, n - 1);
      CheckOneKeeps(front, c, ALL_LIMIT_TYPES[n-1], slept, p);
      TickKeepsTrans(s, front, CheckFirst(s, c, slept, p, n));
    }
  }

  lemma CheckKeeps(s: Sys, c: ContainerId, slept: bool, p: Probe)
    ensures TickKeeps(s, Check(s, c, slept, p)) && Check(s, c, slept, p).scopeEnforced == s.scopeEnforced
    ensures Check(s, c, slept, p).proxy == s.proxy
  {
    var n := |ALL_LIMIT_TYPES|;
    var s1 := CheckFirst(s, c, slept, p, n);
    CheckFirstKeeps(s, c, slept, p, n);
    assert TickKeeps(s1, SyncSpending(s1, c));
    hide CheckFirst;
    TickKeepsTrans(s, s1, SyncSpending(s1, c));
  }

  lemma {:induction false} EnforceEachKeeps(s: Sys, cs: seq<ContainerId>, lt: LimitType, ps: Probes)
    ensures TickKeeps(s, EnforceEach(s, cs, lt, ps)) && EnforceEach(s, cs, lt, ps).scopeEnforced == s.scopeEnforced
    ensures EnforceEach(s, cs, lt, ps).db == s.db && EnforceEach(s, cs, lt, ps).proxy == s.proxy
  {
    if cs != [] {
      hide TickKeeps, Enforce;
      var s1, c := EnforceEach(s, cs[..|cs|-1], lt, ps), cs[|cs|-1];
      EnforceEachKeeps(s, cs[..|cs|-1], lt, ps);
      if Reached(s1, c, ps) {
        EnforceKeeps(s1, c, lt, ps[c]);
        TickKeepsTrans(s, s1, Enforce(s1, c, lt, ps[c]));
      }
    } else {
      assert EnforceEach(s, cs, lt, ps) == s;
    }
  }

  lemma {:induction false} ReleaseEachKeeps(s: Sys, cs: seq<ContainerId>, lt: LimitType, ps: Probes)
    ensures TickKeeps(s, ReleaseEach(s, cs, lt, ps)) && ReleaseEach(s, cs, lt, ps).scopeEnforced == s.scopeEnforced
    ensures ReleaseEach(s, cs, lt, ps).db == s.db && ReleaseEach(s, cs, lt, ps).proxy == s.proxy
  {
    if cs != [] {
      hide TickKeeps, Release;
      var s1, c := ReleaseEach(s, cs[..|cs|-1], lt, ps), cs[|cs|-1];
      ReleaseEachKeeps(s, cs[..|cs|-1], lt, ps);
      if Reached(s1, c, ps) {
        ReleaseKeeps(s1, c, lt, ps[c]);
        TickKeepsTrans(s, s1, Release(s1, c, lt, ps[c]));
      }
    } else {
      assert ReleaseEach(s, cs, lt, ps) == s;
    }
  }

  // ----- Scope flags -----

  /** The flags of a scope after looking at one type: that flag follows the verdict, no other moves. */
  lemma ScopeOneFlags(s: Sys, scope: Scope, lt: LimitType, exceeded: bool, cs: seq<ContainerId>, ps: Probes)
    ensures var s' := ScopeOne(s, scope, lt, exceeded, cs, ps);
            && TickKeeps(s, s')
            && s'.db == s.db
            && s'.scopeEnforced == if exceeded then s.scopeEnforced + {(scope, lt)} else s.scopeEnforced - {(scope, lt)}
  {
    if exceeded && (scope, lt) !in s.scopeEnforced {
      EnforceEachKeeps(s, cs, lt, ps);
      var s1 := EnforceEach(s, cs, lt, ps);
      assert TickKeeps(s1, ScopeEnforce(s, scope, lt, cs, ps));
      hide EnforceEach, TickKeeps;
      TickKeepsTrans(s, s1, ScopeEnforce(s, scope, lt, cs, ps));
    } else if !exceeded && (scope, lt) in s.scopeEnforced {
      var s1 := Block(s, scope, lt, false);
      var s2 := s1.(scopeEnforced := s1.scopeEnforced - {(scope, lt)});
      assert TickKeeps(s, s2);
      ReleaseEachKeeps(s2, cs, lt, ps);
      hide ReleaseEach, TickKeeps;
      TickKeepsTrans(s, s2, ReleaseEach(s2, cs, lt, ps));
    } else {
      assert TickKeeps(s, s);
    }
  }

  lemma {:induction false} ScopeCheckFlags(s: Sys, scope: Scope, order: seq<LimitType>, totals: map<LimitType, int>,
                                           cs: seq<ContainerId>, ps: Probes)
    ensures var s' := ScopeCheck(s, scope, order, totals, cs, ps);
            && TickKeeps(s, s') && s'.db == s.db
            && forall sc, lt :: (sc, lt) in s'.scopeEnforced <==>
                 (if sc == scope && lt in order && Val(s.db.scopeLimits, (sc, lt)) != 0
                  then Val(totals, lt) >= Val(s.db.scopeLimits, (sc, lt))
                  else (sc, lt) in s.scopeEnforced)
  {
    if order == [] {
      assert TickKeeps(s, s);
    } else {
      hide TickKeeps, ScopeOne;
      var front, lt := order[..|order|-1], order[|order|-1];
      assert order == front + [lt];
      ScopeCheckFlags(s, scope, front, totals, cs, ps);
      var s1 := ScopeCheck(s, scope, front, totals, cs, ps);
      var limit := Val(s.db.scopeLimits, (scope, lt));
      if limit != 0 {
        ScopeOneFlags(s1, scope, lt, Val(totals, lt) >= limit, cs, ps);
        TickKeepsTrans(s, s1, ScopeCheck(s, scope, order, totals, cs, ps));
      }
    }
  }

  /** A tick of a scope looks at every limited type, in some order, against the true totals of its members. */
  ghost predicate FullScopeTick(s: Sys, scope: Scope, order: seq<LimitType>, totals: map<LimitType, int>,
                                cs: seq<ContainerId>)
  {
    && (forall lt :: lt in order <==> (scope, lt) in s.db.scopeLimits)
    && (forall lt :: Val(totals, lt) == StoreTotals.Total(s.db, scope, lt))
    && (forall c :: c in cs <==> c in ListByScope(s.db, scope))
  }

  /** After it, and whatever Docker did, each limited type is flagged exactly when its total reaches the limit. */
  lemma ScopeConverges(s: Sys, scope: Scope, order: seq<LimitType>, totals: map<LimitType, int>,
                       cs: seq<ContainerId>, ps: Probes, lt: LimitType)
    requires FullScopeTick(s, scope, order, totals, cs) && Val(s.db.scopeLimits, (scope, lt)) != 0
    ensures var s' := ScopeCheck(s, scope, order, totals, cs, ps);
            (scope, lt) in s'.scopeEnforced <==>
              StoreTotals.Total(s'.db, scope, lt) >= Val(s'.db.scopeLimits, (scope, lt))
  {
    ScopeCheckFlags(s, scope, order, totals, cs, ps);
  }

  // ----- Every step -----

  /** Steps outside the assumptions: a second registration, and somebody else starting containers. */
  ghost predicate Allowed(s: Sys, step: Step)
  {
    && (step.Register? ==> step.c !in s.db.containers)
    && !step.StartByUser?
  }

  lemma TickInv(s: Sys, s': Sys)
    requires Inv(s) && TickKeeps(s, s')
    ensures Inv(s')
  {
    forall c ensures PauseOk(s', c) {
      assert PauseOk(s, c);
    }
  }

  lemma RegisterInv(s: Sys, c: ContainerId)
    requires Inv(s) && c !in s.db.containers
    ensures Inv(Apply(s, Register(c)))
  {
    var s' := Apply(s, Register(c));
    forall d ensures PauseOk(s', d) && (d in s'.frozen <==> RowFrozen(s'.db, d)) {
      assert PauseOk(s, d);
    }
  }

  lemma CloneInv(s: Sys, step: Step)
    requires Inv(s) && step.Clone?
    ensures Inv(Apply(s, step))
  {
    var s' := Apply(s, step);
    forall d ensures PauseOk(s', d) && (d in s'.frozen <==> RowFrozen(s'.db, d)) {
      assert PauseOk(s, d) && (d in s.frozen <==> RowFrozen(s.db, d));
    }
    hide CopyLimits;
  }

  lemma RemoveInv(s: Sys, c: ContainerId)
    requires Inv(s)
    ensures Inv(Apply(s, Remove(c)))
  {
    var s' := Apply(s, Remove(c));
    assert s'.db.containers == s.db.containers - {c};
    hide RemoveContainer;
    forall d ensures PauseOk(s', d) && (d in s'.frozen <==> RowFrozen(s'.db, d)) {
      assert PauseOk(s, d) && (d in s.frozen <==> RowFrozen(s.db, d));
    }
  }

  lemma FreezeInv(s: Sys, c: ContainerId, fails: set<Call>)
    requires Inv(s)
    ensures Inv(Freeze(s, c, fails).0)
  {
    var s' := Freeze(s, c, fails).0;
    forall d ensures PauseOk(s', d) && (d in s'.frozen <==> RowFrozen(s'.db, d)) {
      assert PauseOk(s, d) && (d in s.frozen <==> RowFrozen(s.db, d));
    }
  }

  lemma UnfreezeInv(s: Sys, c: ContainerId, fails: set<Call>)
    requires Inv(s)
    ensures Inv(Unfreeze(s, c, fails).0)
  {
    var s' := Unfreeze(s, c, fails).0;
    forall d ensures PauseOk(s', d) && (d in s'.frozen <==> RowFrozen(s'.db, d)) {
      assert PauseOk(s, d) && (d in s.frozen <==> RowFrozen(s.db, d));
    }
  }

  lemma RestartInv(s: Sys)
    requires Inv(s)
    ensures Inv(Restart(s))
  {
    forall d ensures PauseOk(Restart(s), d) {
      assert PauseOk(s, d) && (d in s.frozen <==> RowFrozen(s.db, d));
    }
  }

  lemma AssignInv(s: Sys, step: Step)
    requires Inv(s) && (step.AssignTo? || step.UnassignFrom?)
    ensures Inv(Apply(s, step))
  {
    var s' := Apply(s, step);
    forall d ensures PauseOk(s', d) && (d in s'.frozen <==> RowFrozen(s'.db, d)) {
      assert PauseOk(s, d) && (d in s.frozen <==> RowFrozen(s.db, d));
    }
  }

  lemma StepInv(s: Sys, step: Step)
    requires Inv(s) && Allowed(s, step)
    ensures Inv(Apply(s, step))
  {
    hide Inv, TickKeeps, Freeze, Unfreeze, Restart, Check, ScopeCheck, RemoveContainer;
    match step
    case Register(c) => RegisterInv(s, c);
    case Remove(c) => RemoveInv(s, c);
    case Clone(_, _) => CloneInv(s, step);
    case FreezeStep(c, fails) => FreezeInv(s, c, fails);
    case UnfreezeStep(c, fails) => UnfreezeInv(s, c, fails);
    case RestartDaemon => RestartInv(s);
    case AssignTo(_, _) => AssignInv(s, step);
    case UnassignFrom(_, _) => AssignInv(s, step);
    case Tick(c, slept, p) =>
      CheckKeeps(s, c, slept, p);
      if c in s.workers { TickInv(s, Check(s, c, slept, p)); }
    case ScopeTick(scope, order, totals, cs, ps) =>
      ScopeCheckFlags(s, scope, order, totals, cs, ps);
      TickInv(s, ScopeCheck(s, scope, order, totals, cs, ps));
    case _ => SettingInv(s, step);
  }

  lemma SettingInv(s: Sys, step: Step)
    requires Inv(s) && (step.Limit? || step.ScopeLimit? || step.NewSegment? || step.DropSegment? || step.Charge?)
    ensures Inv(Apply(s, step))
  {
    hide Check, ScopeCheck, Freeze, Unfreeze, WithoutScope, Members;
    var s' := Apply(s, step);
    forall d ensures PauseOk(s', d) && (d in s'.frozen <==> RowFrozen(s'.db, d)) {
      assert PauseOk(s, d) && (d in s.frozen <==> RowFrozen(s.db, d));
    }
  }

  ghost predicate Reaches(s: Sys, steps: seq<Step>, s': Sys)
    decreases |steps|
  {
    if steps == [] then s' == s
    else Allowed(s, steps[0]) && Reaches(Apply(s, steps[0]), steps[1..], s')
  }

  /** Over every run: a running container that is frozen or flagged for CPU or disk is paused. */
  lemma {:induction false} RunKeepsInv(s: Sys, steps: seq<Step>, s': Sys)
    requires Inv(s) && Reaches(s, steps, s')
    ensures Inv(s')
    decreases |steps|
  {
    if steps != [] {
      hide Inv, Apply, Allowed;
      StepInv(s, steps[0]);
      RunKeepsInv(Apply(s, steps[0]), steps[1..], s');
    }
  }

  /** So does every run of a daemon from its start, on any database and Docker state in which the frozen running
      containers are paused. */
  lemma DaemonKeepsPauses(s: Sys, steps: seq<Step>, s': Sys)
    requires forall c | RowFrozen(s.db, c) && c in s.running :: c in s.paused
    requires Reaches(Restart(s), steps, s')
    ensures Inv(s')
  {
    assert Inv(Restart(s));
    RunKeepsInv(Restart(s), steps, s');
  }

  // ----- Frozen containers -----

  lemma FrozenStep(s: Sys, step: Step, d: ContainerId)
    requires Inv(s) && Allowed(s, step) && d in s.frozen && d in s.paused
    requires !(step.UnfreezeStep? && step.c == d) && !(step.Remove? && step.c == d)
    ensures d in Apply(s, step).frozen && d in Apply(s, step).paused
  {
    assert RowFrozen(s.db, d);
    match step
    case Tick(c, slept, p) =>
      CheckKeeps(s, c, slept, p);
      hide Check;
    case ScopeTick(scope, order, totals, cs, ps) =>
      ScopeCheckFlags(s, scope, order, totals, cs, ps);
      hide ScopeCheck;
    case _ =>
      hide Check, ScopeCheck, RemoveContainer, SetLimit, SetScopeLimit, Assign, Unassign;
  }

  /** Nothing but an unfreeze or a removal ends a freeze: no tick, scope, limit change or restart
      unpauses a frozen container. */
  lemma {:induction false} FrozenStaysPaused(s: Sys, steps: seq<Step>, s': Sys, d: ContainerId)
    requires Inv(s) && Reaches(s, steps, s') && d in s.frozen && d in s.paused
    requires forall i | 0 <= i < |steps| ::
               !(steps[i].UnfreezeStep? && steps[i].c == d) && !(steps[i].Remove? && steps[i].c == d)
    ensures d in s'.frozen && d in s'.paused
    decreases |steps|
  {
    if steps != [] {
      hide Inv, Apply, Allowed;
      StepInv(s, steps[0]);
      FrozenStep(s, steps[0], d);
      FrozenStaysPaused(Apply(s, steps[0]), steps[1..], s', d);
    }
  }

  // ----- Between looking and acting -----

  /** What a release finds out before it acts. */
  predicate SeesReleasable(s: Sys, c: ContainerId, lt: LimitType, p: Probe)
  {
    SeenPaused(s, c, lt, p) && !OtherPauseActive(s, c, lt)
  }

  /** What it does when it found that, however much later. */
  function UnpauseNow(s: Sys, c: ContainerId, lt: LimitType): Sys
  {
    ClearFlag(s, c, lt).(paused := s.paused - {c})
  }

  lemma ReleaseLooksThenActs(s: Sys, c: ContainerId, lt: LimitType, p: Probe)
    requires IsPauseType(lt) && SeesReleasable(s, c, lt, p) && Works(p, lt, Unpause)
    ensures Release(s, c, lt, p) == UnpauseNow(s, c, lt)
  {
  }

  /** Nothing holds the manager's mutex in between. The unpause keeps the rule exactly when, at that moment, the
      container is stopped, or neither frozen nor flagged for the other pause type. */
  lemma UnpauseKeepsIff(s: Sys, c: ContainerId, lt: LimitType)
    requires Inv(s) && IsPauseType(lt)
    ensures Inv(UnpauseNow(s, c, lt)) <==>
              c !in s.running || (c !in s.frozen && !Flagged(s, c, OtherPauseType(lt)))
  {
    var s' := UnpauseNow(s, c, lt);
    forall d | d != c ensures PauseOk(s', d) {
      assert PauseOk(s, d);
    }
    assert forall d :: d in s'.frozen <==> RowFrozen(s'.db, d);
    if Inv(s') {
      assert PauseOk(s', c);
    }
  }

  /** Container 0 is paused for its CPU limit and under it again. */
  const UNDER_AGAIN := Sys(EMPTY_DB.(containers := map[0 := Row(None, false)], limits := map[(0, Cpu) := 100]),
                           P.NEW_TRACKER, {0}, {0}, {0}, {(0, Cpu)}, {}, {})

  /** The worker looks, the user freezes, the worker unpauses: the container is frozen and runs. */
  lemma FreezeRacesRelease()
    ensures var p, s := Probe(true, true, map[Cpu := 0], {}), Freeze(UNDER_AGAIN, 0, {}).0;
            && Inv(UNDER_AGAIN) && SeesReleasable(UNDER_AGAIN, 0, Cpu, p)
            && Release(UNDER_AGAIN, 0, Cpu, p) == UnpauseNow(UNDER_AGAIN, 0, Cpu)
            && Inv(s) && 0 in s.frozen
            && !Inv(UnpauseNow(s, 0, Cpu)) && 0 in UnpauseNow(s, 0, Cpu).frozen && 0 !in UnpauseNow(s, 0, Cpu).paused
  {
    assert Inv(UNDER_AGAIN);
    ReleaseLooksThenActs(UNDER_AGAIN, 0, Cpu, Probe(true, true, map[Cpu := 0], {}));
    FreezeInv(UNDER_AGAIN, 0, {});
    UnpauseKeepsIff(Freeze(UNDER_AGAIN, 0, {}).0, 0, Cpu);
  }

  // ----- Unpausing -----

  function OtherPauseType(lt: LimitType): LimitType
  {
    if lt == Cpu then Disk else Cpu
  }

  /** In this state a release for lt may let d run: it is not frozen and no level holds it for the other type. */
  predicate MayRun(s: Sys, d: ContainerId, lt: LimitType)
  {
    d in s.paused && d !in s.frozen && IsPauseType(lt) && !HeldFor(s, d, OtherPauseType(lt))
  }

  lemma CheckOneUnpauses(s: Sys, c: ContainerId, lt: LimitType, slept: bool, p: Probe, d: ContainerId)
    requires d in s.paused && d !in CheckOne(s, c, lt, slept, p).paused
    ensures d == c && MayRun(s, d, lt)
  {
    var db := Metered(s, c, lt, slept, p);
    var s1 := s.(db := db.value);
    assert SegmentOf(s1.db, c) == SegmentOf(s.db, c);
    if IsPauseType(lt) {
      ReleaseUnpausesIff(s1, c, lt, p, d);
    }
    hide Metered;
  }

  /** Whatever a tick unpauses is its own container, at a point of its loop where nothing else needed the pause. */
  lemma {:induction false} TickUnpauses(s: Sys, c: ContainerId, slept: bool, p: Probe, d: ContainerId, n: nat)
      returns (k: nat)
    requires n <= |ALL_LIMIT_TYPES| && d in s.paused && d !in CheckFirst(s, c, slept, p, n).paused
    ensures k < n && d == c && MayRun(CheckFirst(s, c, slept, p, k), d, ALL_LIMIT_TYPES[k])
  {
    if d in CheckFirst(s, c, slept, p, n - 1).paused {
      k := n - 1;
      CheckOneUnpauses(CheckFirst(s, c, slept, p, k), c, ALL_LIMIT_TYPES[k], slept, p, d);
    } else {
      k := TickUnpauses(s, c, slept, p, d, n - 1);
    }
  }

  lemma {:induction false} ReleaseEachUnpauses(s: Sys, cs: seq<ContainerId>, lt: LimitType, ps: Probes, d: ContainerId)
      returns (j: nat)
    requires d in s.paused && d !in ReleaseEach(s, cs, lt, ps).paused
    ensures j < |cs| && cs[j] == d && MayRun(ReleaseEach(s, cs[..j], lt, ps), d, lt)
  {
    var front, c := cs[..|cs|-1], cs[|cs|-1];
    var s1 := ReleaseEach(s, front, lt, ps);
    if d in s1.paused {
      j := |cs| - 1;
      assert IsPauseType(lt);
      ReleaseUnpausesIff(s1, c, lt, ps[c], d);
    } else {
      j := ReleaseEachUnpauses(s, front, lt, ps, d);
      assert front[..j] == cs[..j];
    }
  }

  lemma {:induction false} EnforceEachPauses(s: Sys, cs: seq<ContainerId>, lt: LimitType, ps: Probes, d: ContainerId)
    requires d in s.paused
    ensures d in EnforceEach(s, cs, lt, ps).paused
  {
    if cs != [] {
      EnforceEachPauses(s, cs[..|cs|-1], lt, ps, d);
    }
  }

  /** The state a scope release starts its loop in: the proxy told and the flag of the scope gone. */
  function Cleared(s: Sys, scope: Scope, lt: LimitType): Sys
  {
    var s' := Block(s, scope, lt, false);
    s'.(scopeEnforced := s'.scopeEnforced - {(scope, lt)})
  }

  lemma ScopeOneUnpauses(s: Sys, scope: Scope, lt: LimitType, exceeded: bool, cs: seq<ContainerId>, ps: Probes,
                         d: ContainerId) returns (j: nat)
    requires d in s.paused && d !in ScopeOne(s, scope, lt, exceeded, cs, ps).paused
    ensures !exceeded && j < |cs| && cs[j] == d
    ensures MayRun(ReleaseEach(Cleared(s, scope, lt), cs[..j], lt, ps), d, lt)
  {
    EnforceEachPauses(s, cs, lt, ps, d);
    j := ReleaseEachUnpauses(Cleared(s, scope, lt), cs, lt, ps, d);
  }

  /** Whatever a scope tick unpauses is a member, for a type found under its limit, at a point of the
      releasing loop where nothing else needed the pause. */
  lemma {:induction false} ScopeTickUnpauses(s: Sys, scope: Scope, order: seq<LimitType>, totals: map<LimitType, int>,
                                             cs: seq<ContainerId>, ps: Probes, d: ContainerId)
      returns (k: nat, j: nat)
    requires d in s.paused && d !in ScopeCheck(s, scope, order, totals, cs, ps).paused
    ensures k < |order| && j < |cs| && cs[j] == d
    ensures Val(totals, order[k]) < Val(s.db.scopeLimits, (scope, order[k]))
    ensures var before := Cleared(ScopeCheck(s, scope, order[..k], totals, cs, ps), scope, order[k]);
            MayRun(ReleaseEach(before, cs[..j], order[k], ps), d, order[k])
  {
    var front, lt := order[..|order|-1], order[|order|-1];
    var s1 := ScopeCheck(s, scope, front, totals, cs, ps);
    if d in s1.paused {
      k := |order| - 1;
      j := ScopeOneUnpauses(s1, scope, lt, Val(totals, lt) >= Val(s.db.scopeLimits, (scope, lt)), cs, ps, d);
    } else {
      k, j := ScopeTickUnpauses(s, scope, front, totals, cs, ps, d);
      assert front[..k] == order[..k];
    }
  }
}
