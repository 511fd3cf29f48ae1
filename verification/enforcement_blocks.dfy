/** Who is turned away because a scope is over its spending limit, and who is not, over every run of the manager. */
module EnforcementBlocks {
  import opened Model
  import opened StoreState
  import opened EnforcementState
  import opened EnforcementRuns
  import P = SpendingState

  // ----- The proxy's block against the scope's spending flag -----

  ghost predicate BlocksMatch(s: Sys)
  {
    forall scope :: P.Flag(s.proxy.blocked, scope) <==> (scope, Spending) in s.scopeEnforced
  }

  lemma ScopeOneBlocks(s: Sys, scope: Scope, lt: LimitType, exceeded: bool, cs: seq<ContainerId>, ps: Probes)
    requires BlocksMatch(s)
    ensures BlocksMatch(ScopeOne(s, scope, lt, exceeded, cs, ps))
  {
    EnforceEachKeeps(s, cs, lt, ps);
    var s1 := Block(s, scope, lt, false);
    ReleaseEachKeeps(s1.(scopeEnforced := s1.scopeEnforced - {(scope, lt)}), cs, lt, ps);
    hide EnforceEach, ReleaseEach, TickKeeps;
  }

  lemma {:induction false} ScopeCheckBlocks(s: Sys, scope: Scope, order: seq<LimitType>, totals: map<LimitType, int>,
                                            cs: seq<ContainerId>, ps: Probes)
    requires BlocksMatch(s)
    ensures BlocksMatch(ScopeCheck(s, scope, order, totals, cs, ps))
  {
    if order != [] {
      hide BlocksMatch, ScopeOne;
      var front, lt := order[..|order|-1], order[|order|-1];
      ScopeCheckBlocks(s, scope, front, totals, cs, ps);
      var limit := Val(s.db.scopeLimits, (scope, lt));
      ScopeOneBlocks(ScopeCheck(s, scope, front, totals, cs, ps), scope, lt, Val(totals, lt) >= limit, cs, ps);
    }
  }

  lemma BlocksStep(s: Sys, step: Step)
    requires BlocksMatch(s)
    ensures BlocksMatch(Apply(s, step))
  {
    match step
    case Tick(c, slept, p) =>
      CheckKeeps(s, c, slept, p);
      hide Check, TickKeeps;
    case ScopeTick(scope, order, totals, cs, ps) =>
      ScopeCheckBlocks(s, scope, order, totals, cs, ps);
      hide ScopeCheck;
    case _ =>
      hide Check, ScopeCheck, RemoveContainer, SetLimit, SetScopeLimit, Assign, Unassign;
  }

  function After(s: Sys, steps: seq<Step>): Sys
    decreases |steps|
  {
    if steps == [] then s else After(Apply(s, steps[0]), steps[1..])
  }

  /** Over every run whatsoever the proxy blocks a scope exactly while that scope is flagged for spending. */
  lemma {:induction false} RunKeepsBlocks(s: Sys, steps: seq<Step>)
    requires BlocksMatch(s)
    ensures BlocksMatch(After(s, steps))
    decreases |steps|
  {
    if steps != [] {
      hide BlocksMatch, Apply;
      BlocksStep(s, steps[0]);
      RunKeepsBlocks(Apply(s, steps[0]), steps[1..]);
    }
  }

  // ----- What the proxy remembers of assignments -----

  lemma ScopeOneKeepsProxy(s: Sys, scope: Scope, lt: LimitType, exceeded: bool, cs: seq<ContainerId>, ps: Probes)
    ensures var t := ScopeOne(s, scope, lt, exceeded, cs, ps).proxy; t == s.proxy.(blocked := t.blocked)
  {
    EnforceEachKeeps(s, cs, lt, ps);
    var s1 := Block(s, scope, lt, false);
    ReleaseEachKeeps(s1.(scopeEnforced := s1.scopeEnforced - {(scope, lt)}), cs, lt, ps);
    hide EnforceEach, ReleaseEach, TickKeeps;
  }

  /** Scope ticks set blocks and nothing else in the proxy. */
  lemma {:induction false} ScopeCheckKeepsProxy(s: Sys, scope: Scope, order: seq<LimitType>, totals: map<LimitType, int>,
                                                cs: seq<ContainerId>, ps: Probes)
    ensures var t := ScopeCheck(s, scope, order, totals, cs, ps).proxy; t == s.proxy.(blocked := t.blocked)
  {
    if order != [] {
      hide ScopeOne;
      var front, lt := order[..|order|-1], order[|order|-1];
      ScopeCheckKeepsProxy(s, scope, front, totals, cs, ps);
      var limit := Val(s.db.scopeLimits, (scope, lt));
      ScopeOneKeepsProxy(ScopeCheck(s, scope, front, totals, cs, ps), scope, lt, Val(totals, lt) >= limit, cs, ps);
    }
  }

  /** Between them, ticks write usage and set blocks. */
  lemma TickFrame(s: Sys, step: Step)
    requires step.Tick? || step.ScopeTick?
    ensures var s' := Apply(s, step);
            && s'.db == s.db.(usage := s'.db.usage) && s'.proxy == s.proxy.(blocked := s'.proxy.blocked)
  {
    match step
    case Tick(d, slept, p) =>
      CheckKeeps(s, d, slept, p);
      hide Check, PauseOk;
    case ScopeTick(scope, order, totals, cs, ps) =>
      ScopeCheckKeepsDb(s, scope, order, totals, cs, ps);
      ScopeCheckKeepsProxy(s, scope, order, totals, cs, ps);
      hide ScopeCheck;
  }

  lemma ScopeCheckKeepsDb(s: Sys, scope: Scope, order: seq<LimitType>, totals: map<LimitType, int>,
                          cs: seq<ContainerId>, ps: Probes)
    ensures ScopeCheck(s, scope, order, totals, cs, ps).db == s.db
  {
    ScopeCheckFlags(s, scope, order, totals, cs, ps);
    hide ScopeCheck, TickKeeps;
  }

  /** The scope the proxy has for c. */
  function Known(s: Sys, c: ContainerId): Option<Scope>
  {
    if c in s.proxy.scopes then Some(s.proxy.scopes[c]) else None
  }

  /** One step of the history of c: an accepted assignment or unassignment is the latest, a restart forgets it. */
  function Remembered(s: Sys, step: Step, c: ContainerId, was: Option<Scope>): Option<Scope>
  {
    match step
    case RestartDaemon => None
    case AssignTo(d, g) => if d == c && Assign(s.db, c, g).Some? then Some(Segment(g)) else was
    case UnassignFrom(d, g) => if d == c && Unassign(s.db, c, g).Some? then Some(Host) else was
    case _ => was
  }

  /** The latest accepted assignment (its segment) or unassignment (the host) of c since the last restart. */
  function Latest(s: Sys, steps: seq<Step>, c: ContainerId, was: Option<Scope>): Option<Scope>
    decreases |steps|
  {
    if steps == [] then was
    else Latest(Apply(s, steps[0]), steps[1..], c, Remembered(s, steps[0], c, was))
  }

  lemma KnownStep(s: Sys, step: Step, c: ContainerId)
    ensures Known(Apply(s, step), c) == Remembered(s, step, c, Known(s, c))
  {
    if step.Tick? || step.ScopeTick? {
      TickFrame(s, step);
      hide Apply;
    } else {
      hide Check, ScopeCheck, RemoveContainer, RegisterContainer, SetLimit, SetScopeLimit, Assign, Unassign;
      hide CreateSegment, DeleteSegment, Flags;
    }
  }

  lemma {:induction false} KnownIsLatest(s: Sys, steps: seq<Step>, c: ContainerId)
    ensures Known(After(s, steps), c) == Latest(s, steps, c, Known(s, c))
    decreases |steps|
  {
    if steps != [] {
      hide Apply, Known, Remembered;
      KnownStep(s, steps[0], c);
      KnownIsLatest(Apply(s, steps[0]), steps[1..], c);
    }
  }

  /**
   Who is blocked, over every run of a daemon from its start and through later restarts: everybody while the
   host is flagged; otherwise exactly those whose latest assignment since the last restart is to a flagged segment.
   */
  lemma BlockedIff(s: Sys, steps: seq<Step>, c: ContainerId)
    ensures var s', latest := After(Restart(s), steps), Latest(Restart(s), steps, c, None);
            P.ScopeBlocked(s'.proxy, c) <==>
              || (Host, Spending) in s'.scopeEnforced
              || (latest.Some? && latest.value.Segment? && (latest.value, Spending) in s'.scopeEnforced)
  {
    var s' := After(Restart(s), steps);
    assert BlocksMatch(Restart(s)) && Known(Restart(s), c) == None;
    RunKeepsBlocks(Restart(s), steps);
    KnownIsLatest(Restart(s), steps, c);
    hide After, Latest, Restart;
    if Known(s', c).Some? {
      assert P.Flag(s'.proxy.blocked, s'.proxy.scopes[c]) <==> (s'.proxy.scopes[c], Spending) in s'.scopeEnforced;
    }
    assert P.Flag(s'.proxy.blocked, Host) <==> (Host, Spending) in s'.scopeEnforced;
  }

  /** A member is remembered, if at all, in the segment it is in. */
  predicate MemberKnown(s: Sys, c: ContainerId)
  {
    SegmentOf(s.db, c).Some? && Known(s, c).Some? ==> Known(s, c) == Some(Segment(SegmentOf(s.db, c).value))
  }

  lemma MemberStep(s: Sys, step: Step, c: ContainerId)
    requires MemberKnown(s, c)
    ensures MemberKnown(Apply(s, step), c)
  {
    if step.Tick? || step.ScopeTick? {
      TickFrame(s, step);
      hide Apply;
    } else {
      KnownStep(s, step, c);
      hide Known;
      SegmentStep(s, step, c);
      hide Apply;
    }
  }

  /** Joining, leaving, registering and removal change the segment of a container, and nothing else does. */
  lemma SegmentStep(s: Sys, step: Step, c: ContainerId)
    ensures SegmentOf(Apply(s, step).db, c) ==
              match step
              case AssignTo(d, g) => if d == c && Assign(s.db, c, g).Some? then Some(g) else SegmentOf(s.db, c)
              case UnassignFrom(d, g) => if d == c && Unassign(s.db, c, g).Some? then None else SegmentOf(s.db, c)
              case Register(d) => if d == c then None else SegmentOf(s.db, c)
              case Remove(d) => if d == c then None else SegmentOf(s.db, c)
              case _ => SegmentOf(s.db, c)
  {
    if step.Tick? || step.ScopeTick? {
      TickFrame(s, step);
      hide Apply;
    } else {
      hide Check, ScopeCheck, AccumulateFirst, P.Restore, Flags, PauseHeld;
    }
  }

  lemma {:induction false} RunKeepsMemberKnown(s: Sys, steps: seq<Step>, c: ContainerId)
    requires MemberKnown(s, c)
    ensures MemberKnown(After(s, steps), c)
    decreases |steps|
  {
    if steps != [] {
      hide MemberKnown, Apply;
      MemberStep(s, steps[0], c);
      RunKeepsMemberKnown(Apply(s, steps[0]), steps[1..], c);
    }
  }

  lemma MemberBlockedIff(s: Sys, steps: seq<Step>, c: ContainerId, g: SegmentId)
    requires SegmentOf(After(Restart(s), steps).db, c) == Some(g)
    requires (Segment(g), Spending) in After(Restart(s), steps).scopeEnforced
    ensures P.ScopeBlocked(After(Restart(s), steps).proxy, c) <==>
              (Host, Spending) in After(Restart(s), steps).scopeEnforced || Latest(Restart(s), steps, c, None).Some?
  {
    assert MemberKnown(Restart(s), c) && Known(Restart(s), c) == None;
    RunKeepsMemberKnown(Restart(s), steps, c);
    KnownIsLatest(Restart(s), steps, c);
    hide After, Latest, Restart;
    BlockedIff(s, steps, c);
  }

  // ----- Which requests are turned away -----

  /** The proxy has the stored spending limit of c, in its own unit. */
  predicate BudgetLoaded(s: Sys, c: ContainerId)
  {
    c in s.db.containers ==> Val(s.proxy.budgets, c) == Val(s.db.limits, (c, Spending)) * P.MICRO
  }

  /** A run in which c is not the outcome of cloning. */
  ghost predicate NeverCloned(steps: seq<Step>, c: ContainerId)
  {
    forall i | 0 <= i < |steps| :: !(steps[i].Clone? && steps[i].to == c)
  }

  lemma RowBudget(s: Sys, step: Step, c: ContainerId)
    requires BudgetLoaded(s, c) && (step.Register? || step.Remove? || step.Limit?)
    ensures BudgetLoaded(Apply(s, step), c)
  {
    hide AccumulateFirst, Flags, Check, ScopeCheck;
  }

  lemma CloneBudget(s: Sys, step: Step, c: ContainerId)
    requires BudgetLoaded(s, c) && step.Clone? && step.to != c
    ensures BudgetLoaded(Apply(s, step), c)
  {
    P.CopiedSpendingLimit(RegisterContainer(s.db, step.to), step.from, step.to, c);
    hide CopyLimits, Flags, Check, ScopeCheck;
  }

  predicate SameBudget(s: Sys, s': Sys, c: ContainerId)
  {
    && s'.proxy.budgets == s.proxy.budgets && s'.db.limits == s.db.limits
    && (c in s'.db.containers <==> c in s.db.containers)
  }

  lemma FrozenRow(db: Db, d: ContainerId, frozen: bool, c: ContainerId)
    ensures SetFrozen(db, d, frozen).limits == db.limits
    ensures c in SetFrozen(db, d, frozen).containers <==> c in db.containers
  {
  }

  lemma FreezeSameBudget(s: Sys, d: ContainerId, fails: set<Call>, c: ContainerId)
    ensures SameBudget(s, Freeze(s, d, fails).0, c)
  {
    FrozenRow(s.db, d, true, c);
    hide SetFrozen;
  }

  lemma UnfreezeSameBudget(s: Sys, d: ContainerId, fails: set<Call>, c: ContainerId)
    ensures SameBudget(s, Unfreeze(s, d, fails).0, c)
  {
    FrozenRow(s.db, d, false, c);
    hide SetFrozen, PauseHeld;
  }

  lemma JoinSameBudget(s: Sys, step: Step, c: ContainerId)
    requires step.AssignTo? || step.UnassignFrom?
    ensures SameBudget(s, Apply(s, step), c)
  {
    hide Check, ScopeCheck, RemoveContainer, CopyLimits, StartContainer, StopContainer, Freeze, Unfreeze, Restart;
    hide CreateSegment, DeleteSegment, SetScopeLimit, SetLimit, SetUsage;
  }

  lemma StepSameBudget(s: Sys, step: Step, c: ContainerId)
    requires !step.Register? && !step.Remove? && !step.Limit? && !step.Clone? && !step.RestartDaemon?
    ensures SameBudget(s, Apply(s, step), c)
  {
    if step.Tick? || step.ScopeTick? {
      TickFrame(s, step);
      hide Apply;
    } else if step.FreezeStep? {
      FreezeSameBudget(s, step.c, step.fails, c);
      hide Freeze, SameBudget;
    } else if step.UnfreezeStep? {
      UnfreezeSameBudget(s, step.c, step.fails, c);
      hide Unfreeze, SameBudget;
    } else if step.AssignTo? || step.UnassignFrom? {
      JoinSameBudget(s, step, c);
      hide Apply;
    } else {
      hide Check, ScopeCheck, Freeze, Unfreeze, Assign, Unassign;
    }
  }

  lemma OtherBudget(s: Sys, step: Step, c: ContainerId)
    requires BudgetLoaded(s, c) && !step.Register? && !step.Remove? && !step.Limit? && !step.Clone?
    ensures BudgetLoaded(Apply(s, step), c)
  {
    if step.RestartDaemon? {
      assert BudgetLoaded(Restart(s), c);
      hide Restart;
    } else {
      StepSameBudget(s, step, c);
      hide Apply;
    }
  }

  lemma {:induction false} RunKeepsBudget(s: Sys, steps: seq<Step>, c: ContainerId)
    requires BudgetLoaded(s, c) && NeverCloned(steps, c)
    ensures BudgetLoaded(After(s, steps), c)
    decreases |steps|
  {
    if steps != [] {
      hide BudgetLoaded, Apply;
      match steps[0] {
        case Register(_) => RowBudget(s, steps[0], c);
        case Remove(_) => RowBudget(s, steps[0], c);
        case Limit(_, _, _) => RowBudget(s, steps[0], c);
        case Clone(_, _) => CloneBudget(s, steps[0], c);
        case _ => OtherBudget(s, steps[0], c);
      }
      RunKeepsBudget(Apply(s, steps[0]), steps[1..], c);
    }
  }

  /** c has a spending limit and has spent it. */
  predicate OwnSpent(s: Sys, c: ContainerId)
  {
    var limit := Val(s.db.limits, (c, Spending));
    limit > 0 && P.GetSpending(s.proxy, c) >= limit
  }

  /** Over every run in which c is not cloned, the proxy's budget is spent exactly when the stored limit is. */
  lemma BudgetSpentIff(s: Sys, steps: seq<Step>, c: ContainerId)
    requires NeverCloned(steps, c) && c in After(Restart(s), steps).db.containers
    ensures var s' := After(Restart(s), steps); P.ProxyExceeded(s'.proxy, c) <==> OwnSpent(s', c)
  {
    assert BudgetLoaded(Restart(s), c);
    RunKeepsBudget(Restart(s), steps, c);
    hide After, Restart;
  }

  predicate TurnedAway(s: Sys, c: ContainerId, kind: P.Kind)
  {
    !P.Passes(s.proxy, s.db, c, kind)
  }

  lemma TurnedAwayIff(s: Sys, c: ContainerId)
    ensures TurnedAway(s, c, P.Tracked) <==> P.ProxyExceeded(s.proxy, c) || P.ScopeBlocked(s.proxy, c)
    ensures TurnedAway(s, c, P.Inference) <==> OwnSpent(s, c)
  {
  }

  /**
   The documentation turns away every API call of every member of a segment over its spending limit. Over every
   run of a daemon from its start and through later restarts, a tracked call is turned away exactly when the
   member's budget is spent, the host is flagged too, or the member was assigned since the last restart; an
   inference request exactly when the member's own limit is spent.
   */
  lemma MemberTurnedAwayIff(s: Sys, steps: seq<Step>, c: ContainerId, g: SegmentId)
    requires SegmentOf(After(Restart(s), steps).db, c) == Some(g)
    requires (Segment(g), Spending) in After(Restart(s), steps).scopeEnforced
    ensures var s', latest := After(Restart(s), steps), Latest(Restart(s), steps, c, None);
            && (TurnedAway(s', c, P.Tracked) <==>
                  P.ProxyExceeded(s'.proxy, c) || (Host, Spending) in s'.scopeEnforced || latest.Some?)
            && (TurnedAway(s', c, P.Inference) <==> OwnSpent(s', c))
  {
    MemberBlockedIff(s, steps, c, g);
    hide After, Latest, Restart;
    TurnedAwayIff(After(Restart(s), steps), c);
    hide TurnedAway, OwnSpent;
  }

  /** Requests of both kinds are turned away exactly when the own limit is spent and the proxy knows of that or of a
      flagged scope: for a container that is no clone, exactly when its own limit is spent, flags of scopes making
      no difference. */
  lemma AllTurnedAwayIff(s: Sys, steps: seq<Step>, c: ContainerId)
    ensures var s', latest := After(Restart(s), steps), Latest(Restart(s), steps, c, None);
            && ((forall kind :: TurnedAway(s', c, kind)) <==>
                  && OwnSpent(s', c)
                  && (|| P.ProxyExceeded(s'.proxy, c) || (Host, Spending) in s'.scopeEnforced
                      || (latest.Some? && latest.value.Segment? && (latest.value, Spending) in s'.scopeEnforced)))
            && (NeverCloned(steps, c) && c in s'.db.containers ==>
                  ((forall kind :: TurnedAway(s', c, kind)) <==> OwnSpent(s', c)))
  {
    var s' := After(Restart(s), steps);
    BlockedIff(s, steps, c);
    if NeverCloned(steps, c) && c in s'.db.containers {
      BudgetSpentIff(s, steps, c);
    }
    hide After, Restart, Latest, NeverCloned;
    TurnedAwayIff(s', c);
    BothKinds(s', c);
    hide TurnedAway, OwnSpent;
  }

  lemma BothKinds(s: Sys, c: ContainerId)
    ensures (forall kind :: TurnedAway(s, c, kind)) <==> TurnedAway(s, c, P.Tracked) && TurnedAway(s, c, P.Inference)
  {
    forall kind | TurnedAway(s, c, P.Tracked) && TurnedAway(s, c, P.Inference) ensures TurnedAway(s, c, kind) {
      match kind case Tracked => case Inference =>
    }
  }

  // ----- A segment over its limit, before and after a restart -----

  const NEW_DAEMON := Sys(EMPTY_DB, P.NEW_TRACKER, {}, {}, {}, {}, {}, {})

  const SEGMENT_TICK := ScopeTick(Segment(1), [Spending], map[Spending := 9], [0], map[])

  /** A container joins segment 1, which has a spending limit of 5, and spends 9. */
  const SPENDING_RUN: seq<Step> :=
    [NewSegment(1), Register(0), AssignTo(0, 1), ScopeLimit(Segment(1), Spending, 5), Charge(0, 9_000)]

  const MEMBER_DB := EMPTY_DB.(segments := {1}, containers := map[0 := Row(Some(1), false)],
                               scopeLimits := map[(Segment(1), Spending) := 5], usage := map[(0, Spending) := 9])

  /** The daemon over that database, with what its proxy knows of segments. */
  function Spender(scopes: map<ContainerId, Scope>): Sys
  {
    NEW_DAEMON.(db := MEMBER_DB, workers := {0},
                proxy := P.NEW_TRACKER.(spending := map[0 := 9_000], budgets := map[0 := 0], scopes := scopes))
  }

  function SpenderFlagged(scopes: map<ContainerId, Scope>): Sys
  {
    var s := Spender(scopes);
    s.(proxy := s.proxy.(blocked := map[Segment(1) := true]), scopeEnforced := {(Segment(1), Spending)})
  }

  lemma AfterCons(s: Sys, step: Step, rest: seq<Step>)
    ensures After(s, [step] + rest) == After(Apply(s, step), rest)
  {
    assert ([step] + rest)[1..] == rest;
  }

  lemma AfterOne(s: Sys, step: Step)
    ensures After(s, [step]) == Apply(s, step)
  {
    AfterCons(s, step, []);
    assert [step] + [] == [step];
  }

  lemma {:induction false} AfterConcat(s: Sys, front: seq<Step>, rest: seq<Step>)
    ensures After(s, front + rest) == After(After(s, front), rest)
    decreases |front|
  {
    hide Apply;
    if front == [] {
      assert front + rest == rest;
    } else {
      var tail := front[1..];
      assert front + rest == [front[0]] + (tail + rest);
      AfterCons(s, front[0], tail + rest);
      AfterConcat(Apply(s, front[0]), tail, rest);
    }
  }

  /** Container 0 registered in no segment yet, while segment 1 is there. */
  const NEWCOMER := NEW_DAEMON.(db := EMPTY_DB.(segments := {1}, containers := map[0 := Row(None, false)]), workers := {0},
                                proxy := P.NEW_TRACKER.(spending := map[0 := 0], budgets := map[0 := 0]))

  const JOINED := NEWCOMER.(db := NEWCOMER.db.(containers := map[0 := Row(Some(1), false)]),
                            proxy := NEWCOMER.proxy.(scopes := map[0 := Segment(1)]))

  lemma Registering()
    ensures Restart(NEW_DAEMON) == NEW_DAEMON
    ensures Apply(Apply(NEW_DAEMON, NewSegment(1)), Register(0)) == NEWCOMER
  {
    var s1 := NEW_DAEMON.(db := EMPTY_DB.(segments := {1}));
    assert Apply(NEW_DAEMON, NewSegment(1)) == s1;
    assert Apply(s1, Register(0)) == NEWCOMER;
  }

  lemma Joining()
    ensures Apply(NEWCOMER, AssignTo(0, 1)) == JOINED
  {
  }

  lemma Charging()
    ensures Apply(Apply(JOINED, ScopeLimit(Segment(1), Spending, 5)), Charge(0, 9_000)) == Spender(map[0 := Segment(1)])
  {
    var s4 := JOINED.(db := JOINED.db.(scopeLimits := map[(Segment(1), Spending) := 5]));
    assert Apply(JOINED, ScopeLimit(Segment(1), Spending, 5)) == s4;
  }

  lemma SpendingRunEnds()
    ensures After(Restart(NEW_DAEMON), SPENDING_RUN) == Spender(map[0 := Segment(1)])
  {
    hide Apply, Restart, Spender, NEW_DAEMON, NEWCOMER, JOINED;
    Registering();
    Joining();
    Charging();
    var s1, s4 := Apply(NEW_DAEMON, NewSegment(1)), Apply(JOINED, ScopeLimit(Segment(1), Spending, 5));
    AfterCons(NEW_DAEMON, NewSegment(1), SPENDING_RUN[1..]);
    AfterCons(s1, Register(0), SPENDING_RUN[2..]);
    AfterCons(NEWCOMER, AssignTo(0, 1), SPENDING_RUN[3..]);
    AfterCons(JOINED, ScopeLimit(Segment(1), Spending, 5), SPENDING_RUN[4..]);
    AfterOne(s4, Charge(0, 9_000));
    hide After;
  }

  /** The tick sees the true total. */
  lemma SpenderTotals(scopes: map<ContainerId, Scope>)
    ensures FullScopeTick(Spender(scopes), Segment(1), [Spending], map[Spending := 9], [0])
  {
    var s := Spender(scopes);
    forall lt ensures StoreTotals.Total(s.db, Segment(1), lt) == if lt == Spending then 9 else 0 {
      assert ListByScope(s.db, Segment(1)) == {0} && {0} - {0} == {};
      StoreTotals.SumTake(s.db.usage, {0}, lt, 0);
    }
  }

  lemma SegmentTickFlags(scopes: map<ContainerId, Scope>)
    ensures Apply(Spender(scopes), SEGMENT_TICK) == SpenderFlagged(scopes)
  {
    var s := Spender(scopes);
    var none: seq<LimitType>, nobody: seq<ContainerId> := [], [];
    ScopeCheckNext(s, Segment(1), none, Spending, map[Spending := 9], [0], map[]);
    assert none + [Spending] == [Spending];
    assert ScopeCheck(s, Segment(1), none, map[Spending := 9], [0], map[]) == s;
    hide ScopeCheck, Check;
    assert [0][..0] == nobody;
    assert EnforceEach(s, nobody, Spending, map[]) == s;
    assert EnforceEach(s, [0], Spending, map[]) == s;
  }

  lemma RestartForgetsScopes(scopes: map<ContainerId, Scope>)
    ensures Restart(SpenderFlagged(scopes)) == Spender(map[])
  {
  }

  lemma SpenderGates(scopes: map<ContainerId, Scope>)
    ensures var s := SpenderFlagged(scopes);
            && SegmentOf(s.db, 0) == Some(1) && (Segment(1), Spending) in s.scopeEnforced
            && (TurnedAway(s, 0, P.Tracked) <==> 0 in scopes && scopes[0] == Segment(1))
            && !TurnedAway(s, 0, P.Inference)
  {
  }

  lemma FlaggedRunEnds()
    ensures After(Restart(NEW_DAEMON), SPENDING_RUN + [SEGMENT_TICK]) == SpenderFlagged(map[0 := Segment(1)])
  {
    hide Restart, Spender, SpenderFlagged, SPENDING_RUN, SEGMENT_TICK, Apply;
    SpendingRunEnds();
    SegmentTickFlags(map[0 := Segment(1)]);
    AfterConcat(Restart(NEW_DAEMON), SPENDING_RUN, [SEGMENT_TICK]);
    AfterOne(Spender(map[0 := Segment(1)]), SEGMENT_TICK);
    hide After;
  }

  /** Flagged, the segment turns away its member's tracked calls; its inference requests pass. */
  lemma InferencePassesFlaggedSegment()
    ensures FullScopeTick(After(Restart(NEW_DAEMON), SPENDING_RUN), Segment(1), [Spending], map[Spending := 9], [0])
    ensures var s := After(Restart(NEW_DAEMON), SPENDING_RUN + [SEGMENT_TICK]);
            && SegmentOf(s.db, 0) == Some(1) && (Segment(1), Spending) in s.scopeEnforced
            && TurnedAway(s, 0, P.Tracked) && !TurnedAway(s, 0, P.Inference)
  {
    hide Restart, Spender, SpenderFlagged, SPENDING_RUN, SEGMENT_TICK, After, TurnedAway, FullScopeTick;
    SpendingRunEnds();
    SpenderTotals(map[0 := Segment(1)]);
    FlaggedRunEnds();
    SpenderGates(map[0 := Segment(1)]);
  }

  lemma RestartedRunEnds()
    ensures After(SpenderFlagged(map[0 := Segment(1)]), [RestartDaemon, SEGMENT_TICK]) == SpenderFlagged(map[])
  {
    var s := SpenderFlagged(map[0 := Segment(1)]);
    assert Apply(s, RestartDaemon) == Restart(s);
    RestartForgetsScopes(map[0 := Segment(1)]);
    hide Restart, Spender, SpenderFlagged, SEGMENT_TICK, Apply;
    SegmentTickFlags(map[]);
    assert [RestartDaemon, SEGMENT_TICK] == [RestartDaemon] + [SEGMENT_TICK];
    AfterCons(s, RestartDaemon, [SEGMENT_TICK]);
    AfterOne(Spender(map[]), SEGMENT_TICK);
    hide After;
  }

  /** After a restart the next tick flags the segment again, and now the tracked calls pass as well. */
  lemma TrackedPassesAfterRestart()
    ensures var s := After(Restart(NEW_DAEMON), SPENDING_RUN + [SEGMENT_TICK] + [RestartDaemon, SEGMENT_TICK]);
            && SegmentOf(s.db, 0) == Some(1) && (Segment(1), Spending) in s.scopeEnforced
            && !TurnedAway(s, 0, P.Tracked) && !TurnedAway(s, 0, P.Inference)
  {
    hide Restart, Spender, SpenderFlagged, SPENDING_RUN, SEGMENT_TICK, TurnedAway, Apply;
    FlaggedRunEnds();
    RestartedRunEnds();
    SpenderGates(map[]);
    AfterConcat(Restart(NEW_DAEMON), SPENDING_RUN + [SEGMENT_TICK], [RestartDaemon, SEGMENT_TICK]);
    hide After;
  }

  // ----- What a restart forgets, and what a removal does not -----

  /** A run in which c is assigned to no segment. */
  ghost predicate NeverAssigned(steps: seq<Step>, c: ContainerId)
  {
    forall i | 0 <= i < |steps| :: !(steps[i].AssignTo? && steps[i].c == c)
  }

  lemma {:induction false} NothingRemembered(s: Sys, steps: seq<Step>, c: ContainerId, was: Option<Scope>)
    requires NeverAssigned(steps, c) && (was.Some? ==> was.value == Host)
    ensures Latest(s, steps, c, was).Some? ==> Latest(s, steps, c, was).value == Host
    decreases |steps|
  {
    if steps != [] {
      hide Apply;
      NothingRemembered(Apply(s, steps[0]), steps[1..], c, Remembered(s, steps[0], c, was));
    }
  }

  /** After a restart, and until c is assigned again, only the host can block it: over every such run. */
  lemma RestartForgetsSegments(s: Sys, steps: seq<Step>, c: ContainerId)
    requires NeverAssigned(steps, c)
    ensures P.ScopeBlocked(After(Restart(s), steps).proxy, c) <==>
              (Host, Spending) in After(Restart(s), steps).scopeEnforced
  {
    NothingRemembered(Restart(s), steps, c, None);
    hide After, Latest, Restart;
    BlockedIff(s, steps, c);
  }

  /** And it forgets too little: removed and registered again, c is in no segment and its old one still blocks it. */
  lemma StaleSegmentBlocks(s: Sys, c: ContainerId, g: SegmentId)
    requires BlocksMatch(s) && Known(s, c) == Some(Segment(g)) && (Segment(g), Spending) in s.scopeEnforced
    ensures var s' := After(s, [Remove(c), Register(c)]);
            SegmentOf(s'.db, c) == None && P.ScopeBlocked(s'.proxy, c)
  {
    var s1 := Apply(s, Remove(c));
    var s2 := Apply(s1, Register(c));
    RemovedAndBack(s, c);
    hide Apply;
    assert [Remove(c), Register(c)] == [Remove(c)] + [Register(c)];
    AfterCons(s, Remove(c), [Register(c)]);
    AfterOne(s1, Register(c));
    hide After;
    assert P.Flag(s.proxy.blocked, Segment(g));
  }

  lemma RemovedAndBack(s: Sys, c: ContainerId)
    ensures var s' := Apply(Apply(s, Remove(c)), Register(c));
            && SegmentOf(s'.db, c) == None && s'.proxy.scopes == s.proxy.scopes && s'.proxy.blocked == s.proxy.blocked
  {
    hide RemoveContainer, Flags, Check, ScopeCheck;
  }

  // ----- A segment deleted while it is flagged -----

  /** The step restarts the daemon or sets a limit for that scope and type. */
  predicate Unsticks(step: Step, scope: Scope, lt: LimitType)
  {
    step.RestartDaemon? || (step.ScopeLimit? && step.scope == scope && step.lt == lt && step.v != 0)
  }

  ghost predicate LeftUnlimited(steps: seq<Step>, scope: Scope, lt: LimitType)
  {
    forall i | 0 <= i < |steps| :: !Unsticks(steps[i], scope, lt)
  }

  predicate StuckFlag(s: Sys, scope: Scope, lt: LimitType)
  {
    (scope, lt) in s.scopeEnforced && Val(s.db.scopeLimits, (scope, lt)) == 0
  }

  lemma StuckStep(s: Sys, step: Step, scope: Scope, lt: LimitType)
    requires StuckFlag(s, scope, lt) && !Unsticks(step, scope, lt)
    ensures StuckFlag(Apply(s, step), scope, lt)
  {
    if step.Tick? || step.ScopeTick? {
      StuckTick(s, step, scope, lt);
      hide Apply;
    } else if step.FreezeStep? || step.UnfreezeStep? {
      hide PauseHeld, SetFrozen, Check, ScopeCheck;
    } else {
      hide Check, ScopeCheck, AccumulateFirst, Flags, Freeze, Unfreeze, CopyLimits;
    }
  }

  lemma StuckTick(s: Sys, step: Step, scope: Scope, lt: LimitType)
    requires StuckFlag(s, scope, lt) && (step.Tick? || step.ScopeTick?)
    ensures StuckFlag(Apply(s, step), scope, lt)
  {
    match step
    case Tick(d, slept, p) =>
      CheckKeeps(s, d, slept, p);
      hide Check, PauseOk;
    case ScopeTick(sc, order, totals, cs, ps) =>
      ScopeCheckFlags(s, sc, order, totals, cs, ps);
      hide ScopeCheck, TickKeeps;
  }

  /** A flagged scope without a limit is never looked at again: over every run that sets none, the flag stays. */
  lemma {:induction false} UnlimitedStaysFlagged(s: Sys, steps: seq<Step>, scope: Scope, lt: LimitType)
    requires StuckFlag(s, scope, lt) && LeftUnlimited(steps, scope, lt)
    ensures StuckFlag(After(s, steps), scope, lt)
    decreases |steps|
  {
    if steps != [] {
      hide StuckFlag, Apply, Unsticks;
      StuckStep(s, steps[0], scope, lt);
      UnlimitedStaysFlagged(Apply(s, steps[0]), steps[1..], scope, lt);
    }
  }

  /** Every member of g is recorded in g. */
  ghost predicate AllKnown(s: Sys, g: SegmentId)
  {
    forall c | SegmentOf(s.db, c) == Some(g) :: Known(s, c) == Some(Segment(g))
  }

  lemma AllKnownStep(s: Sys, step: Step, g: SegmentId)
    requires AllKnown(s, g) && !step.RestartDaemon?
    ensures AllKnown(Apply(s, step), g)
  {
    forall c | SegmentOf(Apply(s, step).db, c) == Some(g)
      ensures Known(Apply(s, step), c) == Some(Segment(g))
    {
      SegmentStep(s, step, c);
      KnownStep(s, step, c);
      hide Apply, Known, Assign, Unassign;
    }
    hide Apply, Known;
  }

  lemma {:induction false} RunKeepsAllKnown(s: Sys, steps: seq<Step>, g: SegmentId)
    requires AllKnown(s, g) && forall i | 0 <= i < |steps| :: !steps[i].RestartDaemon?
    ensures AllKnown(After(s, steps), g)
    decreases |steps|
  {
    if steps != [] {
      hide AllKnown, Apply;
      AllKnownStep(s, steps[0], g);
      RunKeepsAllKnown(Apply(s, steps[0]), steps[1..], g);
    }
  }

  /** Deleting a segment clears neither its flag nor the proxy's: a segment created again under that id turns away
      the tracked calls of whoever joins it, over every run that sets it no limit. */
  lemma RecreatedSegmentBlocks(s: Sys, g: SegmentId, steps: seq<Step>, c: ContainerId)
    requires BlocksMatch(s) && (Segment(g), Spending) in s.scopeEnforced && DeleteSegment(s.db, g).Some?
    requires LeftUnlimited(steps, Segment(g), Spending)
    ensures var s' := After(s, [DropSegment(g), NewSegment(g)] + steps);
            && Val(s'.db.scopeLimits, (Segment(g), Spending)) == 0
            && (SegmentOf(s'.db, c) == Some(g) ==> TurnedAway(s', c, P.Tracked))
  {
    var s1, s2 := DroppedAndBack(s, g);
    hide Apply, AllKnown, BlocksMatch, StuckFlag;
    assert [DropSegment(g), NewSegment(g)] + steps == [DropSegment(g)] + ([NewSegment(g)] + steps);
    AfterCons(s, DropSegment(g), [NewSegment(g)] + steps);
    AfterCons(s1, NewSegment(g), steps);
    UnlimitedStaysFlagged(s2, steps, Segment(g), Spending);
    RunKeepsAllKnown(s2, steps, g);
    RunKeepsBlocks(s2, steps);
    hide After, LeftUnlimited;
    StuckBlocks(After(s2, steps), g, c);
  }

  lemma DroppedAndBack(s: Sys, g: SegmentId) returns (s1: Sys, s2: Sys)
    requires BlocksMatch(s) && (Segment(g), Spending) in s.scopeEnforced && DeleteSegment(s.db, g).Some?
    ensures s1 == Apply(s, DropSegment(g)) && s2 == Apply(s1, NewSegment(g))
    ensures BlocksMatch(s2) && AllKnown(s2, g) && StuckFlag(s2, Segment(g), Spending) && g in s2.db.segments
  {
    s1 := Apply(s, DropSegment(g));
    s2 := Apply(s1, NewSegment(g));
    forall c ensures SegmentOf(s2.db, c) != Some(g) {
      assert c !in Members(s.db, g);
    }
    hide Check, ScopeCheck;
  }

  lemma StuckBlocks(s: Sys, g: SegmentId, c: ContainerId)
    requires BlocksMatch(s) && AllKnown(s, g) && StuckFlag(s, Segment(g), Spending)
    ensures Val(s.db.scopeLimits, (Segment(g), Spending)) == 0
    ensures SegmentOf(s.db, c) == Some(g) ==> TurnedAway(s, c, P.Tracked)
  {
    assert P.Flag(s.proxy.blocked, Segment(g));
  }
}
