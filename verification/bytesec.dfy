/** Byte-second counters: what they add up to, and how far they overshoot their limit. */
module ByteSeconds {
  import opened Model
  import opened StoreState
  import opened EnforcementState
  import ER = EnforcementRuns
  import P = SpendingState
  import SR = SpendingRuns

  /** One counter: the stored byte-seconds and whether the container was stopped for them. */
  datatype Counter = Counter(usage: int, flagged: bool)

  function CounterOf(s: Sys, c: ContainerId, lt: LimitType): Counter
  {
    Counter(Val(s.db.usage, (c, lt)), Flagged(s, c, lt))
  }

  /** A tick as one counter sees it. */
  function CounterTick(k: Counter, limit: int, sample: int, still: bool, stopFails: bool): Counter
  {
    if limit == 0 then k
    else
      var u := if k.flagged || still then k.usage else k.usage + sample;
      if u >= limit then Counter(u, k.flagged || !stopFails) else Counter(u, false)
  }

  /** All a counter's tick depends on. */
  predicate SameInputs(s: Sys, s': Sys, c: ContainerId, lt: LimitType)
  {
    s'.frozen == s.frozen && s'.db.limits == s.db.limits && CounterOf(s', c, lt) == CounterOf(s, c, lt)
  }

  lemma SameInputsTrans(a: Sys, b: Sys, d: Sys, c: ContainerId, lt: LimitType)
    requires SameInputs(a, b, c, lt) && SameInputs(b, d, c, lt)
    ensures SameInputs(a, d, c, lt)
  {
  }

  lemma EnforceElsewhere(s: Sys, c: ContainerId, t: LimitType, p: Probe, d: ContainerId, lt: LimitType)
    requires t != lt || c != d
    ensures SameInputs(s, Enforce(s, c, t, p), d, lt)
  {
  }

  lemma ReleaseElsewhere(s: Sys, c: ContainerId, t: LimitType, p: Probe, d: ContainerId, lt: LimitType)
    requires t != lt || c != d
    ensures SameInputs(s, Release(s, c, t, p), d, lt)
  {
  }

  lemma MeteredElsewhere(s: Sys, c: ContainerId, t: LimitType, slept: bool, p: Probe, d: ContainerId, lt: LimitType)
    requires t != lt || c != d
    ensures Metered(s, c, t, slept, p).Some? ==>
              SameInputs(s, s.(db := Metered(s, c, t, slept, p).value), d, lt)
  {
    hide CurrentUsage, Sample;
  }

  /** Checking another type, or another container, leaves the counter alone. */
  lemma CheckElsewhere(s: Sys, c: ContainerId, t: LimitType, slept: bool, p: Probe, d: ContainerId, lt: LimitType)
    requires t != lt || c != d
    ensures SameInputs(s, CheckOne(s, c, t, slept, p), d, lt)
  {
    var db := Metered(s, c, t, slept, p);
    if db.Some? {
      var s1 := s.(db := db.value);
      MeteredElsewhere(s, c, t, slept, p, d, lt);
      EnforceElsewhere(s1, c, t, p, d, lt);
      ReleaseElsewhere(s1, c, t, p, d, lt);
      hide Enforce, Release, SameInputs, Metered;
      SameInputsTrans(s, s1, Enforce(s1, c, t, p), d, lt);
      SameInputsTrans(s, s1, Release(s1, c, t, p), d, lt);
    } else {
      assert SameInputs(s, s, d, lt);
    }
  }

  lemma DecideHere(s: Sys, c: ContainerId, lt: LimitType, exceeded: bool, p: Probe)
    requires IsByteSecond(lt)
    ensures var s' := Decide(s, c, lt, exceeded, p);
            && s'.frozen == s.frozen && s'.db == s.db
            && (Flagged(s', c, lt) <==> exceeded && (Flagged(s, c, lt) || Works(p, lt, Stop)))
  {
    assert EnforcingCall(lt, p.cgroup) == Some(Stop) && ReleasingCall(lt, p.cgroup) == None;
    assert !IsPauseType(lt) && !ActuallyEnforced(s, c, lt, p);
    hide EnforcingCall, ReleasingCall, ActuallyEnforced;
  }

  lemma MeteredHere(s: Sys, c: ContainerId, lt: LimitType, slept: bool, p: Probe)
    requires IsByteSecond(lt)
    ensures var db := Metered(s, c, lt, slept, p);
            && db.Some? && db.value.limits == s.db.limits
            && Val(db.value.usage, (c, lt)) ==
               Val(s.db.usage, (c, lt)) +
               (if Flagged(s, c, lt) || slept || c in s.frozen then 0 else Sample(s, c, lt, p))
  {
    hide Sample;
  }

  /** Checking the type itself is one tick of the counter. */
  lemma CheckHere(s: Sys, c: ContainerId, lt: LimitType, slept: bool, p: Probe)
    requires IsByteSecond(lt)
    ensures var s' := CheckOne(s, c, lt, slept, p);
            && s'.frozen == s.frozen && s'.db.limits == s.db.limits
            && CounterOf(s', c, lt) ==
               CounterTick(CounterOf(s, c, lt), Val(s.db.limits, (c, lt)), Sample(s, c, lt, p),
                           slept || c in s.frozen, !Works(p, lt, Stop))
  {
    hide Sample, Metered, Decide;
    MeteredHere(s, c, lt, slept, p);
    var db := Metered(s, c, lt, slept, p).value;
    DecideHere(s.(db := db), c, lt, Val(db.usage, (c, lt)) >= Val(s.db.limits, (c, lt)), p);
  }

  lemma {:induction false} FirstElsewhere(s: Sys, c: ContainerId, slept: bool, p: Probe, m: nat, n: nat,
                                          d: ContainerId, lt: LimitType)
    requires m <= n <= |ALL_LIMIT_TYPES|
    requires c != d || forall i | m <= i < n :: ALL_LIMIT_TYPES[i] != lt
    ensures SameInputs(CheckFirst(s, c, slept, p, m), CheckFirst(s, c, slept, p, n), d, lt)
  {
    if n > m {
      FirstElsewhere(s, c, slept, p, m, n - 1, d, lt);
      var front, t := CheckFirst(s, c, slept, p, n - 1), ALL_LIMIT_TYPES[n-1];
      CheckElsewhere(front, c, t, slept, p, d, lt);
      assert CheckFirst(s, c, slept, p, n) == CheckOne(front, c, t, slept, p);
      hide CheckFirst, CheckOne, SameInputs;
      SameInputsTrans(CheckFirst(s, c, slept, p, m), front, CheckFirst(s, c, slept, p, n), d, lt);
    }
  }

  function IndexOfType(lt: LimitType): (i: nat)
    requires IsByteSecond(lt)
    ensures i < |ALL_LIMIT_TYPES| && ALL_LIMIT_TYPES[i] == lt
  {
    match lt
    case RamUsageBsec => 7
    case DiskUsageBsec => 8
    case RamRequestBsec => 9
    case DiskRequestBsec => 10
  }

  lemma AllTypesDistinct()
    ensures Distinct(ALL_LIMIT_TYPES)
  {
  }

  lemma SampleDepends(s: Sys, s': Sys, c: ContainerId, lt: LimitType, p: Probe)
    requires s'.db.limits == s.db.limits
    ensures Sample(s', c, lt, p) == Sample(s, c, lt, p)
  {
  }

  /** The loop over all eleven types does to the counter what its own type does. */
  lemma LoopProjects(s: Sys, c: ContainerId, slept: bool, p: Probe, lt: LimitType)
    requires IsByteSecond(lt)
    ensures var s' := CheckFirst(s, c, slept, p, |ALL_LIMIT_TYPES|);
            && s'.frozen == s.frozen && s'.db.limits == s.db.limits
            && CounterOf(s', c, lt) ==
               CounterTick(CounterOf(s, c, lt), Val(s.db.limits, (c, lt)), Sample(s, c, lt, p),
                           slept || c in s.frozen, !Works(p, lt, Stop))
  {
    var k := IndexOfType(lt);
    var n := |ALL_LIMIT_TYPES|;
    AllTypesDistinct();
    FirstElsewhere(s, c, slept, p, 0, k, c, lt);
    FirstElsewhere(s, c, slept, p, k + 1, n, c, lt);
    var before := CheckFirst(s, c, slept, p, k);
    assert CheckFirst(s, c, slept, p, 0) == s;
    assert CheckFirst(s, c, slept, p, k + 1) == CheckOne(before, c, lt, slept, p);
    hide CheckFirst;
    CheckHere(before, c, lt, slept, p);
    hide CheckOne;
    SampleDepends(s, before, c, lt, p);
    hide Sample, CounterTick;
  }

  /** The worker of c looks at its counters in this step. */
  predicate Looks(s: Sys, step: Step, c: ContainerId)
  {
    step.Tick? && step.c == c && c in s.workers && c !in s.frozen && step.p.alive && c in s.running
  }

  lemma CheckProjects(s: Sys, step: Step, lt: LimitType)
    requires IsByteSecond(lt) && step.Tick? && Looks(s, step, step.c)
    ensures CounterOf(Apply(s, step), step.c, lt) ==
            CounterTick(CounterOf(s, step.c, lt), Val(s.db.limits, (step.c, lt)), Sample(s, step.c, lt, step.p),
                        step.slept, !Works(step.p, lt, Stop))
  {
    LoopProjects(s, step.c, step.slept, step.p, lt);
    hide CheckFirst, Sample, CounterTick;
  }

  // ----- Steps that are not such a tick -----

  lemma {:induction false} EnforceEachElsewhere(s: Sys, cs: seq<ContainerId>, t: LimitType, ps: Probes,
                                                c: ContainerId, lt: LimitType)
    requires t != lt
    ensures SameInputs(s, EnforceEach(s, cs, t, ps), c, lt)
  {
    if cs != [] {
      var front, d := EnforceEach(s, cs[..|cs|-1], t, ps), cs[|cs|-1];
      EnforceEachElsewhere(s, cs[..|cs|-1], t, ps, c, lt);
      if Reached(front, d, ps) {
        EnforceElsewhere(front, d, t, ps[d], c, lt);
        hide Enforce;
        SameInputsTrans(s, front, Enforce(front, d, t, ps[d]), c, lt);
      }
    }
  }

  lemma {:induction false} ReleaseEachElsewhere(s: Sys, cs: seq<ContainerId>, t: LimitType, ps: Probes,
                                                c: ContainerId, lt: LimitType)
    requires t != lt
    ensures SameInputs(s, ReleaseEach(s, cs, t, ps), c, lt)
  {
    if cs != [] {
      var front, d := ReleaseEach(s, cs[..|cs|-1], t, ps), cs[|cs|-1];
      ReleaseEachElsewhere(s, cs[..|cs|-1], t, ps, c, lt);
      if Reached(front, d, ps) {
        ReleaseElsewhere(front, d, t, ps[d], c, lt);
        hide Release;
        SameInputsTrans(s, front, Release(front, d, t, ps[d]), c, lt);
      }
    }
  }

  lemma ScopeOneElsewhere(s: Sys, scope: Scope, t: LimitType, exceeded: bool, cs: seq<ContainerId>, ps: Probes,
                          c: ContainerId, lt: LimitType)
    requires t != lt
    ensures SameInputs(s, ScopeOne(s, scope, t, exceeded, cs, ps), c, lt)
    ensures ScopeOne(s, scope, t, exceeded, cs, ps).db == s.db
  {
    EnforceEachElsewhere(s, cs, t, ps, c, lt);
    var s1 := Block(s, scope, t, false);
    ReleaseEachElsewhere(s1.(scopeEnforced := s1.scopeEnforced - {(scope, t)}), cs, t, ps, c, lt);
    ER.ScopeOneFlags(s, scope, t, exceeded, cs, ps);
    hide EnforceEach, ReleaseEach, ER.TickKeeps;
  }

  /** A scope without a limit of the type never moves its counters. */
  lemma {:induction false} ScopeElsewhere(s: Sys, scope: Scope, order: seq<LimitType>, totals: map<LimitType, int>,
                                          cs: seq<ContainerId>, ps: Probes, c: ContainerId, lt: LimitType)
    requires Val(s.db.scopeLimits, (scope, lt)) == 0
    ensures SameInputs(s, ScopeCheck(s, scope, order, totals, cs, ps), c, lt)
    ensures ScopeCheck(s, scope, order, totals, cs, ps).db == s.db
  {
    if order != [] {
      var front, t := order[..|order|-1], order[|order|-1];
      var s1 := ScopeCheck(s, scope, front, totals, cs, ps);
      ScopeElsewhere(s, scope, front, totals, cs, ps, c, lt);
      var limit := Val(s.db.scopeLimits, (scope, t));
      if limit != 0 {
        var exceeded := Val(totals, t) >= limit;
        ScopeOneElsewhere(s1, scope, t, exceeded, cs, ps, c, lt);
        hide ScopeOne;
        SameInputsTrans(s, s1, ScopeOne(s1, scope, t, exceeded, cs, ps), c, lt);
      }
    }
  }

  lemma OtherTickElsewhere(s: Sys, step: Step, c: ContainerId, lt: LimitType)
    requires step.Tick? && !Looks(s, step, c) && IsByteSecond(lt)
    ensures CounterOf(Apply(s, step), c, lt) == CounterOf(s, c, lt)
  {
    if step.c != c {
      FirstElsewhere(s, step.c, step.slept, step.p, 0, |ALL_LIMIT_TYPES|, c, lt);
      assert CheckFirst(s, step.c, step.slept, step.p, 0) == s;
      hide CheckFirst;
    } else {
      hide CheckFirst, SyncSpending;
    }
  }

  /** A removal, or a registration, of c itself starts a new counter and is not part of these runs. */
  predicate Ordinary(s: Sys, step: Step, c: ContainerId, lt: LimitType)
  {
    && !(step.Remove? && step.c == c)
    && (step.Register? && step.c == c ==> c in s.workers)
    && (step.ScopeTick? ==> Val(s.db.scopeLimits, (step.scope, lt)) == 0)
  }

  lemma QuietStep(s: Sys, step: Step, c: ContainerId, lt: LimitType)
    requires Ordinary(s, step, c, lt) && IsByteSecond(lt) && c in s.workers && s.workers == s.db.containers.Keys
    requires !step.Tick? && !step.RestartDaemon? && !step.ScopeTick?
    ensures CounterOf(Apply(s, step), c, lt) == CounterOf(s, c, lt)
  {
    hide Check, ScopeCheck, AccumulateFirst, PauseHeld, RowsFor, WithoutScope, Members, P.GetSpending;
  }

  /** Every step that is not a look at the counter and not a restart leaves it as it is. */
  lemma OtherSteps(s: Sys, step: Step, c: ContainerId, lt: LimitType)
    requires Ordinary(s, step, c, lt) && IsByteSecond(lt) && c in s.workers && s.workers == s.db.containers.Keys
    requires !Looks(s, step, c)
    ensures CounterOf(Apply(s, step), c, lt) ==
            if step.RestartDaemon? then CounterOf(s, c, lt).(flagged := false) else CounterOf(s, c, lt)
  {
    match step
    case Tick(_, _, _) => OtherTickElsewhere(s, step, c, lt);
    case ScopeTick(scope, order, totals, cs, ps) =>
      ScopeElsewhere(s, scope, order, totals, cs, ps, c, lt);
      hide ScopeCheck;
    case RestartDaemon =>
    case _ => QuietStep(s, step, c, lt);
  }

  // ----- Runs -----

  /** The workers are those of the registered containers, and c is one of them. */
  predicate Watched(s: Sys, c: ContainerId)
  {
    c in s.workers && s.workers == s.db.containers.Keys
  }

  lemma TickWatched(s: Sys, step: Step, c: ContainerId)
    requires Watched(s, c) && (step.Tick? || step.ScopeTick?)
    ensures Watched(Apply(s, step), c)
  {
    if step.Tick? {
      ER.CheckKeeps(s, step.c, step.slept, step.p);
    } else {
      ER.ScopeCheckFlags(s, step.scope, step.order, step.totals, step.cs, step.ps);
    }
    hide Check, ScopeCheck;
  }

  lemma StepWatched(s: Sys, step: Step, c: ContainerId, lt: LimitType)
    requires Watched(s, c) && Ordinary(s, step, c, lt)
    ensures Watched(Apply(s, step), c)
  {
    if step.Tick? || step.ScopeTick? {
      TickWatched(s, step, c);
    } else {
      hide Check, ScopeCheck, AccumulateFirst, P.Restore;
    }
  }

  ghost predicate Reaches(s: Sys, steps: seq<Step>, s': Sys, c: ContainerId, lt: LimitType)
    decreases |steps|
  {
    if steps == [] then s' == s
    else Ordinary(s, steps[0], c, lt) && Reaches(Apply(s, steps[0]), steps[1..], s', c, lt)
  }

  /** What a step adds: a sample when the container is looked at, limited, awake and not stopped for the type. */
  function Added(s: Sys, step: Step, c: ContainerId, lt: LimitType): int
  {
    if Looks(s, step, c) && !step.slept && !Flagged(s, c, lt) && Val(s.db.limits, (c, lt)) != 0
    then Sample(s, c, lt, step.p) else 0
  }

  function SumAdded(s: Sys, steps: seq<Step>, c: ContainerId, lt: LimitType): int
    decreases |steps|
  {
    if steps == [] then 0 else Added(s, steps[0], c, lt) + SumAdded(Apply(s, steps[0]), steps[1..], c, lt)
  }

  lemma UsageStep(s: Sys, step: Step, c: ContainerId, lt: LimitType)
    requires Watched(s, c) && Ordinary(s, step, c, lt) && IsByteSecond(lt)
    ensures CounterOf(Apply(s, step), c, lt).usage == CounterOf(s, c, lt).usage + Added(s, step, c, lt)
  {
    hide Apply;
    if Looks(s, step, c) {
      CheckProjects(s, step, lt);
    } else {
      OtherSteps(s, step, c, lt);
    }
    hide Sample;
  }

  /** Stored byte-seconds are what was there plus the samples taken, over every run and through restarts. */
  lemma {:induction false} UsageIsSumOfSamples(s: Sys, steps: seq<Step>, s': Sys, c: ContainerId, lt: LimitType)
    requires Watched(s, c) && IsByteSecond(lt) && Reaches(s, steps, s', c, lt)
    ensures Val(s'.db.usage, (c, lt)) == Val(s.db.usage, (c, lt)) + SumAdded(s, steps, c, lt)
    decreases |steps|
  {
    if steps != [] {
      hide Apply, Ordinary, Added;
      StepWatched(s, steps[0], c, lt);
      UsageStep(s, steps[0], c, lt);
      UsageIsSumOfSamples(Apply(s, steps[0]), steps[1..], s', c, lt);
    }
  }

  /** Limit l throughout, samples between 0 and m, and stops that succeed. */
  ghost predicate Steady(s: Sys, steps: seq<Step>, c: ContainerId, lt: LimitType, l: int, m: int)
    decreases |steps|
  {
    && Val(s.db.limits, (c, lt)) == l
    && (steps != [] ==>
          && (Looks(s, steps[0], c) ==> 0 <= Sample(s, c, lt, steps[0].p) <= m && Works(steps[0].p, lt, Stop))
          && Steady(Apply(s, steps[0]), steps[1..], c, lt, l, m))
  }

  function Restarts(steps: seq<Step>): nat
    decreases |steps|
  {
    if steps == [] then 0 else (if steps[0].RestartDaemon? then 1 else 0) + Restarts(steps[1..])
  }

  /** With r restarts still to come the counter leaves room for one sample for each, and one more while unflagged. */
  predicate Room(k: Counter, bound: int, r: nat, m: int)
  {
    k.usage + r * m + (if k.flagged then 0 else m) <= bound
  }

  lemma TickKeepsRoom(k: Counter, l: int, sample: int, still: bool, bound: int, r: nat, m: int)
    requires l > 0 && 0 <= sample <= m && Room(k, bound, r, m) && l - 1 + m + r * m <= bound
    ensures Room(CounterTick(k, l, sample, still, false), bound, r, m)
  {
  }

  /** One step leaves room: a restart gives up the sample kept for it. */
  lemma StepKeepsRoom(s: Sys, step: Step, c: ContainerId, lt: LimitType, l: int, m: int, bound: int, r: nat)
    requires Watched(s, c) && IsByteSecond(lt) && Ordinary(s, step, c, lt)
    requires l > 0 && m >= 0 && Val(s.db.limits, (c, lt)) == l
    requires Looks(s, step, c) ==> 0 <= Sample(s, c, lt, step.p) <= m && Works(step.p, lt, Stop)
    requires Room(CounterOf(s, c, lt), bound, if step.RestartDaemon? then r + 1 else r, m) && l - 1 + m + r * m <= bound
    ensures Room(CounterOf(Apply(s, step), c, lt), bound, r, m)
  {
    hide Apply;
    if Looks(s, step, c) {
      CheckProjects(s, step, lt);
      TickKeepsRoom(CounterOf(s, c, lt), l, Sample(s, c, lt, step.p), step.slept, bound, r, m);
    } else {
      OtherSteps(s, step, c, lt);
      assert (r + 1) * m == r * m + m;
    }
    hide Sample, CounterTick, Ordinary, Looks;
  }

  /** However often the daemon restarts and users start the container again, a counter that began under
      its limit ends less than one sample over it, and one more for every restart. */
  lemma {:induction false} OvershootBound(s: Sys, steps: seq<Step>, s': Sys, c: ContainerId, lt: LimitType,
                                          l: int, m: int, bound: int)
    requires Watched(s, c) && IsByteSecond(lt) && Reaches(s, steps, s', c, lt)
    requires l > 0 && m >= 0 && Steady(s, steps, c, lt, l, m)
    requires Room(CounterOf(s, c, lt), bound, Restarts(steps), m) && l - 1 + m + Restarts(steps) * m <= bound
    ensures Val(s'.db.usage, (c, lt)) <= bound
    decreases |steps|
  {
    if steps != [] {
      var step, rest := steps[0], steps[1..];
      hide Apply, Sample, Ordinary, Looks, Watched;
      StepWatched(s, step, c, lt);
      assert Restarts(rest) * m <= Restarts(steps) * m by {
        SR.ScaleUp(Restarts(rest), Restarts(steps), m);
      }
      StepKeepsRoom(s, step, c, lt, l, m, bound, Restarts(rest));
      OvershootBound(Apply(s, step), rest, s', c, lt, l, m, bound);
    } else {
      assert Restarts(steps) * m == 0;
    }
  }

  /** From usage under the limit: at most l - 1 + m * (restarts + 1). */
  lemma Overshoot(s: Sys, steps: seq<Step>, s': Sys, c: ContainerId, lt: LimitType, l: int, m: int)
    requires Watched(s, c) && IsByteSecond(lt) && Reaches(s, steps, s', c, lt)
    requires l > 0 && m >= 0 && Steady(s, steps, c, lt, l, m) && Val(s.db.usage, (c, lt)) < l
    ensures Val(s'.db.usage, (c, lt)) <= l - 1 + m * (Restarts(steps) + 1)
  {
    var bound := l - 1 + m * (Restarts(steps) + 1);
    assert m * (Restarts(steps) + 1) == Restarts(steps) * m + m;
    OvershootBound(s, steps, s', c, lt, l, m, bound);
  }

  // ----- The bound is reached -----

  /** c is watched, not frozen, unflagged, limited to l, and the probe p gives samples of m and lets Docker stop it. */
  predicate Ready(s: Sys, c: ContainerId, lt: LimitType, p: Probe, l: int, m: int)
  {
    && Watched(s, c) && c !in s.frozen && !RowFrozen(s.db, c) && !Flagged(s, c, lt)
    && Val(s.db.limits, (c, lt)) == l && l > 0
    && p.alive && Sample(s, c, lt, p) == m && m >= 0 && Works(p, lt, Stop)
  }

  /** The user starts the container, a tick takes its sample, the daemon restarts, r times; then once more. */
  function Rounds(c: ContainerId, p: Probe, r: nat): seq<Step>
  {
    if r == 0 then [StartByUser(c)] + ([Tick(c, false, p)] + [])
    else [StartByUser(c)] + ([Tick(c, false, p)] + ([RestartDaemon] + Rounds(c, p, r - 1)))
  }

  /** A run from s to s' that meets the conditions of the bound. */
  ghost predicate SteadyRun(s: Sys, steps: seq<Step>, s': Sys, c: ContainerId, lt: LimitType, l: int, m: int)
  {
    Reaches(s, steps, s', c, lt) && Steady(s, steps, c, lt, l, m)
  }

  lemma Prepend(s: Sys, step: Step, rest: seq<Step>, s': Sys, c: ContainerId, lt: LimitType, l: int, m: int)
    requires Ordinary(s, step, c, lt) && SteadyRun(Apply(s, step), rest, s', c, lt, l, m)
    requires Val(s.db.limits, (c, lt)) == l
    requires Looks(s, step, c) ==> 0 <= Sample(s, c, lt, step.p) <= m && Works(step.p, lt, Stop)
    ensures SteadyRun(s, [step] + rest, s', c, lt, l, m)
    ensures Restarts([step] + rest) == (if step.RestartDaemon? then 1 else 0) + Restarts(rest)
  {
    hide Apply;
    assert ([step] + rest)[1..] == rest;
  }

  lemma ReadyTick(s: Sys, c: ContainerId, lt: LimitType, p: Probe, l: int, m: int)
    requires IsByteSecond(lt) && Ready(s, c, lt, p, l, m) && c in s.running
    ensures var s' := Apply(s, Tick(c, false, p));
            && Val(s'.db.usage, (c, lt)) == Val(s.db.usage, (c, lt)) + m
            && s'.db == s.db.(usage := s'.db.usage)
  {
    UsageStep(s, Tick(c, false, p), c, lt);
    ER.CheckKeeps(s, c, false, p);
    hide Check, Sample;
  }

  lemma ReadyAgain(s: Sys, s2: Sys, c: ContainerId, lt: LimitType, p: Probe, l: int, m: int)
    requires Ready(s, c, lt, p, l, m) && s2.db == s.db.(usage := s2.db.usage)
    ensures Ready(Apply(s2, RestartDaemon), c, lt, p, l, m)
    ensures Apply(s2, RestartDaemon).db == s2.db && Val(s2.db.limits, (c, lt)) == l
  {
    SampleDepends(s, Apply(s2, RestartDaemon), c, lt, p);
    hide Sample, P.Restore;
  }

  lemma ReadyStart(s: Sys, c: ContainerId, lt: LimitType, p: Probe, l: int, m: int)
    requires Ready(s, c, lt, p, l, m)
    ensures var s1 := Apply(s, StartByUser(c));
            Ready(s1, c, lt, p, l, m) && c in s1.running && s1.db == s.db
  {
    SampleDepends(s, Apply(s, StartByUser(c)), c, lt, p);
    hide Sample;
  }

  lemma StartAndTick(s: Sys, c: ContainerId, lt: LimitType, p: Probe, l: int, m: int)
    requires IsByteSecond(lt) && Ready(s, c, lt, p, l, m)
    ensures var s2 := Apply(Apply(s, StartByUser(c)), Tick(c, false, p));
            && Val(s2.db.usage, (c, lt)) == Val(s.db.usage, (c, lt)) + m
            && Val(s2.db.limits, (c, lt)) == l
            && Ready(Apply(s2, RestartDaemon), c, lt, p, l, m)
            && Apply(s2, RestartDaemon).db == s2.db
  {
    var s1 := Apply(s, StartByUser(c));
    ReadyStart(s, c, lt, p, l, m);
    hide Apply, Ready;
    ReadyTick(s1, c, lt, p, l, m);
    ReadyAgain(s1, Apply(s1, Tick(c, false, p)), c, lt, p, l, m);
  }

  lemma PrependStart(s: Sys, rest: seq<Step>, s': Sys, c: ContainerId, lt: LimitType, p: Probe, l: int, m: int)
    requires Ready(s, c, lt, p, l, m)
    requires SteadyRun(Apply(Apply(s, StartByUser(c)), Tick(c, false, p)), rest, s', c, lt, l, m)
    ensures SteadyRun(s, [StartByUser(c)] + ([Tick(c, false, p)] + rest), s', c, lt, l, m)
    ensures Restarts([StartByUser(c)] + ([Tick(c, false, p)] + rest)) == Restarts(rest)
  {
    ReadyStart(s, c, lt, p, l, m);
    hide Apply, SteadyRun, Restarts;
    Prepend(Apply(s, StartByUser(c)), Tick(c, false, p), rest, s', c, lt, l, m);
    Prepend(s, StartByUser(c), [Tick(c, false, p)] + rest, s', c, lt, l, m);
  }

  lemma OneMore(u: int, m: int, r: int)
    ensures u + m + m * r == u + m * (r + 1)
  {
  }

  lemma NothingMore(s: Sys, c: ContainerId, lt: LimitType, l: int, m: int)
    requires Val(s.db.limits, (c, lt)) == l
    ensures SteadyRun(s, [], s, c, lt, l, m)
  {
  }

  lemma {:induction false} RoundsRun(s: Sys, c: ContainerId, lt: LimitType, p: Probe, l: int, m: int, r: nat)
      returns (s': Sys)
    requires IsByteSecond(lt) && Ready(s, c, lt, p, l, m)
    ensures SteadyRun(s, Rounds(c, p, r), s', c, lt, l, m) && Restarts(Rounds(c, p, r)) == r
    ensures Val(s'.db.usage, (c, lt)) == Val(s.db.usage, (c, lt)) + m * (r + 1)
    decreases r
  {
    hide Apply, Ready, SteadyRun, IsByteSecond, Sample;
    StartAndTick(s, c, lt, p, l, m);
    var s2 := Apply(Apply(s, StartByUser(c)), Tick(c, false, p));
    if r == 0 {
      s' := s2;
      NothingMore(s2, c, lt, l, m);
      hide Val;
      PrependStart(s, [], s', c, lt, p, l, m);
    } else {
      hide Val, Restarts;
      s' := RoundsRun(Apply(s2, RestartDaemon), c, lt, p, l, m, r - 1);
      Prepend(s2, RestartDaemon, Rounds(c, p, r - 1), s', c, lt, l, m);
      PrependStart(s, [RestartDaemon] + Rounds(c, p, r - 1), s', c, lt, p, l, m);
      OneMore(Val(s.db.usage, (c, lt)), m, r);
    }
  }

  /** The bound is reached, for every number of restarts, by a run that meets its conditions. */
  lemma OvershootIsReached(s: Sys, c: ContainerId, lt: LimitType, p: Probe, l: int, m: int, r: nat)
      returns (steps: seq<Step>, s': Sys)
    requires IsByteSecond(lt) && Ready(s, c, lt, p, l, m) && Val(s.db.usage, (c, lt)) == l - 1
    ensures Watched(s, c) && Reaches(s, steps, s', c, lt) && Steady(s, steps, c, lt, l, m) && Restarts(steps) == r
    ensures Val(s'.db.usage, (c, lt)) == l - 1 + m * (Restarts(steps) + 1)
  {
    steps := Rounds(c, p, r);
    s' := RoundsRun(s, c, lt, p, l, m, r);
    hide Sample, Reaches, Steady;
  }
}
