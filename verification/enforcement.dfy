/**
 The enforcement manager as it runs: flags, the Docker daemon it drives, the loops over limit types and
 over the containers of a scope. Each method's whole effect is a function of EnforcementState.
 */
module EnforcementManager {
  import opened Model
  import S = StoreState
  import T = StoreTotals
  import P = SpendingState
  import E = EnforcementState
  import ER = EnforcementRuns
  import StoreTables
  import SpendingProxy

  datatype DockerReply = Ok | AlreadyPaused | Refused

  /** Docker, as far as pausing and stopping go. */
  class Docker {
    var running: set<ContainerId>
    var paused: set<ContainerId>

    constructor (running: set<ContainerId>, paused: set<ContainerId>)
      ensures this.running == running && this.paused == paused
    {
      this.running, this.paused := running, paused;
    }

    method Pause(c: ContainerId, fails: bool) returns (r: DockerReply)
      modifies `paused
      ensures r == if fails then Refused else if c in old(paused) then AlreadyPaused else Ok
      ensures paused == if fails then old(paused) else old(paused) + {c}
    {
      if fails {
        return Refused;
      }
      if c in paused {
        assert paused + {c} == paused;
        return AlreadyPaused;
      }
      paused := paused + {c};
      return Ok;
    }

    method Unpause(c: ContainerId, fails: bool) returns (r: DockerReply)
      modifies `paused
      ensures r == if fails then Refused else Ok
      ensures paused == if fails then old(paused) else old(paused) - {c}
    {
      if fails {
        return Refused;
      }
      paused := paused - {c};
      return Ok;
    }

    method Stop(c: ContainerId, fails: bool) returns (r: DockerReply)
      modifies `running
      ensures r == if fails then Refused else Ok
      ensures running == if fails then old(running) else old(running) - {c}
    {
      if fails {
        return Refused;
      }
      running := running - {c};
      return Ok;
    }

    /** An inspection that fails reads as "not paused". */
    method IsPaused(c: ContainerId, fails: bool) returns (isPaused: bool)
      ensures isPaused <==> c in paused && !fails
    {
      isPaused := c in paused && !fails;
    }
  }

  class Manager {
    const store: StoreTables.Store
    const proxy: SpendingProxy.SpendingTracker
    const docker: Docker
    var workers: set<ContainerId>
    var enforced: set<(ContainerId, LimitType)>
    var frozen: set<ContainerId>
    var scopeEnforced: set<(Scope, LimitType)>

    function View(): E.Sys
      reads this, store, proxy, docker
    {
      E.Sys(store.View(), proxy.View(), docker.running, docker.paused, workers, enforced, frozen, scopeEnforced)
    }

    constructor (store: StoreTables.Store, proxy: SpendingProxy.SpendingTracker, docker: Docker)
      ensures this.store == store && this.proxy == proxy && this.docker == docker
      ensures View() == E.Sys(store.View(), proxy.View(), docker.running, docker.paused, {}, {}, {}, {})
    {
      this.store, this.proxy, this.docker := store, proxy, docker;
      workers, enforced, frozen, scopeEnforced := {}, {}, {}, {};
    }

    // ----- Workers -----

    method StartContainer(c: ContainerId)
      modifies `workers, `enforced, `frozen
      ensures View() == E.StartContainer(old(View()), c)
    {
      if c in workers {
        return;
      }
      workers := workers + {c};
      enforced := enforced - E.Flags(enforced, c);
      if c in store.containers && store.containers[c].frozen {
        frozen := frozen + {c};
      } else {
        frozen := frozen - {c};
      }
    }

    method StopContainer(c: ContainerId)
      modifies `workers, `enforced, `frozen
      ensures View() == E.StopContainer(old(View()), c)
    {
      if c in workers {
        workers := workers - {c};
        enforced := enforced - E.Flags(enforced, c);
        frozen := frozen - {c};
      }
    }

    /** What a fresh manager does with the containers in the store. */
    method StartAll()
      requires workers == {} && enforced == {} && frozen == {}
      modifies `workers, `enforced, `frozen
      ensures workers == store.containers.Keys && enforced == {}
      ensures frozen == set c | c in store.containers && store.containers[c].frozen
    {
      var rest := store.containers.Keys;
      while rest != {}
        invariant rest <= store.containers.Keys && workers == store.containers.Keys - rest && enforced == {}
        invariant frozen == set c | c in store.containers && c !in rest && store.containers[c].frozen
        decreases rest
      {
        var c :| c in rest;
        StartContainer(c);
        assert E.Flags({}, c) == {};
        rest := rest - {c};
      }
    }

    // ----- One container, one limit type -----

    method ScopeHolds(c: ContainerId, lt: LimitType) returns (held: bool)
      ensures held <==> E.ScopeHolds(View(), c, lt)
    {
      if (Host, lt) in scopeEnforced {
        return true;
      }
      if c in store.containers && store.containers[c].segment.Some? {
        return (Segment(store.containers[c].segment.value), lt) in scopeEnforced;
      }
      return false;
    }

    method HeldFor(c: ContainerId, lt: LimitType) returns (held: bool)
      ensures held <==> E.HeldFor(View(), c, lt)
    {
      if (c, lt) in enforced {
        return true;
      }
      held := ScopeHolds(c, lt);
    }

    method IsOtherPauseActive(c: ContainerId, except: LimitType) returns (active: bool)
      ensures active <==> E.OtherPauseActive(View(), c, except)
    {
      hide E.HeldFor;
      if c in frozen {
        return true;
      }
      var pauseTypes := [Cpu, Disk];
      var i := 0;
      while i < 2
        invariant 0 <= i <= 2
        invariant forall j | 0 <= j < i :: pauseTypes[j] == except || !E.HeldFor(View(), c, pauseTypes[j])
      {
        if pauseTypes[i] != except {
          var held := HeldFor(c, pauseTypes[i]);
          if held {
            return true;
          }
        }
        i := i + 1;
      }
      assert pauseTypes[0] == Cpu && pauseTypes[1] == Disk;
      return false;
    }

    /** The Docker or cgroup call that enforces a type. */
    method Act(c: ContainerId, lt: LimitType, p: E.Probe) returns (reply: DockerReply)
      modifies docker
      ensures reply == Refused <==> E.Failed(lt, E.EnforcingCall(lt, p.cgroup), p)
      ensures docker.paused == if reply != Refused && IsPauseType(lt) then old(docker.paused) + {c} else old(docker.paused)
      ensures docker.running ==
              if reply != Refused && IsByteSecond(lt) then old(docker.running) - {c} else old(docker.running)
    {
      reply := Ok;
      match lt {
        case Cpu => reply := docker.Pause(c, (Cpu, E.Pause) in p.fails);
        case Disk => reply := docker.Pause(c, (Disk, E.Pause) in p.fails);
        case Ram => if (Ram, E.UpdateMemory) in p.fails { reply := Refused; }
        case Net => if (Net, E.Disconnect) in p.fails { reply := Refused; }
        case DiskIoBytes => if p.cgroup && (lt, E.Throttle) in p.fails { reply := Refused; }
        case DiskIoOps => if p.cgroup && (lt, E.Throttle) in p.fails { reply := Refused; }
        case Spending =>
        case Other(_) =>
        case _ => reply := docker.Stop(c, (lt, E.Stop) in p.fails);
      }
    }

    method Enforce(c: ContainerId, lt: LimitType, p: E.Probe)
      modifies `enforced, docker
      ensures View() == E.Enforce(old(View()), c, lt, p)
    {
      var reply := Act(c, lt, p);
      hide E.Failed, E.EnforcingCall;
      if reply == Refused {
        return;
      }
      enforced := enforced + {(c, lt)};
    }

    method Release(c: ContainerId, lt: LimitType, p: E.Probe)
      modifies `enforced, docker`paused
      ensures View() == E.Release(old(View()), c, lt, p)
    {
      var reply := Ok;
      match lt {
        case Cpu => reply := ReleasePause(c, lt, p);
        case Disk => reply := ReleasePause(c, lt, p);
        case Ram => if (Ram, E.UpdateMemory) in p.fails { reply := Refused; }
        case Net => if (Net, E.Reconnect) in p.fails { reply := Refused; }
        case DiskIoBytes => if p.cgroup && (lt, E.Unthrottle) in p.fails { reply := Refused; }
        case DiskIoOps => if p.cgroup && (lt, E.Unthrottle) in p.fails { reply := Refused; }
        case _ =>
      }
      if reply == Refused {
        return;
      }
      enforced := enforced - {(c, lt)};
    }

    method ReleasePause(c: ContainerId, lt: LimitType, p: E.Probe) returns (reply: DockerReply)
      modifies docker`paused
      ensures var unpause := E.SeenPaused(old(View()), c, lt, p) && !E.OtherPauseActive(old(View()), c, lt);
              && reply == (if unpause && (lt, E.Unpause) in p.fails then Refused else Ok)
              && docker.paused == (if unpause && reply == Ok then old(docker.paused) - {c} else old(docker.paused))
    {
      reply := Ok;
      var paused := docker.IsPaused(c, (lt, E.Inspect) in p.fails);
      if paused {
        var other := IsOtherPauseActive(c, lt);
        if !other {
          reply := docker.Unpause(c, (lt, E.Unpause) in p.fails);
        }
      }
    }

    method CurrentUsage(c: ContainerId, lt: LimitType, p: E.Probe) returns (usage: Option<int>)
      ensures usage == E.CurrentUsage(View(), c, lt, p)
    {
      match lt {
        case Cpu =>
          if !p.cgroup || Cpu !in p.readings { return None; }
          return Some(TruncDiv(p.readings[Cpu], 1_000_000));
        case Ram => return if p.cgroup && Ram in p.readings then Some(p.readings[Ram]) else None;
        case Disk => return if Disk in p.readings then Some(p.readings[Disk]) else None;
        case Net => return if p.cgroup then Some(S.Val(store.usage, (c, Net))) else None;
        case DiskIoBytes => return if p.cgroup && lt in p.readings then Some(p.readings[lt]) else None;
        case DiskIoOps => return if p.cgroup && lt in p.readings then Some(p.readings[lt]) else None;
        case Spending =>
          var spent := proxy.GetSpending(c);
          return Some(spent);
        case _ => return None;
      }
    }

    method ByteSecondSource(c: ContainerId, lt: LimitType, p: E.Probe) returns (v: int)
      ensures v == E.Sample(View(), c, lt, p)
    {
      match lt {
        case RamUsageBsec => v := if p.cgroup && lt in p.readings then p.readings[lt] else 0;
        case DiskUsageBsec => v := if lt in p.readings then p.readings[lt] else 0;
        case RamRequestBsec => v := store.GetLimit(c, Ram);
        case DiskRequestBsec => v := store.GetLimit(c, Disk);
        case _ => v := 0;
      }
    }

    /** Reads the usage of one type and writes it to the store; false when it cannot be read. */
    method Meter(c: ContainerId, lt: LimitType, slept: bool, p: E.Probe) returns (ok: bool)
      modifies store`usage
      ensures ok <==> E.Metered(old(View()), c, lt, slept, p).Some?
      ensures View() == if ok then old(View()).(db := E.Metered(old(View()), c, lt, slept, p).value) else old(View())
    {
      hide E.Sample, E.CurrentUsage;
      if IsByteSecond(lt) {
        if (c, lt) !in enforced && !slept && c !in frozen {
          var source := ByteSecondSource(c, lt, p);
          store.AddUsage(c, lt, source);
        }
        return true;
      }
      var usage := CurrentUsage(c, lt, p);
      if usage.None? {
        return false;
      }
      store.SetUsage(c, lt, usage.value);
      return true;
    }

    /** Enforces, releases or reconciles one type. */
    method Decide(c: ContainerId, lt: LimitType, exceeded: bool, p: E.Probe)
      modifies `enforced, docker
      ensures View() == E.Decide(old(View()), c, lt, exceeded, p)
    {
      hide E.Enforce, E.Release;
      var wasEnforced := (c, lt) in enforced;
      if exceeded && !wasEnforced {
        Enforce(c, lt, p);
      } else if !exceeded && wasEnforced {
        Release(c, lt, p);
      } else if !exceeded && !wasEnforced {
        var paused := docker.IsPaused(c, (lt, E.Inspect) in p.fails);
        if IsPauseType(lt) && paused {
          Release(c, lt, p);
        }
      }
    }

    method CheckOne(c: ContainerId, lt: LimitType, slept: bool, p: E.Probe)
      modifies `enforced, docker, store`usage
      ensures View() == E.CheckOne(old(View()), c, lt, slept, p)
    {
      hide E.Decide, E.Metered;
      var limit := store.GetLimit(c, lt);
      if limit == 0 {
        return;
      }
      var ok := Meter(c, lt, slept, p);
      if ok {
        Decide(c, lt, S.Val(store.usage, (c, lt)) >= limit, p);
      }
    }

    /** One tick of a worker: every limit type in turn, then the spending total. */
    method CheckAndEnforce(c: ContainerId, slept: bool, p: E.Probe)
      modifies `enforced, docker, store`usage
      ensures View() == E.Check(old(View()), c, slept, p)
    {
      hide E.CheckOne;
      if c in frozen {
        return;
      }
      if !p.alive || c !in docker.running {
        return;
      }
      var i := 0;
      while i < |ALL_LIMIT_TYPES|
        invariant 0 <= i <= |ALL_LIMIT_TYPES|
        invariant View() == E.CheckFirst(old(View()), c, slept, p, i)
      {
        CheckOne(c, ALL_LIMIT_TYPES[i], slept, p);
        i := i + 1;
      }
      var spent := proxy.GetSpending(c);
      if spent > 0 {
        store.SetUsage(c, Spending, spent);
      }
    }

    // ----- Scopes -----

    method ScopeEnforce(scope: Scope, lt: LimitType, containers: seq<ContainerId>, ps: E.Probes)
      modifies `enforced, `scopeEnforced, docker, proxy`scopeSpendingBlocked
      ensures View() == E.ScopeEnforce(old(View()), scope, lt, containers, ps)
    {
      hide E.Enforce;
      var i := 0;
      while i < |containers|
        invariant 0 <= i <= |containers|
        invariant View() == E.EnforceEach(old(View()), containers[..i], lt, ps)
      {
        assert containers[..i+1][..i] == containers[..i];
        var c := containers[i];
        if c in docker.running && c in ps && ps[c].alive {
          Enforce(c, lt, ps[c]);
        }
        i := i + 1;
      }
      assert containers[..i] == containers;
      hide E.EnforceEach;
      if lt == Spending {
        proxy.SetScopeSpendingBlocked(scope, true);
      }
      scopeEnforced := scopeEnforced + {(scope, lt)};
    }

    method ScopeRelease(scope: Scope, lt: LimitType, containers: seq<ContainerId>, ps: E.Probes)
      modifies `enforced, `scopeEnforced, docker`paused, proxy`scopeSpendingBlocked
      ensures View() == E.ScopeRelease(old(View()), scope, lt, containers, ps)
    {
      hide E.Release;
      if lt == Spending {
        proxy.SetScopeSpendingBlocked(scope, false);
      }
      scopeEnforced := scopeEnforced - {(scope, lt)};
      ghost var cleared := View();
      var i := 0;
      while i < |containers|
        invariant 0 <= i <= |containers|
        invariant View() == E.ReleaseEach(cleared, containers[..i], lt, ps)
      {
        assert containers[..i+1][..i] == containers[..i];
        var c := containers[i];
        if c in docker.running && c in ps && ps[c].alive {
          Release(c, lt, ps[c]);
        }
        i := i + 1;
      }
      assert containers[..i] == containers;
    }

    /** The usage rows of one container, added to the totals one by one. */
    method AddRows(totals: map<LimitType, int>, c: ContainerId) returns (sum: map<LimitType, int>)
      ensures forall lt :: S.Val(sum, lt) == S.Val(totals, lt) + S.Val(store.usage, (c, lt))
    {
      sum := totals;
      var rows := set k | k in store.usage && k.0 == c;
      var rest := rows;
      while rest != {}
        invariant rest <= rows
        invariant forall lt :: S.Val(sum, lt) ==
                    S.Val(totals, lt) + (if (c, lt) in rest then 0 else S.Val(store.usage, (c, lt)))
        decreases rest
      {
        var k :| k in rest;
        sum := S.AddTo(sum, k.1, store.usage[k]);
        rest := rest - {k};
      }
    }

    method AddAccumulated(totals: map<LimitType, int>, scope: Scope) returns (sum: map<LimitType, int>)
      ensures forall lt :: S.Val(sum, lt) == S.Val(totals, lt) + S.Val(store.scopeAccum, (scope, lt))
    {
      sum := totals;
      var rows := set k | k in store.scopeAccum && k.0 == scope;
      var rest := rows;
      while rest != {}
        invariant rest <= rows
        invariant forall lt :: S.Val(sum, lt) ==
                    S.Val(totals, lt) + (if (scope, lt) in rest then 0 else S.Val(store.scopeAccum, (scope, lt)))
        decreases rest
      {
        var k :| k in rest;
        sum := S.AddTo(sum, k.1, store.scopeAccum[k]);
        rest := rest - {k};
      }
    }

    /** The usage of every member and of the members already removed, type by type. */
    method TotalUsage(scope: Scope, containers: seq<ContainerId>) returns (totals: map<LimitType, int>)
      requires Distinct(containers) && forall c :: c in containers <==> c in S.ListByScope(store.View(), scope)
      ensures forall lt :: S.Val(totals, lt) == T.Total(store.View(), scope, lt)
    {
      totals := map[];
      var i := 0;
      ghost var done: set<ContainerId> := {};
      while i < |containers|
        invariant 0 <= i <= |containers|
        invariant forall c :: c in done <==> c in containers[..i]
        invariant forall lt :: S.Val(totals, lt) == T.Sum(store.usage, done, lt)
      {
        var c := containers[i];
        assert containers[..i+1] == containers[..i] + [c];
        forall lt ensures T.Sum(store.usage, done + {c}, lt) ==
                          T.Sum(store.usage, done, lt) + S.Val(store.usage, (c, lt)) {
          T.SumAdd(store.usage, done, lt, c);
        }
        totals := AddRows(totals, c);
        done, i := done + {c}, i + 1;
      }
      assert containers[..i] == containers;
      assert done == S.ListByScope(store.View(), scope);
      totals := AddAccumulated(totals, scope);
    }

    /** One tick of a scope: sum first, then look at every limited type. */
    method CheckScopeEnforcement(scope: Scope, containers: seq<ContainerId>, ps: E.Probes)
      returns (ghost order: seq<LimitType>, ghost totals: map<LimitType, int>)
      requires Distinct(containers) && forall c :: c in containers <==> c in S.ListByScope(store.View(), scope)
      modifies `enforced, `scopeEnforced, docker, proxy`scopeSpendingBlocked
      ensures ER.FullScopeTick(old(View()), scope, order, totals, containers)
      ensures View() == E.ScopeCheck(old(View()), scope, order, totals, containers, ps)
    {
      var usage := TotalUsage(scope, containers);
      totals := usage;
      order := CheckScopeTypes(scope, usage, containers, ps);
    }

    /** The limited types of a scope, in whatever order the map yields them. */
    method CheckScopeTypes(scope: Scope, usage: map<LimitType, int>, containers: seq<ContainerId>, ps: E.Probes)
      returns (ghost order: seq<LimitType>)
      modifies `enforced, `scopeEnforced, docker, proxy`scopeSpendingBlocked
      ensures forall lt :: lt in order <==> (scope, lt) in store.scopeLimits
      ensures View() == E.ScopeCheck(old(View()), scope, order, usage, containers, ps)
    {
      hide E.ScopeOne;
      order := [];
      ghost var start := View();
      var limited := set k | k in store.scopeLimits && k.0 == scope;
      var rest := limited;
      while rest != {}
        invariant rest <= limited
        invariant forall lt :: lt in order <==> (scope, lt) in limited - rest
        invariant View() == E.ScopeCheck(start, scope, order, usage, containers, ps)
        decreases rest
      {
        var k :| k in rest;
        E.ScopeCheckNext(start, scope, order, k.1, usage, containers, ps);
        hide E.ScopeCheck;
        CheckScopeType(scope, k.1, S.Val(usage, k.1), containers, ps);
        order, rest := order + [k.1], rest - {k};
      }
    }

    method CheckScopeType(scope: Scope, lt: LimitType, usage: int, containers: seq<ContainerId>, ps: E.Probes)
      modifies `enforced, `scopeEnforced, docker, proxy`scopeSpendingBlocked
      ensures var limit := S.Val(old(store.View()).scopeLimits, (scope, lt));
              View() == if limit == 0 then old(View())
                        else E.ScopeOne(old(View()), scope, lt, usage >= limit, containers, ps)
    {
      var limit := S.Val(store.scopeLimits, (scope, lt));
      if limit == 0 {
        return;
      }
      Follow(scope, lt, usage >= limit, containers, ps);
    }

    method Follow(scope: Scope, lt: LimitType, exceeded: bool, containers: seq<ContainerId>, ps: E.Probes)
      modifies `enforced, `scopeEnforced, docker, proxy`scopeSpendingBlocked
      ensures View() == E.ScopeOne(old(View()), scope, lt, exceeded, containers, ps)
    {
      hide E.ScopeEnforce, E.ScopeRelease;
      var wasEnforced := (scope, lt) in scopeEnforced;
      if exceeded && !wasEnforced {
        ScopeEnforce(scope, lt, containers, ps);
      } else if !exceeded && wasEnforced {
        ScopeRelease(scope, lt, containers, ps);
      }
    }

    // ----- Freezing -----

    method Freeze(c: ContainerId, fails: set<E.Call>) returns (answer: E.Answer)
      modifies `frozen, docker`paused, store`containers
      ensures (View(), answer) == E.Freeze(old(View()), c, fails)
    {
      if c !in workers {
        return E.NotTracked;
      }
      if c in frozen {
        return E.Done;
      }
      var reply := docker.Pause(c, E.Pause in fails);
      if reply == Refused {
        return E.DockerError;
      }
      store.SetFrozen(c, true);
      frozen := frozen + {c};
      return E.Done;
    }

    method Unfreeze(c: ContainerId, fails: set<E.Call>) returns (answer: E.Answer)
      modifies `frozen, docker`paused, store`containers
      ensures (View(), answer) == E.Unfreeze(old(View()), c, fails)
    {
      if c !in workers {
        return E.NotTracked;
      }
      if c !in frozen {
        return E.Done;
      }
      store.SetFrozen(c, false);
      frozen := frozen - {c};
      var held := (c, Cpu) in enforced || (c, Disk) in enforced;
      if !held {
        var cpu := ScopeHolds(c, Cpu);
        var disk := ScopeHolds(c, Disk);
        held := cpu || disk;
      }
      if held {
        return E.StillEnforced;
      }
      var paused := docker.IsPaused(c, E.Inspect in fails);
      if paused {
        var reply := docker.Unpause(c, E.Unpause in fails);
        if reply == Refused {
          return E.DockerError;
        }
      }
      return E.Done;
    }
  }
}
