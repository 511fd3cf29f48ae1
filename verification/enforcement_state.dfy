/**
 What the enforcement manager does to its flags, to Docker's one "paused" bit per container and to the
 usage table. One function per method; calls that fail are inputs.
 */
module EnforcementState {
  import opened Model
  import opened StoreState
  import opened SpendingState

  /** Docker and cgroup calls that may fail. */
  datatype Call = Inspect | Pause | Unpause | UpdateMemory | Disconnect | Reconnect | Throttle | Unthrottle | Stop

  /** What the outside answers while one container is looked at, type by type. */
  datatype Probe = Probe(
    alive: bool,                       // the running check got an answer
    cgroup: bool,                      // the cgroup path was found
    readings: map<LimitType, int>,     // CPU microseconds, bytes or operations, where they can be read
    fails: set<(LimitType, Call)>)     // the calls that fail while that type is looked at

  datatype Sys = Sys(
    db: Db,
    proxy: Tracker,
    running: set<ContainerId>,                 // Docker
    paused: set<ContainerId>,                  // Docker
    workers: set<ContainerId>,
    enforced: set<(ContainerId, LimitType)>,   // flags that are set
    frozen: set<ContainerId>,
    scopeEnforced: set<(Scope, LimitType)>)

  predicate Flagged(s: Sys, c: ContainerId, lt: LimitType)
  {
    (c, lt) in s.enforced
  }

  /** The scopes of c above the container itself hold it for lt. */
  predicate ScopeHolds(s: Sys, c: ContainerId, lt: LimitType)
  {
    || (Host, lt) in s.scopeEnforced
    || (SegmentOf(s.db, c).Some? && (Segment(SegmentOf(s.db, c).value), lt) in s.scopeEnforced)
  }

  predicate HeldFor(s: Sys, c: ContainerId, lt: LimitType)
  {
    Flagged(s, c, lt) || ScopeHolds(s, c, lt)
  }

  predicate OtherPauseActive(s: Sys, c: ContainerId, except: LimitType)
  {
    || c in s.frozen
    || (except != Cpu && HeldFor(s, c, Cpu))
    || (except != Disk && HeldFor(s, c, Disk))
  }

  predicate Works(p: Probe, lt: LimitType, call: Call)
  {
    (lt, call) !in p.fails
  }

  predicate SeenPaused(s: Sys, c: ContainerId, lt: LimitType, p: Probe)
  {
    c in s.paused && Works(p, lt, Inspect)
  }

  // ----- One container, one limit type -----

  function SetFlag(s: Sys, c: ContainerId, lt: LimitType): Sys
  {
    s.(enforced := s.enforced + {(c, lt)})
  }

  function ClearFlag(s: Sys, c: ContainerId, lt: LimitType): Sys
  {
    s.(enforced := s.enforced - {(c, lt)})
  }

  /** The call that enforces a type, if it needs one. */
  function EnforcingCall(lt: LimitType, cgroup: bool): Option<Call>
  {
    match lt
    case Cpu => Some(Pause)
    case Disk => Some(Pause)
    case Ram => Some(UpdateMemory)
    case Net => Some(Disconnect)
    case DiskIoBytes => if cgroup then Some(Throttle) else None
    case DiskIoOps => if cgroup then Some(Throttle) else None
    case Spending => None
    case Other(_) => None
    case _ => Some(Stop)
  }

  function ReleasingCall(lt: LimitType, cgroup: bool): Option<Call>
  {
    match lt
    case Ram => Some(UpdateMemory)
    case Net => Some(Reconnect)
    case DiskIoBytes => if cgroup then Some(Unthrottle) else None
    case DiskIoOps => if cgroup then Some(Unthrottle) else None
    case _ => None
  }

  predicate Failed(lt: LimitType, call: Option<Call>, p: Probe)
  {
    call.Some? && !Works(p, lt, call.value)
  }

  /** Pausing a paused container counts as success; a failed call leaves the flag for the next tick. */
  function Enforce(s: Sys, c: ContainerId, lt: LimitType, p: Probe): Sys
  {
    if Failed(lt, EnforcingCall(lt, p.cgroup), p) then s
    else if IsPauseType(lt) then SetFlag(s, c, lt).(paused := s.paused + {c})
    else if IsByteSecond(lt) then SetFlag(s, c, lt).(running := s.running - {c})
    else SetFlag(s, c, lt)
  }

  function Release(s: Sys, c: ContainerId, lt: LimitType, p: Probe): Sys
  {
    if IsPauseType(lt) then
      if SeenPaused(s, c, lt, p) && !OtherPauseActive(s, c, lt) then
        if !Works(p, lt, Unpause) then s else ClearFlag(s, c, lt).(paused := s.paused - {c})
      else ClearFlag(s, c, lt)
    else if Failed(lt, ReleasingCall(lt, p.cgroup), p) then s
    else ClearFlag(s, c, lt)
  }

  /** After a restart the flags are gone but Docker still knows. */
  predicate ActuallyEnforced(s: Sys, c: ContainerId, lt: LimitType, p: Probe)
  {
    IsPauseType(lt) && SeenPaused(s, c, lt, p)
  }

  function Read(p: Probe, lt: LimitType): Option<int>
  {
    if lt in p.readings then Some(p.readings[lt]) else None
  }

  function ReadCgroup(p: Probe, lt: LimitType): Option<int>
  {
    if p.cgroup then Read(p, lt) else None
  }

  function CurrentUsage(s: Sys, c: ContainerId, lt: LimitType, p: Probe): Option<int>
  {
    match lt
    case Cpu => (match ReadCgroup(p, Cpu) case Some(micros) => Some(TruncDiv(micros, 1_000_000)) case None => None)
    case Ram => ReadCgroup(p, Ram)
    case Disk => Read(p, Disk)
    case Net => if p.cgroup then Some(Val(s.db.usage, (c, Net))) else None
    case DiskIoBytes => ReadCgroup(p, DiskIoBytes)
    case DiskIoOps => ReadCgroup(p, DiskIoOps)
    case Spending => Some(GetSpending(s.proxy, c))
    case _ => None
  }

  function OrZero(v: Option<int>): int
  {
    if v.Some? then v.value else 0
  }

  /** What one tick adds to a byte-second counter. */
  function Sample(s: Sys, c: ContainerId, lt: LimitType, p: Probe): int
  {
    match lt
    case RamUsageBsec => OrZero(ReadCgroup(p, RamUsageBsec))
    case DiskUsageBsec => OrZero(Read(p, DiskUsageBsec))
    case RamRequestBsec => Val(s.db.limits, (c, Ram))
    case DiskRequestBsec => Val(s.db.limits, (c, Disk))
    case _ => 0
  }

  /** The usage a tick sees for one type, and the table with it written; None when it cannot be read. */
  function Metered(s: Sys, c: ContainerId, lt: LimitType, slept: bool, p: Probe): Option<Db>
  {
    if IsByteSecond(lt) then
      if Flagged(s, c, lt) || slept || c in s.frozen then Some(s.db)
      else Some(AddUsage(s.db, c, lt, Sample(s, c, lt, p)))
    else match CurrentUsage(s, c, lt, p)
      case None => None
      case Some(u) => Some(SetUsage(s.db, c, lt, u))
  }

  function Decide(s: Sys, c: ContainerId, lt: LimitType, exceeded: bool, p: Probe): Sys
  {
    if exceeded && !Flagged(s, c, lt) then Enforce(s, c, lt, p)
    else if !exceeded && (Flagged(s, c, lt) || ActuallyEnforced(s, c, lt, p)) then Release(s, c, lt, p)
    else s
  }

  function CheckOne(s: Sys, c: ContainerId, lt: LimitType, slept: bool, p: Probe): Sys
  {
    var limit := Val(s.db.limits, (c, lt));
    var db := Metered(s, c, lt, slept, p);
    if limit == 0 || db.None? then s
    else Decide(s.(db := db.value), c, lt, Val(db.value.usage, (c, lt)) >= limit, p)
  }

  function CheckFirst(s: Sys, c: ContainerId, slept: bool, p: Probe, n: nat): Sys
    requires n <= |ALL_LIMIT_TYPES|
  {
    if n == 0 then s else CheckOne(CheckFirst(s, c, slept, p, n - 1), c, ALL_LIMIT_TYPES[n-1], slept, p)
  }

  function SyncSpending(s: Sys, c: ContainerId): Sys
  {
    var spent := GetSpending(s.proxy, c);
    if spent > 0 then s.(db := SetUsage(s.db, c, Spending, spent)) else s
  }

  /** One tick of the worker of c. */
  function Check(s: Sys, c: ContainerId, slept: bool, p: Probe): Sys
  {
    if c in s.frozen || !p.alive || c !in s.running then s
    else SyncSpending(CheckFirst(s, c, slept, p, |ALL_LIMIT_TYPES|), c)
  }

  // ----- Scopes -----

  type Probes = map<ContainerId, Probe>

  predicate Reached(s: Sys, c: ContainerId, ps: Probes)
  {
    c in s.running && c in ps && ps[c].alive
  }

  function EnforceEach(s: Sys, cs: seq<ContainerId>, lt: LimitType, ps: Probes): Sys
  {
    if cs == [] then s
    else
      var s' := EnforceEach(s, cs[..|cs|-1], lt, ps);
      var c := cs[|cs|-1];
      if Reached(s', c, ps) then Enforce(s', c, lt, ps[c]) else s'
  }

  function ReleaseEach(s: Sys, cs: seq<ContainerId>, lt: LimitType, ps: Probes): Sys
  {
    if cs == [] then s
    else
      var s' := ReleaseEach(s, cs[..|cs|-1], lt, ps);
      var c := cs[|cs|-1];
      if Reached(s', c, ps) then Release(s', c, lt, ps[c]) else s'
  }

  function Block(s: Sys, scope: Scope, lt: LimitType, blocked: bool): Sys
  {
    if lt == Spending then s.(proxy := s.proxy.(blocked := s.proxy.blocked[scope := blocked])) else s
  }

  /** Containers first, then the proxy, then the flag of the scope. */
  function ScopeEnforce(s: Sys, scope: Scope, lt: LimitType, cs: seq<ContainerId>, ps: Probes): Sys
  {
    var s' := Block(EnforceEach(s, cs, lt, ps), scope, lt, true);
    s'.(scopeEnforced := s'.scopeEnforced + {(scope, lt)})
  }

  /** The proxy and the flag of the scope first, so that releases see it cleared. */
  function ScopeRelease(s: Sys, scope: Scope, lt: LimitType, cs: seq<ContainerId>, ps: Probes): Sys
  {
    var s' := Block(s, scope, lt, false);
    ReleaseEach(s'.(scopeEnforced := s'.scopeEnforced - {(scope, lt)}), cs, lt, ps)
  }

  function ScopeOne(s: Sys, scope: Scope, lt: LimitType, exceeded: bool, cs: seq<ContainerId>, ps: Probes): Sys
  {
    if exceeded && (scope, lt) !in s.scopeEnforced then ScopeEnforce(s, scope, lt, cs, ps)
    else if !exceeded && (scope, lt) in s.scopeEnforced then ScopeRelease(s, scope, lt, cs, ps)
    else s
  }

  /** One tick over the limited types of a scope, in the given order, against usage summed beforehand. */
  function ScopeCheck(s: Sys, scope: Scope, order: seq<LimitType>, totals: map<LimitType, int>,
                      cs: seq<ContainerId>, ps: Probes): Sys
  {
    if order == [] then s
    else
      var s' := ScopeCheck(s, scope, order[..|order|-1], totals, cs, ps);
      var lt := order[|order|-1];
      var limit := Val(s.db.scopeLimits, (scope, lt));
      if limit == 0 then s' else ScopeOne(s', scope, lt, Val(totals, lt) >= limit, cs, ps)
  }

  lemma ScopeCheckNext(s: Sys, scope: Scope, order: seq<LimitType>, lt: LimitType, totals: map<LimitType, int>,
                       cs: seq<ContainerId>, ps: Probes)
    ensures var s' := ScopeCheck(s, scope, order, totals, cs, ps);
            var limit := Val(s.db.scopeLimits, (scope, lt));
            ScopeCheck(s, scope, order + [lt], totals, cs, ps) ==
              if limit == 0 then s' else ScopeOne(s', scope, lt, Val(totals, lt) >= limit, cs, ps)
  {
    assert (order + [lt])[..|order|] == order;
  }

  // ----- Freezing -----

  datatype Answer = Done | NotTracked | DockerError | StillEnforced

  function Freeze(s: Sys, c: ContainerId, fails: set<Call>): (Sys, Answer)
  {
    if c !in s.workers then (s, NotTracked)
    else if c in s.frozen then (s, Done)
    else if Pause in fails then (s, DockerError)
    else (s.(paused := s.paused + {c}, db := SetFrozen(s.db, c, true), frozen := s.frozen + {c}), Done)
  }

  predicate PauseHeld(s: Sys, c: ContainerId)
  {
    HeldFor(s, c, Cpu) || HeldFor(s, c, Disk)
  }

  function Unfreeze(s: Sys, c: ContainerId, fails: set<Call>): (Sys, Answer)
  {
    if c !in s.workers then (s, NotTracked)
    else if c !in s.frozen then (s, Done)
    else
      var s' := s.(db := SetFrozen(s.db, c, false), frozen := s.frozen - {c});
      if PauseHeld(s', c) then (s', StillEnforced)
      else if c !in s.paused || Inspect in fails then (s', Done)
      else if Unpause in fails then (s', DockerError)
      else (s'.(paused := s'.paused - {c}), Done)
  }

  // ----- Workers -----

  predicate RowFrozen(db: Db, c: ContainerId)
  {
    c in db.containers && db.containers[c].frozen
  }

  function Flags(enforced: set<(ContainerId, LimitType)>, c: ContainerId): set<(ContainerId, LimitType)>
  {
    set f | f in enforced && f.0 == c
  }

  function StartContainer(s: Sys, c: ContainerId): Sys
  {
    if c in s.workers then s
    else s.(workers := s.workers + {c}, enforced := s.enforced - Flags(s.enforced, c),
            frozen := if RowFrozen(s.db, c) then s.frozen + {c} else s.frozen - {c})
  }

  function StopContainer(s: Sys, c: ContainerId): Sys
  {
    if c !in s.workers then s
    else s.(workers := s.workers - {c}, enforced := s.enforced - Flags(s.enforced, c), frozen := s.frozen - {c})
  }

  /** A new daemon on the same database and the same Docker. */
  function Restart(s: Sys): Sys
  {
    s.(workers := s.db.containers.Keys, enforced := {}, scopeEnforced := {},
       frozen := (set c | c in s.db.containers && s.db.containers[c].frozen),
       proxy := Restore(s.proxy, s.db))
  }

  // ----- Steps -----

  datatype Step =
    | Register(c: ContainerId)
    | Remove(c: ContainerId)
    | Clone(from: ContainerId, to: ContainerId)
    | Limit(c: ContainerId, lt: LimitType, v: int)
    | ScopeLimit(scope: Scope, lt: LimitType, v: int)
    | AssignTo(c: ContainerId, g: SegmentId)
    | UnassignFrom(c: ContainerId, g: SegmentId)
    | NewSegment(g: SegmentId)
    | DropSegment(g: SegmentId)
    | Charge(c: ContainerId, micro: int)
    | FreezeStep(c: ContainerId, fails: set<Call>)
    | UnfreezeStep(c: ContainerId, fails: set<Call>)
    | Tick(c: ContainerId, slept: bool, p: Probe)
    | ScopeTick(scope: Scope, order: seq<LimitType>, totals: map<LimitType, int>, cs: seq<ContainerId>, ps: Probes)
    | RestartDaemon
    | StartByUser(c: ContainerId)        // somebody outside starts a stopped container

  /** The proxy is told of every assignment. */
  function InScope(t: Tracker, c: ContainerId, scope: Scope): Tracker
  {
    t.(scopes := t.scopes[c := scope])
  }

  function Apply(s: Sys, step: Step): Sys
  {
    match step
    case Register(c) =>
      var s' := StartContainer(s.(db := RegisterContainer(s.db, c)), c);
      s'.(proxy := SpendingState.Register(s.proxy, c, Val(s.db.limits, (c, Spending)), Val(s.db.usage, (c, Spending))))
    case Remove(c) => var s' := StopContainer(s, c); s'.(db := RemoveContainer(s'.db, c))
    case Clone(from, to) =>              // the proxy is told nothing
      if from in s.db.containers && to !in s.db.containers
      then StartContainer(s.(db := CopyLimits(RegisterContainer(s.db, to), from, to)), to) else s
    case Limit(c, lt, v) =>
      s.(db := SetLimit(s.db, c, lt, v), proxy := if lt == Spending then UpdateBudget(s.proxy, c, v) else s.proxy)
    case ScopeLimit(scope, lt, v) => s.(db := SetScopeLimit(s.db, scope, lt, v))
    case AssignTo(c, g) =>
      var r := Assign(s.db, c, g);
      if r.Some? then s.(db := r.value, proxy := InScope(s.proxy, c, Segment(g))) else s
    case UnassignFrom(c, g) =>
      var r := Unassign(s.db, c, g);
      if r.Some? then s.(db := r.value, proxy := InScope(s.proxy, c, Host)) else s
    case NewSegment(g) =>
      var r := CreateSegment(s.db, g);
      if r.Some? then s.(db := r.value) else s
    case DropSegment(g) =>
      var r := DeleteSegment(s.db, g);
      if r.Some? then s.(db := r.value) else s
    case Charge(c, micro) =>
      var t := AddMicro(s.proxy, c, micro);
      s.(proxy := t, db := SetUsage(s.db, c, Spending, GetSpending(t, c)))
    case FreezeStep(c, fails) => Freeze(s, c, fails).0
    case UnfreezeStep(c, fails) => Unfreeze(s, c, fails).0
    case Tick(c, slept, p) => if c in s.workers then Check(s, c, slept, p) else s
    case ScopeTick(scope, order, totals, cs, ps) => ScopeCheck(s, scope, order, totals, cs, ps)
    case RestartDaemon => Restart(s)
    case StartByUser(c) => s.(running := s.running + {c})
  }
}
