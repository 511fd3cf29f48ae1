/** The daemon's tables and what each store operation does to them. */
module StoreState {
  import opened Model

  datatype Row = Row(segment: Option<SegmentId>, frozen: bool)

  datatype Db = Db(
    containers: map<ContainerId, Row>,
    limits: map<(ContainerId, LimitType), int>,
    usage: map<(ContainerId, LimitType), int>,
    scopeLimits: map<(Scope, LimitType), int>,
    scopeAccum: map<(Scope, LimitType), int>,
    globalLimits: map<LimitType, int>,       // legacy copy of the host rows
    globalAccum: map<LimitType, int>,        // legacy copy of the host rows
    segments: set<SegmentId>)

  const EMPTY_DB := Db(map[], map[], map[], map[], map[], map[], map[], {})

  /** A missing row reads as zero. */
  function Val<K>(m: map<K, int>, k: K): int
  {
    if k in m then m[k] else 0
  }

  /** INSERT ... ON CONFLICT DO UPDATE SET value = value + v */
  function AddTo<K>(m: map<K, int>, k: K, v: int): map<K, int>
  {
    m[k := Val(m, k) + v]
  }

  function SegmentOf(db: Db, c: ContainerId): Option<SegmentId>
  {
    if c in db.containers then db.containers[c].segment else None
  }

  // ----- Containers -----

  /** INSERT OR REPLACE: a container registered again loses its segment and its frozen flag. */
  function RegisterContainer(db: Db, c: ContainerId): Db
  {
    db.(containers := db.containers[c := Row(None, false)])
  }

  function AccumulateScope(db: Db, scope: Scope, lt: LimitType, v: int): Db
  {
    db.(scopeAccum := AddTo(db.scopeAccum, (scope, lt), v))
  }

  /** Moves the usage of one type into the accumulators, if there is any. */
  function Accumulate(db: Db, c: ContainerId, lt: LimitType): Db
  {
    var v := Val(db.usage, (c, lt));
    if v <= 0 then db else
      var host := AccumulateScope(db, Host, lt, v).(globalAccum := AddTo(db.globalAccum, lt, v));
      match SegmentOf(db, c)
      case Some(g) => AccumulateScope(host, Segment(g), lt, v)
      case None => host
  }

  function AccumulateFirst(db: Db, c: ContainerId, n: nat): (out: Db)
    requires n <= |CUMULATIVE_LIMIT_TYPES|
    ensures out == db.(scopeAccum := out.scopeAccum, globalAccum := out.globalAccum)
  {
    if n == 0 then db else Accumulate(AccumulateFirst(db, c, n - 1), c, CUMULATIVE_LIMIT_TYPES[n-1])
  }

  function Without(m: map<(ContainerId, LimitType), int>, c: ContainerId): map<(ContainerId, LimitType), int>
  {
    m - set k | k in m && k.0 == c
  }

  function DeleteRows(db: Db, c: ContainerId): Db
  {
    db.(usage := Without(db.usage, c), limits := Without(db.limits, c), containers := db.containers - {c})
  }

  function RemoveContainer(db: Db, c: ContainerId): Db
  {
    DeleteRows(AccumulateFirst(db, c, |CUMULATIVE_LIMIT_TYPES|), c)
  }

  function SetLimit(db: Db, c: ContainerId, lt: LimitType, v: int): Db
  {
    db.(limits := db.limits[(c, lt) := v])
  }

  function SetUsage(db: Db, c: ContainerId, lt: LimitType, v: int): Db
  {
    db.(usage := db.usage[(c, lt) := v])
  }

  function AddUsage(db: Db, c: ContainerId, lt: LimitType, d: int): Db
  {
    db.(usage := AddTo(db.usage, (c, lt), d))
  }

  /** SELECT to, type, value FROM limits WHERE container_id = from */
  function RowsFor(limits: map<(ContainerId, LimitType), int>, from: ContainerId, to: ContainerId)
    : map<(ContainerId, LimitType), int>
  {
    map k | k in limits && k.0 == from :: (to, k.1) := limits[k]
  }

  function CopyLimits(db: Db, from: ContainerId, to: ContainerId): Db
  {
    db.(limits := db.limits + RowsFor(db.limits, from, to))
  }

  function SetFrozen(db: Db, c: ContainerId, frozen: bool): Db
  {
    if c in db.containers then db.(containers := db.containers[c := db.containers[c].(frozen := frozen)]) else db
  }

  // ----- Scopes and segments -----

  function SetScopeLimit(db: Db, scope: Scope, lt: LimitType, v: int): Db
  {
    var db' := db.(scopeLimits := db.scopeLimits[(scope, lt) := v]);
    if scope == Host then db'.(globalLimits := db.globalLimits[lt := v]) else db'
  }

  function Members(db: Db, g: SegmentId): set<ContainerId>
  {
    set c | c in db.containers && db.containers[c].segment == Some(g)
  }

  /** The host scope holds every container. */
  function ListByScope(db: Db, scope: Scope): set<ContainerId>
  {
    match scope
    case Host => db.containers.Keys
    case Segment(g) => Members(db, g)
  }

  /** Fails when the id is taken. */
  function CreateSegment(db: Db, g: SegmentId): Option<Db>
  {
    if g in db.segments then None else Some(db.(segments := db.segments + {g}))
  }

  function WithoutScope(m: map<(Scope, LimitType), int>, scope: Scope): map<(Scope, LimitType), int>
  {
    m - set k | k in m && k.0 == scope
  }

  /** Fails while a container is assigned to it. */
  function DeleteSegment(db: Db, g: SegmentId): Option<Db>
  {
    if Members(db, g) != {} then None
    else Some(db.(scopeLimits := WithoutScope(db.scopeLimits, Segment(g)),
                  scopeAccum := WithoutScope(db.scopeAccum, Segment(g)),
                  segments := db.segments - {g}))
  }

  function SetContainerSegment(db: Db, c: ContainerId, g: Option<SegmentId>): Db
  {
    if c in db.containers then db.(containers := db.containers[c := db.containers[c].(segment := g)]) else db
  }

  /** The handler behind "assign": the segment and the container exist, and it is in no other segment. */
  function Assign(db: Db, c: ContainerId, g: SegmentId): Option<Db>
  {
    if g !in db.segments || c !in db.containers then None
    else if db.containers[c].segment.Some? && db.containers[c].segment != Some(g) then None
    else Some(SetContainerSegment(db, c, Some(g)))
  }

  function Unassign(db: Db, c: ContainerId, g: SegmentId): Option<Db>
  {
    if c !in db.containers || db.containers[c].segment != Some(g) then None
    else Some(SetContainerSegment(db, c, None))
  }

  // ----- Migration from the tables that knew the host only -----

  /** INSERT OR IGNORE of the legacy rows as host rows. */
  function InsertOrIgnore(m: map<(Scope, LimitType), int>, legacy: map<LimitType, int>): map<(Scope, LimitType), int>
  {
    (map lt | lt in legacy :: (Host, lt) := legacy[lt]) + m
  }

  function Migrate(db: Db): Db
  {
    db.(scopeLimits := InsertOrIgnore(db.scopeLimits, db.globalLimits),
        scopeAccum := InsertOrIgnore(db.scopeAccum, db.globalAccum))
  }
}

/** The store as it runs: tables updated in place, and the loop that settles a removed container. */
module StoreTables {
  import opened Model
  import S = StoreState

  class Store {
    var containers: map<ContainerId, S.Row>
    var limits: map<(ContainerId, LimitType), int>
    var usage: map<(ContainerId, LimitType), int>
    var scopeLimits: map<(Scope, LimitType), int>
    var scopeAccum: map<(Scope, LimitType), int>
    var globalLimits: map<LimitType, int>
    var globalAccum: map<LimitType, int>
    var segments: set<SegmentId>

    function View(): S.Db
      reads this
    {
      S.Db(containers, limits, usage, scopeLimits, scopeAccum, globalLimits, globalAccum, segments)
    }

    constructor ()
      ensures View() == S.EMPTY_DB
    {
      containers, limits, usage := map[], map[], map[];
      scopeLimits, scopeAccum, globalLimits, globalAccum, segments := map[], map[], map[], map[], {};
    }

    method RegisterContainer(c: ContainerId)
      modifies `containers
      ensures View() == S.RegisterContainer(old(View()), c)
    {
      containers := containers[c := S.Row(None, false)];
    }

    /** Moves the usage of one type into the accumulators. */
    method Accumulate(c: ContainerId, segment: Option<SegmentId>, lt: LimitType)
      requires segment == S.SegmentOf(View(), c)
      modifies `scopeAccum, `globalAccum
      ensures View() == S.Accumulate(old(View()), c, lt)
    {
      if (c, lt) in usage && usage[(c, lt)] > 0 {
        var v := usage[(c, lt)];
        scopeAccum := S.AddTo(scopeAccum, (Host, lt), v);
        globalAccum := S.AddTo(globalAccum, lt, v);
        if segment.Some? {
          scopeAccum := S.AddTo(scopeAccum, (Segment(segment.value), lt), v);
        }
      }
    }

    /** Settles the cumulative types one by one, then deletes the rows of the container. */
    method RemoveContainer(c: ContainerId)
      modifies this
      ensures View() == S.RemoveContainer(old(View()), c)
    {
      hide S.Accumulate;
      var segment := if c in containers then containers[c].segment else None;
      var i := 0;
      while i < |CUMULATIVE_LIMIT_TYPES|
        invariant 0 <= i <= |CUMULATIVE_LIMIT_TYPES|
        invariant segment == S.SegmentOf(View(), c)
        invariant View() == S.AccumulateFirst(old(View()), c, i)
      {
        Accumulate(c, segment, CUMULATIVE_LIMIT_TYPES[i]);
        i := i + 1;
      }
      usage := S.Without(usage, c);
      limits := S.Without(limits, c);
      containers := containers - {c};
    }

    method SetLimit(c: ContainerId, lt: LimitType, v: int)
      modifies `limits
      ensures View() == S.SetLimit(old(View()), c, lt, v)
    {
      limits := limits[(c, lt) := v];
    }

    method GetLimit(c: ContainerId, lt: LimitType) returns (v: int)
      ensures v == S.Val(View().limits, (c, lt))
    {
      v := if (c, lt) in limits then limits[(c, lt)] else 0;
    }

    method SetUsage(c: ContainerId, lt: LimitType, v: int)
      modifies `usage
      ensures View() == S.SetUsage(old(View()), c, lt, v)
    {
      usage := usage[(c, lt) := v];
    }

    method AddUsage(c: ContainerId, lt: LimitType, d: int)
      modifies `usage
      ensures View() == S.AddUsage(old(View()), c, lt, d)
    {
      if (c, lt) in usage {
        usage := usage[(c, lt) := usage[(c, lt)] + d];
      } else {
        usage := usage[(c, lt) := d];
      }
    }

    method CopyLimits(from: ContainerId, to: ContainerId)
      modifies `limits
      ensures View() == S.CopyLimits(old(View()), from, to)
    {
      limits := limits + S.RowsFor(limits, from, to);
    }

    method SetScopeLimit(scope: Scope, lt: LimitType, v: int)
      modifies `scopeLimits, `globalLimits
      ensures View() == S.SetScopeLimit(old(View()), scope, lt, v)
    {
      scopeLimits := scopeLimits[(scope, lt) := v];
      if scope == Host {
        globalLimits := globalLimits[lt := v];
      }
    }

    method CreateSegment(g: SegmentId) returns (ok: bool)
      modifies `segments
      ensures ok <==> S.CreateSegment(old(View()), g).Some?
      ensures View() == if ok then S.CreateSegment(old(View()), g).value else old(View())
    {
      ok := g !in segments;
      if ok {
        segments := segments + {g};
      }
    }

    method DeleteSegment(g: SegmentId) returns (ok: bool)
      modifies `scopeLimits, `scopeAccum, `segments
      ensures ok <==> S.DeleteSegment(old(View()), g).Some?
      ensures View() == if ok then S.DeleteSegment(old(View()), g).value else old(View())
    {
      var members := set c | c in containers && containers[c].segment == Some(g);
      assert members == S.Members(View(), g);
      ok := members == {};
      if ok {
        scopeLimits := S.WithoutScope(scopeLimits, Segment(g));
        scopeAccum := S.WithoutScope(scopeAccum, Segment(g));
        segments := segments - {g};
      }
    }

    method SetContainerSegment(c: ContainerId, g: Option<SegmentId>)
      modifies `containers
      ensures View() == S.SetContainerSegment(old(View()), c, g)
    {
      if c in containers {
        containers := containers[c := containers[c].(segment := g)];
      }
    }

    method SetFrozen(c: ContainerId, frozen: bool)
      modifies `containers
      ensures View() == S.SetFrozen(old(View()), c, frozen)
    {
      if c in containers {
        containers := containers[c := containers[c].(frozen := frozen)];
      }
    }

    method Migrate()
      modifies `scopeLimits, `scopeAccum
      ensures View() == S.Migrate(old(View()))
    {
      scopeLimits := S.InsertOrIgnore(scopeLimits, globalLimits);
      scopeAccum := S.InsertOrIgnore(scopeAccum, globalAccum);
    }
  }
}
