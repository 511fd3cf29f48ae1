/** Totals over containers and accumulators: what removal conserves, and the host against its segments. */
module StoreTotals {
  import opened Model
  import opened StoreState

  type Rows = map<(ContainerId, LimitType), int>

  // ----- Sums over a set of containers -----

  ghost function Sum(m: Rows, cs: set<ContainerId>, lt: LimitType): int
  {
    if cs == {} then 0
    else var c :| c in cs; Val(m, (c, lt)) + Sum(m, cs - {c}, lt)
  }

  /** The sum does not depend on the order: any member can be taken out first. */
  lemma {:induction false} SumTake(m: Rows, cs: set<ContainerId>, lt: LimitType, c: ContainerId)
    requires c in cs
    ensures Sum(m, cs, lt) == Val(m, (c, lt)) + Sum(m, cs - {c}, lt)
  {
    var d :| d in cs && Sum(m, cs, lt) == Val(m, (d, lt)) + Sum(m, cs - {d}, lt);
    if d != c {
      SumTake(m, cs - {d}, lt, c);
      SumTake(m, cs - {c}, lt, d);
      assert cs - {d} - {c} == cs - {c} - {d};
    }
  }

  lemma SumAdd(m: Rows, cs: set<ContainerId>, lt: LimitType, c: ContainerId)
    requires c !in cs
    ensures Sum(m, cs + {c}, lt) == Val(m, (c, lt)) + Sum(m, cs, lt)
  {
    SumTake(m, cs + {c}, lt, c);
    assert cs + {c} - {c} == cs;
  }

  lemma {:induction false} SumAgree(m: Rows, m': Rows, cs: set<ContainerId>, lt: LimitType)
    requires forall c | c in cs :: Val(m', (c, lt)) == Val(m, (c, lt))
    ensures Sum(m', cs, lt) == Sum(m, cs, lt)
  {
    if cs != {} {
      var c :| c in cs;
      SumTake(m, cs, lt, c);
      SumTake(m', cs, lt, c);
      SumAgree(m, m', cs - {c}, lt);
    }
  }

  /** Changing one row changes the sum by as much, if it is summed at all. */
  lemma SumChange(m: Rows, m': Rows, cs: set<ContainerId>, lt: LimitType, c: ContainerId)
    requires forall d | d in cs && d != c :: Val(m', (d, lt)) == Val(m, (d, lt))
    ensures Sum(m', cs, lt) == Sum(m, cs, lt) + if c in cs then Val(m', (c, lt)) - Val(m, (c, lt)) else 0
  {
    if c in cs {
      SumTake(m, cs, lt, c);
      SumTake(m', cs, lt, c);
      SumAgree(m, m', cs - {c}, lt);
    } else {
      SumAgree(m, m', cs, lt);
    }
  }

  lemma {:induction false} SumSplit(m: Rows, a: set<ContainerId>, b: set<ContainerId>, lt: LimitType)
    requires a !! b
    ensures Sum(m, a + b, lt) == Sum(m, a, lt) + Sum(m, b, lt)
  {
    if b == {} {
      assert a + b == a;
    } else {
      var c :| c in b;
      SumTake(m, b, lt, c);
      SumSplit(m, a, b - {c}, lt);
      assert a + (b - {c}) == a + b - {c};
      SumTake(m, a + b, lt, c);
    }
  }

  lemma {:induction false} SumNonNegative(m: Rows, cs: set<ContainerId>, lt: LimitType)
    requires forall c | c in cs :: Val(m, (c, lt)) >= 0
    ensures Sum(m, cs, lt) >= 0
  {
    if cs != {} {
      var c :| c in cs;
      SumTake(m, cs, lt, c);
      SumNonNegative(m, cs - {c}, lt);
    }
  }

  // ----- Totals -----

  /** What the daemon reports and enforces for a scope: its containers plus those already removed. */
  ghost function Total(db: Db, scope: Scope, lt: LimitType): int
  {
    Sum(db.usage, ListByScope(db, scope), lt) + Val(db.scopeAccum, (scope, lt))
  }

  predicate Cumulative(lt: LimitType)
  {
    lt in CUMULATIVE_LIMIT_TYPES
  }

  function Settled(db: Db, c: ContainerId, lt: LimitType): int
  {
    var v := Val(db.usage, (c, lt));
    if lt in CUMULATIVE_LIMIT_TYPES && v > 0 then v else 0
  }

  lemma CumulativeDistinct()
    ensures Distinct(CUMULATIVE_LIMIT_TYPES)
  {
  }

  predicate Charges(db: Db, c: ContainerId, scope: Scope)
  {
    scope == Host || (SegmentOf(db, c).Some? && scope == Segment(SegmentOf(db, c).value))
  }

  lemma AddedTo(m: map<(Scope, LimitType), int>, k: (Scope, LimitType), v: int, x: (Scope, LimitType))
    ensures Val(AddTo(m, k, v), x) == Val(m, x) + if x == k then v else 0
    ensures x in AddTo(m, k, v) <==> x in m || x == k
  {
  }

  lemma AddedToLegacy(m: map<LimitType, int>, k: LimitType, v: int, x: LimitType)
    ensures Val(AddTo(m, k, v), x) == Val(m, x) + if x == k then v else 0
    ensures x in AddTo(m, k, v) <==> x in m || x == k
  {
  }

  lemma AccumulatedOne(db: Db, c: ContainerId, t: LimitType, scope: Scope, lt: LimitType)
    ensures var out := Accumulate(db, c, t);
            var moved := if lt == t && Val(db.usage, (c, t)) > 0 then Val(db.usage, (c, t)) else 0;
            && Val(out.globalAccum, lt) == Val(db.globalAccum, lt) + moved
            && Val(out.scopeAccum, (scope, lt)) ==
                 Val(db.scopeAccum, (scope, lt)) + (if Charges(db, c, scope) then moved else 0)
  {
    hide AddTo, Val;
    var v := Val(db.usage, (c, t));
    AddedToLegacy(db.globalAccum, t, v, lt);
    AddedTo(db.scopeAccum, (Host, t), v, (scope, lt));
    if SegmentOf(db, c).Some? {
      AddedTo(AddTo(db.scopeAccum, (Host, t), v), (Segment(SegmentOf(db, c).value), t), v, (scope, lt));
    }
  }

  lemma TakeMembers(types: seq<LimitType>, n: nat, lt: LimitType)
    requires 0 < n <= |types|
    ensures lt in types[..n] <==> lt == types[n-1] || lt in types[..n-1]
    ensures Distinct(types) ==> types[n-1] !in types[..n-1]
  {
    assert types[..n] == types[..n-1] + [types[n-1]];
  }

  lemma {:induction false} AccumulatedFirst(db: Db, c: ContainerId, n: nat, scope: Scope, lt: LimitType)
    requires n <= |CUMULATIVE_LIMIT_TYPES|
    ensures var out := AccumulateFirst(db, c, n);
            var v := Val(db.usage, (c, lt));
            var moved := if lt in CUMULATIVE_LIMIT_TYPES[..n] && v > 0 then v else 0;
            && Val(out.scopeAccum, (scope, lt)) ==
                 Val(db.scopeAccum, (scope, lt)) + (if Charges(db, c, scope) then moved else 0)
            && Val(out.globalAccum, lt) == Val(db.globalAccum, lt) + moved
  {
    if n > 0 {
      AccumulatedFirst(db, c, n - 1, scope, lt);
      var t := CUMULATIVE_LIMIT_TYPES[n-1];
      AccumulatedOne(AccumulateFirst(db, c, n - 1), c, t, scope, lt);
      CumulativeDistinct();
      TakeMembers(CUMULATIVE_LIMIT_TYPES, n, lt);
      assert Charges(AccumulateFirst(db, c, n - 1), c, scope) <==> Charges(db, c, scope);
      assert AccumulateFirst(db, c, n) == Accumulate(AccumulateFirst(db, c, n - 1), c, t);
      hide Accumulate, AccumulateFirst, Charges, Val, Distinct;
    }
  }

  /** The accumulators after a removal, scope by scope. */
  lemma AccumAfterRemoval(db: Db, c: ContainerId, scope: Scope, lt: LimitType)
    ensures Val(RemoveContainer(db, c).scopeAccum, (scope, lt)) == Val(db.scopeAccum, (scope, lt)) +
              (if Charges(db, c, scope) then Settled(db, c, lt) else 0)
  {
    AccumulatedFirst(db, c, |CUMULATIVE_LIMIT_TYPES|, scope, lt);
    assert CUMULATIVE_LIMIT_TYPES[..|CUMULATIVE_LIMIT_TYPES|] == CUMULATIVE_LIMIT_TYPES;
  }

  lemma ContainersAfterRemoval(db: Db, c: ContainerId, scope: Scope)
    ensures ListByScope(RemoveContainer(db, c), scope) == ListByScope(db, scope) - {c}
  {
  }

  /** Every total after a removal: the container's scopes lose its usage and gain what was settled. */
  lemma TotalAfterRemoval(db: Db, c: ContainerId, scope: Scope, lt: LimitType)
    requires c in db.containers
    ensures Total(RemoveContainer(db, c), scope, lt) == Total(db, scope, lt) +
              (if c in ListByScope(db, scope) then Settled(db, c, lt) - Val(db.usage, (c, lt)) else 0)
  {
    var cs, after := ListByScope(db, scope), RemoveContainer(db, c);
    AccumAfterRemoval(db, c, scope, lt);
    ContainersAfterRemoval(db, c, scope);
    SumAgree(db.usage, after.usage, cs - {c}, lt);
    if c in cs {
      SumTake(db.usage, cs, lt, c);
    } else {
      assert cs - {c} == cs;
    }
  }

  /** Removal conserves the totals of a cumulative type exactly when the usage removed is not negative. */
  lemma RemovalConservesIff(db: Db, c: ContainerId, scope: Scope, lt: LimitType)
    requires c in ListByScope(db, scope) && Cumulative(lt)
    ensures Total(RemoveContainer(db, c), scope, lt) == Total(db, scope, lt) <==> Val(db.usage, (c, lt)) >= 0
  {
    TotalAfterRemoval(db, c, scope, lt);
  }

  /** Current-state types lose exactly the usage removed; scopes the container is not in keep every total. */
  lemma RemovalOfCurrentUsage(db: Db, c: ContainerId, scope: Scope, lt: LimitType)
    requires c in db.containers
    ensures c in ListByScope(db, scope) && !Cumulative(lt) ==>
              Total(RemoveContainer(db, c), scope, lt) == Total(db, scope, lt) - Val(db.usage, (c, lt))
    ensures c !in ListByScope(db, scope) ==> Total(RemoveContainer(db, c), scope, lt) == Total(db, scope, lt)
  {
    TotalAfterRemoval(db, c, scope, lt);
  }

  // ----- The host against its segments -----

  ghost function SegmentTotals(db: Db, gs: set<SegmentId>, lt: LimitType): int
  {
    if gs == {} then 0
    else var g :| g in gs; Total(db, Segment(g), lt) + SegmentTotals(db, gs - {g}, lt)
  }

  ghost function AccumOf(m: map<(Scope, LimitType), int>, gs: set<SegmentId>, lt: LimitType): int
  {
    if gs == {} then 0
    else var g :| g in gs; Val(m, (Segment(g), lt)) + AccumOf(m, gs - {g}, lt)
  }

  lemma {:induction false} AccumTake(m: map<(Scope, LimitType), int>, gs: set<SegmentId>, lt: LimitType, g: SegmentId)
    requires g in gs
    ensures AccumOf(m, gs, lt) == Val(m, (Segment(g), lt)) + AccumOf(m, gs - {g}, lt)
  {
    var h :| h in gs && AccumOf(m, gs, lt) == Val(m, (Segment(h), lt)) + AccumOf(m, gs - {h}, lt);
    if h != g {
      AccumTake(m, gs - {h}, lt, g);
      AccumTake(m, gs - {g}, lt, h);
      assert gs - {h} - {g} == gs - {g} - {h};
    }
  }

  lemma {:induction false} AccumAgree(m: map<(Scope, LimitType), int>, m': map<(Scope, LimitType), int>,
                                      gs: set<SegmentId>, lt: LimitType)
    requires forall g | g in gs :: Val(m', (Segment(g), lt)) == Val(m, (Segment(g), lt))
    ensures AccumOf(m', gs, lt) == AccumOf(m, gs, lt)
  {
    if gs != {} {
      var g :| g in gs;
      AccumTake(m, gs, lt, g);
      AccumTake(m', gs, lt, g);
      AccumAgree(m, m', gs - {g}, lt);
    }
  }

  ghost function MembersOf(db: Db, gs: set<SegmentId>): set<ContainerId>
  {
    set c | c in db.containers && db.containers[c].segment.Some? && db.containers[c].segment.value in gs
  }

  lemma {:induction false} SegmentTotalsSplit(db: Db, gs: set<SegmentId>, lt: LimitType)
    ensures SegmentTotals(db, gs, lt) == Sum(db.usage, MembersOf(db, gs), lt) + AccumOf(db.scopeAccum, gs, lt)
  {
    if gs == {} {
      assert MembersOf(db, gs) == {};
    } else {
      var g :| g in gs && SegmentTotals(db, gs, lt) == Total(db, Segment(g), lt) + SegmentTotals(db, gs - {g}, lt);
      SegmentTotalsSplit(db, gs - {g}, lt);
      AccumTake(db.scopeAccum, gs, lt, g);
      assert MembersOf(db, gs) == Members(db, g) + MembersOf(db, gs - {g});
      assert Total(db, Segment(g), lt) == Sum(db.usage, Members(db, g), lt) + Val(db.scopeAccum, (Segment(g), lt));
      SumSplit(db.usage, Members(db, g), MembersOf(db, gs - {g}), lt);
    }
  }

  /** What every operation of the daemon keeps. */
  ghost predicate Sound(db: Db)
  {
    && (forall k | k in db.usage :: db.usage[k] >= 0)
    && (forall c | c in db.containers :: db.containers[c].segment.Some? ==> db.containers[c].segment.value in db.segments)
    && SoundKeys(db.scopeAccum, db.segments)
    && (forall lt :: Val(db.scopeAccum, (Host, lt)) >= AccumOf(db.scopeAccum, db.segments, lt))
  }

  /** Nothing a segment counts escapes the host: the host total covers all segment totals together. */
  lemma HostCoversSegments(db: Db, lt: LimitType)
    requires Sound(db)
    ensures Total(db, Host, lt) >= SegmentTotals(db, db.segments, lt)
  {
    var inSegments := MembersOf(db, db.segments);
    var rest := db.containers.Keys - inSegments;
    SegmentTotalsSplit(db, db.segments, lt);
    SumSplit(db.usage, inSegments, rest, lt);
    assert inSegments + rest == db.containers.Keys;
    SumNonNegative(db.usage, rest, lt);
  }

  /** Leaving a segment takes the container's usage, past included, out of the segment's totals: they stay
      as they were only if there was none. Joining brings it in. */
  lemma UnassignKeepsTotalIff(db: Db, c: ContainerId, g: SegmentId, lt: LimitType)
    requires Unassign(db, c, g).Some?
    ensures Total(Unassign(db, c, g).value, Segment(g), lt) == Total(db, Segment(g), lt) <==> Val(db.usage, (c, lt)) == 0
    ensures Total(Unassign(db, c, g).value, Segment(g), lt) == Total(db, Segment(g), lt) - Val(db.usage, (c, lt))
  {
    var db' := Unassign(db, c, g).value;
    assert Members(db', g) == Members(db, g) - {c};
    SumTake(db.usage, Members(db, g), lt, c);
  }

  /** The only member of segment 1, with 7 CPU seconds used: when it leaves, the segment has used nothing. */
  lemma LeavingTakesUsageOut()
    ensures var db := EMPTY_DB.(segments := {1}, containers := map[0 := Row(Some(1), false)], usage := map[(0, Cpu) := 7]);
            && Unassign(db, 0, 1).Some? && Total(db, Segment(1), Cpu) == 7
            && Total(Unassign(db, 0, 1).value, Segment(1), Cpu) == 0
  {
    var db := EMPTY_DB.(segments := {1}, containers := map[0 := Row(Some(1), false)], usage := map[(0, Cpu) := 7]);
    assert Members(db, 1) == {0} && {0} - {0} == {};
    SumTake(db.usage, {0}, Cpu, 0);
    UnassignKeepsTotalIff(db, 0, 1, Cpu);
  }

  lemma AssignAddsUsage(db: Db, c: ContainerId, g: SegmentId, lt: LimitType)
    requires Assign(db, c, g).Some?
    ensures Total(Assign(db, c, g).value, Segment(g), lt) ==
            Total(db, Segment(g), lt) + if c in Members(db, g) then 0 else Val(db.usage, (c, lt))
  {
    var db' := Assign(db, c, g).value;
    assert Members(db', g) == Members(db, g) + {c};
    if c in Members(db, g) {
      assert Members(db', g) == Members(db, g);
    } else {
      SumAdd(db.usage, Members(db, g), lt, c);
    }
  }

  /** Unassigning undoes assigning exactly when the container was in no segment before. */
  lemma AssignRoundTrip(db: Db, c: ContainerId, g: SegmentId)
    requires Assign(db, c, g).Some?
    ensures Unassign(Assign(db, c, g).value, c, g).Some?
    ensures Unassign(Assign(db, c, g).value, c, g).value == db <==> SegmentOf(db, c) == None
  {
    var db2 := Unassign(Assign(db, c, g).value, c, g).value;
    if SegmentOf(db, c) == None {
      assert db2.containers == db.containers;
    }
  }

  /** Registering a container again takes it, with its usage, out of its segment, and out of nothing else. */
  lemma ReregisterForgetsSegment(db: Db, c: ContainerId, g: SegmentId, lt: LimitType)
    requires c in Members(db, g)
    ensures var db' := RegisterContainer(db, c);
            && SegmentOf(db', c) == None && !db'.containers[c].frozen
            && Total(db', Segment(g), lt) == Total(db, Segment(g), lt) - Val(db.usage, (c, lt))
            && Total(db', Host, lt) == Total(db, Host, lt)
            && (forall h | h != g :: Total(db', Segment(h), lt) == Total(db, Segment(h), lt))
  {
    var db' := RegisterContainer(db, c);
    assert Members(db', g) == Members(db, g) - {c} && db'.containers.Keys == db.containers.Keys;
    SumTake(db.usage, Members(db, g), lt, c);
    forall h | h != g ensures Total(db', Segment(h), lt) == Total(db, Segment(h), lt) {
      assert Members(db', h) == Members(db, h);
    }
  }

  /** A segment deleted and created again starts from nothing; every other scope keeps its total and its limits. */
  lemma RecreatedSegmentIsEmpty(db: Db, g: SegmentId, scope: Scope, lt: LimitType)
    requires DeleteSegment(db, g).Some?
    ensures CreateSegment(DeleteSegment(db, g).value, g).Some?
    ensures var db' := CreateSegment(DeleteSegment(db, g).value, g).value;
            && Total(db', scope, lt) == (if scope == Segment(g) then 0 else Total(db, scope, lt))
            && Val(db'.scopeLimits, (scope, lt)) == (if scope == Segment(g) then 0 else Val(db.scopeLimits, (scope, lt)))
  {
    var db' := CreateSegment(DeleteSegment(db, g).value, g).value;
    assert ListByScope(db', scope) == ListByScope(db, scope);
  }

  /** Deleting undoes creating exactly when nothing was waiting under that id: no container and no row. */
  lemma CreateRoundTripIff(db: Db, g: SegmentId)
    requires CreateSegment(db, g).Some?
    ensures DeleteSegment(CreateSegment(db, g).value, g) == Some(db) <==>
              && Members(db, g) == {}
              && (forall k | k in db.scopeLimits :: k.0 != Segment(g))
              && (forall k | k in db.scopeAccum :: k.0 != Segment(g))
  {
    var created := CreateSegment(db, g).value;
    assert Members(created, g) == Members(db, g) && created.segments - {g} == db.segments;
    WithoutNothingIff(db.scopeLimits, Segment(g));
    WithoutNothingIff(db.scopeAccum, Segment(g));
    hide WithoutScope, Members;
  }

  lemma WithoutNothingIff(m: map<(Scope, LimitType), int>, scope: Scope)
    ensures WithoutScope(m, scope) == m <==> forall k | k in m :: k.0 != scope
  {
    if WithoutScope(m, scope) == m {
      forall k | k in m ensures k.0 != scope {
        assert k in WithoutScope(m, scope);
      }
    }
  }

  // ----- Runs -----

  datatype Op =
    | Register(c: ContainerId)
    | Remove(c: ContainerId)
    | Limit(c: ContainerId, lt: LimitType, v: int)
    | Use(c: ContainerId, lt: LimitType, v: int)      // SetUsage
    | Add(c: ContainerId, lt: LimitType, v: int)      // AddUsage
    | Copy(from: ContainerId, to: ContainerId)
    | Freeze(c: ContainerId, frozen: bool)
    | ScopeLimit(scope: Scope, lt: LimitType, v: int)
    | NewSegment(g: SegmentId)
    | DropSegment(g: SegmentId)
    | AssignTo(c: ContainerId, g: SegmentId)
    | UnassignFrom(c: ContainerId, g: SegmentId)

  function OrSame(r: Option<Db>, db: Db): Db
  {
    if r.Some? then r.value else db
  }

  function Do(db: Db, op: Op): Db
  {
    match op
    case Register(c) => RegisterContainer(db, c)
    case Remove(c) => RemoveContainer(db, c)
    case Limit(c, lt, v) => SetLimit(db, c, lt, v)
    case Use(c, lt, v) => SetUsage(db, c, lt, v)
    case Add(c, lt, v) => AddUsage(db, c, lt, v)
    case Copy(from, to) => CopyLimits(db, from, to)
    case Freeze(c, frozen) => SetFrozen(db, c, frozen)
    case ScopeLimit(scope, lt, v) => SetScopeLimit(db, scope, lt, v)
    case NewSegment(g) => OrSame(CreateSegment(db, g), db)
    case DropSegment(g) => OrSame(DeleteSegment(db, g), db)
    case AssignTo(c, g) => OrSame(Assign(db, c, g), db)
    case UnassignFrom(c, g) => OrSame(Unassign(db, c, g), db)
  }

  function DoAll(db: Db, ops: seq<Op>): Db
  {
    if ops == [] then db else Do(DoAll(db, ops[..|ops|-1]), ops[|ops|-1])
  }

  /** Meters and samples are never negative. */
  predicate Metered(op: Op)
  {
    (op.Use? || op.Add?) ==> op.v >= 0
  }

  ghost predicate AllMetered(ops: seq<Op>)
  {
    forall i | 0 <= i < |ops| :: Metered(ops[i])
  }

  lemma RemovalKeepsSound(db: Db, c: ContainerId)
    requires Sound(db)
    ensures Sound(RemoveContainer(db, c))
  {
    var after := RemoveContainer(db, c);
    forall lt ensures Val(after.scopeAccum, (Host, lt)) >= AccumOf(after.scopeAccum, after.segments, lt) {
      AccumAfterRemoval(db, c, Host, lt);
      var own := SegmentOf(db, c);
      forall g | g in db.segments && own != Some(g)
        ensures Val(after.scopeAccum, (Segment(g), lt)) == Val(db.scopeAccum, (Segment(g), lt))
      {
        AccumAfterRemoval(db, c, Segment(g), lt);
      }
      if own.Some? {
        AccumAfterRemoval(db, c, Segment(own.value), lt);
        AccumTake(db.scopeAccum, db.segments, lt, own.value);
        AccumTake(after.scopeAccum, db.segments, lt, own.value);
        AccumAgree(db.scopeAccum, after.scopeAccum, db.segments - {own.value}, lt);
      } else {
        AccumAgree(db.scopeAccum, after.scopeAccum, db.segments, lt);
      }
    }
    assert SoundKeys(db.scopeAccum, db.segments);
    AccumKeys(db, c, |CUMULATIVE_LIMIT_TYPES|);
    hide AccumulateFirst;
  }

  ghost predicate SoundKeys(m: map<(Scope, LimitType), int>, gs: set<SegmentId>)
  {
    forall k | k in m :: m[k] >= 0 && (k.0.Segment? ==> k.0.id in gs)
  }

  lemma SoundKeysAdded(m: map<(Scope, LimitType), int>, k: (Scope, LimitType), v: int, gs: set<SegmentId>)
    requires SoundKeys(m, gs) && v > 0 && (k.0.Segment? ==> k.0.id in gs)
    ensures SoundKeys(AddTo(m, k, v), gs)
  {
  }

  lemma {:induction false} AccumKeys(db: Db, c: ContainerId, n: nat)
    requires SoundKeys(db.scopeAccum, db.segments) && n <= |CUMULATIVE_LIMIT_TYPES|
    requires SegmentOf(db, c).Some? ==> SegmentOf(db, c).value in db.segments
    ensures SoundKeys(AccumulateFirst(db, c, n).scopeAccum, db.segments)
  {
    hide AddTo, SoundKeys;
    if n > 0 {
      AccumKeys(db, c, n - 1);
      var front, lt := AccumulateFirst(db, c, n - 1), CUMULATIVE_LIMIT_TYPES[n-1];
      var v := Val(front.usage, (c, lt));
      if v > 0 {
        SoundKeysAdded(front.scopeAccum, (Host, lt), v, db.segments);
        if SegmentOf(db, c).Some? {
          SoundKeysAdded(AddTo(front.scopeAccum, (Host, lt), v), (Segment(SegmentOf(db, c).value), lt), v, db.segments);
        }
      }
      assert AccumulateFirst(db, c, n) == Accumulate(front, c, lt);
      hide AccumulateFirst;
    }
  }

  lemma NewSegmentKeepsSound(db: Db, g: SegmentId)
    requires Sound(db) && g !in db.segments
    ensures Sound(db.(segments := db.segments + {g}))
  {
    forall lt ensures Val(db.scopeAccum, (Host, lt)) >= AccumOf(db.scopeAccum, db.segments + {g}, lt) {
      AccumTake(db.scopeAccum, db.segments + {g}, lt, g);
      assert db.segments + {g} - {g} == db.segments;
      assert (Segment(g), lt) !in db.scopeAccum;
    }
  }

  lemma DropSegmentKeepsSound(db: Db, g: SegmentId)
    requires Sound(db) && DeleteSegment(db, g).Some?
    ensures Sound(DeleteSegment(db, g).value)
  {
    var db' := DeleteSegment(db, g).value;
    forall lt ensures Val(db'.scopeAccum, (Host, lt)) >= AccumOf(db'.scopeAccum, db'.segments, lt) {
      AccumAgree(db.scopeAccum, db'.scopeAccum, db'.segments, lt);
      if g in db.segments {
        AccumTake(db.scopeAccum, db.segments, lt, g);
      } else {
        assert db'.segments == db.segments;
      }
    }
    forall c | c in db'.containers && db'.containers[c].segment.Some?
      ensures db'.containers[c].segment.value in db'.segments
    {
      assert c !in Members(db, g);
    }
  }

  lemma UsageKeepsSound(db: Db, c: ContainerId, lt: LimitType, v: int)
    requires Sound(db) && v >= 0
    ensures Sound(SetUsage(db, c, lt, v)) && Sound(AddUsage(db, c, lt, v))
  {
  }

  /** Limits and flags do not matter, and containers may change as long as their segments exist. */
  lemma RowsKeepSound(db: Db, db': Db)
    requires Sound(db)
    requires db'.usage == db.usage && db'.scopeAccum == db.scopeAccum && db'.segments == db.segments
    requires forall c | c in db'.containers ::
               db'.containers[c].segment.Some? ==> db'.containers[c].segment.value in db.segments
    ensures Sound(db')
  {
  }

  lemma RowKeepsSound(db: Db, c: ContainerId, row: Row)
    requires Sound(db) && (row.segment.Some? ==> row.segment.value in db.segments)
    ensures Sound(db.(containers := db.containers[c := row]))
  {
    RowsKeepSound(db, db.(containers := db.containers[c := row]));
  }

  lemma RowOpKeepsSound(db: Db, c: ContainerId, g: SegmentId, frozen: bool)
    requires Sound(db)
    ensures Sound(RegisterContainer(db, c)) && Sound(SetFrozen(db, c, frozen))
    ensures Sound(OrSame(Assign(db, c, g), db)) && Sound(OrSame(Unassign(db, c, g), db))
  {
    RowKeepsSound(db, c, Row(None, false));
    if c in db.containers {
      var row := db.containers[c];
      RowKeepsSound(db, c, row.(frozen := frozen));
      RowKeepsSound(db, c, row.(segment := None));
      if g in db.segments {
        RowKeepsSound(db, c, row.(segment := Some(g)));
      }
    }
    hide Sound;
  }

  lemma SegmentOpKeepsSound(db: Db, g: SegmentId)
    requires Sound(db)
    ensures Sound(OrSame(CreateSegment(db, g), db)) && Sound(OrSame(DeleteSegment(db, g), db))
  {
    hide Sound;
    if g !in db.segments { NewSegmentKeepsSound(db, g); }
    if DeleteSegment(db, g).Some? { DropSegmentKeepsSound(db, g); }
  }

  lemma LimitOpKeepsSound(db: Db, c: ContainerId, d: ContainerId, scope: Scope, lt: LimitType, v: int)
    requires Sound(db)
    ensures Sound(SetLimit(db, c, lt, v)) && Sound(CopyLimits(db, c, d)) && Sound(SetScopeLimit(db, scope, lt, v))
  {
    RowsKeepSound(db, SetLimit(db, c, lt, v));
    RowsKeepSound(db, CopyLimits(db, c, d));
    RowsKeepSound(db, SetScopeLimit(db, scope, lt, v));
    hide Sound;
  }

  lemma OpKeepsSound(db: Db, op: Op)
    requires Sound(db) && Metered(op)
    ensures Sound(Do(db, op))
  {
    hide Sound, RemoveContainer, CreateSegment, DeleteSegment, Assign, Unassign, SetFrozen, RegisterContainer,
         SetLimit, CopyLimits, SetScopeLimit;
    match op
    case Remove(c) => RemovalKeepsSound(db, c);
    case NewSegment(g) => SegmentOpKeepsSound(db, g);
    case DropSegment(g) => SegmentOpKeepsSound(db, g);
    case Use(c, lt, v) => UsageKeepsSound(db, c, lt, v);
    case Add(c, lt, v) => UsageKeepsSound(db, c, lt, v);
    case Register(c) => RowOpKeepsSound(db, c, 0, false);
    case Freeze(c, frozen) => RowOpKeepsSound(db, c, 0, frozen);
    case AssignTo(c, g) => RowOpKeepsSound(db, c, g, false);
    case UnassignFrom(c, g) => RowOpKeepsSound(db, c, g, false);
    case Limit(c, lt, v) => LimitOpKeepsSound(db, c, c, Host, lt, v);
    case Copy(from, to) => LimitOpKeepsSound(db, from, to, Host, Cpu, 0);
    case ScopeLimit(scope, lt, v) => LimitOpKeepsSound(db, 0, 0, scope, lt, v);
  }

  /** In every database reached from an empty one. */
  lemma {:induction false} ReachableIsSound(ops: seq<Op>)
    requires AllMetered(ops)
    ensures Sound(DoAll(EMPTY_DB, ops))
  {
    if ops != [] {
      ReachableIsSound(ops[..|ops|-1]);
      OpKeepsSound(DoAll(EMPTY_DB, ops[..|ops|-1]), ops[|ops|-1]);
    } else {
      forall lt ensures Val(EMPTY_DB.scopeAccum, (Host, lt)) >= AccumOf(EMPTY_DB.scopeAccum, {}, lt) {
      }
    }
  }

  lemma ReachableHostCoversSegments(ops: seq<Op>, lt: LimitType)
    requires AllMetered(ops)
    ensures var db := DoAll(EMPTY_DB, ops);
            Total(db, Host, lt) >= SegmentTotals(db, db.segments, lt)
  {
    ReachableIsSound(ops);
    HostCoversSegments(DoAll(EMPTY_DB, ops), lt);
  }

  // ----- The host total never falls -----

  /** A meter never reads less than it did; containers are removed by their registered id. */
  predicate Advancing(db: Db, op: Op)
  {
    && (op.Use? ==> op.v >= Val(db.usage, (op.c, op.lt)))
    && (op.Remove? ==> op.c in db.containers)
  }

  /** What one operation adds to a host total: only usage of registered containers and registration count. */
  function HostGain(db: Db, op: Op, lt: LimitType): int
  {
    match op
    case Register(c) => if c in db.containers then 0 else Val(db.usage, (c, lt))
    case Remove(c) => Settled(db, c, lt) - Val(db.usage, (c, lt))
    case Use(c, t, v) => if c in db.containers && t == lt then v - Val(db.usage, (c, lt)) else 0
    case Add(c, t, v) => if c in db.containers && t == lt then v else 0
    case _ => 0
  }

  lemma SetUsageStep(db: Db, c: ContainerId, t: LimitType, v: int, lt: LimitType)
    ensures Total(SetUsage(db, c, t, v), Host, lt) ==
            Total(db, Host, lt) + if c in db.containers && t == lt then v - Val(db.usage, (c, lt)) else 0
  {
    SumChange(db.usage, SetUsage(db, c, t, v).usage, db.containers.Keys, lt, c);
  }

  lemma AddUsageStep(db: Db, c: ContainerId, t: LimitType, v: int, lt: LimitType)
    ensures Total(AddUsage(db, c, t, v), Host, lt) == Total(db, Host, lt) + if c in db.containers && t == lt then v else 0
  {
    SumChange(db.usage, AddUsage(db, c, t, v).usage, db.containers.Keys, lt, c);
  }

  /** Operations that leave usage, host accumulator and registered ids alone leave the total alone. */
  lemma SameTotal(db: Db, db': Db, lt: LimitType)
    requires db'.usage == db.usage && db'.containers.Keys == db.containers.Keys
    requires Val(db'.scopeAccum, (Host, lt)) == Val(db.scopeAccum, (Host, lt))
    ensures Total(db', Host, lt) == Total(db, Host, lt)
  {
  }

  lemma RegisterStep(db: Db, c: ContainerId, lt: LimitType)
    ensures Total(RegisterContainer(db, c), Host, lt) ==
            Total(db, Host, lt) + if c in db.containers then 0 else Val(db.usage, (c, lt))
  {
    var db' := RegisterContainer(db, c);
    if c in db.containers {
      assert db'.containers.Keys == db.containers.Keys;
    } else {
      SumAdd(db.usage, db.containers.Keys, lt, c);
      assert db'.containers.Keys == db.containers.Keys + {c};
    }
  }

  lemma QuietStep(db: Db, op: Op, lt: LimitType)
    requires op.Limit? || op.Copy? || op.ScopeLimit? || op.NewSegment?
    ensures Total(Do(db, op), Host, lt) == Total(db, Host, lt)
  {
    hide Total, Val;
    SameTotal(db, Do(db, op), lt);
  }

  lemma RowKeepsTotal(db: Db, c: ContainerId, row: Row, lt: LimitType)
    requires c in db.containers
    ensures Total(db.(containers := db.containers[c := row]), Host, lt) == Total(db, Host, lt)
  {
    assert db.containers[c := row].Keys == db.containers.Keys;
  }

  lemma RowStep(db: Db, c: ContainerId, g: SegmentId, frozen: bool, lt: LimitType)
    ensures Total(SetFrozen(db, c, frozen), Host, lt) == Total(db, Host, lt)
    ensures Total(OrSame(Assign(db, c, g), db), Host, lt) == Total(db, Host, lt)
    ensures Total(OrSame(Unassign(db, c, g), db), Host, lt) == Total(db, Host, lt)
  {
    hide Total;
    if c in db.containers {
      var row := db.containers[c];
      RowKeepsTotal(db, c, row.(frozen := frozen), lt);
      RowKeepsTotal(db, c, row.(segment := None), lt);
      RowKeepsTotal(db, c, row.(segment := Some(g)), lt);
    }
  }

  lemma DropSegmentKeepsHost(db: Db, g: SegmentId, lt: LimitType)
    ensures Total(OrSame(DeleteSegment(db, g), db), Host, lt) == Total(db, Host, lt)
  {
    var db' := OrSame(DeleteSegment(db, g), db);
    assert Val(db'.scopeAccum, (Host, lt)) == Val(db.scopeAccum, (Host, lt));
    SameTotal(db, db', lt);
  }

  /** One operation moves a host total by exactly its gain. */
  lemma HostTotalStep(db: Db, op: Op, lt: LimitType)
    requires op.Remove? ==> op.c in db.containers
    ensures Total(Do(db, op), Host, lt) == Total(db, Host, lt) + HostGain(db, op, lt)
  {
    hide Total, RemoveContainer, RegisterContainer, CreateSegment, DeleteSegment, Assign, Unassign, SetFrozen;
    match op
    case Register(c) => RegisterStep(db, c, lt);
    case Remove(c) => TotalAfterRemoval(db, c, Host, lt);
    case Use(c, t, v) => SetUsageStep(db, c, t, v, lt);
    case Add(c, t, v) => AddUsageStep(db, c, t, v, lt);
    case Freeze(c, frozen) => RowStep(db, c, 0, frozen, lt);
    case AssignTo(c, g) => RowStep(db, c, g, false, lt);
    case UnassignFrom(c, g) => RowStep(db, c, g, false, lt);
    case DropSegment(g) => DropSegmentKeepsHost(db, g, lt);
    case _ => QuietStep(db, op, lt);
  }

  ghost predicate AllAdvancing(db: Db, ops: seq<Op>)
  {
    forall i | 0 <= i < |ops| :: Metered(ops[i]) && Advancing(DoAll(db, ops[..i]), ops[i])
  }

  lemma GainIsNotNegative(db: Db, op: Op, lt: LimitType)
    requires Sound(db) && Metered(op) && Advancing(db, op) && Cumulative(lt)
    ensures HostGain(db, op, lt) >= 0
  {
  }

  /** Whatever is registered, removed, metered, assigned or deleted, a cumulative host total never falls. */
  lemma {:induction false} HostTotalNeverFalls(db: Db, ops: seq<Op>, lt: LimitType)
    requires Sound(db) && AllAdvancing(db, ops) && Cumulative(lt)
    ensures Sound(DoAll(db, ops)) && Total(DoAll(db, ops), Host, lt) >= Total(db, Host, lt)
  {
    if ops != [] {
      var front, last := ops[..|ops|-1], ops[|ops|-1];
      assert forall i | 0 <= i < |front| :: front[..i] == ops[..i];
      HostTotalNeverFalls(db, front, lt);
      hide Do, Total, Sound, Metered, Advancing, HostGain;
      var before := DoAll(db, front);
      OpKeepsSound(before, last);
      HostTotalStep(before, last, lt);
      GainIsNotNegative(before, last, lt);
    }
  }

  // ----- Legacy tables -----

  /** The host rows and the legacy rows agree. */
  ghost predicate MirrorRows(m: map<(Scope, LimitType), int>, legacy: map<LimitType, int>)
  {
    forall lt :: ((Host, lt) in m <==> lt in legacy) && Val(m, (Host, lt)) == Val(legacy, lt)
  }

  ghost predicate Mirror(db: Db)
  {
    MirrorRows(db.scopeLimits, db.globalLimits) && MirrorRows(db.scopeAccum, db.globalAccum)
  }

  lemma MirrorAdded(m: map<(Scope, LimitType), int>, legacy: map<LimitType, int>, t: LimitType, v: int)
    requires MirrorRows(m, legacy)
    ensures MirrorRows(AddTo(m, (Host, t), v), AddTo(legacy, t, v))
  {
    forall lt
      ensures (Host, lt) in AddTo(m, (Host, t), v) <==> lt in AddTo(legacy, t, v)
      ensures Val(AddTo(m, (Host, t), v), (Host, lt)) == Val(AddTo(legacy, t, v), lt)
    {
      hide AddTo, Val;
      AddedTo(m, (Host, t), v, (Host, lt));
      AddedToLegacy(legacy, t, v, lt);
    }
  }

  lemma MirrorOthers(m: map<(Scope, LimitType), int>, legacy: map<LimitType, int>, g: SegmentId, t: LimitType, v: int)
    requires MirrorRows(m, legacy)
    ensures MirrorRows(AddTo(m, (Segment(g), t), v), legacy)
  {
    forall lt
      ensures (Host, lt) in AddTo(m, (Segment(g), t), v) <==> lt in legacy
      ensures Val(AddTo(m, (Segment(g), t), v), (Host, lt)) == Val(legacy, lt)
    {
      hide AddTo, Val;
      AddedTo(m, (Segment(g), t), v, (Host, lt));
    }
  }

  lemma MirrorOneKept(db: Db, c: ContainerId, lt: LimitType)
    requires MirrorRows(db.scopeAccum, db.globalAccum)
    ensures MirrorRows(Accumulate(db, c, lt).scopeAccum, Accumulate(db, c, lt).globalAccum)
  {
    hide AddTo, MirrorRows;
    var v := Val(db.usage, (c, lt));
    MirrorAdded(db.scopeAccum, db.globalAccum, lt, v);
    if SegmentOf(db, c).Some? {
      MirrorOthers(AddTo(db.scopeAccum, (Host, lt), v), AddTo(db.globalAccum, lt, v), SegmentOf(db, c).value, lt, v);
    }
  }

  lemma {:induction false} AccumulateKeepsMirror(db: Db, c: ContainerId, n: nat)
    requires n <= |CUMULATIVE_LIMIT_TYPES| && MirrorRows(db.scopeAccum, db.globalAccum)
    ensures MirrorRows(AccumulateFirst(db, c, n).scopeAccum, AccumulateFirst(db, c, n).globalAccum)
  {
    hide MirrorRows, Accumulate;
    if n > 0 {
      AccumulateKeepsMirror(db, c, n - 1);
      MirrorOneKept(AccumulateFirst(db, c, n - 1), c, CUMULATIVE_LIMIT_TYPES[n-1]);
    }
  }

  lemma RemovalKeepsMirror(db: Db, c: ContainerId)
    requires Mirror(db)
    ensures Mirror(RemoveContainer(db, c))
  {
    AccumulateKeepsMirror(db, c, |CUMULATIVE_LIMIT_TYPES|);
    hide MirrorRows, AccumulateFirst;
  }

  lemma ScopeLimitKeepsMirror(db: Db, scope: Scope, t: LimitType, v: int)
    requires Mirror(db)
    ensures Mirror(SetScopeLimit(db, scope, t, v))
  {
  }

  lemma DropSegmentKeepsMirror(db: Db, g: SegmentId)
    requires Mirror(db)
    ensures Mirror(OrSame(DeleteSegment(db, g), db))
  {
  }

  lemma OpKeepsMirror(db: Db, op: Op)
    requires Mirror(db)
    ensures Mirror(Do(db, op))
  {
    hide MirrorRows, RemoveContainer, SetScopeLimit, DeleteSegment;
    match op
    case Remove(c) => RemovalKeepsMirror(db, c);
    case ScopeLimit(scope, lt, v) => ScopeLimitKeepsMirror(db, scope, lt, v);
    case DropSegment(g) => DropSegmentKeepsMirror(db, g);
    case _ =>
  }

  lemma {:induction false} RunKeepsMirror(db: Db, ops: seq<Op>)
    requires Mirror(db)
    ensures Mirror(DoAll(db, ops))
  {
    if ops != [] {
      RunKeepsMirror(db, ops[..|ops|-1]);
      OpKeepsMirror(DoAll(db, ops[..|ops|-1]), ops[|ops|-1]);
    }
  }

  lemma InsertOrIgnoreFacts(m: map<(Scope, LimitType), int>, legacy: map<LimitType, int>, k: (Scope, LimitType))
    ensures k in InsertOrIgnore(m, legacy) <==> k in m || (k.0 == Host && k.1 in legacy)
    ensures k in m ==> InsertOrIgnore(m, legacy)[k] == m[k]
    ensures k !in m && k.0 == Host && k.1 in legacy ==> InsertOrIgnore(m, legacy)[k] == legacy[k.1]
  {
  }

  /** Migrating makes the tables agree exactly when no host row was there without an equal legacy row. */
  lemma MigrateMirrorsIff(m: map<(Scope, LimitType), int>, legacy: map<LimitType, int>)
    ensures MirrorRows(InsertOrIgnore(m, legacy), legacy) <==>
            forall lt | (Host, lt) in m :: lt in legacy && legacy[lt] == m[(Host, lt)]
  {
    var out := InsertOrIgnore(m, legacy);
    forall lt ensures (Host, lt) in out <==> (Host, lt) in m || lt in legacy {
      InsertOrIgnoreFacts(m, legacy, (Host, lt));
    }
    if MirrorRows(out, legacy) {
      forall lt | (Host, lt) in m ensures lt in legacy && legacy[lt] == m[(Host, lt)] {
        assert Val(out, (Host, lt)) == Val(legacy, lt);
      }
    }
  }

  /** Migrating is idempotent, and does nothing exactly when every legacy row has its host row. */
  lemma MigrateIdleIff(db: Db)
    ensures Migrate(Migrate(db)) == Migrate(db)
    ensures Migrate(db) == db <==>
              ((forall lt | lt in db.globalLimits :: (Host, lt) in db.scopeLimits) &&
               (forall lt | lt in db.globalAccum :: (Host, lt) in db.scopeAccum))
  {
    InsertIdleIff(db.scopeLimits, db.globalLimits);
    InsertIdleIff(db.scopeAccum, db.globalAccum);
    InsertIdleIff(InsertOrIgnore(db.scopeLimits, db.globalLimits), db.globalLimits);
    InsertIdleIff(InsertOrIgnore(db.scopeAccum, db.globalAccum), db.globalAccum);
  }

  lemma InsertIdleIff(m: map<(Scope, LimitType), int>, legacy: map<LimitType, int>)
    ensures InsertOrIgnore(m, legacy) == m <==> forall lt | lt in legacy :: (Host, lt) in m
    ensures forall lt | lt in legacy :: (Host, lt) in InsertOrIgnore(m, legacy)
  {
    var out := InsertOrIgnore(m, legacy);
    forall lt | lt in legacy ensures (Host, lt) in out {
      InsertOrIgnoreFacts(m, legacy, (Host, lt));
    }
    if forall lt | lt in legacy :: (Host, lt) in m {
      forall k ensures (k in out <==> k in m) && (k in m ==> out[k] == m[k]) {
        InsertOrIgnoreFacts(m, legacy, k);
      }
      assert out == m;
    }
  }

  // ----- Migrating again -----

  /** Every legacy row has its host row. */
  ghost predicate Covered(db: Db)
  {
    && (forall lt | lt in db.globalLimits :: (Host, lt) in db.scopeLimits)
    && (forall lt | lt in db.globalAccum :: (Host, lt) in db.scopeAccum)
  }

  lemma AccumulateKeepsCovered(db: Db, c: ContainerId, lt: LimitType)
    requires Covered(db)
    ensures Covered(Accumulate(db, c, lt))
  {
  }

  lemma {:induction false} AccumulateFirstKeepsCovered(db: Db, c: ContainerId, n: nat)
    requires n <= |CUMULATIVE_LIMIT_TYPES| && Covered(db)
    ensures Covered(AccumulateFirst(db, c, n))
  {
    hide Covered, Accumulate;
    if n > 0 {
      AccumulateFirstKeepsCovered(db, c, n - 1);
      AccumulateKeepsCovered(AccumulateFirst(db, c, n - 1), c, CUMULATIVE_LIMIT_TYPES[n-1]);
    }
  }

  lemma RemovalKeepsCovered(db: Db, c: ContainerId)
    requires Covered(db)
    ensures Covered(RemoveContainer(db, c))
  {
    AccumulateFirstKeepsCovered(db, c, |CUMULATIVE_LIMIT_TYPES|);
    hide AccumulateFirst;
  }

  lemma ScopeLimitKeepsCovered(db: Db, scope: Scope, lt: LimitType, v: int)
    requires Covered(db)
    ensures Covered(SetScopeLimit(db, scope, lt, v))
  {
  }

  lemma DropSegmentKeepsCovered(db: Db, g: SegmentId)
    requires Covered(db)
    ensures Covered(OrSame(DeleteSegment(db, g), db))
  {
  }

  lemma OpKeepsCovered(db: Db, op: Op)
    requires Covered(db)
    ensures Covered(Do(db, op))
  {
    match op
    case Remove(c) => RemovalKeepsCovered(db, c);
    case ScopeLimit(scope, lt, v) => ScopeLimitKeepsCovered(db, scope, lt, v);
    case DropSegment(g) => DropSegmentKeepsCovered(db, g);
    case _ =>
    hide RemoveContainer, SetScopeLimit, DeleteSegment;
  }

  lemma {:induction false} RunKeepsCovered(db: Db, ops: seq<Op>)
    requires Covered(db)
    ensures Covered(DoAll(db, ops))
  {
    if ops != [] {
      hide Covered, Do;
      RunKeepsCovered(db, ops[..|ops|-1]);
      OpKeepsCovered(DoAll(db, ops[..|ops|-1]), ops[|ops|-1]);
    }
  }

  /** Whatever database it began with, a daemon that opens its own database again migrates nothing; and tables that
      the first migration made agree still do. */
  lemma ReopenMigratesNothing(legacy: Db, ops: seq<Op>)
    ensures var db := DoAll(Migrate(legacy), ops);
            Migrate(db) == db && (Mirror(Migrate(legacy)) ==> Mirror(db))
  {
    var first := Migrate(legacy);
    MigrateIdleIff(legacy);
    MigrateIdleIff(first);
    RunKeepsCovered(first, ops);
    MigrateIdleIff(DoAll(first, ops));
    if Mirror(first) {
      RunKeepsMirror(first, ops);
    }
    hide Migrate, DoAll, Mirror;
  }
}
