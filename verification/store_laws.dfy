/** What can be read from the store after each operation, row by row, and where rows come from over whole runs. */
module StoreLaws {
  import opened Model
  import opened StoreState
  import opened StoreTotals

  // ----- Container rows: usage, limits, registration -----

  /** The rows of a removed container are gone and everybody else's are as they were. */
  lemma RemovalRows(db: Db, c: ContainerId)
    ensures var db' := RemoveContainer(db, c);
            && c !in db'.containers
            && (forall lt :: (c, lt) !in db'.usage && (c, lt) !in db'.limits)
            && (forall k: (ContainerId, LimitType) | k.0 != c ::
                  && (k in db'.usage <==> k in db.usage) && (k in db.usage ==> db'.usage[k] == db.usage[k])
                  && (k in db'.limits <==> k in db.limits) && (k in db.limits ==> db'.limits[k] == db.limits[k]))
            && (forall d | d != c :: (d in db'.containers <==> d in db.containers)
                                     && (d in db.containers ==> db'.containers[d] == db.containers[d]))
            && db'.segments == db.segments && db'.scopeLimits == db.scopeLimits && db'.globalLimits == db.globalLimits
  {
    hide AccumulateFirst;
  }

  /** What an operation writes into the usage rows. */
  predicate WritesUsage(op: Op, c: ContainerId, lt: LimitType)
  {
    (op.Use? || op.Add?) && op.c == c && op.lt == lt
  }

  lemma OtherUsage(db: Db, op: Op)
    requires !op.Remove? && !op.Use? && !op.Add?
    ensures Do(db, op).usage == db.usage
  {
    RowOpTables(db, op);
    hide RowsFor, WithoutScope, Members, Assign, Unassign, SetFrozen;
  }

  /** Row operations change rows of containers only. */
  lemma RowOpTables(db: Db, op: Op)
    ensures op.Freeze? || op.AssignTo? || op.UnassignFrom? ==> Do(db, op) == db.(containers := Do(db, op).containers)
  {
    if op.Freeze? || op.AssignTo? || op.UnassignFrom? {
      hide RemoveContainer, CopyLimits, CreateSegment, DeleteSegment;
    }
  }

  /** Every operation, for every usage row: there, with the metered value or the sum, or as before. */
  lemma UsageLaw(db: Db, op: Op, c: ContainerId, lt: LimitType)
    ensures var k, db' := (c, lt), Do(db, op);
            && (k in db'.usage <==> (k in db.usage && op != Remove(c)) || WritesUsage(op, c, lt))
            && (k in db'.usage ==>
                  db'.usage[k] == (if !WritesUsage(op, c, lt) then db.usage[k]
                                   else if op.Add? && k in db.usage then db.usage[k] + op.v
                                   else op.v))
  {
    if op.Remove? {
      RemovalRows(db, op.c);
      hide RemoveContainer;
    } else if !op.Use? && !op.Add? {
      OtherUsage(db, op);
      hide Do;
    }
  }

  lemma OtherLimits(db: Db, op: Op)
    requires !op.Remove? && !op.Limit? && !op.Copy?
    ensures Do(db, op).limits == db.limits
  {
    hide WithoutScope, Members;
  }

  /** A copy writes the rows that its source has. */
  predicate CopiesLimit(db: Db, op: Op, c: ContainerId, lt: LimitType)
  {
    op.Copy? && op.to == c && (op.from, lt) in db.limits
  }

  lemma CopyRow(db: Db, from: ContainerId, to: ContainerId, c: ContainerId, lt: LimitType)
    ensures var k, db' := (c, lt), CopyLimits(db, from, to);
            && (k in db'.limits <==> k in db.limits || (to == c && (from, lt) in db.limits))
            && (k in db'.limits ==>
                  db'.limits[k] == (if to == c && (from, lt) in db.limits then db.limits[(from, lt)] else db.limits[k]))
  {
    var rows := RowsFor(db.limits, from, to);
    if to == c && (from, lt) in db.limits {
      assert (to, (from, lt).1) in rows;
    }
  }

  /** Every operation, for every limit row. */
  lemma LimitLaw(db: Db, op: Op, c: ContainerId, lt: LimitType)
    ensures var k, db' := (c, lt), Do(db, op);
            var written := op.Limit? && op.c == c && op.lt == lt;
            && (k in db'.limits <==> (k in db.limits && op != Remove(c)) || written || CopiesLimit(db, op, c, lt))
            && (k in db'.limits ==>
                  db'.limits[k] == (if written then op.v
                                    else if CopiesLimit(db, op, c, lt) then db.limits[(op.from, lt)]
                                    else db.limits[k]))
  {
    if op.Remove? {
      RemovalRows(db, op.c);
      hide RemoveContainer;
    } else if op.Copy? {
      CopyRow(db, op.from, op.to, c, lt);
      hide CopyLimits;
    } else if !op.Limit? {
      OtherLimits(db, op);
      hide Do;
    }
  }

  /** Joining is accepted for a registered container that is in no other segment, if the segment exists. */
  predicate MayJoin(db: Db, c: ContainerId, g: SegmentId)
  {
    && g in db.segments && c in db.containers
    && (db.containers[c].segment == None || db.containers[c].segment == Some(g))
  }

  /** The row of c after an operation: a registration starts afresh, and each flag has its own operations. */
  function RowAfter(db: Db, op: Op, c: ContainerId): Option<Row>
  {
    if op == Register(c) then Some(Row(None, false))
    else if c !in db.containers || op == Remove(c) then None
    else
      var row := db.containers[c];
      Some(Row(
        if op.AssignTo? && op.c == c && MayJoin(db, c, op.g) then Some(op.g)
        else if op.UnassignFrom? && op.c == c && row.segment == Some(op.g) then None
        else row.segment,
        if op.Freeze? && op.c == c then op.frozen else row.frozen))
  }

  lemma JoinAccepted(db: Db, d: ContainerId, g: SegmentId)
    ensures MayJoin(db, d, g) ==>
              OrSame(Assign(db, d, g), db) == db.(containers := db.containers[d := db.containers[d].(segment := Some(g))])
    ensures !MayJoin(db, d, g) ==> OrSame(Assign(db, d, g), db) == db
  {
  }

  lemma JoinRow(db: Db, d: ContainerId, g: SegmentId, c: ContainerId)
    ensures var rows := OrSame(Assign(db, d, g), db).containers;
            && (c in rows <==> c in db.containers)
            && (c in db.containers && c == d && MayJoin(db, d, g) ==>
                  rows[c] == Row(Some(g), db.containers[c].frozen))
            && (c in db.containers && !(c == d && MayJoin(db, d, g)) ==> rows[c] == db.containers[c])
  {
    JoinAccepted(db, d, g);
    hide Assign, OrSame;
  }

  lemma LeaveAccepted(db: Db, d: ContainerId, g: SegmentId)
    ensures d in db.containers && db.containers[d].segment == Some(g) ==>
              OrSame(Unassign(db, d, g), db) == db.(containers := db.containers[d := db.containers[d].(segment := None)])
    ensures !(d in db.containers && db.containers[d].segment == Some(g)) ==> OrSame(Unassign(db, d, g), db) == db
  {
  }

  lemma LeaveRow(db: Db, d: ContainerId, g: SegmentId, c: ContainerId)
    ensures var rows := OrSame(Unassign(db, d, g), db).containers;
            && (c in rows <==> c in db.containers)
            && (c in db.containers && c == d && db.containers[d].segment == Some(g) ==>
                  rows[c] == Row(None, db.containers[c].frozen))
            && (c in db.containers && !(c == d && db.containers[d].segment == Some(g)) ==> rows[c] == db.containers[c])
  {
    LeaveAccepted(db, d, g);
    hide Unassign, OrSame;
  }

  lemma FlagRow(db: Db, op: Op, c: ContainerId)
    requires op.Register? || op.Freeze?
    ensures c in Do(db, op).containers <==> RowAfter(db, op, c).Some?
    ensures c in Do(db, op).containers ==> Some(Do(db, op).containers[c]) == RowAfter(db, op, c)
  {
  }

  lemma OtherRows(db: Db, op: Op)
    requires !op.Register? && !op.Remove? && !op.Freeze? && !op.AssignTo? && !op.UnassignFrom?
    ensures Do(db, op).containers == db.containers
  {
    hide RowsFor, WithoutScope, Members, RemoveContainer, Assign, Unassign, SetFrozen;
  }

  /** Every operation, for every container: whether it is registered, in which segment, and whether frozen. */
  lemma RowLaw(db: Db, op: Op, c: ContainerId)
    ensures c in Do(db, op).containers <==> RowAfter(db, op, c).Some?
    ensures c in Do(db, op).containers ==> Some(Do(db, op).containers[c]) == RowAfter(db, op, c)
  {
    if op.Remove? {
      RemovalRows(db, op.c);
      hide RemoveContainer;
    } else if op.AssignTo? {
      JoinRow(db, op.c, op.g, c);
      hide Assign, OrSame, MayJoin;
    } else if op.UnassignFrom? {
      LeaveRow(db, op.c, op.g, c);
      hide Unassign, OrSame;
    } else if op.Register? || op.Freeze? {
      FlagRow(db, op, c);
      hide Do;
    } else {
      OtherRows(db, op);
      hide Do;
    }
  }

  // ----- Scope rows -----

  /** A segment can be deleted while nobody is in it. */
  predicate Deletes(db: Db, op: Op, g: SegmentId)
  {
    op == DropSegment(g) && forall c | c in db.containers :: db.containers[c].segment != Some(g)
  }

  lemma DropLaw(db: Db, g: SegmentId, scope: Scope, lt: LimitType)
    ensures var db' := Do(db, DropSegment(g)); var gone := Deletes(db, DropSegment(g), g);
            && db'.segments == (if gone then db.segments - {g} else db.segments)
            && ((scope, lt) in db'.scopeLimits <==> (scope, lt) in db.scopeLimits && !(gone && scope == Segment(g)))
            && ((scope, lt) in db'.scopeLimits ==> db'.scopeLimits[(scope, lt)] == db.scopeLimits[(scope, lt)])
            && Val(db'.scopeAccum, (scope, lt)) ==
                 (if gone && scope == Segment(g) then 0 else Val(db.scopeAccum, (scope, lt)))
  {
    if Deletes(db, DropSegment(g), g) {
      assert Members(db, g) == {};
    } else {
      var c :| c in db.containers && db.containers[c].segment == Some(g);
      assert c in Members(db, g);
    }
  }

  lemma OtherScopes(db: Db, op: Op)
    requires !op.Remove? && !op.ScopeLimit? && !op.NewSegment? && !op.DropSegment?
    ensures Do(db, op).segments == db.segments && Do(db, op).scopeLimits == db.scopeLimits
    ensures Do(db, op).scopeAccum == db.scopeAccum
  {
    hide RowsFor;
  }

  /** Every operation, for every segment id. */
  lemma SegmentLaw(db: Db, op: Op, g: SegmentId)
    ensures g in Do(db, op).segments <==> op == NewSegment(g) || (g in db.segments && !Deletes(db, op, g))
  {
    if op.DropSegment? {
      DropLaw(db, op.g, Host, Cpu);
      hide Do;
    } else if op.Remove? {
      RemovalRows(db, op.c);
      hide RemoveContainer;
    } else if !op.ScopeLimit? && !op.NewSegment? {
      OtherScopes(db, op);
      hide Do;
    }
  }

  lemma SetScopeRow(db: Db, at: Scope, t: LimitType, v: int, scope: Scope, lt: LimitType)
    ensures var k, rows := (scope, lt), SetScopeLimit(db, at, t, v).scopeLimits;
            && (k in rows <==> (at == scope && t == lt) || k in db.scopeLimits)
            && (k in rows ==> rows[k] == (if at == scope && t == lt then v else db.scopeLimits[k]))
  {
  }

  /** Every operation, for every limit of a scope: set for that scope alone, deleted with its segment. */
  lemma ScopeLimitLaw(db: Db, op: Op, scope: Scope, lt: LimitType)
    ensures var k, db' := (scope, lt), Do(db, op);
            var written := op.ScopeLimit? && op.scope == scope && op.lt == lt;
            && (k in db'.scopeLimits <==>
                  written || (k in db.scopeLimits && !(scope.Segment? && Deletes(db, op, scope.id))))
            && (k in db'.scopeLimits ==> db'.scopeLimits[k] == (if written then op.v else db.scopeLimits[k]))
  {
    if op.DropSegment? {
      DropLaw(db, op.g, scope, lt);
      hide Do;
    } else if op.Remove? {
      RemovalRows(db, op.c);
      hide RemoveContainer;
    } else if op.ScopeLimit? {
      SetScopeRow(db, op.scope, op.lt, op.v, scope, lt);
      hide SetScopeLimit;
    } else if !op.NewSegment? {
      OtherScopes(db, op);
      hide Do;
    }
  }

  /** Usage that outlives its container: of everything but RAM, disk and rows that are no limit type. */
  predicate Outlives(lt: LimitType)
  {
    !lt.Ram? && !lt.Disk? && !lt.Other?
  }

  lemma OutlivesIsCumulative(lt: LimitType)
    ensures lt in CUMULATIVE_LIMIT_TYPES <==> Outlives(lt)
  {
    var ts := CUMULATIVE_LIMIT_TYPES;
    assert ts[0] == Cpu && ts[1] == Net && ts[2] == DiskIoBytes && ts[3] == DiskIoOps && ts[4] == Spending;
    assert ts[5] == RamUsageBsec && ts[6] == DiskUsageBsec && ts[7] == RamRequestBsec && ts[8] == DiskRequestBsec;
  }

  /** The usage c leaves behind in a scope when it is removed. */
  function LeftBehind(db: Db, c: ContainerId, scope: Scope, lt: LimitType): int
  {
    var member := c in db.containers && scope.Segment? && db.containers[c].segment == Some(scope.id);
    if (scope == Host || member) && Outlives(lt) && (c, lt) in db.usage && db.usage[(c, lt)] > 0 then db.usage[(c, lt)] else 0
  }

  /** Every operation, for every accumulator: only a removal adds to it, what it leaves behind in its scopes. */
  lemma AccumulatorLaw(db: Db, op: Op, scope: Scope, lt: LimitType)
    ensures Val(Do(db, op).scopeAccum, (scope, lt)) ==
            if scope.Segment? && Deletes(db, op, scope.id) then 0
            else Val(db.scopeAccum, (scope, lt)) + if op.Remove? then LeftBehind(db, op.c, scope, lt) else 0
  {
    if op.DropSegment? {
      DropLaw(db, op.g, scope, lt);
      hide Do;
    } else if op.Remove? {
      OutlivesIsCumulative(lt);
      AccumAfterRemoval(db, op.c, scope, lt);
      hide RemoveContainer, Outlives;
    } else if !op.ScopeLimit? && !op.NewSegment? {
      OtherScopes(db, op);
      hide Do;
    }
  }

  // ----- Rows have writers -----

  /** The operation writes a usage or limit row of c. */
  predicate Touches(op: Op, c: ContainerId)
  {
    ((op.Use? || op.Add? || op.Limit?) && op.c == c) || (op.Copy? && op.to == c)
  }

  ghost predicate NoRows(db: Db, c: ContainerId)
  {
    forall lt :: (c, lt) !in db.usage && (c, lt) !in db.limits
  }

  /** Since the last removal of c nothing wrote a row of c. */
  ghost predicate UntouchedSinceRemoval(ops: seq<Op>, c: ContainerId)
  {
    forall k | 0 <= k < |ops| && Touches(ops[k], c) :: exists j :: k < j < |ops| && ops[j] == Remove(c)
  }

  lemma {:induction false} WithoutWriters(ops: seq<Op>, c: ContainerId)
    requires UntouchedSinceRemoval(ops, c)
    ensures NoRows(DoAll(EMPTY_DB, ops), c)
  {
    if ops != [] {
      var front, last := ops[..|ops|-1], ops[|ops|-1];
      var before := DoAll(EMPTY_DB, front);
      if last == Remove(c) {
        RemovalRows(before, c);
      } else {
        forall k | 0 <= k < |front| && Touches(front[k], c) ensures exists j :: k < j < |front| && front[j] == Remove(c) {
          assert ops[k] == front[k];
          var j :| k < j < |ops| && ops[j] == Remove(c);
          assert front[j] == ops[j];
        }
        WithoutWriters(front, c);
        assert ops[|ops|-1] == last;
        assert !Touches(last, c);
        forall lt ensures (c, lt) !in Do(before, last).usage && (c, lt) !in Do(before, last).limits {
          UsageLaw(before, last, c, lt);
          LimitLaw(before, last, c, lt);
        }
      }
      hide Do, Touches;
    }
  }

  /** Over every run from an empty store a container has no usage and no limit unless something was written for it since
      it was last removed, whether it is registered or not. */
  lemma RowsHaveWriters(ops: seq<Op>, c: ContainerId, lt: LimitType)
    requires (c, lt) in DoAll(EMPTY_DB, ops).usage || (c, lt) in DoAll(EMPTY_DB, ops).limits
    ensures exists k :: 0 <= k < |ops| && Touches(ops[k], c) && forall j | k < j < |ops| :: ops[j] != Remove(c)
  {
    if forall k | 0 <= k < |ops| && Touches(ops[k], c) :: exists j :: k < j < |ops| && ops[j] == Remove(c) {
      WithoutWriters(ops, c);
      assert false;
    }
  }

  /** Removed and registered again, a container brings nothing back: all totals stay as the removal left them, it has
      no limit, and it is in no segment and not frozen. */
  lemma RemovedAndBackIsNew(db: Db, c: ContainerId, scope: Scope, lt: LimitType)
    ensures var gone, back := RemoveContainer(db, c), RegisterContainer(RemoveContainer(db, c), c);
            && Total(back, scope, lt) == Total(gone, scope, lt)
            && (c, lt) !in back.usage && (c, lt) !in back.limits
            && c in back.containers && back.containers[c] == Row(None, false)
  {
    var gone := RemoveContainer(db, c);
    var back := RegisterContainer(gone, c);
    RemovalRows(db, c);
    hide RemoveContainer;
    if scope == Host {
      assert back.containers.Keys == gone.containers.Keys + {c};
      SumAdd(gone.usage, gone.containers.Keys, lt, c);
    } else {
      assert ListByScope(back, scope) == ListByScope(gone, scope);
    }
  }

  /** A container that used 7 of a limit of 5, removed and registered again: 7 in total, and no limit. */
  lemma RemovedAndBack()
    ensures var db := EMPTY_DB.(containers := map[0 := Row(None, false)], usage := map[(0, Cpu) := 7],
                                limits := map[(0, Cpu) := 5]);
            var back := RegisterContainer(RemoveContainer(db, 0), 0);
            Total(db, Host, Cpu) == 7 && Total(back, Host, Cpu) == 7 && (0, Cpu) !in back.limits
  {
    var db := EMPTY_DB.(containers := map[0 := Row(None, false)], usage := map[(0, Cpu) := 7],
                        limits := map[(0, Cpu) := 5]);
    RemovedAndBackIsNew(db, 0, Host, Cpu);
    OutlivesIsCumulative(Cpu);
    TotalAfterRemoval(db, 0, Host, Cpu);
    assert db.containers.Keys == {0} && {0} - {0} == {};
    SumTake(db.usage, {0}, Cpu, 0);
    hide RemoveContainer;
  }
}
