/**
 Limits through the API: the arithmetic of set, increase and decrease, and what "keep limits
 consistent" keeps. Zero, and less, means no limit.
 */
module LimitRules {
  import opened Model
  import opened StoreState
  import opened StoreTotals

  datatype Operation = Set | Increase | Decrease | Unknown

  datatype Reply =
    | Stored(value: int, capped: bool)
    | TooMuch(maxIncrease: int)
    | TooLittle(minValue: int)
    | BadOperation

  function Max0(x: int): int
  {
    if x < 0 then 0 else x
  }

  function Asked(was: int, op: Operation, v: int): int
  {
    match op
    case Set => v
    case Increase => was + v
    case Decrease => Max0(was - v)
    case Unknown => was
  }

  function HostLimit(db: Db, lt: LimitType): int
  {
    Val(db.scopeLimits, (Host, lt))
  }

  function LimitOf(db: Db, c: ContainerId, lt: LimitType): int
  {
    Val(db.limits, (c, lt))
  }

  /** Limits promised to the containers of cs, plus what removed containers used up. */
  ghost function Promised(db: Db, cs: set<ContainerId>, lt: LimitType): int
  {
    Sum(db.limits, cs, lt) + Val(db.scopeAccum, (Host, lt))
  }

  ghost function AllPromised(db: Db, lt: LimitType): int
  {
    Promised(db, db.containers.Keys, lt)
  }

  ghost function PromisedToOthers(db: Db, c: ContainerId, lt: LimitType): int
  {
    Promised(db, db.containers.Keys - {c}, lt)
  }

  ghost function MaxAllowed(db: Db, c: ContainerId, lt: LimitType): int
  {
    Max0(HostLimit(db, lt) - PromisedToOthers(db, c, lt))
  }

  function OrElse(reply: Reply, other: int): int
  {
    if reply.Stored? then reply.value else other
  }

  /** The reply of a limit change of container c, and the value it stores if any. */
  ghost function PutLimit(db: Db, keep: bool, c: ContainerId, lt: LimitType, op: Operation, v: int): Reply
  {
    var asked := Asked(LimitOf(db, c, lt), op, v);
    var most := MaxAllowed(db, c, lt);
    if op == Unknown then BadOperation
    else if !keep || op == Decrease || HostLimit(db, lt) <= 0 || asked <= most then Stored(asked, false)
    else if op == Increase then TooMuch(Max0(most - LimitOf(db, c, lt)))
    else Stored(most, true)
  }

  ghost function PutHostLimit(db: Db, keep: bool, lt: LimitType, op: Operation, v: int): Reply
  {
    var asked := Asked(HostLimit(db, lt), op, v);
    var sum := AllPromised(db, lt);
    if op == Unknown then BadOperation
    else if keep && op != Increase && sum > 0 && asked < sum then TooLittle(sum)
    else Stored(asked, false)
  }

  /** Switching the mode on checks every host limit that is set. */
  ghost predicate MayEnable(db: Db)
  {
    forall k | k in db.scopeLimits && k.0 == Host && db.scopeLimits[k] != 0 :: AllPromised(db, k.1) <= db.scopeLimits[k]
  }

  /** What the mode is for: no host limit promises more than it has. */
  ghost predicate Within(db: Db, lt: LimitType)
  {
    HostLimit(db, lt) > 0 ==> AllPromised(db, lt) <= HostLimit(db, lt)
  }

  ghost predicate Consistent(db: Db)
  {
    forall lt :: Within(db, lt)
  }

  ghost predicate NonNegativeLimits(db: Db)
  {
    forall k | k in db.limits :: db.limits[k] >= 0
  }

  // ----- One change -----

  lemma PromisedSplit(db: Db, c: ContainerId, lt: LimitType)
    requires c in db.containers
    ensures AllPromised(db, lt) == PromisedToOthers(db, c, lt) + LimitOf(db, c, lt)
  {
    SumTake(db.limits, db.containers.Keys, lt, c);
  }

  /** The limit of c as far as it is promised: rows of a container that is not registered promise nothing. */
  function Counted(db: Db, c: ContainerId, lt: LimitType): int
  {
    if c in db.containers then LimitOf(db, c, lt) else 0
  }

  /** Storing v for c and lt moves one sum, to what the others have plus v. */
  lemma AfterSetLimit(db: Db, c: ContainerId, lt: LimitType, v: int, t: LimitType)
    requires c in db.containers
    ensures AllPromised(SetLimit(db, c, lt, v), t) ==
            if t == lt then PromisedToOthers(db, c, lt) + v else AllPromised(db, t)
    ensures HostLimit(SetLimit(db, c, lt, v), t) == HostLimit(db, t)
  {
    var db' := SetLimit(db, c, lt, v);
    SumChange(db.limits, db'.limits, db.containers.Keys, t, c);
    PromisedSplit(db, c, t);
  }

  /** A stored limit keeps consistency exactly when it is nobody's, or fits into what the others leave of the host
      limit: at the moment it is stored, whatever was read before. */
  lemma StoredKeepsIff(db: Db, c: ContainerId, lt: LimitType, v: int)
    requires Consistent(db)
    ensures Consistent(SetLimit(db, c, lt, v)) <==>
            (c !in db.containers || HostLimit(db, lt) <= 0 || v <= HostLimit(db, lt) - PromisedToOthers(db, c, lt))
  {
    var db' := SetLimit(db, c, lt, v);
    if c !in db.containers {
      StrayRowKeeps(db, c, lt, v);
    } else {
      AfterSetLimit(db, c, lt, v, lt);
      if Consistent(db') {
        assert Within(db', lt);
      }
      if HostLimit(db, lt) <= 0 || v <= HostLimit(db, lt) - PromisedToOthers(db, c, lt) {
        forall t ensures Within(db', t) {
          AfterSetLimit(db, c, lt, v, t);
          assert Within(db, t);
        }
      }
    }
  }

  lemma StrayRowKeeps(db: Db, c: ContainerId, lt: LimitType, v: int)
    requires Consistent(db) && c !in db.containers
    ensures Consistent(SetLimit(db, c, lt, v))
  {
    var db' := SetLimit(db, c, lt, v);
    forall t ensures Within(db', t) {
      assert forall d | d in db.containers.Keys :: Val(db'.limits, (d, t)) == Val(db.limits, (d, t));
      SumAgree(db.limits, db'.limits, db.containers.Keys, t);
      assert Within(db, t);
    }
  }

  /** The limits of the other containers alone fit the host limit. They may not, beside a negative limit. */
  ghost predicate OthersFit(db: Db, c: ContainerId, lt: LimitType)
  {
    PromisedToOthers(db, c, lt) <= HostLimit(db, lt)
  }

  lemma OwnLimitFits(db: Db, c: ContainerId, lt: LimitType)
    requires Consistent(db) && c in db.containers && HostLimit(db, lt) > 0
    ensures PromisedToOthers(db, c, lt) + LimitOf(db, c, lt) <= HostLimit(db, lt)
    ensures LimitOf(db, c, lt) <= MaxAllowed(db, c, lt)
    ensures LimitOf(db, c, lt) >= 0 ==> OthersFit(db, c, lt)
  {
    PromisedSplit(db, c, lt);
    assert Within(db, lt);
  }

  /** In the mode, an accepted set or increase keeps consistency exactly when there is no host limit, the others fit
      it, or the value asked for makes up for what they take too much. */
  lemma AcceptedKeepsIff(db: Db, c: ContainerId, lt: LimitType, op: Operation, v: int)
    requires Consistent(db) && c in db.containers && op != Decrease && PutLimit(db, true, c, lt, op, v).Stored?
    ensures Consistent(SetLimit(db, c, lt, PutLimit(db, true, c, lt, op, v).value)) <==>
              || HostLimit(db, lt) <= 0 || OthersFit(db, c, lt)
              || Asked(LimitOf(db, c, lt), op, v) <= HostLimit(db, lt) - PromisedToOthers(db, c, lt)
  {
    StoredKeepsIff(db, c, lt, PutLimit(db, true, c, lt, op, v).value);
  }

  /** A capped set stores the largest value not above the request that could keep consistency: every larger one
      breaks it, and it keeps it itself unless the others alone are too much. */
  lemma CapIsLargest(db: Db, c: ContainerId, lt: LimitType, v: int)
    requires Consistent(db) && c in db.containers
    ensures var r := PutLimit(db, true, c, lt, Set, v);
            && r.Stored? && r.value <= v && (r.capped <==> r.value < v)
            && (forall x | r.value < x <= v :: !Consistent(SetLimit(db, c, lt, x)))
            && (r.capped ==> (Consistent(SetLimit(db, c, lt, r.value)) <==> OthersFit(db, c, lt)))
            && (LimitOf(db, c, lt) >= 0 ==> Consistent(SetLimit(db, c, lt, r.value)))
  {
    var r := PutLimit(db, true, c, lt, Set, v);
    StoredKeepsIff(db, c, lt, r.value);
    if HostLimit(db, lt) > 0 {
      OwnLimitFits(db, c, lt);
    }
    forall x | r.value < x <= v ensures !Consistent(SetLimit(db, c, lt, x)) {
      StoredKeepsIff(db, c, lt, x);
    }
  }

  /** Under a host limit an increase passes exactly when it is at most the max_increase a rejection reports; while
      the others fit, that is exactly when it keeps consistency. */
  lemma IncreaseAcceptedIff(db: Db, c: ContainerId, lt: LimitType, v: int)
    requires Consistent(db) && c in db.containers && HostLimit(db, lt) > 0
    ensures var room := Max0(MaxAllowed(db, c, lt) - LimitOf(db, c, lt));
            && (PutLimit(db, true, c, lt, Increase, v) == Stored(LimitOf(db, c, lt) + v, false) <==> v <= room)
            && (PutLimit(db, true, c, lt, Increase, v) == TooMuch(room) <==> v > room)
            && (OthersFit(db, c, lt) ==> (v <= room <==> Consistent(SetLimit(db, c, lt, LimitOf(db, c, lt) + v))))
  {
    OwnLimitFits(db, c, lt);
    StoredKeepsIff(db, c, lt, LimitOf(db, c, lt) + v);
  }

  /** A decrease is never checked: it keeps consistency exactly when there is no host limit, or the others fit it
      and the amount is no less than the old limit less the room. */
  lemma DecreaseKeepsIff(db: Db, keep: bool, c: ContainerId, lt: LimitType, v: int)
    requires Consistent(db) && c in db.containers
    ensures var r := PutLimit(db, keep, c, lt, Decrease, v);
            && r == Stored(Asked(LimitOf(db, c, lt), Decrease, v), false)
            && (Consistent(SetLimit(db, c, lt, r.value)) <==>
                  || HostLimit(db, lt) <= 0
                  || (OthersFit(db, c, lt) && v >= LimitOf(db, c, lt) - MaxAllowed(db, c, lt)))
            && (v >= 0 && LimitOf(db, c, lt) >= 0 ==> Consistent(SetLimit(db, c, lt, r.value)))
  {
    if HostLimit(db, lt) > 0 {
      OwnLimitFits(db, c, lt);
    }
    StoredKeepsIff(db, c, lt, Asked(LimitOf(db, c, lt), Decrease, v));
  }

  // ----- Host limits, removal, enabling -----

  lemma AfterHostLimit(db: Db, lt: LimitType, v: int, t: LimitType)
    ensures AllPromised(SetScopeLimit(db, Host, lt, v), t) == AllPromised(db, t)
    ensures HostLimit(SetScopeLimit(db, Host, lt, v), t) == if t == lt then v else HostLimit(db, t)
  {
  }

  /** A new host limit keeps consistency exactly when it is no limit or covers what is promised. */
  lemma HostLimitKeepsIff(db: Db, lt: LimitType, v: int)
    requires Consistent(db)
    ensures Consistent(SetScopeLimit(db, Host, lt, v)) <==> (v <= 0 || AllPromised(db, lt) <= v)
  {
    var db' := SetScopeLimit(db, Host, lt, v);
    AfterHostLimit(db, lt, v, lt);
    if Consistent(db') {
      assert Within(db', lt);
    }
    if v <= 0 || AllPromised(db, lt) <= v {
      forall t ensures Within(db', t) {
        AfterHostLimit(db, lt, v, t);
        assert Within(db, t);
      }
    }
  }

  /** In the mode, host set and decrease are checked: whatever they store is consistent. */
  lemma HostAcceptedKeeps(db: Db, lt: LimitType, op: Operation, v: int)
    requires Consistent(db) && op != Increase && PutHostLimit(db, true, lt, op, v).Stored?
    ensures Consistent(SetScopeLimit(db, Host, lt, PutHostLimit(db, true, lt, op, v).value))
  {
    HostLimitKeepsIff(db, lt, PutHostLimit(db, true, lt, op, v).value);
  }

  /** A host increase is not checked: from "no limit" it may install one that is already broken. */
  lemma HostIncreaseKeepsIff(db: Db, lt: LimitType, v: int)
    requires Consistent(db)
    ensures var r := PutHostLimit(db, true, lt, Increase, v);
            && r == Stored(HostLimit(db, lt) + v, false)
            && (Consistent(SetScopeLimit(db, Host, lt, r.value)) <==>
                (HostLimit(db, lt) + v <= 0 || AllPromised(db, lt) <= HostLimit(db, lt) + v))
            && (HostLimit(db, lt) > 0 && v >= 0 ==> Consistent(SetScopeLimit(db, Host, lt, r.value)))
  {
    HostLimitKeepsIff(db, lt, HostLimit(db, lt) + v);
    assert Within(db, lt);
  }

  lemma RemovalByContainer(db: Db, c: ContainerId, lt: LimitType)
    ensures var db' := RemoveContainer(db, c);
            && db'.containers.Keys == db.containers.Keys - {c} && db'.scopeLimits == db.scopeLimits
            && forall d | d != c :: Val(db'.limits, (d, lt)) == Val(db.limits, (d, lt))
  {
    hide AccumulateFirst;
    assert RemoveContainer(db, c).containers.Keys == db.containers.Keys - {c};
  }

  lemma AccumulatedHost(db: Db, c: ContainerId, lt: LimitType)
    ensures Val(RemoveContainer(db, c).scopeAccum, (Host, lt)) == Val(db.scopeAccum, (Host, lt)) + Settled(db, c, lt)
  {
    AccumAfterRemoval(db, c, Host, lt);
    hide RemoveContainer, Settled;
  }

  lemma AfterRemoval(db: Db, c: ContainerId, lt: LimitType)
    ensures AllPromised(RemoveContainer(db, c), lt) == AllPromised(db, lt) - Counted(db, c, lt) + Settled(db, c, lt)
    ensures HostLimit(RemoveContainer(db, c), lt) == HostLimit(db, lt)
  {
    var db' := RemoveContainer(db, c);
    hide RemoveContainer, Settled, Sum;
    RemovalByContainer(db, c, lt);
    AccumulatedHost(db, c, lt);
    if c in db.containers {
      SumTake(db.limits, db.containers.Keys, lt, c);
    } else {
      assert db.containers.Keys - {c} == db.containers.Keys;
    }
    SumAgree(db.limits, db'.limits, db.containers.Keys - {c}, lt);
  }

  /** Removal trades a limit for the usage settled: it keeps consistency exactly when every host
      limit has room for the difference. */
  lemma RemovalKeepsIff(db: Db, c: ContainerId)
    requires Consistent(db)
    ensures Consistent(RemoveContainer(db, c)) <==>
            forall lt :: HostLimit(db, lt) > 0 ==>
              Settled(db, c, lt) - Counted(db, c, lt) <= HostLimit(db, lt) - AllPromised(db, lt)
    ensures (forall lt :: HostLimit(db, lt) > 0 ==> Settled(db, c, lt) <= Counted(db, c, lt)) ==>
              Consistent(RemoveContainer(db, c))
  {
    var db' := RemoveContainer(db, c);
    forall lt
      ensures AllPromised(db', lt) == AllPromised(db, lt) - Counted(db, c, lt) + Settled(db, c, lt)
      ensures HostLimit(db', lt) == HostLimit(db, lt) && Within(db, lt)
    {
      AfterRemoval(db, c, lt);
    }
    hide RemoveContainer, AllPromised, HostLimit, Settled, Counted;
    if Consistent(db') {
      forall lt | HostLimit(db, lt) > 0
        ensures Settled(db, c, lt) - Counted(db, c, lt) <= HostLimit(db, lt) - AllPromised(db, lt)
      {
        assert Within(db', lt);
      }
    }
  }

  /** The mode can be switched on exactly in a consistent database, host limits being non-negative. */
  lemma EnableIff(db: Db)
    ensures MayEnable(db) ==> Consistent(db)
    ensures (forall lt :: HostLimit(db, lt) >= 0) ==> (MayEnable(db) <==> Consistent(db))
  {
    if MayEnable(db) {
      forall lt ensures Within(db, lt) {
        if HostLimit(db, lt) > 0 {
          assert (Host, lt) in db.scopeLimits;
        }
      }
    }
    if Consistent(db) && forall lt :: HostLimit(db, lt) >= 0 {
      forall k | k in db.scopeLimits && k.0 == Host && db.scopeLimits[k] != 0
        ensures AllPromised(db, k.1) <= db.scopeLimits[k]
      {
        assert HostLimit(db, k.1) == db.scopeLimits[k] && Within(db, k.1);
      }
    }
  }

  // ----- Registration and cloning -----

  /** What a newly counted container adds to the promises. */
  ghost predicate RoomFor(db: Db, added: map<LimitType, int>)
  {
    forall lt :: HostLimit(db, lt) > 0 ==> AllPromised(db, lt) + Val(added, lt) <= HostLimit(db, lt)
  }

  /** The limit rows of c, by type. */
  function LimitsOf(db: Db, c: ContainerId): map<LimitType, int>
  {
    map k | k in db.limits && k.0 == c :: k.1 := db.limits[k]
  }

  lemma LimitsOfReads(db: Db, c: ContainerId, lt: LimitType)
    ensures Val(LimitsOf(db, c), lt) == LimitOf(db, c, lt)
  {
    assert lt in LimitsOf(db, c) <==> (c, lt) in db.limits;
  }

  lemma OneMoreContainer(db: Db, db': Db, c: ContainerId, added: map<LimitType, int>)
    requires Consistent(db) && c !in db.containers && db'.containers.Keys == db.containers.Keys + {c}
    requires db'.scopeAccum == db.scopeAccum && db'.scopeLimits == db.scopeLimits
    requires forall lt :: LimitOf(db', c, lt) == Val(added, lt)
    requires forall d, lt | d in db.containers :: LimitOf(db', d, lt) == LimitOf(db, d, lt)
    ensures Consistent(db') <==> RoomFor(db, added)
  {
    forall lt
      ensures AllPromised(db', lt) == AllPromised(db, lt) + Val(added, lt)
      ensures HostLimit(db', lt) == HostLimit(db, lt) && Within(db, lt)
    {
      SumAdd(db'.limits, db.containers.Keys, lt, c);
      assert forall d | d in db.containers.Keys :: LimitOf(db', d, lt) == LimitOf(db, d, lt);
      SumAgree(db.limits, db'.limits, db.containers.Keys, lt);
    }
    hide AllPromised, HostLimit, LimitOf, Val;
    if Consistent(db') {
      forall lt | HostLimit(db, lt) > 0 ensures AllPromised(db, lt) + Val(added, lt) <= HostLimit(db, lt) {
        assert Within(db', lt);
      }
    }
  }

  /** Registering keeps consistency exactly when the container was counted already or its limit rows find room. */
  lemma RegisterKeepsIff(db: Db, c: ContainerId)
    requires Consistent(db)
    ensures Consistent(RegisterContainer(db, c)) <==> c in db.containers || RoomFor(db, LimitsOf(db, c))
  {
    var db' := RegisterContainer(db, c);
    if c in db.containers {
      RowKeeps(db, c, Row(None, false));
    } else {
      assert db'.containers.Keys == db.containers.Keys + {c};
      forall lt ensures LimitOf(db', c, lt) == Val(LimitsOf(db, c), lt) {
        LimitsOfReads(db, c, lt);
      }
      OneMoreContainer(db, db', c, LimitsOf(db, c));
    }
    hide Consistent, RoomFor;
  }

  /** handleClone: the clone is registered and gets a copy of every limit row. */
  function Clone(db: Db, from: ContainerId, to: ContainerId): Db
  {
    CopyLimits(RegisterContainer(db, to), from, to)
  }

  /** Reading the limits after a copy: the copied rows win, the target keeps its other ones, nobody else changes,
      and copying once more changes nothing. */
  lemma CopiedLimits(db: Db, from: ContainerId, to: ContainerId, c: ContainerId, lt: LimitType)
    ensures var db' := CopyLimits(db, from, to);
            && LimitOf(db', c, lt) ==
               (if c == to && (from, lt) in db.limits then LimitOf(db, from, lt) else LimitOf(db, c, lt))
            && CopyLimits(db', from, to) == db'
  {
    CopiedRow(db, from, to, (c, lt));
    var db' := CopyLimits(db, from, to);
    var db'' := CopyLimits(db', from, to);
    forall k
      ensures (k in db''.limits <==> k in db'.limits) && (k in db'.limits ==> db''.limits[k] == db'.limits[k])
    {
      CopiedRow(db, from, to, k);
      CopiedRow(db, from, to, (from, k.1));
      CopiedRow(db', from, to, k);
    }
    hide CopyLimits;
    assert db''.limits == db'.limits;
  }

  lemma CopiedRow(db: Db, from: ContainerId, to: ContainerId, k: (ContainerId, LimitType))
    ensures var db' := CopyLimits(db, from, to);
            && db' == db.(limits := db'.limits)
            && (k in db'.limits <==> k in db.limits || (k.0 == to && (from, k.1) in db.limits))
            && (k in db'.limits ==>
                  db'.limits[k] == if k.0 == to && (from, k.1) in db.limits then db.limits[(from, k.1)] else db.limits[k])
  {
    RowFor(db.limits, from, to, k);
    hide RowsFor;
  }

  lemma RowFor(limits: map<(ContainerId, LimitType), int>, from: ContainerId, to: ContainerId,
               k: (ContainerId, LimitType))
    ensures k in RowsFor(limits, from, to) <==> k.0 == to && (from, k.1) in limits
    ensures k in RowsFor(limits, from, to) ==> RowsFor(limits, from, to)[k] == limits[(from, k.1)]
  {
    if k.0 == to && (from, k.1) in limits {
      assert (to, (from, k.1).1) == k;
    }
  }

  /** The limit of `to` once the rows of `from` are copied. */
  function CopiedLimit(db: Db, from: ContainerId, to: ContainerId, lt: LimitType): int
  {
    if (from, lt) in db.limits then LimitOf(db, from, lt) else LimitOf(db, to, lt)
  }

  ghost predicate RoomForCopy(db: Db, from: ContainerId, to: ContainerId)
  {
    to in db.containers ==>
      forall lt :: HostLimit(db, lt) > 0 ==>
        PromisedToOthers(db, to, lt) + CopiedLimit(db, from, to, lt) <= HostLimit(db, lt)
  }

  lemma CopyByContainer(db: Db, from: ContainerId, to: ContainerId, lt: LimitType)
    ensures var db' := CopyLimits(db, from, to);
            && db' == db.(limits := db'.limits) && LimitOf(db', to, lt) == CopiedLimit(db, from, to, lt)
            && forall d | d != to :: Val(db'.limits, (d, lt)) == Val(db.limits, (d, lt))
  {
    var db' := CopyLimits(db, from, to);
    forall d ensures LimitOf(db', d, lt) == if d == to then CopiedLimit(db, from, to, lt) else LimitOf(db, d, lt) {
      CopiedLimits(db, from, to, d, lt);
    }
    CopiedRow(db, from, to, (to, lt));
    hide CopyLimits;
    assert forall d :: LimitOf(db', d, lt) == Val(db'.limits, (d, lt));
  }

  lemma AfterCopy(db: Db, from: ContainerId, to: ContainerId, lt: LimitType)
    ensures var db' := CopyLimits(db, from, to);
            && HostLimit(db', lt) == HostLimit(db, lt)
            && AllPromised(db', lt) ==
               if to in db.containers then PromisedToOthers(db, to, lt) + CopiedLimit(db, from, to, lt)
               else AllPromised(db, lt)
  {
    var db' := CopyLimits(db, from, to);
    CopyByContainer(db, from, to, lt);
    hide CopyLimits, CopiedLimit, LimitOf, Val;
    SumAgree(db.limits, db'.limits, db.containers.Keys - {to}, lt);
    if to in db.containers {
      PromisedSplit(db', to, lt);
    } else {
      assert db.containers.Keys - {to} == db.containers.Keys;
    }
    hide Sum;
  }

  /** Copying limit rows is not held against the host limit: it keeps consistency exactly when nobody gets them, or
      every host limit has room for them. */
  lemma CopyKeepsIff(db: Db, from: ContainerId, to: ContainerId)
    requires Consistent(db)
    ensures Consistent(CopyLimits(db, from, to)) <==> RoomForCopy(db, from, to)
  {
    var db' := CopyLimits(db, from, to);
    forall lt
      ensures HostLimit(db', lt) == HostLimit(db, lt) && Within(db, lt)
      ensures AllPromised(db', lt) == if to in db.containers
                                      then PromisedToOthers(db, to, lt) + CopiedLimit(db, from, to, lt)
                                      else AllPromised(db, lt)
    {
      AfterCopy(db, from, to, lt);
    }
    hide CopyLimits, AllPromised, HostLimit, PromisedToOthers, CopiedLimit;
    if Consistent(db') && to in db.containers {
      forall lt | HostLimit(db, lt) > 0
        ensures PromisedToOthers(db, to, lt) + CopiedLimit(db, from, to, lt) <= HostLimit(db, lt)
      {
        assert Within(db', lt);
      }
    }
  }

  /** A clone is not held against the host limit: it keeps consistency exactly when every one finds room for the
      limits it inherits a second time. */
  lemma CloneKeepsIff(db: Db, from: ContainerId, to: ContainerId)
    requires Consistent(db) && from in db.containers && to !in db.containers
    ensures Consistent(Clone(db, from, to)) <==> RoomFor(db, LimitsOf(db, to) + LimitsOf(db, from))
  {
    var registered, db' := RegisterContainer(db, to), Clone(db, from, to);
    var added := LimitsOf(db, to) + LimitsOf(db, from);
    forall d, lt | d in db.containers ensures LimitOf(db', d, lt) == LimitOf(db, d, lt) {
      CopiedLimits(registered, from, to, d, lt);
    }
    forall lt ensures LimitOf(db', to, lt) == Val(added, lt) {
      CopiedLimits(registered, from, to, to, lt);
      LimitsOfReads(db, from, lt);
      LimitsOfReads(db, to, lt);
    }
    assert db'.containers.Keys == db.containers.Keys + {to};
    hide Consistent, RoomFor, LimitOf, LimitsOf;
    OneMoreContainer(db, db', to, added);
  }

  // ----- Runs -----

  /** A clone is a registration followed by a copy of limit rows. */
  datatype Request =
    | Put(c: ContainerId, lt: LimitType, op: Operation, v: int)
    | PutHost(lt: LimitType, op: Operation, v: int)
    | Delete(c: ContainerId)
    | RegisterOne(c: ContainerId)
    | CopyRows(from: ContainerId, to: ContainerId)
    | Quiet(other: Op)                   // metering, segments, freezing: no container limit, no host limit

  predicate WellFormed(r: Request)
  {
    r.Quiet? ==>
      var op := r.other;
      op.Use? || op.Add? || op.Freeze? || op.NewSegment? || op.DropSegment? || op.AssignTo? || op.UnassignFrom?
      || (op.ScopeLimit? && op.scope.Segment?)
  }

  ghost function Serve(db: Db, r: Request): Db
  {
    match r
    case Put(c, lt, op, v) =>
      var reply := PutLimit(db, true, c, lt, op, v);
      if reply.Stored? then SetLimit(db, c, lt, reply.value) else db
    case PutHost(lt, op, v) =>
      var reply := PutHostLimit(db, true, lt, op, v);
      if reply.Stored? then SetScopeLimit(db, Host, lt, reply.value) else db
    case Delete(c) => RemoveContainer(db, c)
    case RegisterOne(c) => RegisterContainer(db, c)
    case CopyRows(from, to) => CopyLimits(db, from, to)
    case Quiet(op) => Do(db, op)
  }

  /** The requests that keep consistency: a caller can check each before making it. */
  ghost predicate Safe(db: Db, r: Request)
  {
    match r
    case Put(c, lt, op, v) =>
      var asked, left := Asked(LimitOf(db, c, lt), op, v), HostLimit(db, lt) - PromisedToOthers(db, c, lt);
      || c !in db.containers || HostLimit(db, lt) <= 0 || op == Unknown
      || (if op == Decrease then OthersFit(db, c, lt) && v >= LimitOf(db, c, lt) - MaxAllowed(db, c, lt)
          else OthersFit(db, c, lt) || asked <= left || (op == Increase && asked > 0))
    case PutHost(lt, op, v) =>
      op == Increase ==> HostLimit(db, lt) + v <= 0 || AllPromised(db, lt) <= HostLimit(db, lt) + v
    case Delete(c) =>
      forall lt :: HostLimit(db, lt) > 0 ==>
        Settled(db, c, lt) - Counted(db, c, lt) <= HostLimit(db, lt) - AllPromised(db, lt)
    case RegisterOne(c) => c in db.containers || RoomFor(db, LimitsOf(db, c))
    case CopyRows(from, to) => RoomForCopy(db, from, to)
    case Quiet(_) => true
  }

  /** Requests with ordinary amounts: nothing negative, no host increase from "no limit", no removal of a container
      over its limits, no limit rows left from an earlier life, no copy beyond the room. */
  ghost predicate Gentle(db: Db, r: Request)
  {
    match r
    case Put(_, _, _, v) => v >= 0
    case PutHost(lt, op, v) => v >= 0 && (op == Increase ==> HostLimit(db, lt) > 0)
    case Delete(c) => forall lt :: HostLimit(db, lt) > 0 ==> Settled(db, c, lt) <= Counted(db, c, lt)
    case RegisterOne(c) => c in db.containers || LimitsOf(db, c) == map[]
    case CopyRows(from, to) => RoomForCopy(db, from, to)
    case Quiet(_) => true
  }

  lemma PutStaysNonNegative(db: Db, c: ContainerId, lt: LimitType, op: Operation, v: int)
    requires NonNegativeLimits(db) && v >= 0
    ensures NonNegativeLimits(Serve(db, Put(c, lt, op, v)))
  {
    PutLimitNonNegative(db, c, lt, op, v);
    hide PutLimit;
  }

  lemma RemovalStaysNonNegative(db: Db, c: ContainerId)
    requires NonNegativeLimits(db)
    ensures NonNegativeLimits(RemoveContainer(db, c))
  {
    hide AccumulateFirst;
  }

  lemma StaysNonNegative(db: Db, r: Request)
    requires NonNegativeLimits(db) && WellFormed(r) && Gentle(db, r)
    ensures NonNegativeLimits(Serve(db, r))
  {
    hide NonNegativeLimits, RemoveContainer, RegisterContainer, SetLimit, CopyLimits, RoomForCopy;
    match r
    case Put(c, lt, op, v) =>
      PutStaysNonNegative(db, c, lt, op, v);
      hide Serve;
    case PutHost(lt, op, v) =>
      hide PutHostLimit, PutLimit;
      SameLimitsNonNegative(db, Serve(db, r));
    case Delete(c) => RemovalStaysNonNegative(db, c);
    case RegisterOne(c) => RegisterStaysNonNegative(db, c);
    case CopyRows(from, to) => CopyNonNegative(db, from, to);
    case Quiet(op) => QuietNonNegative(db, op);
  }

  lemma QuietNonNegative(db: Db, op: Op)
    requires NonNegativeLimits(db) && WellFormed(Quiet(op))
    ensures NonNegativeLimits(Do(db, op))
  {
    hide NonNegativeLimits, RemoveContainer, CopyLimits;
    SameLimitsNonNegative(db, Do(db, op));
  }

  lemma RegisterStaysNonNegative(db: Db, c: ContainerId)
    requires NonNegativeLimits(db)
    ensures NonNegativeLimits(RegisterContainer(db, c))
  {
  }

  lemma CopyNonNegative(db: Db, from: ContainerId, to: ContainerId)
    requires NonNegativeLimits(db)
    ensures NonNegativeLimits(CopyLimits(db, from, to))
  {
  }

  lemma SameLimitsNonNegative(db: Db, db': Db)
    requires NonNegativeLimits(db) && db'.limits == db.limits
    ensures NonNegativeLimits(db')
  {
  }

  lemma PutLimitNonNegative(db: Db, c: ContainerId, lt: LimitType, op: Operation, v: int)
    requires NonNegativeLimits(db) && v >= 0
    ensures LimitOf(db, c, lt) >= 0
    ensures PutLimit(db, true, c, lt, op, v).Stored? ==> PutLimit(db, true, c, lt, op, v).value >= 0
  {
  }

  /** Limits, accumulator and registered ids alone decide. */
  lemma SamePromises(db: Db, db': Db)
    requires Consistent(db) && db'.limits == db.limits && db'.containers.Keys == db.containers.Keys
    requires forall lt :: Val(db'.scopeAccum, (Host, lt)) == Val(db.scopeAccum, (Host, lt))
    requires forall lt :: HostLimit(db', lt) == HostLimit(db, lt)
    ensures Consistent(db')
  {
    forall lt ensures Within(db', lt) {
      assert Within(db, lt);
    }
  }

  lemma RowKeeps(db: Db, c: ContainerId, row: Row)
    requires Consistent(db) && c in db.containers
    ensures Consistent(db.(containers := db.containers[c := row]))
  {
    assert db.containers[c := row].Keys == db.containers.Keys;
    SamePromises(db, db.(containers := db.containers[c := row]));
  }

  lemma RowOpKeeps(db: Db, c: ContainerId, g: SegmentId, frozen: bool)
    requires Consistent(db)
    ensures Consistent(SetFrozen(db, c, frozen))
    ensures Consistent(OrSame(Assign(db, c, g), db)) && Consistent(OrSame(Unassign(db, c, g), db))
  {
    if c in db.containers {
      var row := db.containers[c];
      RowKeeps(db, c, row.(frozen := frozen));
      RowKeeps(db, c, row.(segment := Some(g)));
      RowKeeps(db, c, row.(segment := None));
    }
    hide Consistent;
  }

  lemma UsageKeeps(db: Db, c: ContainerId, lt: LimitType, v: int)
    requires Consistent(db)
    ensures Consistent(SetUsage(db, c, lt, v)) && Consistent(AddUsage(db, c, lt, v))
  {
    SamePromises(db, SetUsage(db, c, lt, v));
    SamePromises(db, AddUsage(db, c, lt, v));
    hide Consistent;
  }

  lemma NewSegmentKeeps(db: Db, g: SegmentId)
    requires Consistent(db)
    ensures Consistent(OrSame(CreateSegment(db, g), db))
  {
    if g !in db.segments {
      var db' := db.(segments := db.segments + {g});
      assert db'.limits == db.limits && db'.containers == db.containers;
      assert db'.scopeAccum == db.scopeAccum && db'.scopeLimits == db.scopeLimits;
      hide CreateSegment, Consistent;
      SamePromises(db, db');
    }
    hide Consistent;
  }

  lemma DropSegmentKeeps(db: Db, g: SegmentId)
    requires Consistent(db)
    ensures Consistent(OrSame(DeleteSegment(db, g), db))
  {
    var db' := OrSame(DeleteSegment(db, g), db);
    forall lt
      ensures Val(db'.scopeAccum, (Host, lt)) == Val(db.scopeAccum, (Host, lt))
      ensures HostLimit(db', lt) == HostLimit(db, lt)
    {
    }
    hide Consistent, HostLimit, Val;
    SamePromises(db, db');
  }

  lemma SegmentLimitKeeps(db: Db, g: SegmentId, lt: LimitType, v: int)
    requires Consistent(db)
    ensures Consistent(SetScopeLimit(db, Segment(g), lt, v))
  {
    SamePromises(db, SetScopeLimit(db, Segment(g), lt, v));
    hide Consistent;
  }

  lemma QuietKeeps(db: Db, op: Op)
    requires Consistent(db) && WellFormed(Quiet(op))
    ensures Consistent(Do(db, op))
  {
    hide Consistent, SetFrozen, Assign, Unassign, SetUsage, AddUsage, CreateSegment, DeleteSegment, SetScopeLimit;
    match op
    case Use(c, lt, v) => UsageKeeps(db, c, lt, v);
    case Add(c, lt, v) => UsageKeeps(db, c, lt, v);
    case Freeze(c, frozen) => RowOpKeeps(db, c, 0, frozen);
    case AssignTo(c, g) => RowOpKeeps(db, c, g, false);
    case UnassignFrom(c, g) => RowOpKeeps(db, c, g, false);
    case NewSegment(g) => NewSegmentKeeps(db, g);
    case DropSegment(g) => DropSegmentKeeps(db, g);
    case ScopeLimit(scope, lt, v) => SegmentLimitKeeps(db, scope.id, lt, v);
  }

  lemma PutKeepsIff(db: Db, c: ContainerId, lt: LimitType, op: Operation, v: int)
    requires Consistent(db)
    ensures Consistent(Serve(db, Put(c, lt, op, v))) <==> Safe(db, Put(c, lt, op, v))
  {
    if c !in db.containers {
      StoredKeepsIff(db, c, lt, OrElse(PutLimit(db, true, c, lt, op, v), 0));
    } else if op == Decrease {
      DecreaseKeepsIff(db, true, c, lt, v);
    } else if PutLimit(db, true, c, lt, op, v).Stored? {
      AcceptedKeepsIff(db, c, lt, op, v);
    }
    hide Consistent, SetLimit, LimitOf, PromisedToOthers, HostLimit;
  }

  lemma PutHostKeepsIff(db: Db, lt: LimitType, op: Operation, v: int)
    requires Consistent(db)
    ensures Consistent(Serve(db, PutHost(lt, op, v))) <==> Safe(db, PutHost(lt, op, v))
  {
    if op == Increase {
      HostIncreaseKeepsIff(db, lt, v);
    } else if PutHostLimit(db, true, lt, op, v).Stored? {
      HostAcceptedKeeps(db, lt, op, v);
    }
    hide Consistent, SetScopeLimit, AllPromised, HostLimit;
  }

  /** Whatever is asked of the daemon in the mode, consistency is kept exactly when the request was safe. */
  lemma ServeKeepsIff(db: Db, r: Request)
    requires Consistent(db) && WellFormed(r)
    ensures Consistent(Serve(db, r)) <==> Safe(db, r)
  {
    hide Consistent, RemoveContainer, RegisterContainer, CopyLimits, Do;
    hide RoomFor, RoomForCopy, PutLimit, PutHostLimit, OthersFit, AllPromised;
    match r
    case Put(c, lt, op, v) => PutKeepsIff(db, c, lt, op, v);
    case PutHost(lt, op, v) => PutHostKeepsIff(db, lt, op, v);
    case Delete(c) => RemovalKeepsIff(db, c);
    case RegisterOne(c) => RegisterKeepsIff(db, c);
    case CopyRows(from, to) => CopyKeepsIff(db, from, to);
    case Quiet(op) => QuietKeeps(db, op);
  }

  /** Each request is safe in the database it meets. */
  ghost predicate SafeRun(db: Db, rs: seq<Request>)
    decreases |rs|
  {
    rs == [] || (Safe(db, rs[0]) && SafeRun(Serve(db, rs[0]), rs[1..]))
  }

  /** Every database along the run is consistent. */
  ghost predicate ConsistentRun(db: Db, rs: seq<Request>)
    decreases |rs|
  {
    Consistent(db) && (rs == [] || ConsistentRun(Serve(db, rs[0]), rs[1..]))
  }

  ghost function ServeAll(db: Db, rs: seq<Request>): Db
    decreases |rs|
  {
    if rs == [] then db else ServeAll(Serve(db, rs[0]), rs[1..])
  }

  /** From the moment the mode is on: a run is consistent throughout exactly when each of its requests was safe. */
  lemma {:induction false} RunConsistentIff(db: Db, rs: seq<Request>)
    requires Consistent(db) && forall i | 0 <= i < |rs| :: WellFormed(rs[i])
    ensures ConsistentRun(db, rs) <==> SafeRun(db, rs)
    ensures ConsistentRun(db, rs) ==> Consistent(ServeAll(db, rs))
    decreases |rs|
  {
    hide Consistent, Serve, Safe, WellFormed;
    if rs != [] {
      ServeKeepsIff(db, rs[0]);
      if Safe(db, rs[0]) {
        RunConsistentIff(Serve(db, rs[0]), rs[1..]);
      }
    }
  }

  lemma GentleIsSafe(db: Db, r: Request)
    requires Consistent(db) && NonNegativeLimits(db) && Gentle(db, r)
    ensures Safe(db, r)
  {
    match r
    case Put(c, lt, op, v) =>
      if c in db.containers && HostLimit(db, lt) > 0 {
        assert LimitOf(db, c, lt) >= 0;
        OwnLimitFits(db, c, lt);
        hide PromisedToOthers, LimitOf, HostLimit;
      }
    case PutHost(lt, op, v) => assert Within(db, lt);
    case Delete(c) =>
      forall lt | HostLimit(db, lt) > 0
        ensures Settled(db, c, lt) - Counted(db, c, lt) <= HostLimit(db, lt) - AllPromised(db, lt)
      {
        assert Within(db, lt);
      }
    case RegisterOne(c) =>
      if c !in db.containers {
        forall lt | HostLimit(db, lt) > 0 ensures AllPromised(db, lt) + Val(LimitsOf(db, c), lt) <= HostLimit(db, lt) {
          assert Within(db, lt);
        }
      }
    case _ =>
  }

  ghost predicate GentleRun(db: Db, rs: seq<Request>)
    decreases |rs|
  {
    rs == [] || (Gentle(db, rs[0]) && GentleRun(Serve(db, rs[0]), rs[1..]))
  }

  /** Gentle requests are always safe: consistency holds over every run of them, mixed with anything quiet. */
  lemma {:induction false} RunKeepsConsistent(db: Db, rs: seq<Request>)
    requires Consistent(db) && NonNegativeLimits(db) && GentleRun(db, rs)
    requires forall i | 0 <= i < |rs| :: WellFormed(rs[i])
    ensures ConsistentRun(db, rs) && NonNegativeLimits(ServeAll(db, rs))
    decreases |rs|
  {
    hide Consistent, NonNegativeLimits, Serve, Safe, WellFormed, Gentle;
    if rs != [] {
      GentleIsSafe(db, rs[0]);
      ServeKeepsIff(db, rs[0]);
      StaysNonNegative(db, rs[0]);
      RunKeepsConsistent(Serve(db, rs[0]), rs[1..]);
    }
  }

  // ----- What breaks it -----

  /** Containers 0 and 1 with a CPU limit of 5 each, container 0 having used 9. */
  const TWO := EMPTY_DB.(containers := map[0 := Row(None, false), 1 := Row(None, false)],
                         limits := map[(0, Cpu) := 5, (1, Cpu) := 5],
                         usage := map[(0, Cpu) := 9])

  ghost function TwoUnder(host: int): Db
  {
    TWO.(scopeLimits := map[(Host, Cpu) := host])
  }

  lemma TwoPromised(host: int)
    ensures PromisedToOthers(TwoUnder(host), 0, Cpu) == 5 && AllPromised(TwoUnder(host), Cpu) == 10
    ensures Consistent(TwoUnder(host)) <==> (host <= 0 || host >= 10)
  {
    var db := TwoUnder(host);
    SumTake(db.limits, {1}, Cpu, 1);
    assert {1} - {1} == {} && db.containers.Keys - {0} == {1};
    PromisedSplit(db, 0, Cpu);
    forall lt | lt != Cpu ensures Within(db, lt) {
    }
    assert Within(db, Cpu) <==> (host <= 0 || host >= 10);
  }

  /** Decreasing a limit of 5 by -10 makes it 15, unchecked. */
  lemma NegativeDecreaseBreaks()
    ensures var db := TwoUnder(10);
            && Consistent(db) && PutLimit(db, true, 0, Cpu, Decrease, -10) == Stored(15, false)
            && !Consistent(SetLimit(db, 0, Cpu, 15))
  {
    TwoPromised(10);
    StoredKeepsIff(TwoUnder(10), 0, Cpu, 15);
  }

  /** A negative limit counts as room: -100 for container 0 lets container 1 have 110 of 10, and then setting
      container 0 to 5 is "capped" to 0, with 110 promised. */
  lemma NegativeSetBreaks()
    ensures var db0 := TwoUnder(10);
            var db1 := SetLimit(db0, 0, Cpu, -100);
            var db2 := SetLimit(db1, 1, Cpu, 110);
            && PutLimit(db0, true, 0, Cpu, Set, -100) == Stored(-100, false) && Consistent(db1)
            && PutLimit(db1, true, 1, Cpu, Set, 110) == Stored(110, false) && Consistent(db2)
            && PutLimit(db2, true, 0, Cpu, Set, 5) == Stored(0, true) && !Consistent(SetLimit(db2, 0, Cpu, 0))
  {
    var db0 := TwoUnder(10);
    var db1 := SetLimit(db0, 0, Cpu, -100);
    var db2 := SetLimit(db1, 1, Cpu, 110);
    TwoPromised(10);
    StoredKeepsIff(db0, 0, Cpu, -100);
    OneOther(db1, 1, 0);
    StoredKeepsIff(db1, 1, Cpu, 110);
    OneOther(db2, 0, 1);
    StoredKeepsIff(db2, 0, Cpu, 0);
  }

  lemma OneOther(db: Db, c: ContainerId, d: ContainerId)
    requires db.containers.Keys == {c, d} && c != d && db.scopeAccum == map[]
    ensures PromisedToOthers(db, c, Cpu) == LimitOf(db, d, Cpu)
  {
    assert db.containers.Keys - {c} == {d} && {d} - {d} == {};
    SumTake(db.limits, {d}, Cpu, d);
  }

  /** Cloning a container with a limit of 5 promises 15 under 10, unchecked. */
  lemma CloningBreaks()
    ensures Consistent(TwoUnder(10)) && !Consistent(Clone(TwoUnder(10), 0, 2))
  {
    var db := TwoUnder(10);
    TwoPromised(10);
    CloneKeepsIff(db, 0, 2);
    LimitsOfReads(db, 0, Cpu);
    LimitsOfReads(db, 2, Cpu);
    assert HostLimit(db, Cpu) == 10 && AllPromised(db, Cpu) == 10;
    assert Val(LimitsOf(db, 2) + LimitsOf(db, 0), Cpu) == 5;
    hide Clone, AllPromised, LimitsOf;
  }

  /** Increasing "no limit" by 3 installs a host limit of 3 under promises of 10, unchecked. */
  lemma HostIncreaseFromNothingBreaks()
    ensures var db := TwoUnder(0);
            && Consistent(db) && PutHostLimit(db, true, Cpu, Increase, 3) == Stored(3, false)
            && !Consistent(SetScopeLimit(db, Host, Cpu, 3))
  {
    TwoPromised(0);
    HostLimitKeepsIff(TwoUnder(0), Cpu, 3);
  }

  /** Removing a container that used 9 of its 5 turns a promise of 5 into a debt of 9. */
  lemma RemovingAnOverspenderBreaks()
    ensures Consistent(TwoUnder(10)) && !Consistent(RemoveContainer(TwoUnder(10), 0))
  {
    var db := TwoUnder(10);
    TwoPromised(10);
    assert CUMULATIVE_LIMIT_TYPES[0] == Cpu;
    assert Settled(db, 0, Cpu) == 9 && LimitOf(db, 0, Cpu) == 5 && HostLimit(db, Cpu) == 10;
    RemovalKeepsIff(db, 0);
  }
}
