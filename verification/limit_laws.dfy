/** What the limit handlers answer and store, in numbers. */
module LimitLaws {
  import opened Model
  import opened StoreState
  import opened StoreTotals
  import opened LimitRules

  /** What the other containers and the removed ones leave of the host limit; negative when they take too much. */
  ghost function Room(db: Db, c: ContainerId, lt: LimitType): int
  {
    HostLimit(db, lt) - Sum(db.limits, db.containers.Keys - {c}, lt) - Val(db.scopeAccum, (Host, lt))
  }

  /** The mode checks sets and increases against a host limit that is set. */
  ghost predicate Checks(db: Db, keep: bool, lt: LimitType)
  {
    keep && HostLimit(db, lt) >= 1
  }

  /** A decrease is never refused, checked or capped: it takes the amount away, down to zero. */
  lemma DecreaseLaw(db: Db, keep: bool, c: ContainerId, lt: LimitType, v: int)
    ensures var r, was := PutLimit(db, keep, c, lt, Decrease, v), LimitOf(db, c, lt);
            && (v <= was ==> r == Stored(was - v, false))
            && (v > was ==> r == Stored(0, false))
  {
    hide MaxAllowed;
  }

  /** A set stores exactly the request when it is not checked or fits, and otherwise what is left, saying so. */
  lemma SetLaw(db: Db, keep: bool, c: ContainerId, lt: LimitType, v: int)
    ensures var r, room := PutLimit(db, keep, c, lt, Set, v), Room(db, c, lt);
            && (!Checks(db, keep, lt) || v <= 0 || v <= room ==> r == Stored(v, false))
            && (Checks(db, keep, lt) && v > 0 && v > room && room >= 0 ==> r == Stored(room, true))
            && (Checks(db, keep, lt) && v > 0 && room < 0 ==> r == Stored(0, true))
  {
    hide Sum;
  }

  /** An increase is stored in full, or refused with the amount that would still pass. */
  lemma IncreaseLaw(db: Db, keep: bool, c: ContainerId, lt: LimitType, v: int)
    ensures var r, was, room := PutLimit(db, keep, c, lt, Increase, v), LimitOf(db, c, lt), Room(db, c, lt);
            && (!Checks(db, keep, lt) || was + v <= 0 || was + v <= room ==> r == Stored(was + v, false))
            && (Checks(db, keep, lt) && was + v > 0 && was + v > room ==>
                  r == TooMuch(if room >= 0 && room >= was then room - was else if room < 0 && was < 0 then -was else 0))
  {
    hide Sum;
  }

  /** Whatever an accepted increase added, a decrease by the same amount takes away, if the limit was not negative. */
  lemma IncreaseThenDecrease(db: Db, keep: bool, c: ContainerId, lt: LimitType, v: int)
    requires PutLimit(db, keep, c, lt, Increase, v).Stored? && LimitOf(db, c, lt) >= 0
    ensures var db' := SetLimit(db, c, lt, PutLimit(db, keep, c, lt, Increase, v).value);
            && LimitOf(db', c, lt) == LimitOf(db, c, lt) + v
            && PutLimit(db', keep, c, lt, Decrease, v) == Stored(LimitOf(db, c, lt), false)
  {
    IncreaseLaw(db, keep, c, lt, v);
    var db' := SetLimit(db, c, lt, PutLimit(db, keep, c, lt, Increase, v).value);
    DecreaseLaw(db', keep, c, lt, v);
    hide PutLimit, Room;
  }

  /** A value stored without a check is stored as it is: limits read back. */
  lemma SetReadsBack(db: Db, keep: bool, c: ContainerId, lt: LimitType, v: int, d: ContainerId, t: LimitType)
    requires !Checks(db, keep, lt)
    ensures var r := PutLimit(db, keep, c, lt, Set, v);
            r.Stored? && LimitOf(SetLimit(db, c, lt, r.value), d, t) == if d == c && t == lt then v else LimitOf(db, d, t)
  {
    SetLaw(db, keep, c, lt, v);
    hide PutLimit, Room;
  }

  /** What the host limit of a type has to cover. */
  ghost function Taken(db: Db, lt: LimitType): int
  {
    Sum(db.limits, db.containers.Keys, lt) + Val(db.scopeAccum, (Host, lt))
  }

  /** Host limits: an increase is never refused; a set or a decrease is refused, with the true sum, exactly when the mode
      is on, the sum is positive and the new value is below it. */
  lemma HostLaw(db: Db, keep: bool, lt: LimitType, v: int)
    ensures PutHostLimit(db, keep, lt, Increase, v) == Stored(HostLimit(db, lt) + v, false)
    ensures var refuses := keep && Taken(db, lt) > 0 && v < Taken(db, lt);
            PutHostLimit(db, keep, lt, Set, v) == if refuses then TooLittle(Taken(db, lt)) else Stored(v, false)
    ensures var was := HostLimit(db, lt);
            var left := if v <= was then was - v else 0;
            var refuses := keep && Taken(db, lt) > 0 && left < Taken(db, lt);
            PutHostLimit(db, keep, lt, Decrease, v) == if refuses then TooLittle(Taken(db, lt)) else Stored(left, false)
  {
    hide Sum;
  }

  lemma HostIncreaseThenDecrease(db: Db, lt: LimitType, v: int)
    requires HostLimit(db, lt) >= 0
    ensures var db' := SetScopeLimit(db, Host, lt, HostLimit(db, lt) + v);
            && PutHostLimit(db, false, lt, Increase, v) == Stored(HostLimit(db', lt), false)
            && PutHostLimit(db', false, lt, Decrease, v) == Stored(HostLimit(db, lt), false)
  {
    var db' := SetScopeLimit(db, Host, lt, HostLimit(db, lt) + v);
    HostLaw(db, false, lt, v);
    HostLaw(db', false, lt, v);
    hide PutHostLimit, Taken;
  }

  /** An operation of another name is refused and nothing is stored. */
  lemma UnknownLaw(db: Db, keep: bool, c: ContainerId, lt: LimitType, v: int)
    ensures PutLimit(db, keep, c, lt, Unknown, v) == BadOperation && PutHostLimit(db, keep, lt, Unknown, v) == BadOperation
    ensures Serve(db, Put(c, lt, Unknown, v)) == db && Serve(db, PutHost(lt, Unknown, v)) == db
  {
    hide MaxAllowed, AllPromised;
  }

  /** The mode may go on exactly when each host limit that is not zero covers what it has to. */
  lemma EnableLaw(db: Db)
    ensures MayEnable(db) <==> forall lt :: HostLimit(db, lt) != 0 ==> Taken(db, lt) <= HostLimit(db, lt)
  {
    if MayEnable(db) {
      forall lt | HostLimit(db, lt) != 0 ensures Taken(db, lt) <= HostLimit(db, lt) {
        assert (Host, lt) in db.scopeLimits;
      }
    }
    if forall lt :: HostLimit(db, lt) != 0 ==> Taken(db, lt) <= HostLimit(db, lt) {
      forall k | k in db.scopeLimits && k.0 == Host && db.scopeLimits[k] != 0
        ensures AllPromised(db, k.1) <= db.scopeLimits[k]
      {
        assert HostLimit(db, k.1) == db.scopeLimits[k];
      }
    }
    hide Sum;
  }

  /** Two containers with limits of 5 under a host limit of 20: what is left for one of them is 15. */
  lemma InNumbers()
    ensures var db := TwoUnder(20);
            && PutLimit(db, true, 0, Cpu, Decrease, 3) == Stored(2, false)
            && PutLimit(db, true, 0, Cpu, Set, 15) == Stored(15, false)
            && PutLimit(db, true, 0, Cpu, Set, 16) == Stored(15, true)
            && PutLimit(db, false, 0, Cpu, Set, 16) == Stored(16, false)
            && PutLimit(db, true, 0, Cpu, Increase, 10) == Stored(15, false)
            && PutLimit(db, true, 0, Cpu, Increase, 11) == TooMuch(10)
            && PutHostLimit(db, true, Cpu, Set, 10) == Stored(10, false)
            && PutHostLimit(db, true, Cpu, Set, 9) == TooLittle(10)
            && PutHostLimit(db, true, Cpu, Decrease, 10) == Stored(10, false)
  {
    var db := TwoUnder(20);
    TwoPromised(20);
    assert Room(db, 0, Cpu) == 15 && Taken(db, Cpu) == 10;
    DecreaseLaw(db, true, 0, Cpu, 3);
    SetLaw(db, true, 0, Cpu, 15);
    SetLaw(db, true, 0, Cpu, 16);
    SetLaw(db, false, 0, Cpu, 16);
    IncreaseLaw(db, true, 0, Cpu, 10);
    IncreaseLaw(db, true, 0, Cpu, 11);
    HostLaw(db, true, Cpu, 10);
    HostLaw(db, true, Cpu, 9);
    hide PutLimit, PutHostLimit, Room, Taken;
  }
}
