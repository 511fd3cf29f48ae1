/** The two limit handlers and the mode switch as they run. */
module LimitServer {
  import opened Model
  import S = StoreState
  import T = StoreTotals
  import L = LimitRules
  import StoreTables

  class Server {
    const store: StoreTables.Store
    var keepLimitsConsistent: bool

    constructor (store: StoreTables.Store)
      ensures this.store == store && !keepLimitsConsistent
    {
      this.store, keepLimitsConsistent := store, false;
    }

    /** Adds up the limits of all containers but one, in whatever order the store lists them. */
    method SumContainerLimits(lt: LimitType, exclude: Option<ContainerId>) returns (sum: int)
      ensures sum == T.Sum(store.limits, store.containers.Keys - (if exclude.Some? then {exclude.value} else {}), lt)
    {
      var rest := store.containers.Keys;
      ghost var skip: set<ContainerId> := if exclude.Some? then {exclude.value} else {};
      sum := 0;
      while rest != {}
        invariant rest <= store.containers.Keys
        invariant T.Sum(store.limits, store.containers.Keys - skip, lt) == sum + T.Sum(store.limits, rest - skip, lt)
        decreases rest
      {
        var c :| c in rest;
        if Some(c) != exclude {
          T.SumTake(store.limits, rest - skip, lt, c);
          var limit := store.GetLimit(c, lt);
          sum := sum + limit;
          assert rest - skip - {c} == rest - {c} - skip;
        } else {
          assert rest - skip == rest - {c} - skip;
        }
        rest := rest - {c};
      }
      assert rest - skip == {};
    }

    method NewValue(oldValue: int, op: L.Operation, v: int) returns (newValue: int)
      ensures newValue == L.Asked(oldValue, op, v)
    {
      match op {
        case Set => newValue := v;
        case Increase => newValue := oldValue + v;
        case Decrease =>
          newValue := oldValue - v;
          if newValue < 0 { newValue := 0; }
        case Unknown => newValue := oldValue;
      }
    }

    method MaxAllowed(c: ContainerId, lt: LimitType) returns (maxAllowed: int)
      ensures maxAllowed == L.MaxAllowed(store.View(), c, lt)
    {
      var sumOther := SumContainerLimits(lt, Some(c));
      sumOther := sumOther + S.Val(store.scopeAccum, (Host, lt));
      maxAllowed := S.Val(store.scopeLimits, (Host, lt)) - sumOther;
      if maxAllowed < 0 { maxAllowed := 0; }
    }

    method PutLimit(c: ContainerId, lt: LimitType, op: L.Operation, v: int) returns (reply: L.Reply)
      modifies store`limits
      ensures reply == L.PutLimit(old(store.View()), keepLimitsConsistent, c, lt, op, v)
      ensures store.View() ==
              if reply.Stored? then S.SetLimit(old(store.View()), c, lt, reply.value) else old(store.View())
    {
      hide L.MaxAllowed, S.SetLimit;
      if op == L.Unknown {
        return L.BadOperation;
      }
      var oldValue := store.GetLimit(c, lt);
      var newValue := NewValue(oldValue, op, v);
      hide L.Asked;
      var capped := false;
      var globalLimit := S.Val(store.scopeLimits, (Host, lt));
      if keepLimitsConsistent && op != L.Decrease && globalLimit > 0 {
        var maxAllowed := MaxAllowed(c, lt);
        if newValue > maxAllowed {
          if op == L.Increase {
            var maxIncrease := maxAllowed - oldValue;
            if maxIncrease < 0 { maxIncrease := 0; }
            return L.TooMuch(maxIncrease);
          }
          capped := true;
          newValue := maxAllowed;
        }
      }
      store.SetLimit(c, lt, newValue);
      return L.Stored(newValue, capped);
    }

    method AllPromised(lt: LimitType) returns (sum: int)
      ensures sum == L.AllPromised(store.View(), lt)
    {
      sum := SumContainerLimits(lt, None);
      assert store.containers.Keys - {} == store.containers.Keys;
      sum := sum + S.Val(store.scopeAccum, (Host, lt));
    }

    method PutHostLimit(lt: LimitType, op: L.Operation, v: int) returns (reply: L.Reply)
      modifies store`scopeLimits, store`globalLimits
      ensures reply == L.PutHostLimit(old(store.View()), keepLimitsConsistent, lt, op, v)
      ensures store.View() ==
              if reply.Stored? then S.SetScopeLimit(old(store.View()), Host, lt, reply.value) else old(store.View())
    {
      hide L.AllPromised, S.SetScopeLimit;
      if op == L.Unknown {
        return L.BadOperation;
      }
      var oldValue := S.Val(store.scopeLimits, (Host, lt));
      var newValue := NewValue(oldValue, op, v);
      if keepLimitsConsistent && op != L.Increase {
        var sum := AllPromised(lt);
        if sum > 0 && newValue < sum {
          return L.TooLittle(sum);
        }
      }
      store.SetScopeLimit(Host, lt, newValue);
      return L.Stored(newValue, false);
    }

    /** Checks every host limit that is set, in any order. */
    method ValidateCurrentLimits() returns (ok: bool)
      ensures ok <==> L.MayEnable(store.View())
    {
      var rows := set k | k in store.scopeLimits && k.0 == Host;
      var rest := rows;
      while rest != {}
        invariant rest <= rows
        invariant forall k | k in rows - rest && store.scopeLimits[k] != 0 ::
                    L.AllPromised(store.View(), k.1) <= store.scopeLimits[k]
        decreases rest
      {
        var k :| k in rest;
        if store.scopeLimits[k] != 0 {
          var sum := AllPromised(k.1);
          if sum > store.scopeLimits[k] {
            return false;
          }
        }
        rest := rest - {k};
      }
      return true;
    }

    /** The mode goes on only over consistent limits, and off at any time. */
    method SetKeepLimitsConsistent(on: bool) returns (ok: bool)
      modifies `keepLimitsConsistent
      ensures ok <==> (on ==> L.MayEnable(store.View()))
      ensures keepLimitsConsistent == if ok then on else old(keepLimitsConsistent)
      ensures ok && on ==> L.Consistent(store.View())
    {
      if on {
        ok := ValidateCurrentLimits();
        if !ok {
          return;
        }
        L.EnableIff(store.View());
      }
      keepLimitsConsistent := on;
      ok := true;
    }
  }
}
