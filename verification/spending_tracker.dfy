/** The spending tracker as it runs; its callback writes the new total to the store. */
module SpendingProxy {
  import opened Model
  import S = StoreState
  import P = SpendingState
  import StoreTables

  class SpendingTracker {
    const store: StoreTables.Store
    var spending: map<ContainerId, int>
    var budgets: map<ContainerId, int>
    var scopeSpendingBlocked: map<Scope, bool>
    var containerScopes: map<ContainerId, Scope>

    function View(): P.Tracker
      reads this
    {
      P.Tracker(spending, budgets, scopeSpendingBlocked, containerScopes)
    }

    constructor (store: StoreTables.Store)
      ensures View() == P.NEW_TRACKER && this.store == store
    {
      this.store := store;
      spending, budgets, scopeSpendingBlocked, containerScopes := map[], map[], map[], map[];
    }

    method RegisterContainer(c: ContainerId, budget: int, existing: int)
      modifies `spending, `budgets
      ensures View() == P.Register(old(View()), c, budget, existing)
    {
      spending := spending[c := existing * 1_000];
      budgets := budgets[c := budget * 1_000];
    }

    method UpdateBudget(c: ContainerId, budget: int)
      modifies `budgets
      ensures View() == P.UpdateBudget(old(View()), c, budget)
    {
      budgets := budgets[c := budget * 1_000];
    }

    method GetSpending(c: ContainerId) returns (milli: int)
      ensures milli == P.GetSpending(View(), c)
    {
      milli := TruncDiv(S.Val(spending, c), 1_000);
    }

    /** Inference charges, in milli-cents. */
    method AddSpending(c: ContainerId, milli: int)
      modifies `spending, store`usage
      ensures View() == P.AddMicro(old(View()), c, milli * P.MICRO)
      ensures store.View() == S.SetUsage(old(store.View()), c, Spending, P.GetSpending(View(), c))
    {
      var newTotal := S.Val(spending, c) + milli * 1_000;
      spending := spending[c := newTotal];
      store.SetUsage(c, Spending, TruncDiv(newTotal, 1_000));
    }

    /** Token charges; a response without tokens changes nothing. */
    method TrackSpending(c: ContainerId, input: int, output: int, inputPrice: int, outputPrice: int) returns (cost: int)
      modifies `spending, store`usage
      ensures cost == if input == 0 && output == 0 then 0 else P.TokenCost(input, output, inputPrice, outputPrice)
      ensures input == 0 && output == 0 ==> View() == old(View()) && store.View() == old(store.View())
      ensures !(input == 0 && output == 0) ==>
                && View() == P.AddMicro(old(View()), c, cost)
                && store.View() == S.SetUsage(old(store.View()), c, Spending, P.GetSpending(View(), c))
    {
      if input == 0 && output == 0 {
        return 0;
      }
      cost := input * inputPrice + output * outputPrice;
      var newTotal := S.Val(spending, c) + cost;
      spending := spending[c := newTotal];
      store.SetUsage(c, Spending, TruncDiv(newTotal, 1_000));
    }

    method SetScopeSpendingBlocked(scope: Scope, blocked: bool)
      modifies `scopeSpendingBlocked
      ensures View() == old(View()).(blocked := old(View()).blocked[scope := blocked])
    {
      scopeSpendingBlocked := scopeSpendingBlocked[scope := blocked];
    }

    method SetContainerScope(c: ContainerId, scope: Scope)
      modifies `containerScopes
      ensures View() == old(View()).(scopes := old(View()).scopes[c := scope])
    {
      containerScopes := containerScopes[c := scope];
    }

    method IsScopeSpendingBlocked(c: ContainerId) returns (blocked: bool)
      ensures blocked <==> P.ScopeBlocked(View(), c)
    {
      if Host in scopeSpendingBlocked && scopeSpendingBlocked[Host] {
        return true;
      }
      if c in containerScopes && containerScopes[c] != Host {
        var scope := containerScopes[c];
        return scope in scopeSpendingBlocked && scopeSpendingBlocked[scope];
      }
      return false;
    }

    /** The gate of the proxy handler for tracked APIs. */
    method Admits(c: ContainerId) returns (ok: bool)
      ensures ok <==> P.Passes(View(), store.View(), c, P.Tracked)
    {
      var budget, spent := S.Val(budgets, c), S.Val(spending, c);
      if budget > 0 && spent >= budget {
        return false;
      }
      var blocked := IsScopeSpendingBlocked(c);
      return !blocked;
    }

    /** The pre-check of the inference handler: the stored limit against the rounded spending. */
    method AdmitsInference(c: ContainerId) returns (ok: bool)
      ensures ok <==> P.Passes(View(), store.View(), c, P.Inference)
    {
      var limit := store.GetLimit(c, Spending);
      var spent := GetSpending(c);
      ok := !(limit > 0 && spent >= limit);
    }

    /** The proxy handler: the inference host is dispatched before budget and scopes are looked at. */
    method Gate(c: ContainerId, toInferenceHost: bool) returns (ok: bool)
      ensures ok <==> P.Passes(View(), store.View(), c, if toInferenceHost then P.Inference else P.Tracked)
    {
      if toInferenceHost {
        ok := AdmitsInference(c);
        return;
      }
      ok := Admits(c);
    }

    /** What the daemon does for every stored container when it starts. */
    method Restore()
      modifies `spending, `budgets
      ensures forall c | c in store.containers ::
                && S.Val(spending, c) == S.Val(store.usage, (c, Spending)) * P.MICRO
                && S.Val(budgets, c) == S.Val(store.limits, (c, Spending)) * P.MICRO
      ensures forall c | c !in store.containers ::
                S.Val(spending, c) == S.Val(old(spending), c) && S.Val(budgets, c) == S.Val(old(budgets), c)
    {
      var rest := store.containers.Keys;
      while rest != {}
        invariant rest <= store.containers.Keys
        invariant forall c | c in store.containers.Keys - rest ::
                    && S.Val(spending, c) == S.Val(store.usage, (c, Spending)) * P.MICRO
                    && S.Val(budgets, c) == S.Val(store.limits, (c, Spending)) * P.MICRO
        invariant forall c | c !in store.containers ::
                    S.Val(spending, c) == S.Val(old(spending), c) && S.Val(budgets, c) == S.Val(old(budgets), c)
        decreases rest
      {
        var c :| c in rest;
        RegisterContainer(c, S.Val(store.limits, (c, Spending)), S.Val(store.usage, (c, Spending)));
        rest := rest - {c};
      }
    }
  }
}
