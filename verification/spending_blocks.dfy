/** What a container still spends while a scope blocks it. */
module SpendingBlocks {
  import opened Model
  import opened StoreState
  import opened SpendingState
  import opened SpendingRuns

  /** A scope blocks c at every step of the run. */
  ghost predicate BlockedAlong(st: State, steps: seq<Step>, c: ContainerId)
    decreases |steps|
  {
    steps == [] || (ScopeBlocked(st.t, c) && BlockedAlong(Apply(st, steps[0]), steps[1..], c))
  }

  /** How many calls of c were charged by tokens. */
  function TokenCharges(steps: seq<Step>, c: ContainerId): nat
    decreases |steps|
  {
    if steps == [] then 0 else (if steps[0].ChargeTokens? && steps[0].c == c then 1 else 0) + TokenCharges(steps[1..], c)
  }

  /** While a scope blocks c, over every run, all that is admitted are inference requests, and no more tracked calls
      are charged than were in flight when it began. */
  lemma {:induction false} BlockedAdmitsInferenceOnly(st: State, steps: seq<Step>, st': State, c: ContainerId)
    requires Reaches(st, steps, st') && BlockedAlong(st, steps, c)
    ensures forall i | 0 <= i < |steps| :: steps[i].Admit? && steps[i].c == c ==> steps[i].kind == Inference
    ensures TokenCharges(steps, c) + InFlight(st', c, Tracked) <= InFlight(st, c, Tracked)
    decreases |steps|
  {
    if steps != [] {
      var next := Apply(st, steps[0]);
      BlockedAdmitsInferenceOnly(next, steps[1..], st', c);
      assert (if steps[0].ChargeTokens? && steps[0].c == c then 1 else 0) + InFlight(next, c, Tracked)
             <= InFlight(st, c, Tracked);
      forall i | 0 <= i < |steps|
        ensures steps[i].Admit? && steps[i].c == c ==> steps[i].kind == Inference
      {
        assert i > 0 ==> steps[i] == steps[1..][i-1];
      }
    }
  }

  /** One inference request after the other. */
  function Inferences(c: ContainerId, k: nat, milli: int): seq<Step>
  {
    if k == 0 then [] else [Admit(c, Inference)] + ([ChargeTime(c, milli)] + Inferences(c, k - 1, milli))
  }

  lemma InferenceRound(st: State, c: ContainerId, milli: int) returns (s1: State, s2: State)
    requires c in st.db.containers && Limit(st, c) <= 0 && ScopeBlocked(st.t, c) && milli > 0
    ensures Enabled(st, Admit(c, Inference)) && s1 == Apply(st, Admit(c, Inference)) && ScopeBlocked(s1.t, c)
    ensures Enabled(s1, ChargeTime(c, milli)) && s2 == Apply(s1, ChargeTime(c, milli)) && ScopeBlocked(s2.t, c)
    ensures c in s2.db.containers && Limit(s2, c) == Limit(st, c) && Spent(s2, c) == Spent(st, c) + milli * MICRO
  {
    s1 := Apply(st, Admit(c, Inference));
    s2 := Apply(s1, ChargeTime(c, milli));
  }

  lemma BlockedCons(st: State, step: Step, rest: seq<Step>, st': State, c: ContainerId)
    requires Enabled(st, step) && Reaches(Apply(st, step), rest, st')
    requires ScopeBlocked(st.t, c) && BlockedAlong(Apply(st, step), rest, c)
    ensures Reaches(st, [step] + rest, st') && BlockedAlong(st, [step] + rest, c)
  {
    assert ([step] + rest)[1..] == rest;
  }

  /** And these are not bounded by the scope at all: with no limit of its own, a blocked container spends any
      multiple of any charge while blocked throughout. */
  lemma {:induction false} BlockedSpendsOn(st: State, c: ContainerId, k: nat, milli: int) returns (st': State)
    requires c in st.db.containers && Limit(st, c) <= 0 && ScopeBlocked(st.t, c) && milli > 0
    ensures Reaches(st, Inferences(c, k, milli), st') && BlockedAlong(st, Inferences(c, k, milli), c)
    ensures ScopeBlocked(st'.t, c) && Spent(st', c) == Spent(st, c) + k * (milli * MICRO)
    decreases k
  {
    if k == 0 {
      st' := st;
    } else {
      var s1, s2 := InferenceRound(st, c, milli);
      hide Apply, Enabled, ScopeBlocked, Spent, Limit;
      st' := BlockedSpendsOn(s2, c, k - 1, milli);
      BlockedCons(s1, ChargeTime(c, milli), Inferences(c, k - 1, milli), st', c);
      BlockedCons(st, Admit(c, Inference), [ChargeTime(c, milli)] + Inferences(c, k - 1, milli), st', c);
      OneMore(Spent(st, c), k, milli * MICRO);
    }
  }
}
