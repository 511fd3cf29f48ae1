/** What holds over every run of charges, restarts and limit changes. */
module SpendingRuns {
  import opened Model
  import opened StoreState
  import opened SpendingState

  ghost predicate Reaches(st: State, steps: seq<Step>, st': State)
    decreases |steps|
  {
    if steps == [] then st' == st
    else Enabled(st, steps[0]) && Reaches(Apply(st, steps[0]), steps[1..], st')
  }

  function Spent(st: State, c: ContainerId): int
  {
    Val(st.t.spending, c)
  }

  function Limit(st: State, c: ContainerId): int
  {
    Val(st.db.limits, (c, Spending))
  }

  /** The store has the spending rounded down, the proxy has the limit in its own unit. */
  predicate InStep(st: State, c: ContainerId)
  {
    && Spent(st, c) >= 0
    && Val(st.db.usage, (c, Spending)) == GetSpending(st.t, c)
    && Val(st.t.budgets, c) == Limit(st, c) * MICRO
  }

  predicate Inv(st: State)
  {
    forall c | c in st.db.containers :: InStep(st, c)
  }

  /** Nothing is stored or tracked under the id. */
  predicate Unused(st: State, c: ContainerId)
  {
    && Spent(st, c) == 0 && Val(st.t.budgets, c) == 0
    && Val(st.db.usage, (c, Spending)) == 0 && Limit(st, c) == 0
  }

  /** Registration brings a container into step; its stored usage is never negative. A clone gets a new id, and is in
      step if there is no spending limit to copy. */
  predicate Restorable(st: State, step: Step)
  {
    && (step.Reregister? ==> Val(st.db.usage, (step.c, Spending)) >= 0)
    && (step.Clone? ==> Unused(st, step.to) && Limit(st, step.from) == 0)
  }

  /** A clone under a new id is in step exactly when there was no spending limit to copy. */
  lemma CloneInStepIff(st: State, from: ContainerId, to: ContainerId)
    requires Enabled(st, Clone(from, to)) && Unused(st, to)
    ensures InStep(Apply(st, Clone(from, to)), to) <==> Limit(st, from) == 0
  {
    CopiedSpendingLimit(RegisterContainer(st.db, to), from, to, to);
    hide CopyLimits;
  }

  lemma StepInv(st: State, step: Step, c: ContainerId)
    requires c in st.db.containers ==> InStep(st, c)
    requires Enabled(st, step) && Restorable(st, step)
    ensures c in Apply(st, step).db.containers ==> InStep(Apply(st, step), c)
  {
    hide CopyLimits;
    if step.Clone? {
      CopiedSpendingLimit(RegisterContainer(st.db, step.to), step.from, step.to, c);
    }
  }

  ghost predicate AllRestorable(st: State, steps: seq<Step>)
    decreases |steps|
  {
    steps == [] || (Restorable(st, steps[0]) && AllRestorable(Apply(st, steps[0]), steps[1..]))
  }

  lemma {:induction false} RunInv(st: State, steps: seq<Step>, st': State)
    requires Inv(st) && Reaches(st, steps, st') && AllRestorable(st, steps)
    ensures Inv(st')
    decreases |steps|
  {
    if steps != [] {
      forall c | c in Apply(st, steps[0]).db.containers ensures InStep(Apply(st, steps[0]), c) {
        StepInv(st, steps[0], c);
      }
      RunInv(Apply(st, steps[0]), steps[1..], st');
    }
  }

  // ----- Each step, amount by amount -----

  /** Whole milli-cents of an amount in micro-cents. */
  function Milli(micro: int): int
  {
    TruncDiv(micro, 1_000)
  }

  /** Tracked spending and budget of c after a step, in micro-cents: charges add up, and a reload takes what is stored. */
  lemma TrackedLaw(st: State, step: Step, c: ContainerId)
    requires Enabled(st, step)
    ensures var st' := Apply(st, step);
            var reloaded := step == Reregister(c) || (step == Restart && c in st.db.containers);
            && Spent(st', c) == (if reloaded then 1_000 * Val(st.db.usage, (c, Spending))
                                 else if step == Restart then 0
                                 else if step.ChargeTokens? && step.c == c then Spent(st, c) + step.micro
                                 else if step.ChargeTime? && step.c == c then Spent(st, c) + 1_000 * step.milli
                                 else Spent(st, c))
            && Val(st'.t.budgets, c) == (if reloaded then 1_000 * Limit(st, c)
                                         else if step == Restart then 0
                                         else if step.SetSpendingLimit? && step.c == c then 1_000 * step.v
                                         else Val(st.t.budgets, c))
  {
    hide CopyLimits;
  }

  /** Stored spending and limit of c after a step: every charge, sync and enforcement read stores whole milli-cents. */
  lemma StoredLaw(st: State, step: Step, c: ContainerId)
    requires Enabled(st, step)
    ensures var st', was := Apply(st, step), Val(st.db.usage, (c, Spending));
            && Val(st'.db.usage, (c, Spending)) ==
                 (if step.ChargeTokens? && step.c == c then Milli(Spent(st, c) + step.micro)
                  else if step.ChargeTime? && step.c == c then Milli(Spent(st, c) + 1_000 * step.milli)
                  else if step == EnforcementRead(c) || (step == Sync(c) && Milli(Spent(st, c)) > 0) then Milli(Spent(st, c))
                  else was)
            && Limit(st', c) == (if step.SetSpendingLimit? && step.c == c then step.v
                                 else if step.Clone? && step.to == c && (step.from, Spending) in st.db.limits
                                 then Limit(st, step.from)
                                 else Limit(st, c))
  {
    if step.Clone? {
      CopiedSpendingLimit(RegisterContainer(st.db, step.to), step.from, step.to, c);
    }
    hide CopyLimits;
  }

  /** Requests in flight after a step: admitted ones more, charged and dropped ones less, none after a restart. */
  lemma InFlightLaw(st: State, step: Step, c: ContainerId, kind: Kind)
    requires Enabled(st, step)
    ensures var landed := step == Drop(c, kind) || (step.ChargeTokens? && step.c == c && kind == Tracked)
                          || (step.ChargeTime? && step.c == c && kind == Inference);
            InFlight(Apply(st, step), c, kind) ==
              if step == Restart then 0
              else if step == Admit(c, kind) then InFlight(st, c, kind) + 1
              else if landed then InFlight(st, c, kind) - 1
              else InFlight(st, c, kind)
  {
    hide CopyLimits, GetSpending;
  }

  // ----- Prices -----

  /** A response costs its input tokens at the input price and its output tokens at the output price: a token of either
      kind adds its own price, and responses add up. */
  lemma TokenPrices(input: int, output: int, more: int, moreOut: int, inputPrice: int, outputPrice: int)
    ensures TokenCost(1, 0, inputPrice, outputPrice) == inputPrice
    ensures TokenCost(0, 1, inputPrice, outputPrice) == outputPrice
    ensures TokenCost(0, 0, inputPrice, outputPrice) == 0
    ensures TokenCost(input + more, output + moreOut, inputPrice, outputPrice) ==
            TokenCost(input, output, inputPrice, outputPrice) + TokenCost(more, moreOut, inputPrice, outputPrice)
  {
    assert (input + more) * inputPrice == input * inputPrice + more * inputPrice;
    assert (output + moreOut) * outputPrice == output * outputPrice + moreOut * outputPrice;
  }

  // ----- The three gates -----

  lemma RoundingKeepsComparison(micro: int, milli: int)
    requires micro >= 0 && milli >= 0
    ensures micro >= milli * MICRO <==> TruncDiv(micro, MICRO) >= milli
  {
  }

  /** In every reachable state the proxy and Ollama gates agree, and enforcement with them exactly when
      the limit is not negative. */
  lemma GatesAgreeIff(st: State, steps: seq<Step>, st': State, c: ContainerId)
    requires Inv(st) && Reaches(st, steps, st') && AllRestorable(st, steps) && c in st'.db.containers
    ensures ProxyExceeded(st'.t, c) <==> OllamaExceeded(st'.t, st'.db, c)
    ensures (EnforcementExceeded(st'.t, st'.db, c) <==> ProxyExceeded(st'.t, c)) <==> Limit(st', c) >= 0
  {
    RunInv(st, steps, st');
    assert InStep(st', c);
    if Limit(st', c) >= 0 {
      RoundingKeepsComparison(Spent(st', c), Limit(st', c));
    }
  }

  /** A limit of -1 on a container that spent nothing: both gates let everything through, enforcement flags it. */
  lemma NegativeLimitDivides() returns (st: State)
    ensures Reaches(State(NEW_TRACKER, EMPTY_DB, map[]), [Reregister(0), SetSpendingLimit(0, -1)], st)
    ensures Passes(st.t, st.db, 0, Tracked) && Passes(st.t, st.db, 0, Inference)
    ensures EnforcementExceeded(st.t, st.db, 0)
  {
    var st0 := State(NEW_TRACKER, EMPTY_DB, map[]);
    var st1 := Apply(st0, Reregister(0));
    st := Apply(st1, SetSpendingLimit(0, -1));
    assert [Reregister(0), SetSpendingLimit(0, -1)][1..] == [SetSpendingLimit(0, -1)];
    assert Reaches(st1, [SetSpendingLimit(0, -1)], st);
  }

  const LIMITED_DB := EMPTY_DB.(containers := map[0 := Row(None, false)], limits := map[(0, Spending) := 5])

  lemma CloneOfLimited() returns (s1: State)
    ensures var st0 := State(Restore(NEW_TRACKER, LIMITED_DB), LIMITED_DB, map[]);
            Inv(st0) && Enabled(st0, Clone(0, 1)) && s1 == Apply(st0, Clone(0, 1))
    ensures 1 in s1.db.containers && s1.flying == map[] && Limit(s1, 1) == 5
    ensures Spent(s1, 1) == 0 && Val(s1.t.budgets, 1) == 0 && s1.t.blocked == map[]
  {
    hide CopyLimits;
    var t := Restore(NEW_TRACKER, LIMITED_DB);
    assert t == NEW_TRACKER.(spending := map[0 := 0], budgets := map[0 := 5_000]);
    CopiedSpendingLimit(RegisterContainer(LIMITED_DB, 1), 0, 1, 1);
    hide Restore;
    s1 := Apply(State(t, LIMITED_DB, map[]), Clone(0, 1));
  }

  lemma ChargeUnlimited(s1: State) returns (st: State)
    requires 1 in s1.db.containers && s1.flying == map[] && Limit(s1, 1) == 5
    requires Spent(s1, 1) == 0 && Val(s1.t.budgets, 1) == 0 && s1.t.blocked == map[]
    ensures Reaches(s1, [Admit(1, Tracked), ChargeTokens(1, 5_000)], st)
    ensures Passes(st.t, st.db, 1, Tracked) && !Passes(st.t, st.db, 1, Inference)
  {
    var s2 := Apply(s1, Admit(1, Tracked));
    st := Apply(s2, ChargeTokens(1, 5_000));
    assert Reaches(s2, [ChargeTokens(1, 5_000)], st);
    assert [Admit(1, Tracked), ChargeTokens(1, 5_000)][1..] == [ChargeTokens(1, 5_000)];
  }

  /** Container 0 with a limit of 5, and its clone 1, which spends 5: the queue refuses the clone, the proxy, which
      was told of no limit, does not. */
  lemma CloneDividesGates() returns (st: State)
    ensures var st0 := State(Restore(NEW_TRACKER, LIMITED_DB), LIMITED_DB, map[]);
            Inv(st0) && Reaches(st0, [Clone(0, 1), Admit(1, Tracked), ChargeTokens(1, 5_000)], st)
    ensures Passes(st.t, st.db, 1, Tracked) && !Passes(st.t, st.db, 1, Inference)
  {
    var s1 := CloneOfLimited();
    st := ChargeUnlimited(s1);
    hide Apply, Enabled, Passes;
    assert [Clone(0, 1), Admit(1, Tracked), ChargeTokens(1, 5_000)][1..] == [Admit(1, Tracked), ChargeTokens(1, 5_000)];
  }

  // ----- Overshoot -----

  /** At most n requests of c fly at once, each charged m micro-cents at most, its limit left alone. */
  ghost predicate Bounded(st: State, steps: seq<Step>, c: ContainerId, n: nat, m: int)
    decreases |steps|
  {
    && Flying(st, c) <= n
    && (steps != [] ==>
          && CostOf(steps[0], c) <= m
          && !(steps[0].SetSpendingLimit? && steps[0].c == c)
          && Bounded(Apply(st, steps[0]), steps[1..], c, n, m))
  }

  /** What a step charges to c, in micro-cents. */
  function CostOf(step: Step, c: ContainerId): int
  {
    if step.ChargeTokens? && step.c == c then step.micro
    else if step.ChargeTime? && step.c == c then step.milli * MICRO
    else 0
  }

  /** What has been spent and what may still fly in stay under the bound. */
  predicate Covered(st: State, c: ContainerId, b: int, n: nat, m: int)
  {
    && c in st.db.containers && InStep(st, c) && Limit(st, c) * MICRO == b
    && Spent(st, c) + Flying(st, c) * m <= b - 1 + n * m
  }

  lemma ScaleUp(x: nat, y: nat, m: int)
    requires x <= y && m >= 0
    ensures x * m <= y * m
  {
  }

  /** A restored amount is the amount rounded down to whole milli-cents. */
  lemma RoundedDown(micro: int)
    requires micro >= 0
    ensures 0 <= micro - TruncDiv(micro, MICRO) * MICRO <= MICRO - 1
  {
  }

  lemma LimitStep(st: State, step: Step, c: ContainerId)
    requires c in st.db.containers && Enabled(st, step) && !(step.SetSpendingLimit? && step.c == c)
    ensures Limit(Apply(st, step), c) == Limit(st, c)
  {
    if step.Clone? {
      CopiedSpendingLimit(RegisterContainer(st.db, step.to), step.from, step.to, c);
    }
    hide CopyLimits;
  }

  lemma LandedFlying(st: State, c: ContainerId, kind: Kind, d: ContainerId)
    requires InFlight(st, c, kind) > 0
    ensures Flying(Landed(st, c, kind), d) == Flying(st, d) - if d == c then 1 else 0
  {
    if kind == Tracked {
      assert InFlight(Landed(st, c, kind), d, Inference) == InFlight(st, d, Inference);
    } else {
      assert InFlight(Landed(st, c, kind), d, Tracked) == InFlight(st, d, Tracked);
    }
  }

  lemma FlyingStep(st: State, step: Step, c: ContainerId)
    requires Enabled(st, step)
    ensures Flying(Apply(st, step), c) ==
              if step.Restart? then 0
              else if step.Admit? && step.c == c then Flying(st, c) + 1
              else if (step.ChargeTokens? || step.ChargeTime? || step.Drop?) && step.c == c then Flying(st, c) - 1
              else Flying(st, c)
  {
    match step
    case ChargeTokens(d, micro) => LandedFlying(Charge(st, d, micro), d, Tracked, c);
    case ChargeTime(d, milli) => LandedFlying(Charge(st, d, milli * MICRO), d, Inference, c);
    case Drop(d, kind) => LandedFlying(st, d, kind, c);
    case _ =>
    hide CopyLimits, GetSpending, Landed;
  }

  lemma FewerFlying(spent: int, spent': int, x: nat, y: nat, m: int, most: int)
    requires spent + x * m <= most && m >= 0 && y <= x
    requires spent' <= spent || (y < x && spent' <= spent + m)
    ensures spent' + y * m <= most
  {
    if y < x {
      ScaleUp(y + 1, x, m);
      assert (y + 1) * m == y * m + m;
    }
  }

  /** What a step that admits nothing of c leaves: no more spent with no more flying, or a charge landed. */
  lemma NothingAdmitted(st: State, step: Step, c: ContainerId, m: int)
    requires c in st.db.containers && InStep(st, c) && Enabled(st, step) && Restorable(st, step)
    requires !(step.Admit? && step.c == c) && CostOf(step, c) <= m && m >= 0
    ensures var st' := Apply(st, step);
            && Flying(st', c) <= Flying(st, c)
            && (Spent(st', c) <= Spent(st, c) || (Flying(st', c) < Flying(st, c) && Spent(st', c) <= Spent(st, c) + m))
  {
    SpentStep(st, step, c);
    FlyingStep(st, step, c);
    RoundedDown(Spent(st, c));
    hide Apply, Flying, Restorable, TruncDiv;
  }

  lemma CoveredStep(st: State, step: Step, c: ContainerId, b: int, n: nat, m: int)
    requires Covered(st, c, b, n, m) && b > 0 && m >= 0 && Enabled(st, step) && Restorable(st, step)
    requires Flying(Apply(st, step), c) <= n && CostOf(step, c) <= m
    requires !(step.SetSpendingLimit? && step.c == c)
    ensures Covered(Apply(st, step), c, b, n, m)
  {
    var st' := Apply(st, step);
    SpentStep(st, step, c);
    LimitStep(st, step, c);
    if step.Admit? && step.c == c {
      RoundingKeepsComparison(Spent(st, c), Limit(st, c));
      assert Spent(st', c) <= b - 1;
      hide Apply, Flying, Restorable;
      ScaleUp(Flying(st', c), n, m);
    } else {
      NothingAdmitted(st, step, c, m);
      hide Apply, Flying, Restorable, Enabled, CostOf, Reloads, InStep;
      FewerFlying(Spent(st, c), Spent(st', c), Flying(st, c), Flying(st', c), m, b - 1 + n * m);
    }
  }

  lemma {:induction false} CoveredRun(st: State, steps: seq<Step>, st': State, c: ContainerId, b: int, n: nat, m: int)
    requires Covered(st, c, b, n, m) && b > 0 && m >= 0
    requires Reaches(st, steps, st') && AllRestorable(st, steps) && Bounded(st, steps, c, n, m)
    ensures Spent(st', c) <= b - 1 + n * m
    decreases |steps|
  {
    if steps != [] {
      assert Flying(Apply(st, steps[0]), c) <= n;
      CoveredStep(st, steps[0], c, b, n, m);
      CoveredRun(Apply(st, steps[0]), steps[1..], st', c, b, n, m);
    } else {
      ScaleUp(0, Flying(st, c), m);
    }
  }

  /** From less than the budget spent, and however admissions, charges and restarts interleave, spending stays
      under the budget plus one maximal charge for each request that may be in flight. */
  lemma Overshoot(st: State, steps: seq<Step>, st': State, c: ContainerId, n: nat, m: int)
    requires Inv(st) && c in st.db.containers && Spent(st, c) < Limit(st, c) * MICRO && m >= 0
    requires Reaches(st, steps, st') && AllRestorable(st, steps) && Bounded(st, steps, c, n, m)
    ensures Spent(st', c) <= Limit(st, c) * MICRO - 1 + n * m
  {
    assert InStep(st, c);
    ScaleUp(Flying(st, c), n, m);
    CoveredRun(st, steps, st', c, Limit(st, c) * MICRO, n, m);
  }

  /** Some admissions, then k charges of m each. */
  function Burst(c: ContainerId, admissions: nat, k: nat, m: int): seq<Step>
    decreases admissions + k
  {
    if admissions > 0 then [Admit(c, Tracked)] + Burst(c, admissions - 1, k, m)
    else if k > 0 then [ChargeTokens(c, m)] + Burst(c, 0, k - 1, m)
    else []
  }

  lemma BoundedCons(st: State, step: Step, rest: seq<Step>, st': State, c: ContainerId, n: nat, m: int)
    requires Enabled(st, step) && Reaches(Apply(st, step), rest, st')
    requires Restorable(st, step) && AllRestorable(Apply(st, step), rest)
    requires Flying(st, c) <= n && CostOf(step, c) <= m && !(step.SetSpendingLimit? && step.c == c)
    requires Bounded(Apply(st, step), rest, c, n, m)
    ensures Reaches(st, [step] + rest, st') && AllRestorable(st, [step] + rest) && Bounded(st, [step] + rest, c, n, m)
  {
    assert ([step] + rest)[1..] == rest;
  }

  lemma AdmitOnce(st: State, c: ContainerId)
    requires c in st.db.containers && !ProxyExceeded(st.t, c) && !ScopeBlocked(st.t, c)
    ensures Enabled(st, Admit(c, Tracked))
    ensures var st' := Apply(st, Admit(c, Tracked));
            && c in st'.db.containers && st'.t == st.t
            && InFlight(st', c, Tracked) == InFlight(st, c, Tracked) + 1
            && InFlight(st', c, Inference) == InFlight(st, c, Inference)
  {
  }

  lemma ChargeOnce(st: State, c: ContainerId, m: int)
    requires c in st.db.containers && m >= 0 && InFlight(st, c, Tracked) > 0
    ensures Enabled(st, ChargeTokens(c, m))
    ensures var st' := Apply(st, ChargeTokens(c, m));
            && c in st'.db.containers && Spent(st', c) == Spent(st, c) + m
            && InFlight(st', c, Tracked) == InFlight(st, c, Tracked) - 1
            && InFlight(st', c, Inference) == InFlight(st, c, Inference)
  {
  }

  lemma OneMore(u: int, k: int, m: int)
    ensures u + m + (k - 1) * m == u + k * m
  {
  }

  lemma {:induction false} BurstRun(st: State, c: ContainerId, admissions: nat, k: nat, m: int, n: nat)
      returns (st': State)
    requires c in st.db.containers && m >= 0 && k <= n
    requires InFlight(st, c, Tracked) + admissions == k && InFlight(st, c, Inference) == 0
    requires admissions > 0 ==> !ProxyExceeded(st.t, c) && !ScopeBlocked(st.t, c)
    ensures var steps := Burst(c, admissions, k, m);
            Reaches(st, steps, st') && AllRestorable(st, steps) && Bounded(st, steps, c, n, m)
    ensures Spent(st', c) == Spent(st, c) + k * m
    decreases admissions + k
  {
    if admissions > 0 {
      AdmitOnce(st, c);
      var st1 := Apply(st, Admit(c, Tracked));
      assert Spent(st1, c) == Spent(st, c);
      hide Apply, Enabled, InFlight;
      st' := BurstRun(st1, c, admissions - 1, k, m, n);
      BoundedCons(st, Admit(c, Tracked), Burst(c, admissions - 1, k, m), st', c, n, m);
    } else if k > 0 {
      ChargeOnce(st, c, m);
      var st1 := Apply(st, ChargeTokens(c, m));
      hide Apply, Enabled, InFlight, Spent;
      st' := BurstRun(st1, c, 0, k - 1, m, n);
      BoundedCons(st, ChargeTokens(c, m), Burst(c, 0, k - 1, m), st', c, n, m);
      OneMore(Spent(st, c), k, m);
    } else {
      st' := st;
    }
  }

  /** The bound is reached, by a run that meets its conditions: one micro-cent short of the budget, n requests
      pass the gate and then cost m each. */
  lemma OvershootIsReached(st: State, c: ContainerId, n: nat, m: int) returns (steps: seq<Step>, st': State)
    requires Inv(st) && c in st.db.containers && m >= 0 && Flying(st, c) == 0
    requires Limit(st, c) > 0 && Spent(st, c) == Limit(st, c) * MICRO - 1 && !ScopeBlocked(st.t, c)
    ensures Reaches(st, steps, st') && AllRestorable(st, steps) && Bounded(st, steps, c, n, m)
    ensures Spent(st', c) == Limit(st, c) * MICRO - 1 + n * m
  {
    assert InStep(st, c);
    steps := Burst(c, n, n, m);
    st' := BurstRun(st, c, n, n, m, n);
  }

  // ----- What restarts lose -----

  /** All that was charged to c by the steps. */
  function Charged(steps: seq<Step>, c: ContainerId): int
    decreases |steps|
  {
    if steps == [] then 0 else CostOf(steps[0], c) + Charged(steps[1..], c)
  }

  predicate Reloads(step: Step, c: ContainerId)
  {
    step.Restart? || (step.Reregister? && step.c == c)
  }

  function ReloadsIn(steps: seq<Step>, c: ContainerId): nat
    decreases |steps|
  {
    if steps == [] then 0 else (if Reloads(steps[0], c) then 1 else 0) + ReloadsIn(steps[1..], c)
  }

  lemma SpentStep(st: State, step: Step, c: ContainerId)
    requires c in st.db.containers && InStep(st, c) && Enabled(st, step) && Restorable(st, step)
    ensures c in Apply(st, step).db.containers && InStep(Apply(st, step), c)
    ensures Spent(Apply(st, step), c) ==
            if Reloads(step, c) then TruncDiv(Spent(st, c), MICRO) * MICRO else Spent(st, c) + CostOf(step, c)
  {
    StepInv(st, step, c);
  }

  /** Charges made are all tracked, less at most 999 micro-cents for every restart or re-registration. */
  lemma {:induction false} RestartLoss(st: State, steps: seq<Step>, st': State, c: ContainerId)
    requires c in st.db.containers && InStep(st, c) && Reaches(st, steps, st') && AllRestorable(st, steps)
    ensures c in st'.db.containers && InStep(st', c)
    ensures 0 <= Spent(st, c) + Charged(steps, c) - Spent(st', c) <= (MICRO - 1) * ReloadsIn(steps, c)
    decreases |steps|
  {
    if steps != [] {
      SpentStep(st, steps[0], c);
      RoundedDown(Spent(st, c));
      RestartLoss(Apply(st, steps[0]), steps[1..], st', c);
    }
  }

  predicate WholeMilliCents(st: State, c: ContainerId)
  {
    Spent(st, c) % MICRO == 0
  }

  /** Nothing is lost when every charge is in whole milli-cents, as inference charges are. */
  lemma {:induction false} NoLossInWholeMilliCents(st: State, steps: seq<Step>, st': State, c: ContainerId)
    requires c in st.db.containers && InStep(st, c) && Reaches(st, steps, st') && AllRestorable(st, steps)
    requires WholeMilliCents(st, c)
    requires forall i | 0 <= i < |steps| :: CostOf(steps[i], c) % MICRO == 0
    ensures Spent(st', c) == Spent(st, c) + Charged(steps, c)
    decreases |steps|
  {
    if steps != [] {
      SpentStep(st, steps[0], c);
      NoLossInWholeMilliCents(Apply(st, steps[0]), steps[1..], st', c);
    }
  }

  lemma ReachesCons(st: State, step: Step, rest: seq<Step>, st': State)
    requires Enabled(st, step) && Reaches(Apply(st, step), rest, st')
    requires Restorable(st, step) && AllRestorable(Apply(st, step), rest)
    ensures Reaches(st, [step] + rest, st') && AllRestorable(st, [step] + rest)
  {
    assert ([step] + rest)[1..] == rest;
  }

  lemma ChargedCons(step: Step, rest: seq<Step>, c: ContainerId)
    ensures Charged([step] + rest, c) == CostOf(step, c) + Charged(rest, c)
    ensures ReloadsIn([step] + rest, c) == (if Reloads(step, c) then 1 else 0) + ReloadsIn(rest, c)
  {
    assert ([step] + rest)[1..] == rest;
  }

  /** A registration reads back what it was given; given what the tracker itself says, it drops the part below a
      milli-cent, and given it again, nothing more. Other containers notice nothing. */
  lemma RegisterReadsBack(t: Tracker, c: ContainerId, budget: int, existing: int, d: ContainerId)
    ensures GetSpending(Register(t, c, budget, existing), c) == existing
    ensures Val(Register(t, c, budget, existing).budgets, c) == budget * MICRO
    ensures d != c ==> GetSpending(Register(t, c, budget, existing), d) == GetSpending(t, d)
                       && (ProxyExceeded(Register(t, c, budget, existing), d) <==> ProxyExceeded(t, d))
    ensures var again := Register(t, c, budget, GetSpending(t, c));
            && (Val(t.spending, c) >= 0 ==> Val(again.spending, c) == Val(t.spending, c) - Val(t.spending, c) % MICRO)
            && Register(again, c, budget, GetSpending(again, c)) == again
  {
    ReadBack(existing);
    ReadBack(GetSpending(t, c));
  }

  lemma ReadBack(milli: int)
    ensures TruncDiv(milli * MICRO, MICRO) == milli
  {
  }

  /** A charge of 999 micro-cents and a restart, r times over. */
  function Wasteful(c: ContainerId, r: nat): seq<Step>
  {
    if r == 0 then [] else [Admit(c, Tracked)] + ([ChargeTokens(c, MICRO - 1)] + ([Restart] + Wasteful(c, r - 1)))
  }

  lemma WastefulRound(st: State, c: ContainerId) returns (s1: State, s2: State, s3: State)
    requires c in st.db.containers && InStep(st, c) && Limit(st, c) == 0 && WholeMilliCents(st, c)
    requires st.t.blocked == map[]
    ensures Enabled(st, Admit(c, Tracked)) && s1 == Apply(st, Admit(c, Tracked))
    ensures Enabled(s1, ChargeTokens(c, MICRO - 1)) && s2 == Apply(s1, ChargeTokens(c, MICRO - 1))
    ensures Enabled(s2, Restart) && s3 == Apply(s2, Restart)
    ensures c in s3.db.containers && InStep(s3, c) && Limit(s3, c) == 0 && s3.t.blocked == map[]
    ensures Spent(s3, c) == Spent(st, c)
  {
    s1 := Apply(st, Admit(c, Tracked));
    s2 := Apply(s1, ChargeTokens(c, MICRO - 1));
    s3 := Apply(s2, Restart);
    SpentStep(s1, ChargeTokens(c, MICRO - 1), c);
    SpentStep(s2, Restart, c);
  }

  /** The loss of 999 micro-cents a restart is reached. */
  lemma {:induction false} LossIsReached(st: State, c: ContainerId, r: nat) returns (st': State)
    requires c in st.db.containers && InStep(st, c) && Limit(st, c) == 0 && WholeMilliCents(st, c)
    requires st.t.blocked == map[]
    ensures Reaches(st, Wasteful(c, r), st') && AllRestorable(st, Wasteful(c, r))
    ensures Spent(st', c) == Spent(st, c)
    ensures Charged(Wasteful(c, r), c) == (MICRO - 1) * r && ReloadsIn(Wasteful(c, r), c) == r
    decreases r
  {
    if r == 0 {
      st' := st;
    } else {
      var s1, s2, s3 := WastefulRound(st, c);
      st' := LossIsReached(s3, c, r - 1);
      PrependWaste(st, s1, s2, s3, Wasteful(c, r - 1), st', c);
      hide Apply, Enabled, Spent, Limit, InStep;
    }
  }

  /** One wasteful round in front of a run. */
  lemma PrependWaste(st: State, s1: State, s2: State, s3: State, tail: seq<Step>, st': State, c: ContainerId)
    requires Enabled(st, Admit(c, Tracked)) && s1 == Apply(st, Admit(c, Tracked))
    requires Enabled(s1, ChargeTokens(c, MICRO - 1)) && s2 == Apply(s1, ChargeTokens(c, MICRO - 1))
    requires Enabled(s2, Restart) && s3 == Apply(s2, Restart)
    requires Reaches(s3, tail, st') && AllRestorable(s3, tail)
    ensures var steps := [Admit(c, Tracked)] + ([ChargeTokens(c, MICRO - 1)] + ([Restart] + tail));
            && Reaches(st, steps, st') && AllRestorable(st, steps)
            && Charged(steps, c) == MICRO - 1 + Charged(tail, c) && ReloadsIn(steps, c) == 1 + ReloadsIn(tail, c)
  {
    hide Apply, Enabled;
    ReachesCons(s2, Restart, tail, st');
    ReachesCons(s1, ChargeTokens(c, MICRO - 1), [Restart] + tail, st');
    ReachesCons(st, Admit(c, Tracked), [ChargeTokens(c, MICRO - 1)] + ([Restart] + tail), st');
    hide Reaches, AllRestorable;
    ChargedCons(Restart, tail, c);
    ChargedCons(ChargeTokens(c, MICRO - 1), [Restart] + tail, c);
    ChargedCons(Admit(c, Tracked), [ChargeTokens(c, MICRO - 1)] + ([Restart] + tail), c);
    hide Charged, ReloadsIn;
  }
}
