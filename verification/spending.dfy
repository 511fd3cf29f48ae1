/**
 Spending budgets. The proxy counts micro-cents; limits, stored usage and the other two gates are in
 milli-cents, a thousand micro-cents each.
 */
module SpendingState {
  import opened Model
  import opened StoreState

  const MICRO := 1_000

  datatype Tracker = Tracker(
    spending: map<ContainerId, int>,     // micro-cents
    budgets: map<ContainerId, int>,      // micro-cents
    blocked: map<Scope, bool>,
    scopes: map<ContainerId, Scope>)

  const NEW_TRACKER := Tracker(map[], map[], map[], map[])

  function Register(t: Tracker, c: ContainerId, budget: int, existing: int): Tracker
  {
    t.(spending := t.spending[c := existing * MICRO], budgets := t.budgets[c := budget * MICRO])
  }

  function UpdateBudget(t: Tracker, c: ContainerId, budget: int): Tracker
  {
    t.(budgets := t.budgets[c := budget * MICRO])
  }

  function GetSpending(t: Tracker, c: ContainerId): int
  {
    TruncDiv(Val(t.spending, c), MICRO)
  }

  function AddMicro(t: Tracker, c: ContainerId, micro: int): Tracker
  {
    t.(spending := t.spending[c := Val(t.spending, c) + micro])
  }

  predicate Flag(m: map<Scope, bool>, scope: Scope)
  {
    scope in m && m[scope]
  }

  /** The host scope blocks everybody, a segment scope the containers recorded in it. */
  predicate ScopeBlocked(t: Tracker, c: ContainerId)
  {
    || Flag(t.blocked, Host)
    || (c in t.scopes && t.scopes[c] != Host && Flag(t.blocked, t.scopes[c]))
  }

  // ----- The three places that compare spending with the limit -----

  predicate ProxyExceeded(t: Tracker, c: ContainerId)
  {
    Val(t.budgets, c) > 0 && Val(t.spending, c) >= Val(t.budgets, c)
  }

  predicate OllamaExceeded(t: Tracker, db: Db, c: ContainerId)
  {
    Val(db.limits, (c, Spending)) > 0 && GetSpending(t, c) >= Val(db.limits, (c, Spending))
  }

  predicate EnforcementExceeded(t: Tracker, db: Db, c: ContainerId)
  {
    Val(db.limits, (c, Spending)) != 0 && GetSpending(t, c) >= Val(db.limits, (c, Spending))
  }

  function TokenCost(input: int, output: int, inputPrice: int, outputPrice: int): int
  {
    input * inputPrice + output * outputPrice
  }

  // ----- The gates, by kind of request -----

  /** A call to a tracked API is charged by tokens; a request to the inference host is queued and charged by time. */
  datatype Kind = Tracked | Inference

  /** The proxy looks at the host first: an inference request goes to the queue before any look at budget and scopes. */
  predicate Passes(t: Tracker, db: Db, c: ContainerId, kind: Kind)
  {
    match kind
    case Tracked => !ProxyExceeded(t, c) && !ScopeBlocked(t, c)
    case Inference => !OllamaExceeded(t, db, c)
  }

  // ----- The daemon's spending as a machine -----

  /** `flying` counts admitted requests that have not been charged or dropped yet. */
  datatype State = State(t: Tracker, db: Db, flying: map<(ContainerId, Kind), nat>)

  function InFlight(st: State, c: ContainerId, kind: Kind): nat
  {
    if (c, kind) in st.flying then st.flying[(c, kind)] else 0
  }

  function Flying(st: State, c: ContainerId): nat
  {
    InFlight(st, c, Tracked) + InFlight(st, c, Inference)
  }

  datatype Step =
    | Admit(c: ContainerId, kind: Kind)
    | ChargeTokens(c: ContainerId, micro: int)
    | ChargeTime(c: ContainerId, milli: int)
    | Drop(c: ContainerId, kind: Kind)
    | SetSpendingLimit(c: ContainerId, v: int)
    | SetBlocked(scope: Scope, blocked: bool)
    | SetScope(c: ContainerId, scope: Scope)
    | Sync(c: ContainerId)
    | EnforcementRead(c: ContainerId)
    | Reregister(c: ContainerId)
    | Clone(from: ContainerId, to: ContainerId)
    | Restart

  predicate Enabled(st: State, step: Step)
  {
    match step
    case Admit(c, kind) => c in st.db.containers && Passes(st.t, st.db, c, kind)
    case ChargeTokens(c, micro) => c in st.db.containers && InFlight(st, c, Tracked) > 0 && micro >= 0
    case ChargeTime(c, milli) => c in st.db.containers && InFlight(st, c, Inference) > 0 && milli > 0
    case Drop(c, kind) => InFlight(st, c, kind) > 0
    case SetSpendingLimit(c, _) => c in st.db.containers
    case SetBlocked(_, _) => true
    case SetScope(_, _) => true
    case Sync(c) => c in st.db.containers
    case EnforcementRead(c) => c in st.db.containers && Val(st.db.limits, (c, Spending)) != 0
    case Reregister(_) => true
    case Clone(from, to) => from in st.db.containers && to !in st.db.containers
    case Restart => true
  }

  function Landed(st: State, c: ContainerId, kind: Kind): State
  {
    st.(flying := st.flying[(c, kind) := Less(InFlight(st, c, kind))])
  }

  /** The proxy adds the cost, then reports the new total, rounded, to the store. */
  function Charge(st: State, c: ContainerId, micro: int): State
  {
    var t := AddMicro(st.t, c, micro);
    st.(t := t, db := SetUsage(st.db, c, Spending, GetSpending(t, c)))
  }

  function Less(n: nat): nat
  {
    if n == 0 then 0 else n - 1
  }

  /** A new daemon knows what the store knows. */
  function Restore(t: Tracker, db: Db): Tracker
  {
    NEW_TRACKER.(spending := map c | c in db.containers :: Val(db.usage, (c, Spending)) * MICRO,
                 budgets := map c | c in db.containers :: Val(db.limits, (c, Spending)) * MICRO)
  }

  function Apply(st: State, step: Step): State
  {
    match step
    case Admit(c, kind) => st.(flying := st.flying[(c, kind) := InFlight(st, c, kind) + 1])
    case ChargeTokens(c, micro) => Landed(Charge(st, c, micro), c, Tracked)
    case ChargeTime(c, milli) => Landed(Charge(st, c, milli * MICRO), c, Inference)
    case Drop(c, kind) => Landed(st, c, kind)
    case SetSpendingLimit(c, v) => st.(db := SetLimit(st.db, c, Spending, v), t := UpdateBudget(st.t, c, v))
    case SetBlocked(scope, blocked) => st.(t := st.t.(blocked := st.t.blocked[scope := blocked]))
    case SetScope(c, scope) => st.(t := st.t.(scopes := st.t.scopes[c := scope]))
    case Sync(c) =>
      var spent := GetSpending(st.t, c);
      if spent > 0 then st.(db := SetUsage(st.db, c, Spending, spent)) else st
    case EnforcementRead(c) => st.(db := SetUsage(st.db, c, Spending, GetSpending(st.t, c)))
    case Reregister(c) =>
      st.(db := RegisterContainer(st.db, c),
          t := Register(st.t, c, Val(st.db.limits, (c, Spending)), Val(st.db.usage, (c, Spending))))
    case Clone(from, to) => st.(db := CopyLimits(RegisterContainer(st.db, to), from, to))   // the tracker is told nothing
    case Restart => st.(t := Restore(st.t, st.db), flying := map[])
  }

  lemma CopiedSpendingLimit(db: Db, from: ContainerId, to: ContainerId, c: ContainerId)
    ensures CopyLimits(db, from, to) == db.(limits := CopyLimits(db, from, to).limits)
    ensures Val(CopyLimits(db, from, to).limits, (c, Spending)) ==
            if c == to && (from, Spending) in db.limits then db.limits[(from, Spending)] else Val(db.limits, (c, Spending))
  {
    var rows := RowsFor(db.limits, from, to);
    if (from, Spending) in db.limits {
      assert (to, (from, Spending).1) in rows;
    }
  }
}
