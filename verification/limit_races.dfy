/**
 The limit handlers, call by call. No lock is held between what a handler reads and what it writes, so while the
 mode "keep limits consistent" is on, the store calls of any number of handlers interleave.
 */
module LimitRaces {
  import opened Model
  import opened StoreState
  import opened StoreTotals
  import opened LimitRules

  /** What a handler has read so far; it adds up the limits of the containers in `rest` one by one. */
  datatype Progress =
    | Fresh
    | KnowsLimit(was: int)
    | KnowsHost(was: int, host: int)
    | Summing(was: int, host: int, rest: set<ContainerId>, sum: int)
    | Decided(value: int)

  datatype Handler = Handler(r: Request, at: Progress)

  datatype State = State(db: Db, handlers: map<nat, Handler>)

  // ----- One handler -----

  predicate HasHandler(r: Request)
  {
    r.Put? || r.PutHost?
  }

  /** The next read of a container's limit handler; None when it answers with an error. */
  function PutCall(db: Db, r: Request, at: Progress, next: ContainerId): Option<Progress>
    requires r.Put?
  {
    match at
    case Fresh =>
      var was := LimitOf(db, r.c, r.lt);
      if r.op == Unknown then None
      else if r.op == Decrease then Some(Decided(Asked(was, r.op, r.v)))
      else Some(KnowsLimit(was))
    case KnowsLimit(was) =>
      var host := HostLimit(db, r.lt);
      if host <= 0 then Some(Decided(Asked(was, r.op, r.v))) else Some(KnowsHost(was, host))
    case KnowsHost(was, host) => Some(Summing(was, host, db.containers.Keys - {r.c}, 0))
    case Summing(was, host, rest, sum) =>
      if rest != {} then Some(Summing(was, host, rest - {next}, sum + LimitOf(db, next, r.lt)))
      else
        var asked, most := Asked(was, r.op, r.v), Max0(host - (sum + Val(db.scopeAccum, (Host, r.lt))));
        if asked <= most then Some(Decided(asked)) else if r.op == Increase then None else Some(Decided(most))
    case Decided(_) => Some(at)
  }

  /** The same for a host limit, whose old value is the host limit itself. */
  function HostCall(db: Db, r: Request, at: Progress, next: ContainerId): Option<Progress>
    requires r.PutHost?
  {
    match at
    case Fresh =>
      var was := HostLimit(db, r.lt);
      if r.op == Unknown then None
      else if r.op == Increase then Some(Decided(Asked(was, r.op, r.v)))
      else Some(KnowsLimit(was))
    case KnowsLimit(was) => Some(Summing(was, was, db.containers.Keys, 0))
    case Summing(was, host, rest, sum) =>
      if rest != {} then Some(Summing(was, host, rest - {next}, sum + LimitOf(db, next, r.lt)))
      else
        var asked, all := Asked(was, r.op, r.v), sum + Val(db.scopeAccum, (Host, r.lt));
        if all > 0 && asked < all then None else Some(Decided(asked))
    case _ => Some(at)
  }

  function NextCall(db: Db, f: Handler, next: ContainerId): Option<Progress>
  {
    if f.r.Put? then PutCall(db, f.r, f.at, next)
    else if f.r.PutHost? then HostCall(db, f.r, f.at, next)
    else None
  }

  function Written(db: Db, r: Request, value: int): Db
  {
    if r.Put? then SetLimit(db, r.c, r.lt, value)
    else if r.PutHost? then SetScopeLimit(db, Host, r.lt, value)
    else db
  }

  // ----- Steps -----

  datatype Step =
    | Arrive(h: nat, r: Request)
    | Call(h: nat, next: ContainerId)    // one read, of the limit of `next` while adding up
    | Write(h: nat)
    | Store(r: Request)                  // every other request changes the store in one call

  predicate Enabled(st: State, step: Step)
  {
    match step
    case Arrive(h, r) => h !in st.handlers && HasHandler(r) && (r.Put? ==> r.c in st.db.containers)
    case Call(h, next) =>
      && h in st.handlers && !st.handlers[h].at.Decided?
      && (st.handlers[h].at.Summing? && st.handlers[h].at.rest != {} ==> next in st.handlers[h].at.rest)
    case Write(h) => h in st.handlers && st.handlers[h].at.Decided?
    case Store(r) => !HasHandler(r) && WellFormed(r)
  }

  ghost function Apply(st: State, step: Step): State
    requires Enabled(st, step)
  {
    match step
    case Arrive(h, r) => st.(handlers := st.handlers[h := Handler(r, Fresh)])
    case Call(h, next) =>
      var f := st.handlers[h];
      (match NextCall(st.db, f, next)
       case None => st.(handlers := st.handlers - {h})
       case Some(at) => st.(handlers := st.handlers[h := f.(at := at)]))
    case Write(h) =>
      State(Written(st.db, st.handlers[h].r, st.handlers[h].at.value), st.handlers - {h})
    case Store(r) => st.(db := Serve(st.db, r))
  }

  ghost predicate Runs(st: State, steps: seq<Step>)
    decreases |steps|
  {
    steps == [] || (Enabled(st, steps[0]) && Runs(Apply(st, steps[0]), steps[1..]))
  }

  ghost function After(st: State, steps: seq<Step>): State
    requires Runs(st, steps)
    decreases |steps|
  {
    if steps == [] then st else After(Apply(st, steps[0]), steps[1..])
  }

  // ----- Every interleaving -----

  /** What a step has to meet when it changes the store; a handler's write, at that moment and not when it read. */
  ghost predicate Meets(st: State, step: Step)
    requires Enabled(st, step)
  {
    match step
    case Write(h) =>
      var r, value := st.handlers[h].r, st.handlers[h].at.value;
      if r.Put? then
        || r.c !in st.db.containers || HostLimit(st.db, r.lt) <= 0
        || value <= HostLimit(st.db, r.lt) - PromisedToOthers(st.db, r.c, r.lt)
      else r.PutHost? ==> value <= 0 || AllPromised(st.db, r.lt) <= value
    case Store(r) => Safe(st.db, r)
    case _ => true
  }

  lemma StepKeepsIff(st: State, step: Step)
    requires Enabled(st, step) && Consistent(st.db)
    ensures Consistent(Apply(st, step).db) <==> Meets(st, step)
  {
    match step
    case Write(h) =>
      var r, value := st.handlers[h].r, st.handlers[h].at.value;
      if r.Put? {
        StoredKeepsIff(st.db, r.c, r.lt, value);
      } else if r.PutHost? {
        HostLimitKeepsIff(st.db, r.lt, value);
      }
    case Store(r) => ServeKeepsIff(st.db, r);
    case _ =>
    hide Consistent, Serve, Safe, SetLimit, SetScopeLimit, AllPromised, PromisedToOthers;
  }

  ghost predicate ConsistentAlong(st: State, steps: seq<Step>)
    requires Runs(st, steps)
    decreases |steps|
  {
    Consistent(st.db) && (steps == [] || ConsistentAlong(Apply(st, steps[0]), steps[1..]))
  }

  ghost predicate MeetsAlong(st: State, steps: seq<Step>)
    requires Runs(st, steps)
    decreases |steps|
  {
    steps == [] || (Meets(st, steps[0]) && MeetsAlong(Apply(st, steps[0]), steps[1..]))
  }

  /** However the calls of handlers interleave, and whatever handlers had read when the mode went on: the limits are
      consistent throughout exactly when each change of the store met its test at that moment. */
  lemma {:induction false} InterleavedConsistentIff(st: State, steps: seq<Step>)
    requires Runs(st, steps) && Consistent(st.db)
    ensures ConsistentAlong(st, steps) <==> MeetsAlong(st, steps)
    decreases |steps|
  {
    if steps != [] {
      hide Consistent, Apply, Meets, Enabled;
      StepKeepsIff(st, steps[0]);
      if Meets(st, steps[0]) {
        InterleavedConsistentIff(Apply(st, steps[0]), steps[1..]);
      } else if |steps| == 1 {
        assert steps[1..] == [];
      }
    }
  }

  // ----- Handlers that nobody disturbs -----

  /** What a handler has read is still so, and what it decided is what the whole request would store now. */
  ghost predicate Current(db: Db, f: Handler)
  {
    match f.r
    case Put(c, lt, op, v) =>
      var was := LimitOf(db, c, lt);
      var others := db.containers.Keys - {c};
      (match f.at
       case Fresh => true
       case KnowsLimit(w) => w == was && op != Unknown && op != Decrease
       case KnowsHost(w, host) => w == was && op != Unknown && op != Decrease && host == HostLimit(db, lt) > 0
       case Summing(w, host, rest, sum) =>
         && w == was && op != Unknown && op != Decrease && host == HostLimit(db, lt) > 0
         && rest <= others && sum + Sum(db.limits, rest, lt) == Sum(db.limits, others, lt)
       case Decided(value) =>
         var reply := PutLimit(db, true, c, lt, op, v); reply.Stored? && reply.value == value)
    case PutHost(lt, op, v) =>
      var was := HostLimit(db, lt);
      var all := db.containers.Keys;
      (match f.at
       case Fresh => true
       case KnowsLimit(w) => w == was && op != Unknown && op != Increase
       case KnowsHost(_, _) => false
       case Summing(w, _, rest, sum) =>
         && w == was && op != Unknown && op != Increase
         && rest <= all && sum + Sum(db.limits, rest, lt) == Sum(db.limits, all, lt)
       case Decided(value) =>
         var reply := PutHostLimit(db, true, lt, op, v); reply.Stored? && reply.value == value)
    case _ => false
  }

  function Outcome(reply: Reply): Option<int>
  {
    if reply.Stored? then Some(reply.value) else None
  }

  /** What the request stores if it is served at once. */
  ghost function ServedValue(db: Db, r: Request): Option<int>
  {
    match r
    case Put(c, lt, op, v) => Outcome(PutLimit(db, true, c, lt, op, v))
    case PutHost(lt, op, v) => Outcome(PutHostLimit(db, true, lt, op, v))
    case _ => None
  }

  predicate Addable(f: Handler, next: ContainerId)
  {
    !f.at.Decided? && (f.at.Summing? && f.at.rest != {} ==> next in f.at.rest)
  }

  /** A call reads what is so, and the last one decides as the whole request would. */
  lemma CallKeepsCurrent(db: Db, f: Handler, next: ContainerId)
    requires Current(db, f) && Addable(f, next)
    ensures match NextCall(db, f, next)
            case Some(at) => Current(db, f.(at := at))
            case None => ServedValue(db, f.r) == None
  {
    if f.at.Summing? && f.at.rest != {} {
      SumTake(db.limits, f.at.rest, f.r.lt, next);
    }
    hide Sum;
  }

  /** Nothing that handlers of lt read differs. */
  ghost predicate SameReads(db: Db, db': Db, lt: LimitType)
  {
    && db'.containers.Keys == db.containers.Keys && HostLimit(db', lt) == HostLimit(db, lt)
    && Val(db'.scopeAccum, (Host, lt)) == Val(db.scopeAccum, (Host, lt))
    && forall c :: LimitOf(db', c, lt) == LimitOf(db, c, lt)
  }

  lemma SameSums(db: Db, db': Db, lt: LimitType, cs: set<ContainerId>)
    requires SameReads(db, db', lt) && cs <= db.containers.Keys
    ensures Sum(db'.limits, cs, lt) == Sum(db.limits, cs, lt)
  {
    assert forall c | c in cs :: LimitOf(db', c, lt) == LimitOf(db, c, lt);
    SumAgree(db.limits, db'.limits, cs, lt);
  }

  lemma StaysCurrent(db: Db, db': Db, f: Handler)
    requires Current(db, f) && (f.at.Fresh? || SameReads(db, db', f.r.lt))
    ensures Current(db', f)
  {
    if !f.at.Fresh? {
      SameSums(db, db', f.r.lt, db.containers.Keys);
      if f.r.Put? {
        SameSums(db, db', f.r.lt, db.containers.Keys - {f.r.c});
      }
      if f.at.Summing? {
        SameSums(db, db', f.r.lt, f.at.rest);
      }
    }
    hide Sum;
  }

  ghost predicate AllCurrent(st: State)
  {
    forall h | h in st.handlers :: Current(st.db, st.handlers[h])
  }

  /** The step changes nothing that another handler has begun to read. */
  ghost predicate Undisturbing(st: State, step: Step)
    requires Enabled(st, step)
  {
    forall h | h in st.handlers && !(step.Write? && step.h == h) ::
      HasHandler(st.handlers[h].r) && !st.handlers[h].at.Fresh? ==>
        SameReads(st.db, Apply(st, step).db, st.handlers[h].r.lt)
  }

  lemma StepKeepsCurrent(st: State, step: Step)
    requires AllCurrent(st) && Enabled(st, step) && Undisturbing(st, step)
    ensures AllCurrent(Apply(st, step))
  {
    var st' := Apply(st, step);
    forall h | h in st'.handlers ensures Current(st'.db, st'.handlers[h]) {
      if step.Arrive? && step.h == h {
      } else if step.Call? && step.h == h {
        CallKeepsCurrent(st.db, st.handlers[h], step.next);
      } else {
        StaysCurrent(st.db, st'.db, st.handlers[h]);
      }
    }
    hide Current, Serve, SameReads;
  }

  /** The request, if any, that takes effect with a step: at its write, or when it is refused. */
  function Served(st: State, step: Step): seq<Request>
    requires Enabled(st, step)
  {
    match step
    case Arrive(_, _) => []
    case Call(h, next) => if NextCall(st.db, st.handlers[h], next) == None then [st.handlers[h].r] else []
    case Write(h) => [st.handlers[h].r]
    case Store(r) => [r]
  }

  ghost function ServedAlong(st: State, steps: seq<Step>): seq<Request>
    requires Runs(st, steps)
    decreases |steps|
  {
    if steps == [] then [] else Served(st, steps[0]) + ServedAlong(Apply(st, steps[0]), steps[1..])
  }

  ghost predicate UndisturbedAlong(st: State, steps: seq<Step>)
    requires Runs(st, steps)
    decreases |steps|
  {
    steps == [] || (Undisturbing(st, steps[0]) && UndisturbedAlong(Apply(st, steps[0]), steps[1..]))
  }

  lemma StepServes(st: State, step: Step)
    requires AllCurrent(st) && Enabled(st, step)
    ensures var rs := Served(st, step);
            if rs == [] then Apply(st, step).db == st.db
            else |rs| == 1 && WellFormed(rs[0]) && Apply(st, step).db == Serve(st.db, rs[0])
  {
    match step
    case Call(h, next) => CallKeepsCurrent(st.db, st.handlers[h], next);
    case _ =>
    hide SetLimit, SetScopeLimit, PutLimit, PutHostLimit, PutCall, HostCall;
  }

  /** As long as nobody changes what a handler has begun to read, interleaving makes no difference: the run does to
      the limits what serving the same requests one at a time does, in the order in which they take effect. */
  lemma {:induction false} UndisturbedIsSerial(st: State, steps: seq<Step>)
    requires AllCurrent(st) && Runs(st, steps) && UndisturbedAlong(st, steps)
    ensures After(st, steps).db == ServeAll(st.db, ServedAlong(st, steps))
    ensures ConsistentAlong(st, steps) <==> ConsistentRun(st.db, ServedAlong(st, steps))
    ensures forall i | 0 <= i < |ServedAlong(st, steps)| :: WellFormed(ServedAlong(st, steps)[i])
    decreases |steps|
  {
    if steps != [] {
      hide AllCurrent, Enabled, Apply, Undisturbing, Served, Consistent, Serve, WellFormed;
      var next := Apply(st, steps[0]);
      StepServes(st, steps[0]);
      StepKeepsCurrent(st, steps[0]);
      UndisturbedIsSerial(next, steps[1..]);
      var rs, rest := Served(st, steps[0]), ServedAlong(next, steps[1..]);
      ServedFirst(st.db, rs, rest);
      ConsistentFirst(next, steps[1..]);
    }
  }

  lemma ServedFirst(db: Db, rs: seq<Request>, rest: seq<Request>)
    requires |rs| <= 1
    ensures ServeAll(db, rs + rest) == ServeAll(if rs == [] then db else Serve(db, rs[0]), rest)
    ensures ConsistentRun(db, rs + rest) <==>
              if rs == [] then ConsistentRun(db, rest) else Consistent(db) && ConsistentRun(Serve(db, rs[0]), rest)
  {
    if rs == [] {
      assert rs + rest == rest;
    } else {
      assert (rs + rest)[0] == rs[0] && (rs + rest)[1..] == rest;
    }
  }

  lemma ConsistentFirst(st: State, steps: seq<Step>)
    requires Runs(st, steps)
    ensures ConsistentAlong(st, steps) ==> Consistent(st.db)
  {
  }

  /** So ordinary requests whose reads and writes nobody disturbs keep the limits consistent throughout. */
  lemma UndisturbedKeepsConsistent(st: State, steps: seq<Step>)
    requires AllCurrent(st) && Runs(st, steps) && UndisturbedAlong(st, steps)
    requires Consistent(st.db) && NonNegativeLimits(st.db) && GentleRun(st.db, ServedAlong(st, steps))
    ensures ConsistentAlong(st, steps)
  {
    UndisturbedIsSerial(st, steps);
    RunKeepsConsistent(st.db, ServedAlong(st, steps));
  }

  // ----- A handler alone, and two at once -----

  lemma RunsCons(st: State, step: Step, rest: seq<Step>)
    requires Enabled(st, step) && Runs(Apply(st, step), rest)
    ensures Runs(st, [step] + rest) && After(st, [step] + rest) == After(Apply(st, step), rest)
  {
    assert ([step] + rest)[1..] == rest;
  }

  lemma {:induction false} RunsConcat(st: State, front: seq<Step>, rest: seq<Step>)
    requires Runs(st, front) && Runs(After(st, front), rest)
    ensures Runs(st, front + rest) && After(st, front + rest) == After(After(st, front), rest)
    decreases |front|
  {
    if front == [] {
      assert front + rest == rest;
    } else {
      RunsConcat(Apply(st, front[0]), front[1..], rest);
      assert front + rest == [front[0]] + (front[1..] + rest);
      RunsCons(st, front[0], front[1..] + rest);
      hide Apply, Enabled;
    }
  }

  function Rank(at: Progress): nat
  {
    match at
    case Fresh => 4
    case KnowsLimit(_) => 3
    case KnowsHost(_, _) => 2
    case Summing(_, _, _, _) => 1
    case Decided(_) => 0
  }

  function Unread(at: Progress): set<ContainerId>
  {
    if at.Summing? then at.rest else {}
  }

  /** The handlers once h has read all it needs, alone, and has decided or was refused. */
  ghost function AfterReading(st: State, h: nat): map<nat, Handler>
    requires h in st.handlers
  {
    var r := st.handlers[h].r;
    match ServedValue(st.db, r)
    case None => st.handlers - {h}
    case Some(value) => st.handlers[h := Handler(r, Decided(value))]
  }

  lemma OneCall(st: State, h: nat) returns (next: ContainerId)
    requires h in st.handlers && Current(st.db, st.handlers[h]) && !st.handlers[h].at.Decided?
    ensures var f := st.handlers[h];
            && Enabled(st, Call(h, next)) && Apply(st, Call(h, next)).db == st.db
            && (match NextCall(st.db, f, next)
                case None => ServedValue(st.db, f.r) == None && Apply(st, Call(h, next)).handlers == st.handlers - {h}
                case Some(at) =>
                  && Apply(st, Call(h, next)).handlers == st.handlers[h := f.(at := at)] && Current(st.db, f.(at := at))
                  && (Rank(at) < Rank(f.at) || (Rank(at) == Rank(f.at) && Unread(at) < Unread(f.at))))
  {
    var f := st.handlers[h];
    if f.at.Summing? && f.at.rest != {} {
      next :| next in f.at.rest;
    } else {
      next := 0;
    }
    CallKeepsCurrent(st.db, f, next);
    hide PutLimit, PutHostLimit, Sum;
  }

  /** With nobody in between a handler comes to its decision, which is that of the request served at once. */
  lemma {:induction false} ReadsAlone(st: State, h: nat) returns (steps: seq<Step>)
    requires h in st.handlers && Current(st.db, st.handlers[h])
    ensures Runs(st, steps) && forall i | 0 <= i < |steps| :: steps[i].Call? && steps[i].h == h
    ensures After(st, steps) == State(st.db, AfterReading(st, h))
    decreases Rank(st.handlers[h].at), Unread(st.handlers[h].at)
  {
    var f := st.handlers[h];
    if f.at.Decided? {
      steps := [];
      assert st.handlers == st.handlers[h := Handler(f.r, Decided(f.at.value))];
    } else {
      var next := OneCall(st, h);
      var st1 := Apply(st, Call(h, next));
      hide Apply, Enabled, Current, NextCall, ServedValue;
      match NextCall(st.db, f, next)
      case None =>
        steps := [Call(h, next)];
        RunsCons(st, Call(h, next), []);
        assert [Call(h, next)] + [] == [Call(h, next)];
      case Some(at) =>
        var rest := ReadsAlone(st1, h);
        RunsCons(st, Call(h, next), rest);
        assert st1.handlers - {h} == st.handlers - {h};
        steps := [Call(h, next)] + rest;
    }
  }

  const FIRST := Put(0, Cpu, Set, 15)
  const SECOND := Put(1, Cpu, Set, 15)

  /** Two limits of 5 under a host limit of 20. */
  lemma RoomForOne()
    ensures var db := TwoUnder(20);
            && Consistent(db) && NonNegativeLimits(db) && Gentle(db, FIRST) && Gentle(db, SECOND)
            && Consistent(Serve(db, FIRST)) && Consistent(Serve(db, SECOND))
            && ServedValue(db, FIRST) == Some(15) && ServedValue(db, SECOND) == Some(15)
            && !Consistent(SetLimit(SetLimit(db, 0, Cpu, 15), 1, Cpu, 15))
  {
    var db := TwoUnder(20);
    TwoPromised(20);
    OneOther(db, 1, 0);
    StoredKeepsIff(db, 0, Cpu, 15);
    StoredKeepsIff(db, 1, Cpu, 15);
    var db1 := SetLimit(db, 0, Cpu, 15);
    OneOther(db1, 1, 0);
    StoredKeepsIff(db1, 1, Cpu, 15);
    hide Consistent;
  }

  /** Each request alone keeps the limits consistent. With both handlers reading before either writes, both limits
      are stored in full: 30 promised under 20. */
  lemma RacingSetsBreak() returns (calls: seq<Step>, more: seq<Step>)
    ensures forall i | 0 <= i < |calls| :: calls[i].Call? && calls[i].h == 0
    ensures forall i | 0 <= i < |more| :: more[i].Call? && more[i].h == 1
    ensures var st := State(TwoUnder(20), map[]);
            var steps := [Arrive(0, FIRST), Arrive(1, SECOND)] + calls + more + [Write(0), Write(1)];
            && Consistent(st.db) && Gentle(st.db, FIRST) && Gentle(st.db, SECOND)
            && Consistent(Serve(st.db, FIRST)) && Consistent(Serve(st.db, SECOND))
            && Runs(st, steps) && !Consistent(After(st, steps).db)
  {
    var db := TwoUnder(20);
    RoomForOne();
    var st, st2 := State(db, map[]), State(db, map[0 := Handler(FIRST, Fresh), 1 := Handler(SECOND, Fresh)]);
    BothArrive(db);
    hide Consistent, ServedValue, Gentle, Serve, TwoUnder;
    calls := ReadsAlone(st2, 0);
    var st3 := State(db, map[0 := Handler(FIRST, Decided(15)), 1 := Handler(SECOND, Fresh)]);
    assert AfterReading(st2, 0) == st3.handlers;
    more := ReadsAlone(st3, 1);
    var st4 := State(db, map[0 := Handler(FIRST, Decided(15)), 1 := Handler(SECOND, Decided(15))]);
    assert AfterReading(st3, 1) == st4.handlers;
    BothWrite(db);
    hide Apply, Enabled, AfterReading, Current;
    var arrivals := [Arrive(0, FIRST), Arrive(1, SECOND)];
    RunsConcat(st, arrivals, calls);
    RunsConcat(st, arrivals + calls, more);
    RunsConcat(st, arrivals + calls + more, [Write(0), Write(1)]);
  }

  lemma BothArrive(db: Db)
    requires 0 in db.containers && 1 in db.containers
    ensures var st, steps := State(db, map[]), [Arrive(0, FIRST), Arrive(1, SECOND)];
            && Runs(st, steps)
            && After(st, steps) == State(db, map[0 := Handler(FIRST, Fresh), 1 := Handler(SECOND, Fresh)])
  {
    var st := State(db, map[]);
    var st1 := Apply(st, Arrive(0, FIRST));
    var st2 := Apply(st1, Arrive(1, SECOND));
    assert st1.handlers == map[0 := Handler(FIRST, Fresh)];
    assert st2.handlers == map[0 := Handler(FIRST, Fresh), 1 := Handler(SECOND, Fresh)];
    RunsCons(st1, Arrive(1, SECOND), []);
    assert [Arrive(1, SECOND)] + [] == [Arrive(1, SECOND)];
    RunsCons(st, Arrive(0, FIRST), [Arrive(1, SECOND)]);
    assert [Arrive(0, FIRST)] + [Arrive(1, SECOND)] == [Arrive(0, FIRST), Arrive(1, SECOND)];
  }

  lemma BothWrite(db: Db)
    ensures var st := State(db, map[0 := Handler(FIRST, Decided(15)), 1 := Handler(SECOND, Decided(15))]);
            && Runs(st, [Write(0), Write(1)])
            && After(st, [Write(0), Write(1)]).db == SetLimit(SetLimit(db, 0, Cpu, 15), 1, Cpu, 15)
  {
    var st := State(db, map[0 := Handler(FIRST, Decided(15)), 1 := Handler(SECOND, Decided(15))]);
    var st1 := Apply(st, Write(0));
    assert st1.handlers == map[1 := Handler(SECOND, Decided(15))];
    var st2 := Apply(st1, Write(1));
    RunsCons(st1, Write(1), []);
    assert [Write(1)] + [] == [Write(1)];
    RunsCons(st, Write(0), [Write(1)]);
    assert [Write(0)] + [Write(1)] == [Write(0), Write(1)];
  }
}
