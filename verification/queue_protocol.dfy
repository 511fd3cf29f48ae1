/**
 The inference queue as a protocol between request handlers, the one processor goroutine and the
 operations that cancel. One step is one critical section, one atomic store or one channel operation.
 */
module QueueProtocol {
  import opened Model
  import opened QueueOrder
  import opened QueueState

  /** Where the handler of a request stands, from its append on. */
  datatype Waiter =
    | Appended            // appended, wake signal not yet offered
    | Waiting             // in the final select
    | GaveUp              // timeout or disconnect chosen, cancelled flag stored
    | CtxCancelled        // own context cancelled too
    | Left                // entry removed, handler returned without a result
    | Received(outcome: Outcome)

  datatype Proc =
    | Idle                // in the outer select
    | Draining            // about to pop
    | Popped(id: Id)      // popped, not yet the active one
    | Running(id: Id)     // active, request in flight
    | Replied(id: Id)     // result sent, still the active one
    | Halted

  datatype State = State(
    sh: Shared,
    waiters: map<Id, Waiter>,
    proc: Proc,
    tickets: multiset<ContainerId>,  // handlers past the duplicate check, not yet appended
    maxEver: int)               // largest queue bound configured so far

  datatype Step =
    | CheckDuplicate(c: ContainerId)
    | AdmitRequest(c: ContainerId)
    | Signal(id: Id)
    | Receive(id: Id)
    | GiveUp(id: Id)
    | CancelOwn(id: Id)
    | Leave(id: Id)
    | SetBidOf(c: ContainerId, bid: int)
    | SetDefaultBid(bid: int)
    | SetMaxSize(n: int)
    | CancelOne(c: ContainerId)
    | CancelAllPending(c: ContainerId)
    | Remove(c: ContainerId)
    | CloseDone
    | DrainStop
    | TakeWake
    | Halt
    | PopNext
    | Activate
    | SendReply
    | Deactivate

  function Start(maxSize: int, defaultBid: int): State
  {
    var sh := Init(maxSize, defaultBid);
    State(sh, map[], Idle, multiset{}, sh.maxSize)
  }

  predicate Holds(p: Proc, i: Id)
  {
    (p.Popped? || p.Running? || p.Replied?) && p.id == i
  }

  predicate InDrainLoop(p: Proc)
  {
    !p.Idle? && !p.Halted?
  }

  predicate Abandoned(w: Waiter)
  {
    w.GaveUp? || w.CtxCancelled? || w.Left?
  }

  // ----- The invariant -----

  ghost predicate TableInv(st: State)
  {
    && (forall i: Id :: i in st.sh.table <==> i < st.sh.next)
    && st.waiters.Keys == st.sh.table.Keys
  }

  ghost predicate ProcInv(st: State)
  {
    && ((st.proc.Popped? || st.proc.Running? || st.proc.Replied?) ==> st.proc.id in st.sh.table)
    && st.sh.active == (if st.proc.Running? || st.proc.Replied? then Some(st.proc.id) else None)
    && (st.proc.Halted? ==> st.sh.done)
  }

  ghost predicate EntryInv(st: State, i: Id)
    requires TableInv(st) && i in st.sh.table
  {
    var e, w := st.sh.table[i], st.waiters[i];
    && |e.sent| <= 1
    && (i in st.sh.queue ==>
          !Holds(st.proc, i) && e.sent == [] && !w.Left? && (e.cancelled <==> Abandoned(w)))
    && (Holds(st.proc, i) ==> (e.sent == [] <==> !st.proc.Replied?))
    && (i !in st.sh.queue && !Holds(st.proc, i) ==> e.sent != [] || Abandoned(w))
    && (w.Received? ==> e.sent == [w.outcome])
    && (Abandoned(w) ==> e.cancelled)
  }

  /** A pending request is never left unannounced. */
  ghost predicate WakeInv(st: State)
  {
    !st.sh.done && st.sh.queue != [] ==>
      || st.sh.wake
      || InDrainLoop(st.proc)
      || exists i :: i in st.waiters && st.waiters[i] == Appended
  }

  ghost predicate SizeInv(st: State)
  {
    |st.sh.queue| <= st.maxEver && st.sh.maxSize <= st.maxEver && 1 <= st.maxEver
  }

  ghost predicate Inv(st: State)
  {
    && TableInv(st)
    && Ordered(st.sh)
    && ProcInv(st)
    && (forall i | i in st.sh.table :: EntryInv(st, i))
    && WakeInv(st)
    && SizeInv(st)
  }

  // ----- Steps -----

  ghost predicate Enabled(st: State, step: Step)
    requires Fits(st.sh)
  {
    match step
    case CheckDuplicate(c) => !HasRequest(st.sh, c)
    case AdmitRequest(c) => c in st.tickets
    case Signal(i) => AtPoint(st, i, Appended)
    case Receive(i) => AtPoint(st, i, Waiting) && st.sh.table[i].sent != []
    case GiveUp(i) => AtPoint(st, i, Waiting)
    case CancelOwn(i) => AtPoint(st, i, GaveUp)
    case Leave(i) => AtPoint(st, i, CtxCancelled)
    case SetBidOf(_, _) => true
    case SetDefaultBid(_) => true
    case SetMaxSize(_) => true
    case CancelOne(_) => true
    case CancelAllPending(_) => true
    case Remove(_) => true
    case CloseDone => !st.sh.done
    case DrainStop => st.sh.done
    case TakeWake => st.proc.Idle? && st.sh.wake
    case Halt => st.proc.Idle? && st.sh.done
    case PopNext => st.proc.Draining?
    case Activate => st.proc.Popped?
    case SendReply => st.proc.Running? && st.proc.id in st.sh.table
    case Deactivate => st.proc.Replied?
  }

  ghost predicate AtPoint(st: State, i: Id, w: Waiter)
  {
    i in st.sh.table && i in st.waiters && st.waiters[i] == w
  }

  ghost function Apply(st: State, step: Step): State
    requires Fits(st.sh) && Enabled(st, step)
  {
    match step
    case CheckDuplicate(c) => st.(tickets := st.tickets + multiset{c})
    case AdmitRequest(c) =>
      var st' := st.(tickets := st.tickets - multiset{c});
      if Full(st.sh) then st'
      else st'.(sh := Admit(st.sh, c), waiters := st.waiters[st.sh.next := Appended])
    case Signal(i) => st.(sh := st.sh.(wake := true), waiters := st.waiters[i := Waiting])
    case Receive(i) => st.(waiters := st.waiters[i := Received(st.sh.table[i].sent[0])])
    case GiveUp(i) => st.(sh := MarkCancelled(st.sh, i), waiters := st.waiters[i := GaveUp])
    case CancelOwn(i) =>
      st.(sh := st.sh.(table := CancelCtx(st.sh.table, i)), waiters := st.waiters[i := CtxCancelled])
    case Leave(i) => st.(sh := RemoveEntry(st.sh, i), waiters := st.waiters[i := Left])
    case SetBidOf(c, b) => st.(sh := SetBid(st.sh, c, b))
    case SetDefaultBid(b) => st.(sh := st.sh.(defaultBid := b))
    case SetMaxSize(n) =>
      st.(sh := st.sh.(maxSize := n), maxEver := if n > st.maxEver then n else st.maxEver)
    case CancelOne(c) => st.(sh := CancelEntry(st.sh, c))
    case CancelAllPending(c) => st.(sh := CancelContainer(st.sh, c, ContainerFrozen))
    case Remove(c) => st.(sh := RemoveContainer(st.sh, c))
    case CloseDone => st.(sh := st.sh.(done := true))
    case DrainStop => st.(sh := DrainOnStop(st.sh))
    case TakeWake => st.(sh := st.sh.(wake := false), proc := Draining)
    case Halt => st.(proc := Halted)
    case PopNext =>
      var (next, sh') := Pop(st.sh);
      st.(sh := sh', proc := if next.Some? then Popped(next.value) else Idle)
    case Activate => st.(sh := st.sh.(active := Some(st.proc.id)), proc := Running(st.proc.id))
    case SendReply => st.(sh := Send(st.sh, st.proc.id, Reply), proc := Replied(st.proc.id))
    case Deactivate => st.(sh := st.sh.(active := None), proc := Draining)
  }

  // ----- Every step keeps the invariant -----

  lemma AdmitEntryInv(st: State, e: Entry, q: seq<Id>, i: Id)
    requires TableInv(st) && e.sent == [] && !e.cancelled
    requires forall x :: x in q <==> x in st.sh.queue || x == st.sh.next
    requires i in st.sh.table ==> EntryInv(st, i)
    requires i == st.sh.next ==> !Holds(st.proc, i)
    requires i in st.sh.table || i == st.sh.next
    ensures var st' := Admitted(st, e, q); TableInv(st') && EntryInv(st', i)
  {
  }

  /** The state after an append that leaves the queue q. */
  ghost function Admitted(st: State, e: Entry, q: seq<Id>): State
  {
    st.(sh := st.sh.(table := st.sh.table[st.sh.next := e], queue := q, next := st.sh.next + 1),
        waiters := st.waiters[st.sh.next := Appended])
  }

  lemma AdmittedInv(st: State, e: Entry, q: seq<Id>)
    requires Inv(st) && e.sent == [] && !e.cancelled && |q| == |st.sh.queue| + 1 <= st.sh.maxSize
    requires forall x :: x in q <==> x in st.sh.queue || x == st.sh.next
    requires var t := st.sh.table[st.sh.next := e]; InTable(q, t) && Distinct(q) && Sorted(q, t)
    ensures Inv(Admitted(st, e, q))
  {
    var st' := Admitted(st, e, q);
    forall i | i in st'.sh.table ensures TableInv(st') && EntryInv(st', i) {
      if i in st.sh.table {
        assert EntryInv(st, i);
      }
      AdmitEntryInv(st, e, q, i);
    }
    assert st'.waiters[st.sh.next] == Appended;
    hide EntryInv;
  }

  lemma SortedLonger(sh: Shared, e: Entry)
    requires Ordered(sh) && sh.next !in sh.table
    ensures var t, long := sh.table[sh.next := e], sh.queue + [sh.next];
            && InTable(long, t) && Distinct(Sort(long, t)) && Sorted(Sort(long, t), t)
            && (forall x :: x in Sort(long, t) <==> x in sh.queue || x == sh.next)
  {
    var t, long := sh.table[sh.next := e], sh.queue + [sh.next];
    SortFacts(long, t);
    hide Sort, Sorted;
  }

  lemma TicketsInv(st: State, tickets: multiset<ContainerId>)
    requires Inv(st)
    ensures Inv(st.(tickets := tickets))
  {
    var st' := st.(tickets := tickets);
    forall i | i in st'.sh.table ensures EntryInv(st', i) {
      assert EntryInv(st, i);
    }
  }

  /** An admission, seen as an append to the queue of a state with one ticket less. */
  lemma AdmitIsAppend(st: State, c: ContainerId)
    requires Fits(st.sh) && c in st.tickets && Ordered(st.sh) && st.sh.next !in st.sh.table
    ensures var rest, e := st.(tickets := st.tickets - multiset{c}), Entry(c, StandingBid(st.sh, c), false, false, []);
            var t := st.sh.table[st.sh.next := e];
            && InTable(st.sh.queue + [st.sh.next], t)
            && Apply(st, AdmitRequest(c)) ==
               if Full(st.sh) then rest else Admitted(rest, e, Sort(st.sh.queue + [st.sh.next], t))
  {
    hide Sort, StandingBid;
  }

  lemma AppendInv(st: State, e: Entry)
    requires Inv(st) && e.sent == [] && !e.cancelled && !Full(st.sh)
    ensures var t := st.sh.table[st.sh.next := e];
            InTable(st.sh.queue + [st.sh.next], t) && Inv(Admitted(st, e, Sort(st.sh.queue + [st.sh.next], t)))
  {
    SortedLonger(st.sh, e);
    hide Sort, Sorted, Distinct, EntryInv, WakeInv, ProcInv;
    AdmittedInv(st, e, Sort(st.sh.queue + [st.sh.next], st.sh.table[st.sh.next := e]));
    hide Inv, Admitted;
  }

  lemma AdmitInv(st: State, c: ContainerId)
    requires Inv(st) && c in st.tickets
    ensures Inv(Apply(st, AdmitRequest(c)))
  {
    assert Fits(st.sh) && Ordered(st.sh) && st.sh.next !in st.sh.table;
    hide Inv, Ordered, Fits;
    AdmitIsAppend(st, c);
    TicketsInv(st, st.tickets - multiset{c});
    if !Full(st.sh) {
      AppendInv(st.(tickets := st.tickets - multiset{c}), Entry(c, StandingBid(st.sh, c), false, false, []));
    }
    hide Apply, Sort, Admitted;
  }

  lemma WaiterEntryInv(st: State, step: Step, i: Id)
    requires Fits(st.sh) && TableInv(st) && Enabled(st, step) && i in st.sh.table && EntryInv(st, i)
    requires step.Signal? || step.Receive? || step.GiveUp? || step.CancelOwn?
    ensures TableInv(Apply(st, step)) && EntryInv(Apply(st, step), i)
  {
  }

  /** st' differs from st in flags and results of requests, in places of handlers, and perhaps in a new wake token. */
  ghost predicate SameQueue(st: State, st': State)
  {
    && st'.sh == st.sh.(table := st'.sh.table, wake := st'.sh.wake)
    && st'.proc == st.proc && st'.maxEver == st.maxEver
    && st'.sh.table.Keys == st.sh.table.Keys
    && (forall i | i in st.sh.table :: st'.sh.table[i].bid == st.sh.table[i].bid)
    && (st.sh.wake ==> st'.sh.wake)
    && (st'.sh.wake ||
          forall k | k in st.waiters && st.waiters[k] == Appended :: k in st'.waiters && st'.waiters[k] == Appended)
  }

  lemma WaiterKeepsQueue(st: State, step: Step)
    requires Fits(st.sh) && TableInv(st) && Enabled(st, step)
    requires step.Signal? || step.Receive? || step.GiveUp? || step.CancelOwn?
    ensures TableInv(Apply(st, step)) && SameQueue(st, Apply(st, step))
  {
  }

  lemma SameQueueInv(st: State, st': State)
    requires Inv(st) && SameQueue(st, st') && TableInv(st')
    requires forall i | i in st'.sh.table :: EntryInv(st', i)
    ensures Inv(st')
  {
    hide EntryInv;
  }

  lemma WaiterInv(st: State, step: Step)
    requires Inv(st) && Enabled(st, step)
    requires step.Signal? || step.Receive? || step.GiveUp? || step.CancelOwn?
    ensures Inv(Apply(st, step))
  {
    var st' := Apply(st, step);
    WaiterKeepsQueue(st, step);
    forall i | i in st'.sh.table ensures EntryInv(st', i) {
      assert EntryInv(st, i);
      WaiterEntryInv(st, step, i);
    }
    SameQueueInv(st, st');
    hide Inv, Apply, Enabled, SameQueue;
  }

  lemma LeaveInv(st: State, i: Id)
    requires Inv(st) && Enabled(st, Leave(i))
    ensures Inv(Apply(st, Leave(i)))
  {
    var st' := Apply(st, Leave(i));
    var k := IndexOf(st.sh.queue, i, 0);
    if k < |st.sh.queue| {
      DeleteFacts(st.sh.queue, k);
    }
    forall x | x in st'.sh.table ensures EntryInv(st', x) {
      assert EntryInv(st, x);
    }
    if !st'.sh.done && st'.sh.queue != [] && !st'.sh.wake && !InDrainLoop(st'.proc) {
      var x :| x in st.waiters && st.waiters[x] == Appended;
      assert st'.waiters[x] == Appended;
    }
  }

  lemma RebidInv(st: State, c: ContainerId, b: int)
    requires Inv(st)
    ensures Inv(Apply(st, SetBidOf(c, b)))
  {
    var t := Rebid(st.sh.table, st.sh.queue, c, b);
    assert InTable(st.sh.queue, t);
    SortFacts(st.sh.queue, t);
    var st' := Apply(st, SetBidOf(c, b));
    forall i | i in st'.sh.table ensures EntryInv(st', i) {
      assert EntryInv(st, i);
      assert t[i] == st.sh.table[i].(bid := t[i].bid);
    }
  }

  lemma CancelOneEntryInv(st: State, x: Id, q: seq<Id>, i: Id)
    requires TableInv(st) && x in st.sh.queue && x in st.sh.table && i in st.sh.table
    requires EntryInv(st, i) && EntryInv(st, x)
    requires !st.sh.table[x].cancelled
    requires forall k :: k in q <==> k in st.sh.queue && k != x
    ensures var st' := st.(sh := st.sh.(table := st.sh.table[x := Finish(st.sh.table[x], CancelledByUser)], queue := q));
            TableInv(st') && EntryInv(st', i)
  {
  }

  /** The state after request x was finished and the queue became q. */
  ghost function CancelledOne(st: State, x: Id, q: seq<Id>): State
    requires x in st.sh.table
  {
    st.(sh := st.sh.(table := st.sh.table[x := Finish(st.sh.table[x], CancelledByUser)], queue := q))
  }

  lemma CancelledOneInv(st: State, x: Id, q: seq<Id>)
    requires Inv(st) && x in st.sh.queue && x in st.sh.table && !st.sh.table[x].cancelled
    requires (forall k :: k in q <==> k in st.sh.queue && k != x) && |q| <= |st.sh.queue|
    requires InTable(q, st.sh.table) && Distinct(q) && Sorted(q, st.sh.table)
    ensures Inv(CancelledOne(st, x, q))
  {
    var st' := CancelledOne(st, x, q);
    forall i | i in st'.sh.table ensures EntryInv(st', i) {
      assert EntryInv(st, i) && EntryInv(st, x);
      CancelOneEntryInv(st, x, q, i);
    }
    hide EntryInv;
  }

  lemma CancelOneIs(st: State, c: ContainerId)
    requires Ordered(st.sh) && Fits(st.sh)
    ensures var q, k := st.sh.queue, FindLive(st.sh.queue, st.sh.table, c, 0);
            if k < |q| then q[k] in st.sh.table && Apply(st, CancelOne(c)) == CancelledOne(st, q[k], Delete(q, k))
            else Apply(st, CancelOne(c)) == st
  {
    hide Sorted, Distinct;
  }

  lemma DeleteOrdered(sh: Shared, k: nat)
    requires Ordered(sh) && k < |sh.queue|
    ensures var q := Delete(sh.queue, k);
            && |q| < |sh.queue| && InTable(q, sh.table) && Distinct(q) && Sorted(q, sh.table)
            && (forall i :: i in q <==> i in sh.queue && i != sh.queue[k])
  {
    DeleteFacts(sh.queue, k);
  }

  lemma CancelOneInv(st: State, c: ContainerId)
    requires Inv(st)
    ensures Inv(Apply(st, CancelOne(c)))
  {
    var q, k := st.sh.queue, FindLive(st.sh.queue, st.sh.table, c, 0);
    hide EntryInv, Sorted, Distinct, Apply, Delete, CancelledOne, WakeInv, SizeInv, ProcInv, TableInv;
    CancelOneIs(st, c);
    if k < |q| {
      DeleteOrdered(st.sh, k);
      CancelledOneInv(st, q[k], Delete(q, k));
    }
  }

  lemma CancelContainerInv(st: State, c: ContainerId, o: Outcome, bids: map<ContainerId, int>)
    requires Inv(st)
    ensures Inv(st.(sh := CancelContainer(st.sh.(bids := bids), c, o)))
  {
    var q, t := st.sh.queue, st.sh.table;
    var t1 := FinishOf(t, q, c, o);
    var q1 := Others(q, t, c);
    OthersOrdered(q, t, c);
    var st1 := st.(sh := st.sh.(bids := bids, table := t1, queue := q1));
    assert Ordered(st1.sh) by {
      assert InTable(q1, t1);
      assert forall i | 0 <= i < |q1| :: t1[q1[i]].bid == t[q1[i]].bid;
    }
    forall i | i in t1 ensures EntryInv(st1, i) {
      assert EntryInv(st, i);
      OthersMember(q, t, c, i);
    }
    CancelActiveInv(st1, c);
  }

  lemma CancelActiveInv(st: State, c: ContainerId)
    requires Inv(st)
    ensures Inv(st.(sh := CancelActive(st.sh, c)))
  {
    var st' := st.(sh := CancelActive(st.sh, c));
    assert InTable(st'.sh.queue, st'.sh.table);
    forall i | i in st'.sh.table ensures EntryInv(st', i) {
      assert EntryInv(st, i);
    }
  }

  lemma DrainStopInv(st: State)
    requires Inv(st) && st.sh.done
    ensures Inv(Apply(st, DrainStop))
  {
    var st' := Apply(st, DrainStop);
    forall i | i in st'.sh.table ensures EntryInv(st', i) {
      assert EntryInv(st, i);
    }
  }

  ghost function AfterPop(st: State, next: Option<Id>, q: seq<Id>): State
  {
    st.(sh := st.sh.(queue := q), proc := if next.Some? then Popped(next.value) else Idle)
  }

  lemma PopEntryInv(st: State, next: Option<Id>, q: seq<Id>, i: Id)
    requires TableInv(st) && st.proc.Draining? && i in st.sh.table && EntryInv(st, i)
    requires i in q ==> i in st.sh.queue && next != Some(i)
    requires i in st.sh.queue ==> i in q || next == Some(i) || st.sh.table[i].cancelled
    requires next == Some(i) ==> i in st.sh.queue
    ensures TableInv(AfterPop(st, next, q)) && EntryInv(AfterPop(st, next, q), i)
  {
  }

  lemma PopInv(st: State)
    requires Inv(st) && st.proc.Draining?
    ensures Inv(Apply(st, PopNext))
  {
    var (next, sh') := Pop(st.sh);
    var q := sh'.queue;
    assert Apply(st, PopNext) == AfterPop(st, next, q);
    PopOrdered(st.sh);
    if next.Some? {
      PopMember(st.sh, next.value);
    }
    forall i | i in st.sh.table ensures EntryInv(AfterPop(st, next, q), i) {
      PopMember(st.sh, i);
      PopEntryInv(st, next, q, i);
    }
  }

  lemma ProcessorInv(st: State, step: Step)
    requires Inv(st) && Enabled(st, step)
    requires step.TakeWake? || step.Halt? || step.Activate? || step.SendReply? || step.Deactivate?
    ensures Inv(Apply(st, step))
  {
    var st' := Apply(st, step);
    forall i | i in st'.sh.table ensures EntryInv(st', i) {
      assert EntryInv(st, i);
    }
  }

  lemma SettingInv(st: State, step: Step)
    requires Inv(st) && Enabled(st, step)
    requires step.CheckDuplicate? || step.SetDefaultBid? || step.SetMaxSize? || step.CloseDone?
    ensures Inv(Apply(st, step))
  {
    var st' := Apply(st, step);
    forall i | i in st'.sh.table ensures EntryInv(st', i) {
      assert EntryInv(st, i);
    }
  }

  lemma StepInv(st: State, step: Step)
    requires Inv(st) && Enabled(st, step)
    ensures Inv(Apply(st, step))
  {
    match step
    case AdmitRequest(c) => AdmitInv(st, c);
    case Signal(_) => WaiterInv(st, step);
    case Receive(_) => WaiterInv(st, step);
    case GiveUp(_) => WaiterInv(st, step);
    case CancelOwn(_) => WaiterInv(st, step);
    case Leave(i) => LeaveInv(st, i);
    case SetBidOf(c, b) => RebidInv(st, c, b);
    case CancelOne(c) => CancelOneInv(st, c);
    case CancelAllPending(c) => CancelContainerInv(st, c, ContainerFrozen, st.sh.bids);
    case Remove(c) => CancelContainerInv(st, c, ContainerRemoved, st.sh.bids - {c});
    case DrainStop => DrainStopInv(st);
    case PopNext => PopInv(st);
    case CheckDuplicate(_) => SettingInv(st, step);
    case SetDefaultBid(_) => SettingInv(st, step);
    case SetMaxSize(_) => SettingInv(st, step);
    case CloseDone => SettingInv(st, step);
    case TakeWake => ProcessorInv(st, step);
    case Halt => ProcessorInv(st, step);
    case Activate => ProcessorInv(st, step);
    case SendReply => ProcessorInv(st, step);
    case Deactivate => ProcessorInv(st, step);
  }

  lemma StartInv(maxSize: int, defaultBid: int)
    ensures Inv(Start(maxSize, defaultBid))
  {
  }
}
