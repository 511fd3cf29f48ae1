/** What holds over every run of the queue protocol. */
module QueueTheorems {
  import opened Model
  import opened QueueOrder
  import opened QueueState
  import opened QueueProtocol

  /** Taking the steps one after another leads from st to st'. */
  ghost predicate Reaches(st: State, steps: seq<Step>, st': State)
    decreases |steps|
  {
    if steps == [] then st' == st
    else Fits(st.sh) && Enabled(st, steps[0]) && Reaches(Apply(st, steps[0]), steps[1..], st')
  }

  lemma {:induction false} RunKeepsInv(st: State, steps: seq<Step>, st': State)
    requires Inv(st) && Reaches(st, steps, st')
    ensures Inv(st')
    decreases |steps|
  {
    if steps != [] {
      StepInv(st, steps[0]);
      RunKeepsInv(Apply(st, steps[0]), steps[1..], st');
    }
  }

  lemma ReachableInv(maxSize: int, defaultBid: int, steps: seq<Step>, st: State)
    requires Reaches(Start(maxSize, defaultBid), steps, st)
    ensures Inv(st)
  {
    StartInv(maxSize, defaultBid);
    RunKeepsInv(Start(maxSize, defaultBid), steps, st);
  }

  // ----- One place, one send -----

  ghost predicate Finished(st: State, i: Id)
  {
    i !in st.sh.queue && !Holds(st.proc, i)
  }

  /** Queued, held or finished, never two of them; one send at most; none only if its waiter gave up. */
  lemma RequestFate(maxSize: int, defaultBid: int, steps: seq<Step>, st: State, i: Id)
    requires Reaches(Start(maxSize, defaultBid), steps, st)
    requires i in st.sh.table
    ensures !(i in st.sh.queue && Holds(st.proc, i))
    ensures Distinct(st.sh.queue)
    ensures |st.sh.table[i].sent| <= 1
    ensures i in st.sh.queue ==> st.sh.table[i].sent == []
    ensures i in st.waiters
    ensures Finished(st, i) && st.sh.table[i].sent == [] ==>
              Abandoned(st.waiters[i]) && st.sh.table[i].cancelled
    ensures st.waiters[i].Received? ==> st.sh.table[i].sent == [st.waiters[i].outcome]
  {
    ReachableInv(maxSize, defaultBid, steps, st);
    assert EntryInv(st, i);
  }

  /** Whoever sends on a result channel finds its one slot empty, so no send under the mutex blocks. */
  lemma SendsNeverBlock(st: State, step: Step, i: Id)
    requires Inv(st) && Enabled(st, step) && i in st.sh.table
    ensures i in Apply(st, step).sh.table
    ensures Apply(st, step).sh.table[i].sent != st.sh.table[i].sent ==>
              && st.sh.table[i].sent == [] && |Apply(st, step).sh.table[i].sent| == 1
              && i !in Apply(st, step).sh.queue
              && (st.sh.table[i].cancelled ==> step.SendReply?)
  {
    StepInv(st, step);
    SentOnlyGrows(st, step, i);
    assert EntryInv(st, i) && EntryInv(Apply(st, step), i);
    hide Inv, Apply, Enabled;
  }

  /** e' is e with more sent; only live pending requests of q and the one being served are sent to,
      only the bids of pending ones change, and a cancelled flag stays set. */
  ghost predicate Grows(q: seq<Id>, i: Id, serving: bool, e: Entry, e': Entry)
  {
    && e.sent <= e'.sent
    && (e'.sent != e.sent ==> serving || (i in q && !e.cancelled))
    && e'.container == e.container
    && (i !in q ==> e'.bid == e.bid)
    && (e.cancelled ==> e'.cancelled)
  }

  lemma CancelOneGrows(s: Shared, c: ContainerId, i: Id)
    requires Fits(s) && i in s.table
    ensures i in CancelEntry(s, c).table
    ensures Grows(s.queue, i, false, s.table[i], CancelEntry(s, c).table[i])
  {
    var k := FindLive(s.queue, s.table, c, 0);
    if k < |s.queue| {
      assert s.queue[k] in s.queue;
    }
  }

  lemma CancelContainerGrows(s: Shared, c: ContainerId, o: Outcome, i: Id)
    requires Fits(s) && i in s.table
    ensures i in CancelContainer(s, c, o).table
    ensures Grows(s.queue, i, false, s.table[i], CancelContainer(s, c, o).table[i])
  {
    var e1 := FinishOf(s.table, s.queue, c, o)[i];
    assert Grows(s.queue, i, false, s.table[i], e1);
    assert CancelContainer(s, c, o).table[i] in {e1, e1.(ctxDone := true)};
  }

  lemma DrainGrows(s: Shared, i: Id)
    requires Fits(s) && i in s.table
    ensures i in DrainOnStop(s).table
    ensures Grows(s.queue, i, false, s.table[i], DrainOnStop(s).table[i])
  {
    var e1 := FinishAll(s.table, s.queue, ShuttingDown)[i];
    assert Grows(s.queue, i, false, s.table[i], e1);
    assert DrainOnStop(s).table[i] in {e1, e1.(ctxDone := true)};
  }

  lemma OperatorGrows(st: State, step: Step, i: Id)
    requires Fits(st.sh) && Enabled(st, step) && i in st.sh.table && st.sh.next !in st.sh.table
    requires step.AdmitRequest? || step.SetBidOf? || step.PopNext? || step.Leave?
    ensures i in Apply(st, step).sh.table
    ensures Grows(st.sh.queue, i, false, st.sh.table[i], Apply(st, step).sh.table[i])
  {
    hide Sort, DropCancelled, IndexOf;
  }

  lemma SingleGrows(st: State, step: Step, i: Id)
    requires Fits(st.sh) && Enabled(st, step) && i in st.sh.table
    requires step.GiveUp? || step.CancelOwn? || step.SendReply?
    ensures i in Apply(st, step).sh.table
    ensures Grows(st.sh.queue, i, step.SendReply? && st.proc.id == i, st.sh.table[i], Apply(st, step).sh.table[i])
  {
  }

  lemma SentOnlyGrows(st: State, step: Step, i: Id)
    requires Fits(st.sh) && Enabled(st, step) && i in st.sh.table && st.sh.next !in st.sh.table
    ensures i in Apply(st, step).sh.table
    ensures Grows(st.sh.queue, i, step.SendReply? && st.proc.id == i, st.sh.table[i], Apply(st, step).sh.table[i])
  {
    hide CancelEntry, CancelContainer, DrainOnStop, Admit, SetBid, Pop, RemoveEntry;
    match step
    case CancelOne(c) => CancelOneGrows(st.sh, c, i);
    case CancelAllPending(c) => CancelContainerGrows(st.sh, c, ContainerFrozen, i);
    case Remove(c) => CancelContainerGrows(st.sh.(bids := st.sh.bids - {c}), c, ContainerRemoved, i);
    case DrainStop => DrainGrows(st.sh, i);
    case AdmitRequest(_) => OperatorGrows(st, step, i);
    case SetBidOf(_, _) => OperatorGrows(st, step, i);
    case PopNext => OperatorGrows(st, step, i);
    case Leave(_) => OperatorGrows(st, step, i);
    case GiveUp(_) => SingleGrows(st, step, i);
    case CancelOwn(_) => SingleGrows(st, step, i);
    case SendReply => SingleGrows(st, step, i);
    case _ =>
  }

  lemma QueueOnlyShrinks(st: State, step: Step, i: Id)
    requires Fits(st.sh) && Ordered(st.sh) && st.sh.next !in st.sh.table
    requires Enabled(st, step) && i in st.sh.table
    requires i in Apply(st, step).sh.queue
    ensures i in st.sh.queue
  {
    var sh := st.sh;
    match step
    case AdmitRequest(c) =>
      if !Full(sh) {
        var t := sh.table[sh.next := Entry(c, StandingBid(sh, c), false, false, [])];
        SortElements(sh.queue + [sh.next], t, i);
      }
    case SetBidOf(c, b) => SortElements(sh.queue, Rebid(sh.table, sh.queue, c, b), i);
    case CancelOne(c) =>
      var k := FindLive(sh.queue, sh.table, c, 0);
      if k < |sh.queue| { DeleteFacts(sh.queue, k); }
    case Leave(x) =>
      var k := IndexOf(sh.queue, x, 0);
      if k < |sh.queue| { DeleteFacts(sh.queue, k); }
    case CancelAllPending(c) => OthersMember(sh.queue, sh.table, c, i);
    case Remove(c) => OthersMember(sh.queue, sh.table, c, i);
    case PopNext => PopMember(sh, i);
    case _ =>
  }

  lemma FinishedStep(st: State, step: Step, i: Id)
    requires Inv(st) && Enabled(st, step) && i in st.sh.table && Finished(st, i)
    ensures i in Apply(st, step).sh.table && Finished(Apply(st, step), i)
    ensures Apply(st, step).sh.table[i].sent == st.sh.table[i].sent
  {
    SentOnlyGrows(st, step, i);
    if i in Apply(st, step).sh.queue {
      QueueOnlyShrinks(st, step, i);
    }
    if step.PopNext? {
      PopMember(st.sh, i);
    }
  }

  /** A finished request is never queued, served or answered again, over every run. */
  lemma {:induction false} FinishedForGood(st: State, steps: seq<Step>, st': State, i: Id)
    requires Inv(st) && Reaches(st, steps, st') && i in st.sh.table && Finished(st, i)
    ensures i in st'.sh.table && Finished(st', i) && st'.sh.table[i].sent == st.sh.table[i].sent
    decreases |steps|
  {
    if steps != [] {
      StepInv(st, steps[0]);
      FinishedStep(st, steps[0], i);
      hide Inv, Finished;
      FinishedForGood(Apply(st, steps[0]), steps[1..], st', i);
    }
  }

  lemma UnqueuedKeepsBid(st: State, step: Step, i: Id)
    requires Inv(st) && Enabled(st, step) && i in st.sh.table && i !in st.sh.queue
    ensures i in Apply(st, step).sh.table && i !in Apply(st, step).sh.queue
    ensures Apply(st, step).sh.table[i].bid == st.sh.table[i].bid
  {
    SentOnlyGrows(st, step, i);
    if i in Apply(st, step).sh.queue {
      QueueOnlyShrinks(st, step, i);
    }
  }

  /** Once popped, a request keeps its bid for good: billing reads the bid it was served at. */
  lemma {:induction false} BilledBidIsFixed(st: State, steps: seq<Step>, st': State, i: Id)
    requires Inv(st) && Reaches(st, steps, st') && i in st.sh.table && i !in st.sh.queue
    ensures i in st'.sh.table && st'.sh.table[i].bid == st.sh.table[i].bid
    decreases |steps|
  {
    if steps != [] {
      StepInv(st, steps[0]);
      UnqueuedKeepsBid(st, steps[0], i);
      BilledBidIsFixed(Apply(st, steps[0]), steps[1..], st', i);
    }
  }

  // ----- Wake-ups and progress -----

  /** Before Stop, an idle processor with no wake token faces an empty queue unless a signal is still due. */
  lemma NoLostWakeUp(maxSize: int, defaultBid: int, steps: seq<Step>, st: State)
    requires Reaches(Start(maxSize, defaultBid), steps, st)
    requires !st.sh.done && st.sh.queue != []
    ensures st.sh.wake || InDrainLoop(st.proc)
            || exists i :: i in st.waiters && st.waiters[i] == Appended
  {
    ReachableInv(maxSize, defaultBid, steps, st);
  }

  /** The steps the queue takes by itself: no new request, no timeout, no operator. */
  predicate Internal(step: Step)
  {
    step.Signal? || step.Receive? || step.CancelOwn? || step.Leave? || step.TakeWake? ||
    step.PopNext? || step.Activate? || step.SendReply? || step.Deactivate?
  }

  function WaiterRank(w: Waiter): nat
  {
    match w
    case Appended => 6
    case Waiting => 3
    case GaveUp => 2
    case CtxCancelled => 1
    case Left => 0
    case Received(_) => 0
  }

  function ProcRank(p: Proc): nat
  {
    match p
    case Idle => 0
    case Halted => 0
    case Draining => 1
    case Popped(_) => 4
    case Running(_) => 3
    case Replied(_) => 2
  }

  ghost function RankSum(w: map<Id, Waiter>, n: nat): nat
    requires forall i: Id | i < n :: i in w
  {
    if n == 0 then 0 else RankSum(w, n - 1) + WaiterRank(w[n-1])
  }

  ghost function Work(st: State): nat
    requires TableInv(st)
  {
    RankSum(st.waiters, st.sh.next) + 5 * |st.sh.queue| + ProcRank(st.proc) + (if st.sh.wake then 2 else 0)
  }

  lemma {:induction false} RankSumUpdate(w: map<Id, Waiter>, n: nat, i: Id, x: Waiter)
    requires forall k: Id | k < n :: k in w
    ensures RankSum(w[i := x], n) ==
            RankSum(w, n) + if i < n then WaiterRank(x) - WaiterRank(w[i]) else 0
  {
    if n > 0 {
      RankSumUpdate(w, n - 1, i, x);
    }
  }

  lemma WaiterStepDoesWork(st: State, step: Step)
    requires TableInv(st) && Fits(st.sh) && Enabled(st, step)
    requires step.Signal? || step.Receive? || step.CancelOwn? || step.Leave?
    ensures TableInv(Apply(st, step)) && Work(Apply(st, step)) < Work(st)
  {
    var i := step.id;
    var st' := Apply(st, step);
    RankSumUpdate(st.waiters, st.sh.next, i, st'.waiters[i]);
  }

  lemma PopShortens(s: Shared)
    requires Fits(s)
    ensures |Pop(s).1.queue| + (if Pop(s).0.Some? then 1 else 0) <= |s.queue|
    ensures Pop(s).1 == s.(queue := Pop(s).1.queue)
  {
  }

  lemma ShorterQueueLessWork(st: State, next: Option<Id>, q: seq<Id>)
    requires TableInv(st) && st.proc.Draining? && |q| + (if next.Some? then 1 else 0) <= |st.sh.queue|
    ensures TableInv(AfterPop(st, next, q)) && Work(AfterPop(st, next, q)) < Work(st)
  {
  }

  lemma PopDoesWork(st: State)
    requires TableInv(st) && Fits(st.sh) && st.proc.Draining?
    ensures TableInv(Apply(st, PopNext)) && Work(Apply(st, PopNext)) < Work(st)
  {
    PopShortens(st.sh);
    ShorterQueueLessWork(st, Pop(st.sh).0, Pop(st.sh).1.queue);
    assert Apply(st, PopNext) == AfterPop(st, Pop(st.sh).0, Pop(st.sh).1.queue);
  }

  lemma InternalStepDoesWork(st: State, step: Step)
    requires Inv(st) && Enabled(st, step) && Internal(step)
    ensures Inv(Apply(st, step)) && Work(Apply(st, step)) < Work(st)
  {
    StepInv(st, step);
    match step
    case Signal(_) => WaiterStepDoesWork(st, step);
    case Receive(_) => WaiterStepDoesWork(st, step);
    case CancelOwn(_) => WaiterStepDoesWork(st, step);
    case Leave(_) => WaiterStepDoesWork(st, step);
    case PopNext => PopDoesWork(st);
    case TakeWake =>
    case Activate =>
    case SendReply =>
    case Deactivate =>
  }

  /** Reaching a state by the queue's own steps alone. */
  ghost predicate ReachesAlone(st: State, steps: seq<Step>, st': State)
    decreases |steps|
  {
    if steps == [] then st' == st
    else Fits(st.sh) && Enabled(st, steps[0]) && Internal(steps[0]) && ReachesAlone(Apply(st, steps[0]), steps[1..], st')
  }

  /** Left alone, the queue comes to rest after boundedly many steps. */
  lemma {:induction false} ComesToRest(st: State, steps: seq<Step>, st': State)
    requires Inv(st) && ReachesAlone(st, steps, st')
    ensures Inv(st') && |steps| + Work(st') <= Work(st)
    decreases |steps|
  {
    if steps != [] {
      InternalStepDoesWork(st, steps[0]);
      ComesToRest(Apply(st, steps[0]), steps[1..], st');
    }
  }

  ghost predicate AtRest(st: State)
    requires Fits(st.sh)
  {
    forall step: Step | Internal(step) :: !Enabled(st, step)
  }

  lemma RestingProcessor(st: State)
    requires Fits(st.sh) && AtRest(st) && ProcInv(st)
    ensures !InDrainLoop(st.proc) && (st.proc == Idle ==> !st.sh.wake)
  {
    assert !Enabled(st, PopNext) && !Enabled(st, Activate);
    assert !Enabled(st, SendReply) && !Enabled(st, Deactivate) && !Enabled(st, TakeWake);
  }

  lemma RestingHandler(st: State, i: Id)
    requires Fits(st.sh) && AtRest(st) && i in st.sh.table && i in st.waiters
    ensures !st.waiters[i].Appended? && !st.waiters[i].GaveUp? && !st.waiters[i].CtxCancelled?
    ensures st.waiters[i].Waiting? ==> st.sh.table[i].sent == []
  {
    assert !Enabled(st, Signal(i)) && !Enabled(st, Receive(i));
    assert !Enabled(st, CancelOwn(i)) && !Enabled(st, Leave(i));
  }

  /** And at rest, before Stop, the queue is empty and every handler has returned. */
  lemma NobodyStranded(st: State, i: Id)
    requires Inv(st) && AtRest(st) && !st.sh.done
    ensures st.proc == Idle && !st.sh.wake && st.sh.queue == []
    ensures i in st.waiters ==> st.waiters[i].Left? || st.waiters[i].Received?
  {
    RestingProcessor(st);
    if st.sh.queue != [] {
      var k :| k in st.waiters && st.waiters[k] == Appended;
      RestingHandler(st, k);
      assert false;
    }
    if i in st.waiters {
      assert EntryInv(st, i);
      RestingHandler(st, i);
    }
  }

  // ----- Service order -----

  /** In every reachable state a pop serves a live request that no live pending one outbids, and drops
      cancelled requests only. */
  lemma PopServesHighestBid(maxSize: int, defaultBid: int, steps: seq<Step>, st: State, x: Id)
    requires Reaches(Start(maxSize, defaultBid), steps, st)
    requires x in st.sh.queue && x in st.sh.table && !st.sh.table[x].cancelled
    ensures Fits(st.sh) && Pop(st.sh).0.Some?
    ensures var e := Pop(st.sh).0.value;
            && e in st.sh.queue && e in st.sh.table && !st.sh.table[e].cancelled
            && st.sh.table[e].bid >= st.sh.table[x].bid
    ensures x in Pop(st.sh).1.queue || Pop(st.sh).0 == Some(x)
  {
    ReachableInv(maxSize, defaultBid, steps, st);
    PopMember(st.sh, x);
    HeadOfLiveIsHighest(st.sh, x);
    PopMember(st.sh, Pop(st.sh).0.value);
  }

  lemma HeadOfLiveIsHighest(s: Shared, x: Id)
    requires Fits(s) && Ordered(s) && x in s.queue && !s.table[x].cancelled
    ensures Pop(s).0.Some? && Pop(s).0.value in s.table && s.table[Pop(s).0.value].bid >= s.table[x].bid
  {
    var q := s.queue;
    var rest := DropCancelled(q, s.table);
    var d := |q| - |rest|;
    var k :| 0 <= k < |q| && q[k] == x;
    assert d <= k && rest[0] == q[d];
    assert Pop(s).0 == Some(q[d]);
    hide Pop, DropCancelled;
    assert d < k ==> s.table[q[d]].bid >= s.table[q[k]].bid;
    hide Ordered;
  }

  /** Equal bids stand in the order they were admitted. */
  ghost predicate Fifo(q: seq<Id>, t: Table)
    requires InTable(q, t)
  {
    forall i, j | 0 <= i < j < |q| :: t[q[i]].bid == t[q[j]].bid ==> q[i] < q[j]
  }

  /** The step gives no pending live request a different bid. */
  ghost predicate KeepsBids(st: State, step: Step)
    requires InTable(st.sh.queue, st.sh.table)
  {
    step.SetBidOf? ==>
      forall k | 0 <= k < |st.sh.queue| ::
        var e := st.sh.table[st.sh.queue[k]];
        e.container == step.c && !e.cancelled ==> e.bid == step.bid
  }

  lemma {:induction false} InsertFifo(r: seq<Id>, e: Id, t: Table)
    requires InTable(r, t) && e in t && Fifo(r, t)
    requires forall k | 0 <= k < |r| :: r[k] < e
    ensures Fifo(Insert(r, e, t), t)
  {
    if r == [] || t[r[|r|-1]].bid >= t[e].bid {
    } else {
      var front, last := r[..|r|-1], r[|r|-1];
      InsertFifo(front, e, t);
      var ins := Insert(front, e, t);
      forall i | 0 <= i < |ins| && t[ins[i]].bid == t[last].bid ensures ins[i] < last {
        InsertElements(front, e, t, ins[i]);
        assert ins[i] in front;
        var k :| 0 <= k < |front| && front[k] == ins[i];
        assert r[k] == ins[i];
      }
    }
  }

  lemma {:induction false} OthersFifo(q: seq<Id>, t: Table, c: ContainerId)
    requires InTable(q, t) && Fifo(q, t)
    ensures Fifo(Others(q, t, c), t)
  {
    if q != [] {
      var front, last := q[..|q|-1], q[|q|-1];
      OthersFifo(front, t, c);
      var out := Others(front, t, c);
      forall k | 0 <= k < |out| && t[out[k]].bid == t[last].bid ensures out[k] < last {
        OthersMember(front, t, c, out[k]);
        var j :| 0 <= j < |front| && front[j] == out[k];
        assert q[j] == out[k];
      }
    }
  }

  lemma AdmitFifo(st: State, c: ContainerId)
    requires Inv(st) && Fifo(st.sh.queue, st.sh.table) && !Full(st.sh)
    ensures InTable(Admit(st.sh, c).queue, Admit(st.sh, c).table)
    ensures Fifo(Admit(st.sh, c).queue, Admit(st.sh, c).table)
  {
    var sh := st.sh;
    var t := sh.table[sh.next := Entry(c, StandingBid(sh, c), false, false, [])];
    assert (sh.queue + [sh.next])[..|sh.queue|] == sh.queue;
    SortOfSorted(sh.queue, t);
    InsertFifo(sh.queue, sh.next, t);
  }

  lemma PopFifo(s: Shared)
    requires Fits(s) && Fifo(s.queue, s.table)
    ensures InTable(Pop(s).1.queue, s.table) && Fifo(Pop(s).1.queue, s.table)
  {
    var rest := DropCancelled(s.queue, s.table);
    SuffixFifo(s.queue, s.table, |s.queue| - |rest|);
    if rest != [] {
      SuffixFifo(rest, s.table, 1);
    }
  }

  lemma SuffixFifo(q: seq<Id>, t: Table, k: nat)
    requires k <= |q| && InTable(q, t) && Fifo(q, t)
    ensures InTable(q[k..], t) && Fifo(q[k..], t)
  {
    assert forall j | 0 <= j < |q| - k :: q[k..][j] == q[k + j];
  }

  lemma RebidFifo(s: Shared, c: ContainerId, b: int)
    requires Fits(s) && Ordered(s) && Fifo(s.queue, s.table)
    requires forall k | 0 <= k < |s.queue| ::
               var e := s.table[s.queue[k]]; e.container == c && !e.cancelled ==> e.bid == b
    ensures SetBid(s, c, b).queue == s.queue
    ensures InTable(s.queue, SetBid(s, c, b).table) && Fifo(s.queue, SetBid(s, c, b).table)
  {
    var t := Rebid(s.table, s.queue, c, b);
    assert forall k | 0 <= k < |s.queue| :: t[s.queue[k]].bid == s.table[s.queue[k]].bid;
    SortOfSorted(s.queue, t);
  }

  /** A table that keeps the bids of q keeps its FIFO order. */
  lemma SameBidsFifo(q: seq<Id>, t: Table, t': Table)
    requires InTable(q, t) && InTable(q, t') && Fifo(q, t)
    requires forall k | 0 <= k < |q| :: t'[q[k]].bid == t[q[k]].bid
    ensures Fifo(q, t')
  {
  }

  lemma DeleteFifo(q: seq<Id>, t: Table, k: nat)
    requires k < |q| && InTable(q, t) && Fifo(q, t)
    ensures InTable(Delete(q, k), t) && Fifo(Delete(q, k), t)
  {
  }

  lemma CancelOneFifo(s: Shared, c: ContainerId)
    requires Fits(s) && Fifo(s.queue, s.table)
    ensures InTable(CancelEntry(s, c).queue, CancelEntry(s, c).table)
    ensures Fifo(CancelEntry(s, c).queue, CancelEntry(s, c).table)
  {
    var k := FindLive(s.queue, s.table, c, 0);
    if k < |s.queue| {
      DeleteFifo(s.queue, s.table, k);
      SameBidsFifo(Delete(s.queue, k), s.table, CancelEntry(s, c).table);
    }
  }

  lemma CancelContainerFifo(s: Shared, c: ContainerId, o: Outcome)
    requires Fits(s) && Fifo(s.queue, s.table)
    ensures InTable(CancelContainer(s, c, o).queue, CancelContainer(s, c, o).table)
    ensures Fifo(CancelContainer(s, c, o).queue, CancelContainer(s, c, o).table)
  {
    OthersFifo(s.queue, s.table, c);
    SameBidsFifo(Others(s.queue, s.table, c), s.table, CancelContainer(s, c, o).table);
  }

  lemma LeaveFifo(s: Shared, i: Id)
    requires Fits(s) && Fifo(s.queue, s.table)
    ensures InTable(RemoveEntry(s, i).queue, s.table) && Fifo(RemoveEntry(s, i).queue, s.table)
  {
    var k := IndexOf(s.queue, i, 0);
    if k < |s.queue| {
      DeleteFifo(s.queue, s.table, k);
    }
  }

  ghost predicate FifoInv(s: Shared)
  {
    InTable(s.queue, s.table) && Fifo(s.queue, s.table)
  }

  lemma QuietFifo(st: State, step: Step)
    requires Fits(st.sh) && Enabled(st, step) && FifoInv(st.sh)
    requires step.DrainStop? || step.SendReply? || step.GiveUp? || step.CancelOwn?
    ensures FifoInv(Apply(st, step).sh)
  {
    if !step.DrainStop? {
      SameBidsFifo(st.sh.queue, st.sh.table, Apply(st, step).sh.table);
    }
  }

  lemma StepFifo(st: State, step: Step)
    requires Inv(st) && Enabled(st, step) && KeepsBids(st, step) && FifoInv(st.sh)
    ensures FifoInv(Apply(st, step).sh)
  {
    var sh := st.sh;
    match step
    case AdmitRequest(c) => if !Full(sh) { AdmitFifo(st, c); }
    case SetBidOf(c, b) => RebidFifo(sh, c, b);
    case CancelOne(c) => CancelOneFifo(sh, c);
    case CancelAllPending(c) => CancelContainerFifo(sh, c, ContainerFrozen);
    case Remove(c) => CancelContainerFifo(sh.(bids := sh.bids - {c}), c, ContainerRemoved);
    case PopNext => PopFifo(sh);
    case Leave(i) => LeaveFifo(sh, i);
    case DrainStop => QuietFifo(st, step);
    case SendReply => QuietFifo(st, step);
    case GiveUp(_) => QuietFifo(st, step);
    case CancelOwn(_) => QuietFifo(st, step);
    case _ =>
  }

  /** In a state where the run so far changed no pending bid. */
  ghost predicate ReachesKeepingBids(st: State, steps: seq<Step>, st': State)
    decreases |steps|
  {
    if steps == [] then st' == st
    else Fits(st.sh) && Enabled(st, steps[0]) && KeepsBids(st, steps[0])
         && ReachesKeepingBids(Apply(st, steps[0]), steps[1..], st')
  }

  /** First come, first served among equal bids, over every run that changes no pending bid. */
  lemma {:induction false} RunFifo(st: State, steps: seq<Step>, st': State)
    requires Inv(st) && FifoInv(st.sh) && ReachesKeepingBids(st, steps, st')
    ensures Inv(st') && FifoInv(st'.sh)
    decreases |steps|
  {
    if steps != [] {
      StepInv(st, steps[0]);
      StepFifo(st, steps[0]);
      RunFifo(Apply(st, steps[0]), steps[1..], st');
    }
  }

  /** So the request served is the earliest admitted one among the highest live bids. */
  lemma ServesEarliestOfHighest(maxSize: int, defaultBid: int, steps: seq<Step>, st: State, x: Id)
    requires ReachesKeepingBids(Start(maxSize, defaultBid), steps, st)
    requires x in st.sh.queue && x in st.sh.table && !st.sh.table[x].cancelled
    ensures Fits(st.sh) && Pop(st.sh).0.Some?
    ensures var e := Pop(st.sh).0.value;
            e in st.sh.table && (st.sh.table[e].bid > st.sh.table[x].bid
                                 || (st.sh.table[e].bid == st.sh.table[x].bid && e <= x))
  {
    StartInv(maxSize, defaultBid);
    RunFifo(Start(maxSize, defaultBid), steps, st);
    ServedFirst(st, x);
  }

  lemma ServedFirst(st: State, x: Id)
    requires Fits(st.sh) && Ordered(st.sh) && Fifo(st.sh.queue, st.sh.table)
    requires x in st.sh.queue && x in st.sh.table && !st.sh.table[x].cancelled
    ensures Pop(st.sh).0.Some?
    ensures var e := Pop(st.sh).0.value;
            e in st.sh.table && (st.sh.table[e].bid > st.sh.table[x].bid
                                 || (st.sh.table[e].bid == st.sh.table[x].bid && e <= x))
  {
    var q := st.sh.queue;
    var rest := DropCancelled(q, st.sh.table);
    var d := |q| - |rest|;
    var k :| 0 <= k < |q| && q[k] == x;
    assert d <= k && rest[0] == q[d];
    assert Pop(st.sh).0 == Some(q[d]);
    hide Pop, DropCancelled;
    if d < k {
      assert st.sh.table[q[d]].bid >= st.sh.table[q[k]].bid;
      assert st.sh.table[q[d]].bid == st.sh.table[q[k]].bid ==> q[d] < q[k];
    }
    hide Fifo, Ordered;
  }

  /** e is the only live pending request of container c. */
  ghost predicate OnlyPending(s: Shared, c: ContainerId, e: Id)
    requires InTable(s.queue, s.table)
  {
    && e in s.queue && s.table[e].container == c && !s.table[e].cancelled
    && forall x | x in s.queue && s.table[x].container == c && !s.table[x].cancelled :: x == e
  }

  /** A re-bid moves one request and disturbs no other pair. */
  lemma RebidKeepsOthers(st: State, c: ContainerId, b: int, e: Id, x: Id, y: Id)
    requires Inv(st) && OnlyPending(st.sh, c, e) && x != e && y != e
    requires Before(st.sh.queue, x, y)
    ensures Before(SetBid(st.sh, c, b).queue, x, y)
  {
    var i, j :| 0 <= i < j < |st.sh.queue| && st.sh.queue[i] == x && st.sh.queue[j] == y;
    SortKeepsBefore(st.sh.queue, Rebid(st.sh.table, st.sh.queue, c, b), x, y);
  }

  /** A raised request lands behind those already at its bid, a lowered one ahead of them. */
  lemma RebidPlacesRequest(st: State, c: ContainerId, b: int, e: Id, x: Id)
    requires Inv(st) && OnlyPending(st.sh, c, e) && x in st.sh.queue && x != e
    ensures b > st.sh.table[e].bid && st.sh.table[x].bid >= b ==> Before(SetBid(st.sh, c, b).queue, x, e)
    ensures b < st.sh.table[e].bid && st.sh.table[x].bid <= b ==> Before(SetBid(st.sh, c, b).queue, e, x)
    ensures b == st.sh.table[e].bid ==> SetBid(st.sh, c, b).queue == st.sh.queue
  {
    var q, t := st.sh.queue, st.sh.table;
    var t' := Rebid(t, q, c, b);
    BeforeTotal(q, x, e);
    if b > t[e].bid && t[x].bid >= b {
      assert !Before(q, e, x);
      SortKeepsBefore(q, t', x, e);
    }
    if b < t[e].bid && t[x].bid <= b {
      assert !Before(q, x, e);
      SortKeepsBefore(q, t', e, x);
    }
    if b == t[e].bid {
      assert forall k | 0 <= k < |q| :: t'[q[k]].bid == t[q[k]].bid;
      SortOfSorted(q, t');
    }
  }

  // ----- Admission bounds -----

  lemma QueueLengthBound(maxSize: int, defaultBid: int, steps: seq<Step>, st: State)
    requires Reaches(Start(maxSize, defaultBid), steps, st)
    ensures |st.sh.queue| <= st.maxEver
    ensures st.maxEver == LargestBound(Init(maxSize, defaultBid).maxSize, steps)
  {
    ReachableInv(maxSize, defaultBid, steps, st);
    BoundIsLargest(Start(maxSize, defaultBid), steps, st);
  }

  /** The largest bound configured by the steps, starting from m. */
  function LargestBound(m: int, steps: seq<Step>): int
    decreases |steps|
  {
    if steps == [] then m
    else LargestBound(if steps[0].SetMaxSize? && steps[0].n > m then steps[0].n else m, steps[1..])
  }

  lemma {:induction false} BoundIsLargest(st: State, steps: seq<Step>, st': State)
    requires Reaches(st, steps, st')
    ensures st'.maxEver == LargestBound(st.maxEver, steps)
    decreases |steps|
  {
    if steps != [] {
      BoundIsLargest(Apply(st, steps[0]), steps[1..], st');
    }
  }

  /** A pending live request, or the active one. */
  ghost predicate Counted(s: Shared, i: Id)
  {
    i in s.table && ((i in s.queue && !s.table[i].cancelled) || s.active == Some(i))
  }

  ghost predicate OnePerContainer(s: Shared)
  {
    forall i, j | Counted(s, i) && Counted(s, j) && s.table[i].container == s.table[j].container :: i == j
  }

  /** Check and append, and pop and activate, each taken without interruption. */
  datatype CoarseStep = CheckAndAdmit(c: ContainerId) | PopAndActivate | Fine(step: Step)

  ghost predicate CoarseReaches(st: State, step: CoarseStep, st': State)
  {
    match step
    case CheckAndAdmit(c) => Reaches(st, [CheckDuplicate(c), AdmitRequest(c)], st')
    case PopAndActivate =>
      || Reaches(st, [PopNext, Activate], st')
      || (Reaches(st, [PopNext], st') && st'.proc.Idle?)
    case Fine(f) =>
      !f.CheckDuplicate? && !f.AdmitRequest? && !f.PopNext? && !f.Activate? && Reaches(st, [f], st')
  }

  lemma TwoSteps(st: State, a: Step, b: Step, st': State)
    requires Inv(st) && Reaches(st, [a, b], st')
    ensures Enabled(st, a) && Inv(Apply(st, a)) && Enabled(Apply(st, a), b)
    ensures st' == Apply(Apply(st, a), b) && Inv(st')
  {
    StepInv(st, a);
    assert [a, b][1..] == [b] && [b][1..] == [];
    assert Reaches(Apply(st, a), [b], st');
    assert Reaches(Apply(Apply(st, a), b), [], st');
    StepInv(Apply(st, a), b);
  }

  lemma OneStep(st: State, a: Step, st': State)
    requires Inv(st) && Reaches(st, [a], st')
    ensures Enabled(st, a) && st' == Apply(st, a) && Inv(st')
  {
    assert [a][1..] == [];
    assert Reaches(Apply(st, a), [], st');
    StepInv(st, a);
  }

  lemma AdmitCounted(s: Shared, c: ContainerId, i: Id)
    requires Fits(s) && !Full(s) && s.next !in s.table && Counted(Admit(s, c), i)
    ensures i == s.next || (Counted(s, i) && Admit(s, c).table[i] == s.table[i])
    ensures Admit(s, c).table[s.next].container == c
  {
    SortElements(s.queue + [s.next], Admit(s, c).table, i);
  }

  lemma AdmitBesideRequest(s: Shared, c: ContainerId)
    requires Fits(s) && s.next !in s.table && !Full(s) && HasRequest(s, c)
    ensures !OnePerContainer(Admit(s, c))
  {
    var s' := Admit(s, c);
    var i := if s.active.Some? && s.table[s.active.value].container == c then s.active.value else
      var k :| 0 <= k < |s.queue| && s.table[s.queue[k]].container == c && Live(s.table, s.queue[k]); s.queue[k];
    assert i in s.table && s'.table[i] == s.table[i];
    SortElements(s.queue + [s.next], s'.table, i);
    SortElements(s.queue + [s.next], s'.table, s.next);
    hide Sort;
    assert Counted(s', i) && Counted(s', s.next);
    hide Admit, Counted;
  }

  /** An append keeps it exactly when the duplicate check would still pass at the time of the append. */
  lemma AdmitKeepsOneIff(s: Shared, c: ContainerId)
    requires Fits(s) && s.next !in s.table && OnePerContainer(s) && !Full(s)
    ensures OnePerContainer(Admit(s, c)) <==> !HasRequest(s, c)
  {
    if HasRequest(s, c) {
      AdmitBesideRequest(s, c);
    } else {
      var s' := Admit(s, c);
      forall i, j | Counted(s', i) && Counted(s', j) && s'.table[i].container == s'.table[j].container
        ensures i == j
      {
        AdmitCounted(s, c, i);
        AdmitCounted(s, c, j);
        hide Admit;
      }
    }
  }

  /** An activation keeps it exactly when no live request of that container slipped in after the pop. */
  lemma ActivateKeepsOneIff(s: Shared, x: Id)
    requires Fits(s) && s.active == None && x in s.table && x !in s.queue && OnePerContainer(s)
    ensures OnePerContainer(s.(active := Some(x))) <==> !HasRequest(s, s.table[x].container)
  {
    var s' := s.(active := Some(x));
    if HasRequest(s, s.table[x].container) {
      var k :| 0 <= k < |s.queue| && s.table[s.queue[k]].container == s.table[x].container && Live(s.table, s.queue[k]);
      assert Counted(s', x) && Counted(s', s.queue[k]);
    } else {
      forall i | Counted(s', i) && i != x ensures Counted(s, i) && s.table[i].container != s.table[x].container {
      }
    }
  }

  lemma CoarsePop(s: Shared)
    requires Fits(s) && Ordered(s) && OnePerContainer(s)
    ensures OnePerContainer(Pop(s).1.(active := Pop(s).0))
  {
    var s' := Pop(s).1.(active := Pop(s).0);
    forall i | Counted(s', i) ensures Counted(s, i) {
      PopMember(s, i);
    }
  }

  /** Only an admission adds a request, and only an activation makes one active. */
  lemma FineAddsNothing(st: State, f: Step)
    requires Fits(st.sh) && Enabled(st, f) && !f.AdmitRequest? && !f.Activate?
    ensures forall i | i in Apply(st, f).sh.table :: i in st.sh.table
    ensures Apply(st, f).sh.active == st.sh.active || Apply(st, f).sh.active == None
  {
    hide Admit, Others, DropCancelled, IndexOf, Sort;
  }

  lemma FineCounted(st: State, f: Step, i: Id)
    requires Inv(st) && Enabled(st, f) && Counted(Apply(st, f).sh, i)
    requires !f.AdmitRequest? && !f.PopNext? && !f.Activate?
    ensures Counted(st.sh, i) && Apply(st, f).sh.table[i].container == st.sh.table[i].container
  {
    FineAddsNothing(st, f);
    assert i in st.sh.table;
    SentOnlyGrows(st, f, i);
    if i in Apply(st, f).sh.queue {
      QueueOnlyShrinks(st, f, i);
    }
    hide Apply, Enabled, Inv;
  }

  lemma CoarseFine(st: State, f: Step)
    requires Inv(st) && Enabled(st, f) && OnePerContainer(st.sh)
    requires !f.AdmitRequest? && !f.PopNext? && !f.Activate?
    ensures OnePerContainer(Apply(st, f).sh)
  {
    forall i | Counted(Apply(st, f).sh, i)
      ensures Counted(st.sh, i) && Apply(st, f).sh.table[i].container == st.sh.table[i].container
    {
      FineCounted(st, f, i);
    }
  }

  lemma CoarseAdmitStep(st: State, c: ContainerId, st': State)
    requires Inv(st) && OnePerContainer(st.sh)
    requires Reaches(st, [CheckDuplicate(c), AdmitRequest(c)], st')
    ensures Inv(st') && OnePerContainer(st'.sh)
  {
    TwoSteps(st, CheckDuplicate(c), AdmitRequest(c), st');
    if !Full(st.sh) {
      AdmitKeepsOneIff(st.sh, c);
    }
  }

  lemma CoarsePopStep(st: State, st': State)
    requires Inv(st) && OnePerContainer(st.sh) && CoarseReaches(st, PopAndActivate, st')
    ensures Inv(st') && OnePerContainer(st'.sh)
  {
    CoarsePop(st.sh);
    if Reaches(st, [PopNext, Activate], st') {
      TwoSteps(st, PopNext, Activate, st');
      assert st'.sh == Pop(st.sh).1.(active := Pop(st.sh).0);
    } else {
      OneStep(st, PopNext, st');
      assert st'.sh == Pop(st.sh).1.(active := Pop(st.sh).0);
    }
  }

  lemma CoarseStepKeepsOne(st: State, step: CoarseStep, st': State)
    requires Inv(st) && OnePerContainer(st.sh) && CoarseReaches(st, step, st')
    ensures Inv(st') && OnePerContainer(st'.sh)
  {
    match step
    case CheckAndAdmit(c) => CoarseAdmitStep(st, c, st');
    case PopAndActivate => CoarsePopStep(st, st');
    case Fine(f) =>
      OneStep(st, f, st');
      CoarseFine(st, f);
  }

  /** The states a run of coarse steps passes through. */
  ghost predicate CoarseRun(steps: seq<CoarseStep>, states: seq<State>)
  {
    && |states| == |steps| + 1
    && forall k | 0 <= k < |steps| :: CoarseReaches(states[k], steps[k], states[k+1])
  }

  lemma {:induction false} CoarseRunKeepsOne(steps: seq<CoarseStep>, states: seq<State>, k: nat)
    requires CoarseRun(steps, states) && k <= |steps| && Inv(states[0]) && OnePerContainer(states[0].sh)
    ensures Inv(states[k]) && OnePerContainer(states[k].sh)
  {
    if k > 0 {
      CoarseRunKeepsOne(steps, states, k - 1);
      hide Inv, OnePerContainer, CoarseReaches;
      CoarseStepKeepsOne(states[k-1], steps[k-1], states[k]);
    }
  }

  /** With those two pairs uninterrupted, and from the start of the queue on, no container ever has two requests
      in the queue or in service. */
  lemma CoarseOnePerContainer(maxSize: int, defaultBid: int, steps: seq<CoarseStep>, states: seq<State>, k: nat)
    requires CoarseRun(steps, states) && states[0] == Start(maxSize, defaultBid) && k <= |steps|
    ensures OnePerContainer(states[k].sh)
  {
    StartInv(maxSize, defaultBid);
    CoarseRunKeepsOne(steps, states, k);
  }

  lemma ReachesCons(st: State, a: Step, rest: seq<Step>, st': State)
    requires Fits(st.sh) && Enabled(st, a) && Reaches(Apply(st, a), rest, st')
    ensures Reaches(st, [a] + rest, st')
  {
    assert ([a] + rest)[1..] == rest;
  }

  /** Admitting a request that bids no more than the last pending one appends it. */
  lemma AdmitAppends(s: Shared, c: ContainerId)
    requires Fits(s) && !Full(s) && s.next !in s.table && s.next !in s.queue && Sorted(s.queue, s.table)
    requires forall k | 0 <= k < |s.queue| :: s.table[s.queue[k]].bid >= StandingBid(s, c)
    ensures Admit(s, c).queue == s.queue + [s.next]
  {
    var t := Admit(s, c).table;
    SortOfSorted(s.queue + [s.next], t);
  }

  /** Two handlers of one container: both pass the check, then both append. */
  const RACE: seq<Step> := [CheckDuplicate(0), CheckDuplicate(0), AdmitRequest(0), AdmitRequest(0)]

  /** One admission into a queue that nobody is outbid in. */
  lemma AdmitOnTop(st: State, c: ContainerId)
    requires c in st.tickets && !Full(st.sh) && st.sh.next !in st.sh.table && st.sh.next !in st.sh.queue
    requires Fits(st.sh) && Sorted(st.sh.queue, st.sh.table)
    requires forall k | 0 <= k < |st.sh.queue| :: st.sh.table[st.sh.queue[k]].bid >= StandingBid(st.sh, c)
    ensures Enabled(st, AdmitRequest(c))
    ensures var sh, st' := st.sh, Apply(st, AdmitRequest(c));
            && st'.tickets == st.tickets - multiset{c}
            && st'.sh == sh.(table := sh.table[sh.next := Entry(c, StandingBid(sh, c), false, false, [])],
                             queue := sh.queue + [sh.next], next := sh.next + 1)
  {
    AdmitAppends(st.sh, c);
    hide Sort;
  }

  lemma FirstAdmission(s2: State)
    requires s2.sh == Start(2, 0).sh && s2.tickets == multiset{0, 0}
    ensures Fits(s2.sh) && Enabled(s2, AdmitRequest(0))
    ensures var s3 := Apply(s2, AdmitRequest(0));
            && s3.tickets == multiset{0}
            && s3.sh == s2.sh.(table := map[0 := Entry(0, 0, false, false, [])], queue := [0], next := 1)
  {
    AdmitOnTop(s2, 0);
    hide Apply, Enabled;
  }

  lemma SecondAdmission(s3: State)
    requires s3.tickets == multiset{0}
    requires s3.sh == Start(2, 0).sh.(table := map[0 := Entry(0, 0, false, false, [])], queue := [0], next := 1)
    ensures Fits(s3.sh) && Enabled(s3, AdmitRequest(0))
    ensures var st := Apply(s3, AdmitRequest(0));
            && st.sh.queue == [0, 1] && 0 in st.sh.table && 1 in st.sh.table
            && st.sh.table[0] == Entry(0, 0, false, false, []) && st.sh.table[1] == Entry(0, 0, false, false, [])
  {
    AdmitOnTop(s3, 0);
    hide Apply, Enabled;
  }

  /** The states of the race, and what its last one holds. */
  lemma RaceStates() returns (s0: State, s1: State, s2: State, s3: State, st: State)
    ensures s0 == Start(2, 0) && Fits(s0.sh) && Enabled(s0, CheckDuplicate(0)) && s1 == Apply(s0, CheckDuplicate(0))
    ensures Fits(s1.sh) && Enabled(s1, CheckDuplicate(0)) && s2 == Apply(s1, CheckDuplicate(0))
    ensures Fits(s2.sh) && Enabled(s2, AdmitRequest(0)) && s3 == Apply(s2, AdmitRequest(0))
    ensures Fits(s3.sh) && Enabled(s3, AdmitRequest(0)) && st == Apply(s3, AdmitRequest(0))
    ensures st.sh.queue == [0, 1] && 0 in st.sh.table && 1 in st.sh.table
    ensures st.sh.table[0] == Entry(0, 0, false, false, []) && st.sh.table[1] == Entry(0, 0, false, false, [])
  {
    s0 := Start(2, 0);
    s1 := Apply(s0, CheckDuplicate(0));
    s2 := Apply(s1, CheckDuplicate(0));
    FirstAdmission(s2);
    s3 := Apply(s2, AdmitRequest(0));
    hide Apply;
    SecondAdmission(s3);
    st := Apply(s3, AdmitRequest(0));
    hide Start, Init;
  }

  lemma ReachesFour(s0: State, a: Step, b: Step, c: Step, d: Step, st: State)
    requires Fits(s0.sh) && Enabled(s0, a) && Fits(Apply(s0, a).sh) && Enabled(Apply(s0, a), b)
    requires Fits(Apply(Apply(s0, a), b).sh) && Enabled(Apply(Apply(s0, a), b), c)
    requires var s3 := Apply(Apply(Apply(s0, a), b), c); Fits(s3.sh) && Enabled(s3, d) && st == Apply(s3, d)
    ensures Reaches(s0, [a, b, c, d], st)
  {
    hide Apply, Enabled, Fits;
    var s1 := Apply(s0, a);
    var s2 := Apply(s1, b);
    var s3 := Apply(s2, c);
    assert Reaches(st, [], st);
    ReachesCons(s3, d, [], st);
    ReachesCons(s2, c, [d], st);
    ReachesCons(s1, b, [c, d], st);
    ReachesCons(s0, a, [b, c, d], st);
    hide Reaches;
    assert [d] + [] == [d] && [c] + [d] == [c, d] && [b] + [c, d] == [b, c, d] && [a] + [b, c, d] == [a, b, c, d];
  }

  /** The mutex is released between check and append, so one container can get two requests in. */
  lemma FineInterleavingAdmitsTwo() returns (st: State)
    ensures Reaches(Start(2, 0), RACE, st)
    ensures !OnePerContainer(st.sh)
  {
    var s0, s1, s2, s3;
    s0, s1, s2, s3, st := RaceStates();
    hide Apply, Enabled, Fits, Reaches;
    ReachesFour(s0, CheckDuplicate(0), CheckDuplicate(0), AdmitRequest(0), AdmitRequest(0), st);
    TwoCounted(st.sh);
  }

  lemma TwoCounted(s: Shared)
    requires s.queue == [0, 1] && 0 in s.table && 1 in s.table
    requires s.table[0] == Entry(0, 0, false, false, []) && s.table[1] == Entry(0, 0, false, false, [])
    ensures !OnePerContainer(s)
  {
    assert s.queue[0] == 0 && s.queue[1] == 1;
    assert Counted(s, 0) && Counted(s, 1);
  }
}
