/**
 What each step of the queue does, request by request: who is answered and with what, whose context is cancelled,
 what is bid, who is pending and in which order. Nothing here mentions how the step is computed.
 */
module QueueLaws {
  import opened Model
  import opened QueueOrder
  import opened QueueState
  import opened QueueProtocol
  import opened QueueTheorems

  // ----- What a request can look like to an operation -----

  predicate Pending(sh: Shared, i: Id)
  {
    i in sh.queue && i in sh.table && !sh.table[i].cancelled
  }

  predicate PendingOf(sh: Shared, c: ContainerId, i: Id)
  {
    Pending(sh, i) && sh.table[i].container == c
  }

  /** The live request of c that stands ahead of its other live requests. */
  ghost predicate FirstOf(sh: Shared, c: ContainerId, i: Id)
  {
    PendingOf(sh, c, i) && forall x | PendingOf(sh, c, x) && x != i :: Before(sh.queue, i, x)
  }

  /** Everybody ahead of i in the queue is cancelled. */
  ghost predicate NobodyLiveAhead(sh: Shared, i: Id)
  {
    forall x | Before(sh.queue, x, i) :: x in sh.table && sh.table[x].cancelled
  }

  /** What a step puts on the result channel of request i. */
  ghost function Answer(st: State, step: Step, i: Id): seq<Outcome>
  {
    match step
    case SendReply => if st.proc == Running(i) then [Reply] else []
    case CancelOne(c) => if FirstOf(st.sh, c, i) then [CancelledByUser] else []
    case CancelAllPending(c) => if PendingOf(st.sh, c, i) then [ContainerFrozen] else []
    case Remove(c) => if PendingOf(st.sh, c, i) then [ContainerRemoved] else []
    case DrainStop => if Pending(st.sh, i) then [ShuttingDown] else []
    case _ => []
  }

  /** The request in service belongs to a container the step cancels, or everything stops. */
  predicate StopsActive(st: State, step: Step, i: Id)
    requires i in st.sh.table
  {
    st.sh.active == Some(i) &&
      match step
      case CancelAllPending(c) => st.sh.table[i].container == c
      case Remove(c) => st.sh.table[i].container == c
      case DrainStop => true
      case _ => false
  }

  predicate Rebids(st: State, step: Step, i: Id)
  {
    step.SetBidOf? && PendingOf(st.sh, step.c, i)
  }

  /** The entry of request i after the step, field by field. */
  ghost predicate EntryAfter(st: State, step: Step, i: Id, e: Entry)
    requires i in st.sh.table
  {
    var was, answer := st.sh.table[i], Answer(st, step, i);
    && e.sent == was.sent + answer
    && e.container == was.container
    && e.bid == (if Rebids(st, step, i) then step.bid else was.bid)
    && (e.cancelled <==> was.cancelled || step == GiveUp(i) || (answer != [] && !step.SendReply?))
    && (e.ctxDone <==> was.ctxDone || step == CancelOwn(i) || (answer != [] && !step.SendReply?)
                       || StopsActive(st, step, i))
  }

  // ----- One request -----

  lemma FindLiveIsFirst(sh: Shared, c: ContainerId, i: Id)
    requires Fits(sh) && Ordered(sh)
    ensures var k := FindLive(sh.queue, sh.table, c, 0);
            (k < |sh.queue| && sh.queue[k] == i) <==> FirstOf(sh, c, i)
  {
    var q, k := sh.queue, FindLive(sh.queue, sh.table, c, 0);
    if k < |q| {
      assert PendingOf(sh, c, q[k]);
      forall x | PendingOf(sh, c, x) && x != q[k] ensures Before(q, q[k], x) && !Before(q, x, q[k]) {
        var j :| 0 <= j < |q| && q[j] == x;
        assert k < j;
        NotBothBefore(q, q[k], x);
      }
      if FirstOf(sh, c, i) && i != q[k] {
        assert false;
      }
    }
  }

  lemma CancelEntryAfter(st: State, c: ContainerId, i: Id)
    requires Fits(st.sh) && Ordered(st.sh) && i in st.sh.table
    ensures i in CancelEntry(st.sh, c).table && EntryAfter(st, CancelOne(c), i, CancelEntry(st.sh, c).table[i])
  {
    FindLiveIsFirst(st.sh, c, i);
    hide FirstOf, Ordered;
  }

  /** The entry of i after CancelContainer. */
  lemma CancelledEntry(sh: Shared, c: ContainerId, o: Outcome, i: Id)
    requires Fits(sh) && i in sh.table && (sh.active == Some(i) ==> i !in sh.queue)
    ensures i in CancelContainer(sh, c, o).table
    ensures var e, was := CancelContainer(sh, c, o).table[i], sh.table[i];
            var cancels := PendingOf(sh, c, i);
            e == Entry(was.container, was.bid, was.cancelled || cancels,
                       was.ctxDone || cancels || (sh.active == Some(i) && was.container == c),
                       if cancels then was.sent + [o] else was.sent)
  {
    hide Others;
  }

  lemma CancelContainerAfter(st: State, step: Step, i: Id)
    requires Fits(st.sh) && i in st.sh.table
    requires step.CancelAllPending? || step.Remove?
    requires st.sh.active == Some(i) ==> i !in st.sh.queue
    ensures i in Apply(st, step).sh.table && EntryAfter(st, step, i, Apply(st, step).sh.table[i])
  {
    if step.CancelAllPending? {
      CancelledEntry(st.sh, step.c, ContainerFrozen, i);
      assert Apply(st, step).sh == CancelContainer(st.sh, step.c, ContainerFrozen);
    } else {
      var sh := st.sh.(bids := st.sh.bids - {step.c});
      CancelledEntry(sh, step.c, ContainerRemoved, i);
      assert PendingOf(sh, step.c, i) == PendingOf(st.sh, step.c, i);
      assert Apply(st, step).sh == CancelContainer(sh, step.c, ContainerRemoved);
    }
    hide CancelContainer, Apply, FirstOf, PendingOf;
  }

  lemma DrainAfter(st: State, i: Id)
    requires Fits(st.sh) && st.sh.done && i in st.sh.table
    ensures i in Apply(st, DrainStop).sh.table && EntryAfter(st, DrainStop, i, Apply(st, DrainStop).sh.table[i])
  {
  }

  lemma OwnRequestAfter(st: State, step: Step, i: Id)
    requires Fits(st.sh) && Enabled(st, step) && i in st.sh.table
    requires step.SendReply? || step.GiveUp? || step.CancelOwn?
    ensures i in Apply(st, step).sh.table && EntryAfter(st, step, i, Apply(st, step).sh.table[i])
  {
  }

  lemma RebidAfter(st: State, c: ContainerId, b: int, i: Id)
    requires Fits(st.sh) && i in st.sh.table
    ensures i in SetBid(st.sh, c, b).table && EntryAfter(st, SetBidOf(c, b), i, SetBid(st.sh, c, b).table[i])
  {
    hide Sort;
  }

  lemma AdmitAfter(st: State, c: ContainerId, i: Id)
    requires Fits(st.sh) && c in st.tickets && i in st.sh.table && st.sh.next !in st.sh.table
    ensures i in Apply(st, AdmitRequest(c)).sh.table
    ensures EntryAfter(st, AdmitRequest(c), i, Apply(st, AdmitRequest(c)).sh.table[i])
  {
    hide Sort, StandingBid;
  }

  lemma OtherStepAfter(st: State, step: Step, i: Id)
    requires Fits(st.sh) && Enabled(st, step) && i in st.sh.table
    requires !step.CancelOne? && !step.CancelAllPending? && !step.Remove? && !step.DrainStop? && !step.SendReply?
    requires !step.GiveUp? && !step.CancelOwn? && !step.SetBidOf? && !step.AdmitRequest?
    ensures i in Apply(st, step).sh.table && EntryAfter(st, step, i, Apply(st, step).sh.table[i])
  {
    hide DropCancelled, IndexOf, FirstOf, PendingOf, Pending;
    assert Answer(st, step, i) == [] && !Rebids(st, step, i) && !StopsActive(st, step, i);
    SameTable(st, step);
    hide Apply;
  }

  lemma SameTable(st: State, step: Step)
    requires Fits(st.sh) && Enabled(st, step)
    requires !step.CancelOne? && !step.CancelAllPending? && !step.Remove? && !step.DrainStop? && !step.SendReply?
    requires !step.GiveUp? && !step.CancelOwn? && !step.SetBidOf? && !step.AdmitRequest?
    ensures Apply(st, step).sh.table == st.sh.table
  {
    PopShortens(st.sh);
    hide Pop, IndexOf, Enabled, CancelEntry, CancelContainer, DrainOnStop, SetBid, Admit, Full;
  }

  lemma CancelStepAfter(st: State, step: Step, i: Id)
    requires Inv(st) && Enabled(st, step) && i in st.sh.table
    requires step.CancelOne? || step.CancelAllPending? || step.Remove? || step.DrainStop?
    ensures i in Apply(st, step).sh.table && EntryAfter(st, step, i, Apply(st, step).sh.table[i])
  {
    NotActiveAndQueued(st, i);
    assert Ordered(st.sh);
    hide Inv, EntryAfter, CancelEntry, CancelContainer, DrainOnStop;
    match step
    case CancelOne(c) =>
      CancelEntryAfter(st, c, i);
      assert Apply(st, step).sh == CancelEntry(st.sh, c);
    case DrainStop => DrainAfter(st, i);
    case _ => CancelContainerAfter(st, step, i);
  }

  lemma BidStepAfter(st: State, step: Step, i: Id)
    requires Inv(st) && Enabled(st, step) && i in st.sh.table && (step.SetBidOf? || step.AdmitRequest?)
    ensures i in Apply(st, step).sh.table && EntryAfter(st, step, i, Apply(st, step).sh.table[i])
  {
    assert st.sh.next !in st.sh.table;
    hide Inv, EntryAfter, SetBid, Admit;
    match step
    case SetBidOf(c, b) =>
      RebidAfter(st, c, b, i);
      assert Apply(st, step).sh == SetBid(st.sh, c, b);
    case AdmitRequest(c) => AdmitAfter(st, c, i);
  }

  /** Every step, for every request: what it is sent, whether it counts as cancelled, its context, its bid. */
  lemma StepEntry(st: State, step: Step, i: Id)
    requires Inv(st) && Enabled(st, step) && i in st.sh.table
    ensures i in Apply(st, step).sh.table && EntryAfter(st, step, i, Apply(st, step).sh.table[i])
  {
    assert Fits(st.sh);
    hide Inv, EntryAfter, Apply, Enabled, Fits;
    if step.CancelOne? || step.CancelAllPending? || step.Remove? || step.DrainStop? {
      CancelStepAfter(st, step, i);
    } else if step.SendReply? || step.GiveUp? || step.CancelOwn? {
      OwnRequestAfter(st, step, i);
    } else if step.SetBidOf? || step.AdmitRequest? {
      BidStepAfter(st, step, i);
    } else {
      OtherStepAfter(st, step, i);
    }
  }

  lemma NotActiveAndQueued(st: State, i: Id)
    requires Inv(st) && i in st.sh.table
    ensures st.sh.active == Some(i) ==> i !in st.sh.queue
  {
    assert EntryInv(st, i);
  }

  // ----- Who is pending, and in which order -----

  /** x is no longer pending after the step. */
  ghost predicate Leaves(st: State, step: Step, x: Id)
  {
    match step
    case CancelOne(c) => FirstOf(st.sh, c, x)
    case CancelAllPending(c) => x in st.sh.table && st.sh.table[x].container == c
    case Remove(c) => x in st.sh.table && st.sh.table[x].container == c
    case DrainStop => true
    case Leave(i) => x == i
    case PopNext => NobodyLiveAhead(st.sh, x)
    case _ => false
  }

  predicate Enters(st: State, step: Step, x: Id)
  {
    step.AdmitRequest? && |st.sh.queue| < st.sh.maxSize && x == st.sh.next
  }

  lemma CancelledOnePending(sh: Shared, c: ContainerId, x: Id)
    requires Fits(sh) && Ordered(sh)
    ensures x in CancelEntry(sh, c).queue <==> x in sh.queue && !FirstOf(sh, c, x)
  {
    FindLiveIsFirst(sh, c, x);
    var k := FindLive(sh.queue, sh.table, c, 0);
    if k < |sh.queue| {
      DeleteFacts(sh.queue, k);
    }
    hide FirstOf, Ordered;
  }

  lemma LeftPending(sh: Shared, i: Id, x: Id)
    requires Distinct(sh.queue)
    ensures x in RemoveEntry(sh, i).queue <==> x in sh.queue && x != i
  {
    var k := IndexOf(sh.queue, i, 0);
    if k < |sh.queue| {
      DeleteFacts(sh.queue, k);
    }
  }

  lemma AdmittedPending(sh: Shared, c: ContainerId, x: Id)
    requires Fits(sh) && !Full(sh)
    ensures x in Admit(sh, c).queue <==> x in sh.queue || x == sh.next
  {
    var t := sh.table[sh.next := Entry(c, StandingBid(sh, c), false, false, [])];
    SortElements(sh.queue + [sh.next], t, x);
    hide Sort, StandingBid;
  }

  lemma Split(q: seq<Id>, d: nat, x: Id)
    requires d < |q| && Distinct(q)
    ensures x in q[d+1..] <==> x in q && Before(q, q[d], x)
  {
    if x in q && Before(q, q[d], x) {
      var i, j :| 0 <= i < j < |q| && q[i] == q[d] && q[j] == x;
      assert q[d+1..][j-d-1] == x;
    }
    if x in q[d+1..] {
      var j :| 0 <= j < |q| - d - 1 && q[d+1..][j] == x;
      assert q[d+1+j] == x;
    }
  }

  /** Where the cancelled requests in front end is the live request with nobody live ahead. */
  lemma FirstLive(sh: Shared, d: nat, x: Id)
    requires Fits(sh) && Ordered(sh) && d < |sh.queue| && Pending(sh, sh.queue[d]) && x in sh.queue
    requires forall k | 0 <= k < d :: sh.table[sh.queue[k]].cancelled
    ensures NobodyLiveAhead(sh, x) <==> !Before(sh.queue, sh.queue[d], x)
    ensures Pending(sh, x) && NobodyLiveAhead(sh, x) <==> x == sh.queue[d]
  {
    var q := sh.queue;
    var k :| 0 <= k < |q| && q[k] == x;
    if k <= d {
      forall y | Before(q, y, x) ensures sh.table[y].cancelled {
        var i, j :| 0 <= i < j < |q| && q[i] == y && q[j] == x;
        assert j == k;
      }
      assert !Before(q, q[d], x);
    } else {
      assert Before(q, q[d], x);
    }
  }

  lemma PoppedPending(sh: Shared, x: Id)
    requires Fits(sh) && Ordered(sh)
    ensures x in Pop(sh).1.queue <==> x in sh.queue && !NobodyLiveAhead(sh, x)
    ensures Pop(sh).0 == Some(x) <==> Pending(sh, x) && NobodyLiveAhead(sh, x)
    ensures Pop(sh).0 == None <==> forall y :: !Pending(sh, y)
  {
    var q := sh.queue;
    var rest := DropCancelled(q, sh.table);
    var d := |q| - |rest|;
    PopAfterDrop(sh, d);
    assert forall k | 0 <= k < d :: sh.table[q[k]].cancelled;
    if d < |q| {
      assert rest[0] == q[d] && Pending(sh, q[d]) && q[d..][1..] == q[d+1..];
      hide Pop, DropCancelled;
      Split(q, d, x);
      if x in q {
        FirstLive(sh, d, x);
      }
      hide NobodyLiveAhead, Before, Ordered;
    } else {
      hide Pop, DropCancelled;
      NoneLive(sh, x);
      forall y ensures !Pending(sh, y) {
        NoneLive(sh, y);
      }
      hide NobodyLiveAhead, Ordered;
    }
  }

  lemma NoneLive(sh: Shared, x: Id)
    requires Fits(sh) && forall k | 0 <= k < |sh.queue| :: sh.table[sh.queue[k]].cancelled
    ensures !Pending(sh, x) && NobodyLiveAhead(sh, x)
  {
  }

  /** Every step, for every request: whether it is pending afterwards. */
  lemma StepPending(st: State, step: Step, x: Id)
    requires Inv(st) && Enabled(st, step)
    ensures x in Apply(st, step).sh.queue <==>
              (x in st.sh.queue && !Leaves(st, step, x)) || Enters(st, step, x)
  {
    var sh := st.sh;
    hide EntryInv, TableInv, WakeInv, SizeInv, FirstOf, NobodyLiveAhead;
    hide CancelEntry, SetBid, DrainOnStop, Admit, Pop, RemoveEntry, Others, Sort;
    match step
    case AdmitRequest(c) => if !Full(sh) { AdmittedPending(sh, c, x); }
    case SetBidOf(c, b) => RebidPending(sh, c, b, x);
    case CancelOne(c) => CancelledOnePending(sh, c, x);
    case CancelAllPending(c) => OthersMember(sh.queue, sh.table, c, x);
    case Remove(c) => OthersMember(sh.queue, sh.table, c, x);
    case DrainStop => NonePending(sh);
    case Leave(i) => LeftPending(sh, i, x);
    case PopNext => PoppedPending(sh, x);
    case _ =>
  }

  lemma NonePending(sh: Shared)
    requires Fits(sh)
    ensures DrainOnStop(sh).queue == []
  {
  }

  lemma RebidPending(sh: Shared, c: ContainerId, b: int, x: Id)
    requires Fits(sh)
    ensures x in SetBid(sh, c, b).queue <==> x in sh.queue
  {
    SortElements(sh.queue, Rebid(sh.table, sh.queue, c, b), x);
    hide Sort;
  }

  /** The order among pending requests after the step: a re-bid and an admission put the higher bid first and keep the
      order of equal ones, a new request counting as last; nothing else changes the order. */
  ghost predicate OrderAfter(st: State, step: Step, st': State, x: Id, y: Id)
    requires x in st'.sh.table && y in st'.sh.table
  {
    var ofX, ofY := st'.sh.table[x].bid, st'.sh.table[y].bid;
    Before(st'.sh.queue, x, y) <==>
      if step.SetBidOf? || step.AdmitRequest?
      then ofX > ofY || (ofX == ofY && (Before(st.sh.queue, x, y) || Enters(st, step, y)))
      else Before(st.sh.queue, x, y)
  }

  lemma AdmittedOrder(st: State, c: ContainerId, x: Id, y: Id)
    requires Inv(st) && c in st.tickets && x != y
    requires x in Apply(st, AdmitRequest(c)).sh.queue && y in Apply(st, AdmitRequest(c)).sh.queue
    ensures x in Apply(st, AdmitRequest(c)).sh.table && y in Apply(st, AdmitRequest(c)).sh.table
    ensures OrderAfter(st, AdmitRequest(c), Apply(st, AdmitRequest(c)), x, y)
  {
    var sh := st.sh;
    if Full(sh) {
      BeforeSorted(sh, x, y);
    } else {
      var t := sh.table[sh.next := Entry(c, StandingBid(sh, c), false, false, [])];
      var long := sh.queue + [sh.next];
      assert sh.next !in sh.queue && InTable(long, t) && Distinct(long);
      assert Apply(st, AdmitRequest(c)).sh.queue == Sort(long, t) && Apply(st, AdmitRequest(c)).sh.table == t;
      hide Apply, Sort, StandingBid, Inv;
      SortElements(long, t, x);
      SortElements(long, t, y);
      SortedBeforeIff(long, t, x, y);
      AppendBefore(sh.queue, sh.next, x, y);
      hide Before;
    }
  }

  /** The order of a queue that is in order. */
  lemma BeforeSorted(sh: Shared, x: Id, y: Id)
    requires Ordered(sh) && x in sh.queue && y in sh.queue && x != y
    ensures x in sh.table && y in sh.table
    ensures var ofX, ofY := sh.table[x].bid, sh.table[y].bid;
            Before(sh.queue, x, y) <==> ofX > ofY || (ofX == ofY && Before(sh.queue, x, y))
  {
    BeforeTotal(sh.queue, x, y);
    if Before(sh.queue, x, y) {
      var i, j :| 0 <= i < j < |sh.queue| && sh.queue[i] == x && sh.queue[j] == y;
    } else {
      var i, j :| 0 <= i < j < |sh.queue| && sh.queue[i] == y && sh.queue[j] == x;
    }
  }

  lemma RebidOrder(st: State, c: ContainerId, b: int, x: Id, y: Id)
    requires Inv(st) && x in st.sh.queue && y in st.sh.queue && x != y
    ensures x in SetBid(st.sh, c, b).table && y in SetBid(st.sh, c, b).table
    ensures OrderAfter(st, SetBidOf(c, b), st.(sh := SetBid(st.sh, c, b)), x, y)
  {
    SortedBeforeIff(st.sh.queue, Rebid(st.sh.table, st.sh.queue, c, b), x, y);
    hide Before, Sort;
  }

  lemma CancelledOneOrder(sh: Shared, c: ContainerId, x: Id, y: Id)
    requires Fits(sh) && Ordered(sh) && x in CancelEntry(sh, c).queue && y in CancelEntry(sh, c).queue
    ensures Before(CancelEntry(sh, c).queue, x, y) <==> Before(sh.queue, x, y)
  {
    var k := FindLive(sh.queue, sh.table, c, 0);
    if k < |sh.queue| {
      DeleteBefore(sh.queue, k, x, y);
    }
    hide Before, Delete;
  }

  lemma LeftOrder(sh: Shared, i: Id, x: Id, y: Id)
    requires Fits(sh) && Ordered(sh) && x in RemoveEntry(sh, i).queue && y in RemoveEntry(sh, i).queue
    ensures Before(RemoveEntry(sh, i).queue, x, y) <==> Before(sh.queue, x, y)
  {
    var k := IndexOf(sh.queue, i, 0);
    if k < |sh.queue| {
      DeleteBefore(sh.queue, k, x, y);
    }
    hide Before, Delete;
  }

  lemma PoppedOrder(sh: Shared, x: Id, y: Id)
    requires Fits(sh) && Ordered(sh) && x in Pop(sh).1.queue && y in Pop(sh).1.queue
    ensures Before(Pop(sh).1.queue, x, y) <==> Before(sh.queue, x, y)
  {
    var q := sh.queue;
    var d := |q| - |DropCancelled(q, sh.table)|;
    PopAfterDrop(sh, d);
    hide Pop, DropCancelled, Before;
    if d < |q| {
      assert q[d..][1..] == q[d+1..];
      SuffixBefore(q, d + 1, x, y);
    }
  }

  lemma ShorterOrder(st: State, step: Step, x: Id, y: Id)
    requires Inv(st) && Enabled(st, step) && (step.CancelOne? || step.Leave? || step.PopNext?)
    requires x in Apply(st, step).sh.queue && y in Apply(st, step).sh.queue
    ensures Before(Apply(st, step).sh.queue, x, y) <==> Before(st.sh.queue, x, y)
  {
    assert Ordered(st.sh);
    hide Inv, Before, Ordered, CancelEntry, RemoveEntry, Pop, Enabled;
    match step
    case CancelOne(c) => CancelledOneOrder(st.sh, c, x, y);
    case Leave(i) => LeftOrder(st.sh, i, x, y);
    case PopNext => PoppedOrder(st.sh, x, y);
  }

  lemma FilteredOrder(st: State, step: Step, x: Id, y: Id)
    requires Inv(st) && Enabled(st, step) && (step.CancelAllPending? || step.Remove? || step.DrainStop?)
    requires x in Apply(st, step).sh.queue && y in Apply(st, step).sh.queue
    ensures Before(Apply(st, step).sh.queue, x, y) <==> Before(st.sh.queue, x, y)
  {
    assert Ordered(st.sh);
    hide Inv, Before, Others;
    match step
    case CancelAllPending(c) => OthersBefore(st.sh.queue, st.sh.table, c, x, y);
    case Remove(c) => OthersBefore(st.sh.queue, st.sh.table, c, x, y);
    case DrainStop =>
  }

  lemma OtherStepOrder(st: State, step: Step)
    requires Fits(st.sh) && Enabled(st, step)
    requires !step.SetBidOf? && !step.AdmitRequest? && !step.CancelOne? && !step.Leave? && !step.PopNext?
    requires !step.CancelAllPending? && !step.Remove? && !step.DrainStop?
    ensures Apply(st, step).sh.queue == st.sh.queue
  {
  }

  /** Every step, for every two requests pending after it: which is served first. */
  lemma StepOrder(st: State, step: Step, x: Id, y: Id)
    requires Inv(st) && Enabled(st, step) && x != y
    requires x in Apply(st, step).sh.queue && y in Apply(st, step).sh.queue
    ensures Inv(Apply(st, step)) && x in Apply(st, step).sh.table && y in Apply(st, step).sh.table
    ensures OrderAfter(st, step, Apply(st, step), x, y)
  {
    StepInv(st, step);
    assert Ordered(Apply(st, step).sh) && Ordered(st.sh);
    hide Inv, Before, Enabled, Ordered;
    if step.AdmitRequest? {
      assert step.c in st.tickets by { assert Enabled(st, AdmitRequest(step.c)); }
      AdmittedOrder(st, step.c, x, y);
      hide Apply, OrderAfter;
    } else if step.SetBidOf? {
      assert Apply(st, step).sh == SetBid(st.sh, step.c, step.bid);
      hide Apply;
      RebidPending(st.sh, step.c, step.bid, x);
      RebidPending(st.sh, step.c, step.bid, y);
      RebidOrder(st, step.c, step.bid, x, y);
      hide SetBid;
    } else {
      hide Apply;
      if step.CancelOne? || step.Leave? || step.PopNext? {
        ShorterOrder(st, step, x, y);
      } else if step.CancelAllPending? || step.Remove? || step.DrainStop? {
        FilteredOrder(st, step, x, y);
      } else {
        OtherStepOrder(st, step);
      }
    }
  }

  // ----- Admission -----

  /** A request is refused exactly when as many as configured are pending; otherwise it is the one new request, with
      nothing sent, at the standing bid of its container unless that is missing or zero, and then at the default. */
  lemma AdmissionLaw(st: State, c: ContainerId)
    requires Inv(st) && c in st.tickets
    ensures var st' := Apply(st, AdmitRequest(c)); var x := st.sh.next;
            && (x in st'.sh.table <==> |st.sh.queue| < st.sh.maxSize)
            && (x in st'.sh.table ==>
                  && st'.sh.table.Keys == st.sh.table.Keys + {x} && st'.sh.next == x + 1
                  && st'.sh.table[x].container == c && st'.sh.table[x].sent == []
                  && !st'.sh.table[x].cancelled && !st'.sh.table[x].ctxDone
                  && (c in st.sh.bids && st.sh.bids[c] != 0 ==> st'.sh.table[x].bid == st.sh.bids[c])
                  && (c !in st.sh.bids || st.sh.bids[c] == 0 ==> st'.sh.table[x].bid == st.sh.defaultBid))
            && (x !in st'.sh.table ==> st'.sh == st.sh)
            && st'.tickets == st.tickets - multiset{c}
  {
    assert st.sh.next !in st.sh.table;
    hide Sort, Inv;
  }

  /** The configured size of a new queue is kept if it is positive, and is 50 otherwise. */
  lemma StartLaw(maxSize: int, defaultBid: int)
    ensures var sh := Start(maxSize, defaultBid).sh;
            && sh.maxSize == (if maxSize >= 1 then maxSize else 50) && sh.defaultBid == defaultBid
            && sh.queue == [] && sh.table == map[] && sh.active == None && sh.bids == map[] && !sh.wake && !sh.done
            && sh.next == 0
  {
  }

  // ----- Everything that is not a request -----

  /** The other fields of the shared state after a step. */
  ghost predicate SettingsAfter(st: State, step: Step, sh: Shared)
  {
    && (forall c :: c in sh.bids <==>
          (c in st.sh.bids && step != Remove(c)) || (step.SetBidOf? && step.c == c))
    && (forall c | c in sh.bids :: sh.bids[c] ==
          if step.SetBidOf? && step.c == c then step.bid else if c in st.sh.bids then st.sh.bids[c] else 0)
    && sh.maxSize == (if step.SetMaxSize? then step.n else st.sh.maxSize)
    && sh.defaultBid == (if step.SetDefaultBid? then step.bid else st.sh.defaultBid)
    && (sh.wake <==> step.Signal? || (st.sh.wake && step != TakeWake))
    && (sh.done <==> step == CloseDone || st.sh.done)
    && sh.active == (if step == Deactivate then None
                     else if step == Activate && st.proc.Popped? then Some(st.proc.id)
                     else st.sh.active)
    && (!step.AdmitRequest? ==> sh.next == st.sh.next && sh.table.Keys == st.sh.table.Keys)
  }

  lemma CancelSettings(st: State, step: Step)
    requires Fits(st.sh) && Enabled(st, step)
    requires step.CancelOne? || step.CancelAllPending? || step.Remove? || step.DrainStop? || step.Leave?
    ensures SettingsAfter(st, step, Apply(st, step).sh)
  {
    hide Others, FindLive, IndexOf;
  }

  lemma BidSettings(st: State, step: Step)
    requires Fits(st.sh) && Enabled(st, step)
    requires step.AdmitRequest? || step.SetBidOf? || step.PopNext?
    ensures SettingsAfter(st, step, Apply(st, step).sh)
  {
    hide Sort, DropCancelled, StandingBid;
  }

  lemma StepSettings(st: State, step: Step)
    requires Fits(st.sh) && Enabled(st, step)
    ensures SettingsAfter(st, step, Apply(st, step).sh)
  {
    match step
    case CancelOne(_) => CancelSettings(st, step); hide Apply, SettingsAfter;
    case CancelAllPending(_) => CancelSettings(st, step); hide Apply, SettingsAfter;
    case Remove(_) => CancelSettings(st, step); hide Apply, SettingsAfter;
    case DrainStop => CancelSettings(st, step); hide Apply, SettingsAfter;
    case Leave(_) => CancelSettings(st, step); hide Apply, SettingsAfter;
    case AdmitRequest(_) => BidSettings(st, step); hide Apply, SettingsAfter;
    case SetBidOf(_, _) => BidSettings(st, step); hide Apply, SettingsAfter;
    case PopNext => BidSettings(st, step); hide Apply, SettingsAfter;
    case _ => hide Enabled;
  }

  /** What the processor holds next: a pop takes the live request with nobody live ahead, or finds nobody live. */
  lemma PopLaw(st: State, i: Id)
    requires Inv(st) && st.proc.Draining?
    ensures var p := Apply(st, PopNext).proc;
            && (p == Popped(i) <==> Pending(st.sh, i) && NobodyLiveAhead(st.sh, i))
            && (p == Idle <==> forall x :: !Pending(st.sh, x))
            && (p == Idle || p.Popped?)
  {
    var next := Pop(st.sh).0;
    assert Apply(st, PopNext).proc == if next.Some? then Popped(next.value) else Idle;
    PoppedPending(st.sh, i);
    hide Pop, NobodyLiveAhead, Apply, Inv;
  }

  // ----- What follows for callers -----

  /** A bid set for c reaches every pending live request of c and no other request, is the bid of c's next request if
      it is not zero, and moves nobody else's standing bid. */
  lemma RebidReaches(st: State, c: ContainerId, b: int, i: Id)
    requires Inv(st) && i in st.sh.table
    ensures var sh := Apply(st, SetBidOf(c, b)).sh;
            && i in sh.table && sh.table[i].bid == (if PendingOf(st.sh, c, i) then b else st.sh.table[i].bid)
            && (i in sh.queue <==> i in st.sh.queue) && sh.table[i].cancelled == st.sh.table[i].cancelled
            && c in sh.bids && sh.bids[c] == b
            && forall d | d != c :: (d in sh.bids <==> d in st.sh.bids) && (d in st.sh.bids ==> sh.bids[d] == st.sh.bids[d])
  {
    StepEntry(st, SetBidOf(c, b), i);
    StepPending(st, SetBidOf(c, b), i);
    StepSettings(st, SetBidOf(c, b));
    hide Apply, Inv;
  }

  /** The only pending request of c, raised or lowered by a re-bid, overtakes exactly the requests it now outbids and
      is overtaken by those that now outbid it. */
  lemma RebidOvertakes(st: State, c: ContainerId, b: int, e: Id, x: Id)
    requires Inv(st) && OnlyPending(st.sh, c, e) && x in st.sh.queue && x != e
    ensures e in st.sh.table && x in st.sh.table
    ensures var q, was, other := Apply(st, SetBidOf(c, b)).sh.queue, st.sh.table[e].bid, st.sh.table[x].bid;
            && (b > was ==> (Before(q, e, x) <==> other < b))
            && (b < was ==> (Before(q, x, e) <==> other > b))
            && (b == was ==> (Before(q, e, x) <==> Before(st.sh.queue, e, x)))
  {
    var st' := Apply(st, SetBidOf(c, b));
    RebidReaches(st, c, b, e);
    RebidReaches(st, c, b, x);
    StepOrder(st, SetBidOf(c, b), e, x);
    StepOrder(st, SetBidOf(c, b), x, e);
    OrderOfPair(st.sh, e, x);
    OrderOfPair(st'.sh, e, x);
    assert !(PendingOf(st.sh, c, x));
    hide Apply, Inv, Before;
  }

  lemma OrderOfPair(sh: Shared, x: Id, y: Id)
    requires Ordered(sh) && x in sh.queue && y in sh.queue && x != y
    ensures x in sh.table && y in sh.table
    ensures Before(sh.queue, x, y) <==> !Before(sh.queue, y, x)
    ensures Before(sh.queue, x, y) ==> sh.table[x].bid >= sh.table[y].bid
  {
    BeforeTotal(sh.queue, x, y);
    if Before(sh.queue, x, y) {
      NotBothBefore(sh.queue, x, y);
      var i, j :| 0 <= i < j < |sh.queue| && sh.queue[i] == x && sh.queue[j] == y;
    }
  }

  /** Raised above every other live bid, it is the next one served. */
  lemma RaisedIsNext(st: State, c: ContainerId, b: int, e: Id)
    requires Inv(st) && st.proc.Draining? && OnlyPending(st.sh, c, e)
    requires forall x | Pending(st.sh, x) && x != e :: st.sh.table[x].bid < b
    ensures var st' := Apply(st, SetBidOf(c, b));
            st'.proc.Draining? && Inv(st') && Apply(st', PopNext).proc == Popped(e)
  {
    var st' := Apply(st, SetBidOf(c, b));
    StepInv(st, SetBidOf(c, b));
    RebidReaches(st, c, b, e);
    forall x | Before(st'.sh.queue, x, e) ensures x in st'.sh.table && st'.sh.table[x].cancelled {
      assert x in st'.sh.queue && Ordered(st'.sh);
      RebidReaches(st, c, b, x);
      OrderOfPair(st'.sh, x, e);
    }
    PopLaw(st', e);
    hide Inv, OnlyPending;
  }

  // ----- Over whole runs -----

  /** All that the steps of a run put on the result channel of i. */
  ghost function AnswersAlong(st: State, steps: seq<Step>, i: Id): seq<Outcome>
    decreases |steps|
  {
    if steps == [] || !Fits(st.sh) || !Enabled(st, steps[0]) then []
    else Answer(st, steps[0], i) + AnswersAlong(Apply(st, steps[0]), steps[1..], i)
  }

  lemma NewRequestUnanswered(st: State, step: Step, i: Id)
    requires Inv(st) && Enabled(st, step) && i !in st.sh.table
    ensures Answer(st, step, i) == []
    ensures i in Apply(st, step).sh.table ==> Apply(st, step).sh.table[i].sent == []
  {
    if step.AdmitRequest? {
      AdmissionLaw(st, step.c);
    } else {
      StepSettings(st, step);
      assert i !in Apply(st, step).sh.table.Keys;
    }
    hide Apply;
  }

  function SentSoFar(st: State, i: Id): seq<Outcome>
  {
    if i in st.sh.table then st.sh.table[i].sent else []
  }

  lemma OneStepAnswers(st: State, step: Step, i: Id)
    requires Inv(st) && Enabled(st, step)
    ensures Inv(Apply(st, step)) && SentSoFar(Apply(st, step), i) == SentSoFar(st, i) + Answer(st, step, i)
  {
    StepInv(st, step);
    if i in st.sh.table {
      StepEntry(st, step, i);
    } else {
      NewRequestUnanswered(st, step, i);
    }
    hide Inv, Apply, Enabled, Answer;
  }

  /** What a request got is what the steps of the run gave it. */
  lemma {:induction false} RunAnswers(st: State, steps: seq<Step>, st': State, i: Id)
    requires Inv(st) && Reaches(st, steps, st') && i in st'.sh.table
    ensures st'.sh.table[i].sent == SentSoFar(st, i) + AnswersAlong(st, steps, i)
    decreases |steps|
  {
    hide Inv, Apply, Enabled, Answer, Fits;
    if steps == [] {
      assert st' == st;
    } else {
      var next, rest := Apply(st, steps[0]), steps[1..];
      OneStepAnswers(st, steps[0], i);
      RunAnswers(next, rest, st', i);
      Regroup(SentSoFar(st, i), Answer(st, steps[0], i), AnswersAlong(next, rest, i));
      hide SentSoFar;
    }
  }

  lemma Regroup(a: seq<Outcome>, b: seq<Outcome>, c: seq<Outcome>)
    ensures (a + b) + c == a + (b + c)
  {
  }

  /** In every reachable state a request got one answer at most, and got it from one step: a reply because it was served,
      "cancelled" because it was the first live request of its container when that was cancelled, "frozen" or "removed"
      because it was pending when its container was, "shutting down" because it was pending at Stop. */
  lemma AnswerTellsWhy(maxSize: int, defaultBid: int, steps: seq<Step>, st: State, i: Id)
    requires Reaches(Start(maxSize, defaultBid), steps, st) && i in st.sh.table
    ensures st.sh.table[i].sent == AnswersAlong(Start(maxSize, defaultBid), steps, i)
    ensures |AnswersAlong(Start(maxSize, defaultBid), steps, i)| <= 1
  {
    StartInv(maxSize, defaultBid);
    RunAnswers(Start(maxSize, defaultBid), steps, st, i);
    RequestFate(maxSize, defaultBid, steps, st, i);
    hide AnswersAlong, Reaches, Inv;
  }
}
