/**
 The shared state of the inference queue and what each critical section does to it.
 Every function here is the whole effect of one stretch of code under the queue's mutex
 (or of one atomic operation or channel operation outside it).
 */
module QueueState {
  import opened Model
  import opened QueueOrder

  datatype Shared = Shared(
    table: Table,              // every request admitted so far
    queue: seq<Id>,            // pending requests, in service order
    active: Option<Id>,
    bids: map<ContainerId, int>,    // standing bids
    maxSize: int,
    defaultBid: int,
    wake: bool,                // the one-slot wake channel
    done: bool,
    next: Id)

  const NEW_QUEUE_SIZE := 50

  function Init(maxSize: int, defaultBid: int): Shared
  {
    Shared(map[], [], None, map[], if maxSize <= 0 then NEW_QUEUE_SIZE else maxSize, defaultBid, false, false, 0)
  }

  ghost predicate Fits(s: Shared)
  {
    && InTable(s.queue, s.table)
    && (s.active.Some? ==> s.active.value in s.table)
  }

  // ----- Admission -----

  predicate Live(t: Table, i: Id)
    requires i in t
  {
    !t[i].cancelled
  }

  /** The early duplicate check: one pending or active request per container. */
  predicate HasRequest(s: Shared, c: ContainerId)
    requires Fits(s)
  {
    || (s.active.Some? && s.table[s.active.value].container == c)
    || exists k :: 0 <= k < |s.queue| && s.table[s.queue[k]].container == c && Live(s.table, s.queue[k])
  }

  function StandingBid(s: Shared, c: ContainerId): int
  {
    var bid := if c in s.bids then s.bids[c] else 0;
    if bid == 0 then s.defaultBid else bid
  }

  predicate Full(s: Shared)
  {
    |s.queue| >= s.maxSize
  }

  function Admit(s: Shared, c: ContainerId): Shared
    requires Fits(s) && !Full(s)
  {
    var t := s.table[s.next := Entry(c, StandingBid(s, c), false, false, [])];
    s.(table := t, queue := Sort(s.queue + [s.next], t), next := s.next + 1)
  }

  // ----- Bids -----

  function RebidOne(e: Entry, c: ContainerId, bid: int): Entry
  {
    if e.container == c && !e.cancelled then e.(bid := bid) else e
  }

  function Rebid(t: Table, q: seq<Id>, c: ContainerId, bid: int): (out: Table)
    ensures out.Keys == t.Keys
  {
    map i | i in t :: if i in q then RebidOne(t[i], c, bid) else t[i]
  }

  function SetBid(s: Shared, c: ContainerId, bid: int): Shared
    requires Fits(s)
  {
    var t := Rebid(s.table, s.queue, c, bid);
    s.(bids := s.bids[c := bid], table := t, queue := Sort(s.queue, t))
  }

  // ----- Cancellation -----

  function Finish(e: Entry, o: Outcome): Entry
  {
    e.(cancelled := true, ctxDone := true, sent := e.sent + [o])
  }

  /** The first pending live request of c at or after k, or |q|. */
  function FindLive(q: seq<Id>, t: Table, c: ContainerId, k: nat): (i: nat)
    requires InTable(q, t) && k <= |q|
    ensures k <= i <= |q|
    ensures forall j | k <= j < i :: t[q[j]].container != c || t[q[j]].cancelled
    ensures i < |q| ==> t[q[i]].container == c && !t[q[i]].cancelled
    decreases |q| - k
  {
    if k == |q| || (t[q[k]].container == c && !t[q[k]].cancelled) then k else FindLive(q, t, c, k + 1)
  }

  function Delete(q: seq<Id>, k: nat): seq<Id>
    requires k < |q|
  {
    q[..k] + q[k+1..]
  }

  function CancelEntry(s: Shared, c: ContainerId): Shared
    requires Fits(s)
  {
    var k := FindLive(s.queue, s.table, c, 0);
    if k == |s.queue| then s
    else s.(table := s.table[s.queue[k] := Finish(s.table[s.queue[k]], CancelledByUser)], queue := Delete(s.queue, k))
  }

  /** The order-preserving filter the compaction loops stand for. */
  function Others(q: seq<Id>, t: Table, c: ContainerId): (out: seq<Id>)
    requires InTable(q, t)
    ensures InTable(out, t)
  {
    if q == [] then []
    else Others(q[..|q|-1], t, c) + (if t[q[|q|-1]].container == c then [] else [q[|q|-1]])
  }

  function FinishLive(e: Entry, o: Outcome): Entry
  {
    if !e.cancelled then Finish(e, o) else e
  }

  function FinishIf(e: Entry, c: ContainerId, o: Outcome): Entry
  {
    if e.container == c then FinishLive(e, o) else e
  }

  /** Cancels every live request of c among the queued ones. */
  function FinishOf(t: Table, q: seq<Id>, c: ContainerId, o: Outcome): (out: Table)
    ensures out.Keys == t.Keys
  {
    map i | i in t :: if i in q then FinishIf(t[i], c, o) else t[i]
  }

  function FinishAll(t: Table, q: seq<Id>, o: Outcome): (out: Table)
    ensures out.Keys == t.Keys
  {
    map i | i in t :: if i in q then FinishLive(t[i], o) else t[i]
  }

  function CancelCtx(t: Table, i: Id): Table
    requires i in t
  {
    t[i := t[i].(ctxDone := true)]
  }

  function CancelActive(s: Shared, c: ContainerId): Shared
    requires Fits(s)
  {
    if s.active.Some? && s.table[s.active.value].container == c
    then s.(table := CancelCtx(s.table, s.active.value))
    else s
  }

  function CancelContainer(s: Shared, c: ContainerId, o: Outcome): Shared
    requires Fits(s)
  {
    var s' := s.(table := FinishOf(s.table, s.queue, c, o), queue := Others(s.queue, s.table, c));
    CancelActive(s', c)
  }

  function RemoveContainer(s: Shared, c: ContainerId): Shared
    requires Fits(s)
  {
    CancelContainer(s.(bids := s.bids - {c}), c, ContainerRemoved)
  }

  /** The locked part of Stop; `done` is closed before it. */
  function DrainOnStop(s: Shared): Shared
    requires Fits(s)
  {
    var t := FinishAll(s.table, s.queue, ShuttingDown);
    s.(queue := [], table := if s.active.Some? then CancelCtx(t, s.active.value) else t)
  }

  /** The first place of i at or after k, or |q|. */
  function IndexOf(q: seq<Id>, i: Id, k: nat): (j: nat)
    requires k <= |q|
    ensures k <= j <= |q|
    ensures forall x | k <= x < j :: q[x] != i
    ensures j < |q| ==> q[j] == i
    decreases |q| - k
  {
    if k == |q| || q[k] == i then k else IndexOf(q, i, k + 1)
  }

  function RemoveEntry(s: Shared, i: Id): Shared
  {
    var k := IndexOf(s.queue, i, 0);
    if k == |s.queue| then s else s.(queue := Delete(s.queue, k))
  }

  // ----- The processor -----

  function DropCancelled(q: seq<Id>, t: Table): (out: seq<Id>)
    requires InTable(q, t)
    ensures InTable(out, t)
    ensures |out| <= |q| && out == q[|q|-|out|..]
    ensures forall k | 0 <= k < |q| - |out| :: t[q[k]].cancelled
    ensures out != [] ==> !t[out[0]].cancelled
  {
    if q == [] || !t[q[0]].cancelled then q else DropCancelled(q[1..], t)
  }

  function Pop(s: Shared): (r: (Option<Id>, Shared))
    requires Fits(s)
  {
    var rest := DropCancelled(s.queue, s.table);
    if rest == [] then (None, s.(queue := [])) else (Some(rest[0]), s.(queue := rest[1..]))
  }

  /** What a pop leaves, given how many cancelled requests it met in front. */
  lemma PopAfterDrop(s: Shared, n: nat)
    requires Fits(s) && n == |s.queue| - |DropCancelled(s.queue, s.table)|
    ensures Fits(Pop(s).1)
    ensures n == |s.queue| ==> Pop(s) == (None, s.(queue := []))
    ensures n < |s.queue| ==> Pop(s) == (Some(s.queue[n]), s.(queue := s.queue[n..][1..]))
  {
  }

  function Send(s: Shared, i: Id, o: Outcome): Shared
    requires i in s.table
  {
    s.(table := s.table[i := s.table[i].(sent := s.table[i].sent + [o])])
  }

  function MarkCancelled(s: Shared, i: Id): Shared
    requires i in s.table
  {
    s.(table := s.table[i := s.table[i].(cancelled := true)])
  }

  // ----- What the pieces do to membership, order and duplicates -----

  ghost predicate Ordered(s: Shared)
  {
    InTable(s.queue, s.table) && Distinct(s.queue) && Sorted(s.queue, s.table)
  }

  lemma {:induction false} OthersMember(q: seq<Id>, t: Table, c: ContainerId, x: Id)
    requires InTable(q, t)
    ensures x in Others(q, t, c) <==> x in q && t[x].container != c
  {
    if q != [] {
      OthersMember(q[..|q|-1], t, c, x);
      assert q == q[..|q|-1] + [q[|q|-1]];
    }
  }

  lemma {:induction false} OthersOrdered(q: seq<Id>, t: Table, c: ContainerId)
    requires InTable(q, t) && Distinct(q) && Sorted(q, t)
    ensures |Others(q, t, c)| <= |q|
    ensures Distinct(Others(q, t, c)) && Sorted(Others(q, t, c), t)
  {
    if q != [] {
      var front, last := q[..|q|-1], q[|q|-1];
      OthersOrdered(front, t, c);
      var out := Others(front, t, c);
      forall k | 0 <= k < |out| ensures out[k] != last && t[out[k]].bid >= t[last].bid {
        OthersMember(front, t, c, out[k]);
        var j :| 0 <= j < |front| && front[j] == out[k];
      }
    }
  }

  lemma DeleteFacts(q: seq<Id>, k: nat)
    requires Distinct(q) && k < |q|
    ensures forall x :: x in Delete(q, k) <==> x in q && x != q[k]
    ensures Distinct(Delete(q, k))
    ensures forall t: Table | InTable(q, t) :: InTable(Delete(q, k), t) && (Sorted(q, t) ==> Sorted(Delete(q, k), t))
  {
    var out := Delete(q, k);
    forall x ensures x in out <==> x in q && x != q[k] {
      if x in q && x != q[k] {
        var j :| 0 <= j < |q| && q[j] == x;
        assert out[if j < k then j else j - 1] == x;
      }
    }
  }

  lemma SortFacts(q: seq<Id>, t: Table)
    requires InTable(q, t) && Distinct(q)
    ensures forall x :: x in Sort(q, t) <==> x in q
    ensures Distinct(Sort(q, t)) && Sorted(Sort(q, t), t)
  {
    SortIsStable(q, t);
    SortDistinct(q, t);
    forall x ensures x in Sort(q, t) <==> x in q {
      SortElements(q, t, x);
    }
  }

  lemma SuffixOrdered(q: seq<Id>, t: Table, k: nat)
    requires k <= |q| && InTable(q, t) && Distinct(q) && Sorted(q, t)
    ensures InTable(q[k..], t) && Distinct(q[k..]) && Sorted(q[k..], t)
  {
    assert forall j | 0 <= j < |q| - k :: q[k..][j] == q[k + j];
  }

  lemma PopOrdered(s: Shared)
    requires Fits(s) && Ordered(s)
    ensures Ordered(Pop(s).1) && |Pop(s).1.queue| <= |s.queue|
  {
    var rest := DropCancelled(s.queue, s.table);
    SuffixOrdered(s.queue, s.table, |s.queue| - |rest|);
    if rest != [] {
      SuffixOrdered(rest, s.table, 1);
    }
  }

  /** A pop takes the first live request, in place d, with cancelled ones only in front of it. */
  lemma PopShape(s: Shared) returns (d: nat)
    requires Fits(s)
    ensures d <= |s.queue| && forall k | 0 <= k < d :: s.table[s.queue[k]].cancelled
    ensures d == |s.queue| ==> Pop(s) == (None, s.(queue := []))
    ensures d < |s.queue| ==>
              !s.table[s.queue[d]].cancelled && Pop(s) == (Some(s.queue[d]), s.(queue := s.queue[d+1..]))
  {
    d := |s.queue| - |DropCancelled(s.queue, s.table)|;
    PopAfterDrop(s, d);
    if d < |s.queue| {
      assert s.queue[d..][0] == s.queue[d] && s.queue[d..][1..] == s.queue[d+1..];
    }
  }

  /** In front of place d, at it, or behind it. */
  lemma AroundMember(q: seq<Id>, d: nat, x: Id)
    requires d < |q| && Distinct(q)
    ensures x in q <==> (exists k :: 0 <= k < d && q[k] == x) || x == q[d] || x in q[d+1..]
    ensures q[d] !in q[d+1..]
  {
    var tail := q[d+1..];
    forall k | 0 <= k < |tail| ensures tail[k] == q[d+1+k] {
    }
    if x in q {
      var k :| 0 <= k < |q| && q[k] == x;
      if k > d {
        assert tail[k-d-1] == x;
      }
    }
  }

  /** A pop drops cancelled entries only, and hands out the live entry it removes. */
  lemma PopMember(s: Shared, x: Id)
    requires Fits(s) && Ordered(s)
    ensures x in Pop(s).1.queue ==> x in s.queue && Pop(s).0 != Some(x)
    ensures x in s.queue ==> x in Pop(s).1.queue || Pop(s).0 == Some(x) || s.table[x].cancelled
    ensures Pop(s).0 == Some(x) ==> x in s.queue && !s.table[x].cancelled
  {
    hide Pop, Sorted;
    var d := PopShape(s);
    if d < |s.queue| {
      AroundMember(s.queue, d, x);
      hide Distinct;
    }
  }

  // ----- What the pieces do to relative order -----

  lemma DeleteBefore(q: seq<Id>, k: nat, a: Id, b: Id)
    requires k < |q| && Distinct(q) && a in Delete(q, k) && b in Delete(q, k)
    ensures Before(Delete(q, k), a, b) <==> Before(q, a, b)
  {
    var out := Delete(q, k);
    forall i, j | 0 <= i < j < |out| ensures Before(q, out[i], out[j]) {
      assert q[if i < k then i else i + 1] == out[i] && q[if j < k then j else j + 1] == out[j];
    }
    SubsequenceBefore(q, out, a, b);
  }

  lemma {:induction false} OthersInOrder(q: seq<Id>, t: Table, c: ContainerId, i: nat, j: nat)
    requires InTable(q, t) && i < j < |Others(q, t, c)|
    ensures Before(q, Others(q, t, c)[i], Others(q, t, c)[j])
  {
    var front, last, out := q[..|q|-1], q[|q|-1], Others(q, t, c);
    if j < |Others(front, t, c)| {
      OthersInOrder(front, t, c, i, j);
      var x, y :| 0 <= x < y < |front| && front[x] == out[i] && front[y] == out[j];
      assert q[x] == out[i] && q[y] == out[j];
    } else {
      OthersMember(front, t, c, out[i]);
      assert out[i] in Others(front, t, c);
      var x :| 0 <= x < |front| && front[x] == out[i];
      assert q[x] == out[i] && q[|q|-1] == out[j];
    }
  }

  lemma OthersBefore(q: seq<Id>, t: Table, c: ContainerId, a: Id, b: Id)
    requires InTable(q, t) && Distinct(q) && a in Others(q, t, c) && b in Others(q, t, c)
    ensures Before(Others(q, t, c), a, b) <==> Before(q, a, b)
  {
    var out := Others(q, t, c);
    forall i, j | 0 <= i < j < |out| ensures Before(q, out[i], out[j]) {
      OthersInOrder(q, t, c, i, j);
    }
    SubsequenceBefore(q, out, a, b);
  }
}
