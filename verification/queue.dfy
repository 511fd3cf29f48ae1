/**
 The inference queue as it runs: request objects, a Go slice over a shared backing array, and
 loops that compact, shift and sort it in place. Each method of Queue is the code of one critical
 section; its whole effect is a function of QueueState.
 */
module OllamaQueue {
  import opened Model
  import opened QueueOrder
  import QS = QueueState

  class Request {
    ghost const id: Id
    const container: ContainerId
    var bid: int
    var cancelled: bool
    var ctxDone: bool
    var resultCh: Option<Outcome>   // a channel with one slot

    constructor (ghost id: Id, container: ContainerId, bid: int)
      ensures this.id == id && Matches(Entry(container, bid, false, false, []))
    {
      this.id, this.container, this.bid := id, container, bid;
      cancelled, ctxDone, resultCh := false, false, None;
    }

    /** This object is in state e; its channel holds what was sent, or nothing once received. */
    ghost predicate Matches(e: Entry)
      reads this
    {
      && container == e.container && bid == e.bid && cancelled == e.cancelled && ctxDone == e.ctxDone
      && (resultCh.Some? ==> |e.sent| == 1 && e.sent[0] == resultCh.value)
    }

    /** Sending needs the slot free: a second value would block the sender. */
    method Send(o: Outcome, ghost e: Entry)
      requires Matches(e) && e.sent == []
      modifies `resultCh
      ensures resultCh == Some(o) && Matches(e.(sent := e.sent + [o]))
    {
      resultCh := Some(o);
    }

    method Receive(ghost e: Entry) returns (o: Outcome)
      requires Matches(e) && resultCh.Some?
      modifies `resultCh
      ensures |e.sent| == 1 && o == e.sent[0] && resultCh == None && Matches(e)
    {
      o := resultCh.value;
      resultCh := None;
    }

    /** Sets the flag, cancels the context and sends; the flag was seen unset. */
    method Finish(o: Outcome, ghost e: Entry)
      requires Matches(e) && e.sent == [] && !cancelled
      modifies this
      ensures Matches(QS.Finish(e, o))
    {
      cancelled := true;
      ctxDone := true;
      resultCh := Some(o);
    }
  }

  ghost function Ids(s: seq<Request>): (out: seq<Id>)
    ensures |out| == |s| && forall k | 0 <= k < |s| :: out[k] == s[k].id
  {
    seq(|s|, k requires 0 <= k < |s| => s[k].id)
  }

  /** was holds the requests q, in the states t gives them. */
  ghost predicate Mirrors(was: seq<Request>, q: seq<Id>, t: Table)
    reads was
  {
    && |was| == |q|
    && forall k | 0 <= k < |q| :: q[k] in t && was[k].id == q[k] && was[k].Matches(t[q[k]])
  }

  // ----- Searching loops -----

  method FindPending(a: array<Request>, lo: nat, hi: nat, c: ContainerId, ghost q: seq<Id>, ghost t: Table)
    returns (k: nat)
    requires lo <= hi <= a.Length && Mirrors(a[lo..hi], q, t)
    ensures k == QS.FindLive(q, t, c, 0)
  {
    k := 0;
    ghost var was := a[lo..hi];
    assert forall x | 0 <= x < |was| :: was[x] == a[lo+x];
    while lo + k < hi && !(a[lo+k].container == c && !a[lo+k].cancelled)
      invariant lo + k <= hi
      invariant QS.FindLive(q, t, c, 0) == QS.FindLive(q, t, c, k)
    {
      assert was[k].Matches(t[q[k]]);
      k := k + 1;
    }
    assert k < |q| ==> was[k].Matches(t[q[k]]);
  }

  /** Finds a request by identity; ids name requests, so by id. */
  method FindRequest(a: array<Request>, lo: nat, hi: nat, target: Request, ghost q: seq<Id>) returns (k: nat)
    requires lo <= hi <= a.Length && q == Ids(a[lo..hi])
    requires forall x | lo <= x < hi :: a[x].id == target.id ==> a[x] == target
    ensures k == QS.IndexOf(q, target.id, 0)
  {
    k := 0;
    assert forall x | 0 <= x < |q| :: q[x] == a[lo+x].id;
    while lo + k < hi && a[lo+k] != target
      invariant lo + k <= hi
      invariant QS.IndexOf(q, target.id, 0) == QS.IndexOf(q, target.id, k)
    {
      k := k + 1;
    }
  }

  lemma DropOne(q: seq<Id>, t: Table, n: nat)
    requires InTable(q, t) && n <= |q|
    ensures QS.DropCancelled(q[n..], t) ==
            if n < |q| && t[q[n]].cancelled then QS.DropCancelled(q[n+1..], t) else q[n..]
  {
    if n < |q| {
      assert q[n..][0] == q[n] && q[n..][1..] == q[n+1..];
    }
  }

  /** The front of the slice popNext throws away: every request before the first live one. */
  method CountCancelled(a: array<Request>, lo: nat, hi: nat, ghost q: seq<Id>, ghost t: Table) returns (n: nat)
    requires lo <= hi <= a.Length && Mirrors(a[lo..hi], q, t)
    ensures InTable(q, t) && n == |q| - |QS.DropCancelled(q, t)|
  {
    hide QS.DropCancelled;
    ghost var was := a[lo..hi];
    assert forall x | 0 <= x < |was| :: was[x] == a[lo+x];
    n := 0;
    assert q[0..] == q;
    while lo + n < hi && a[lo+n].cancelled
      invariant lo + n <= hi
      invariant QS.DropCancelled(q, t) == QS.DropCancelled(q[n..], t)
    {
      assert was[n].Matches(t[q[n]]);
      DropOne(q, t, n);
      n := n + 1;
    }
    DropOne(q, t, n);
    assert n < |q| ==> was[n].Matches(t[q[n]]);
  }

  // ----- Loops that update requests -----

  /** Every live request of was still has nothing sent to it. */
  ghost predicate NothingSent(q: seq<Id>, t: Table)
    requires InTable(q, t)
  {
    forall k | 0 <= k < |q| :: !t[q[k]].cancelled ==> t[q[k]].sent == []
  }

  method RebidAll(a: array<Request>, lo: nat, hi: nat, c: ContainerId, bid: int,
                  ghost was: seq<Request>, ghost q: seq<Id>, ghost t: Table, ghost objs: set<Request>)
    requires lo <= hi <= a.Length && a[lo..hi] == was && Mirrors(was, q, t) && Distinct(was)
    requires forall k | 0 <= k < |was| :: was[k] in objs
    modifies objs
    ensures forall k | 0 <= k < |was| :: was[k].Matches(QS.RebidOne(t[q[k]], c, bid))
  {
    ghost var n := 0;
    assert forall k | 0 <= k < |was| :: was[k] == a[lo+k];
    var i := lo;
    while i < hi
      invariant i == lo + n <= hi
      invariant forall k | n <= k < |was| :: was[k].Matches(t[q[k]])
      invariant forall k | 0 <= k < n :: was[k].Matches(QS.RebidOne(t[q[k]], c, bid))
    {
      assert a[i] == was[n] && was[n].Matches(t[q[n]]);
      if a[i].container == c && !a[i].cancelled {
        a[i].bid := bid;
      }
      n, i := n + 1, i + 1;
    }
  }

  /** The loop of Stop. */
  method FinishEvery(a: array<Request>, lo: nat, hi: nat, o: Outcome,
                     ghost was: seq<Request>, ghost q: seq<Id>, ghost t: Table, ghost objs: set<Request>)
    requires lo <= hi <= a.Length && a[lo..hi] == was && Mirrors(was, q, t) && Distinct(was) && NothingSent(q, t)
    requires forall k | 0 <= k < |was| :: was[k] in objs
    modifies objs
    ensures forall k | 0 <= k < |was| :: was[k].Matches(QS.FinishLive(t[q[k]], o))
  {
    ghost var n := 0;
    assert forall k | 0 <= k < |was| :: was[k] == a[lo+k];
    var i := lo;
    while i < hi
      invariant i == lo + n <= hi
      invariant forall k | n <= k < |was| :: was[k].Matches(t[q[k]])
      invariant forall k | 0 <= k < n :: was[k].Matches(QS.FinishLive(t[q[k]], o))
    {
      assert a[i] == was[n] && was[n].Matches(t[q[n]]);
      if !a[i].cancelled {
        a[i].Finish(o, t[q[n]]);
      }
      n, i := n + 1, i + 1;
    }
  }

  /** Those of the first n requests of s that are not c's, in order. */
  ghost function KeepOthers(s: seq<Request>, n: nat, c: ContainerId): seq<Request>
    requires n <= |s|
  {
    if n == 0 then []
    else if s[n-1].container == c then KeepOthers(s, n - 1, c)
    else KeepOthers(s, n - 1, c) + [s[n-1]]
  }

  /** One turn of the compaction loop, at a[i], with the kept requests ending before a[w]. */
  method CompactOne(a: array<Request>, w: nat, i: nat, c: ContainerId, o: Outcome, ghost e: Entry) returns (w': nat)
    requires w <= i < a.Length && a[i].Matches(e) && (!e.cancelled ==> e.sent == [])
    modifies a, a[i]
    ensures w' == if old(a[i]).container == c then w else w + 1
    ensures forall k | 0 <= k < a.Length :: a[k] == if k == w && w' == w + 1 then old(a[i]) else old(a[k])
    ensures old(a[i]).Matches(QS.FinishIf(e, c, o))
  {
    var r := a[i];
    if r.container == c {
      if !r.cancelled {
        r.Finish(o, e);
      }
      w' := w;
    } else {
      a[w] := r;
      w' := w + 1;
    }
  }

  /**
   The compaction loop of CancelAllPending and RemoveContainer. It writes the kept requests back
   into the array it is still reading from, never past the place it reads.
   */
  method Compact(a: array<Request>, lo: nat, hi: nat, c: ContainerId, o: Outcome,
                 ghost was: seq<Request>, ghost q: seq<Id>, ghost t: Table, ghost objs: set<Request>)
    returns (w: nat)
    requires lo <= hi <= a.Length && a[lo..hi] == was && Mirrors(was, q, t) && Distinct(was) && NothingSent(q, t)
    requires forall k | 0 <= k < |was| :: was[k] in objs
    modifies a, objs
    ensures lo <= w <= hi && a[lo..w] == KeepOthers(was, |was|, c)
    ensures forall k | 0 <= k < |was| :: was[k].Matches(QS.FinishIf(t[q[k]], c, o))
  {
    hide Request.Matches;
    ghost var n := 0;
    assert forall k | 0 <= k < |was| :: was[k] == a[lo+k];
    w := lo;
    var i := lo;
    while i < hi
      invariant lo <= w <= i == lo + n <= hi
      invariant |KeepOthers(was, n, c)| == w - lo
      invariant forall k | 0 <= k < w - lo :: a[lo+k] == KeepOthers(was, n, c)[k]
      invariant forall k | n <= k < |was| :: a[lo+k] == was[k]
      invariant forall k | n <= k < |was| :: was[k].Matches(t[q[k]])
      invariant forall k | 0 <= k < n :: was[k].Matches(QS.FinishIf(t[q[k]], c, o))
    {
      assert a[lo+n] == was[n] && was[n].Matches(t[q[n]]);
      w := CompactOne(a, w, i, c, o, t[q[n]]);
      n, i := n + 1, i + 1;
    }
    assert a[lo..w] == KeepOthers(was, n, c);
  }

  lemma {:induction false} KeepOthersIds(s: seq<Request>, n: nat, t: Table, c: ContainerId)
    requires n <= |s|
    requires forall k | 0 <= k < |s| :: s[k].id in t && t[s[k].id].container == s[k].container
    ensures InTable(Ids(s)[..n], t) && Ids(KeepOthers(s, n, c)) == QS.Others(Ids(s)[..n], t, c)
  {
    if n > 0 {
      KeepOthersIds(s, n - 1, t, c);
      assert Ids(s)[..n][..n-1] == Ids(s)[..n-1];
      var front, last := KeepOthers(s, n - 1, c), s[n-1];
      assert Ids(front + [last]) == Ids(front) + [last.id];
    }
  }

  lemma {:induction false} KeptWereThere(s: seq<Request>, n: nat, c: ContainerId)
    requires n <= |s|
    ensures forall r | r in KeepOthers(s, n, c) :: r in s
  {
    if n > 0 {
      KeptWereThere(s, n - 1, c);
    }
  }

  lemma KeptIds(was: seq<Request>, q: seq<Id>, t: Table, c: ContainerId)
    requires Mirrors(was, q, t)
    ensures InTable(q, t) && Ids(KeepOthers(was, |was|, c)) == QS.Others(q, t, c)
    ensures forall r | r in KeepOthers(was, |was|, c) :: r in was
  {
    assert Ids(was) == q && q[..|q|] == q;
    forall k | 0 <= k < |was| ensures was[k].id in t && t[was[k].id].container == was[k].container {
      assert was[k].Matches(t[q[k]]);
    }
    KeepOthersIds(was, |was|, t, c);
    KeptWereThere(was, |was|, c);
  }

  // ----- Moving requests in the backing array -----

  /** memmove(a[from..hi-1], a[from+1..hi]) */
  method ShiftDown(a: array<Request>, from: nat, hi: nat)
    requires from < hi <= a.Length
    modifies a
    ensures forall j | from <= j < hi - 1 :: a[j] == old(a[j+1])
    ensures forall j | 0 <= j < a.Length && !(from <= j < hi - 1) :: a[j] == old(a[j])
  {
    forall j | from <= j < hi - 1 {
      a[j] := a[j + 1];
    }
  }

  /** Moves a[i] down past the smaller bids before it, to place j. */
  method Sink(a: array<Request>, lo: nat, i: nat) returns (ghost j: nat)
    requires lo <= i < a.Length
    modifies a
    ensures lo <= j <= i
    ensures forall k | j <= k < i :: old(a[k]).bid < old(a[i]).bid
    ensures j > lo ==> old(a[j-1]).bid >= old(a[i]).bid
    ensures a[j] == old(a[i])
    ensures forall k | j < k <= i :: a[k] == old(a[k-1])
    ensures forall k | 0 <= k < a.Length && !(j <= k <= i) :: a[k] == old(a[k])
  {
    var n := i;
    while n > lo && a[n-1].bid < a[n].bid
      invariant lo <= n <= i
      invariant a[n] == old(a[i])
      invariant forall k | n <= k < i :: old(a[k]).bid < old(a[i]).bid
      invariant forall k | n < k <= i :: a[k] == old(a[k-1])
      invariant forall k | 0 <= k < a.Length && !(n <= k <= i) :: a[k] == old(a[k])
    {
      a[n-1], a[n] := a[n], a[n-1];
      n := n - 1;
    }
    j := n;
  }

  ghost function InsertedAt<T>(p: seq<T>, j: nat, r: T): seq<T>
    requires j <= |p|
  {
    p[..j] + [r] + p[j..]
  }

  ghost predicate Carries(s: seq<Request>, t: Table)
    reads s
  {
    forall k | 0 <= k < |s| :: s[k].id in t && t[s[k].id].bid == s[k].bid
  }

  lemma SinkInserts(p: seq<Request>, r: Request, j: nat, t: Table)
    requires j <= |p| && Carries(p, t) && Carries([r], t)
    requires forall k | j <= k < |p| :: p[k].bid < r.bid
    requires j > 0 ==> p[j-1].bid >= r.bid
    ensures InTable(Ids(p), t) && r.id in t
    ensures Ids(p[..j] + [r] + p[j..]) == Insert(Ids(p), r.id, t)
  {
    assert [r][0] == r;
    InsertAt(Ids(p), r.id, t, j);
    assert Ids(p[..j] + [r] + p[j..]) == Ids(p)[..j] + [r.id] + Ids(p)[j..];
  }

  /** p holds the first requests of was, sorted. */
  ghost predicate SortedPrefix(p: seq<Request>, was: seq<Request>, t: Table)
    reads was
  {
    && |p| <= |was| && Carries(was, t)
    && (forall k | 0 <= k < |p| :: p[k] in was)
    && Ids(p) == Sort(Ids(was)[..|p|], t)
  }

  lemma SortGrows(was: seq<Request>, n: nat, t: Table)
    requires n < |was| && Carries(was, t)
    ensures InTable(Ids(was)[..n], t) && InTable(Ids(was)[..n+1], t) && was[n].id in t
    ensures Sort(Ids(was)[..n+1], t) == Insert(Sort(Ids(was)[..n], t), was[n].id, t)
  {
    assert Ids(was)[..n+1][..n] == Ids(was)[..n];
  }

  lemma InsertedMembers<T>(p: seq<T>, j: nat, r: T, was: seq<T>)
    requires j <= |p| && r in was && forall k | 0 <= k < |p| :: p[k] in was
    ensures |InsertedAt(p, j, r)| == |p| + 1
    ensures forall k | 0 <= k <= |p| :: InsertedAt(p, j, r)[k] in was
  {
    forall k | 0 <= k <= |p| ensures InsertedAt(p, j, r)[k] in was {
      assert InsertedAt(p, j, r)[k] == if k < j then p[k] else if k == j then r else p[k-1];
    }
  }

  lemma SortedPrefixGrows(p: seq<Request>, was: seq<Request>, j: nat, t: Table)
    requires SortedPrefix(p, was, t) && |p| < |was| && j <= |p|
    requires forall k | j <= k < |p| :: p[k].bid < was[|p|].bid
    requires j > 0 ==> p[j-1].bid >= was[|p|].bid
    ensures SortedPrefix(InsertedAt(p, j, was[|p|]), was, t)
  {
    var n := |p|;
    assert Carries(p, t) && Carries([was[n]], t);
    hide Sort, Insert;
    SinkInserts(p, was[n], j, t);
    SortGrows(was, n, t);
    InsertedMembers(p, j, was[n], was);
  }

  lemma SortedWhole(p: seq<Request>, was: seq<Request>, t: Table)
    requires SortedPrefix(p, was, t) && |p| == |was|
    ensures InTable(Ids(was), t) && Ids(p) == Sort(Ids(was), t)
    ensures forall r | r in p :: r in was
  {
    assert Ids(was)[..|was|] == Ids(was);
  }

  lemma InsertedAtIs<T>(p: seq<T>, j: nat, r: T, out: seq<T>)
    requires j <= |p| && |out| == |p| + 1 && out[j] == r
    requires forall k | 0 <= k < j :: out[k] == p[k]
    requires forall k | j < k <= |p| :: out[k] == p[k-1]
    ensures out == InsertedAt(p, j, r)
  {
  }

  /** Sink, said of slices. */
  method SinkSlice(a: array<Request>, lo: nat, i: nat, ghost p: seq<Request>, ghost rest: seq<Request>)
    returns (ghost j: nat)
    requires lo <= i < a.Length && a[lo..i] == p && |rest| > 0
    requires i + |rest| <= a.Length && a[i..i+|rest|] == rest
    modifies a
    ensures j <= |p| && a[lo..i+1] == InsertedAt(p, j, rest[0])
    ensures a[i+1..i+|rest|] == rest[1..]
    ensures forall k | j <= k < |p| :: p[k].bid < rest[0].bid
    ensures j > 0 ==> p[j-1].bid >= rest[0].bid
  {
    ghost var b, r := a[..], rest[0];
    assert b[lo..i] == p && b[i..i+|rest|] == rest;
    ghost var n := Sink(a, lo, i);
    j := n - lo;
    ghost var out := a[lo..i+1];
    assert forall k | lo <= k < i :: b[k] == p[k-lo];
    assert b[i] == r;
    InsertedAtIs(p, j, r, out);
    assert forall k | i < k < i + |rest| :: a[k] == b[k] == rest[k-i];
  }

  /** One turn of the sort: a[i] finds its place among the sorted ones before it. */
  method InsertNext(a: array<Request>, lo: nat, i: nat, hi: nat,
                    ghost p: seq<Request>, ghost was: seq<Request>, ghost t: Table)
    returns (ghost p': seq<Request>)
    requires lo <= i < hi <= a.Length && |was| == hi - lo && |p| == i - lo
    requires a[lo..i] == p && a[i..hi] == was[i-lo..] && SortedPrefix(p, was, t)
    modifies a
    ensures |p'| == |p| + 1 && a[lo..i+1] == p' && a[i+1..hi] == was[i+1-lo..]
    ensures SortedPrefix(p', was, t)
  {
    hide SortedPrefix, InsertedAt;
    ghost var j := SinkSlice(a, lo, i, p, was[i-lo..]);
    SortedPrefixGrows(p, was, j, t);
    p' := InsertedAt(p, j, was[i-lo]);
  }

  /** Insertion sort of a[lo..hi], the way sort.SliceStable treats short slices. */
  method InsertionSort(a: array<Request>, lo: nat, hi: nat, ghost was: seq<Request>, ghost t: Table)
    requires lo <= hi <= a.Length && was == a[lo..hi] && Carries(was, t)
    modifies a
    ensures InTable(Ids(was), t) && Ids(a[lo..hi]) == Sort(Ids(was), t)
    ensures forall r | r in a[lo..hi] :: r in was
  {
    ghost var p: seq<Request> := [];
    assert SortedPrefix(p, was, t) by {
      assert Ids(p) == [] == Ids(was)[..0];
    }
    hide SortedPrefix, Carries, Sort;
    var i := lo;
    while i < hi
      invariant lo <= i <= hi && |p| == i - lo
      invariant a[lo..i] == p
      invariant a[i..hi] == was[i-lo..]
      invariant SortedPrefix(p, was, t)
    {
      p := InsertNext(a, lo, i, hi, p, was, t);
      i := i + 1;
    }
    SortedWhole(p, was, t);
  }

  class Queue {
    var buf: array<Request>           // backing array of the slice q.entries
    var lo: nat
    var hi: nat                       // the slice is buf[lo..hi]
    var active: Request?
    var bids: map<ContainerId, int>
    var maxSize: int
    var defaultBid: int
    var wake: bool
    var done: bool
    ghost var all: seq<Request>       // every request admitted, by id
    ghost var reqs: set<Request>      // the same requests
    ghost var view: QS.Shared         // the state of the protocol this object is in

    ghost predicate Known(r: Request)
      reads `all
    {
      r.id < |all| && all[r.id] == r
    }

    ghost predicate TableOk(t: Table)
      reads `all, `reqs, reqs
    {
      && (forall i: Id :: i in t <==> i < |all|)
      && (forall i | 0 <= i < |all| :: all[i] in reqs && all[i].id == i && all[i].Matches(t[i]))
    }

    ghost predicate SliceOk(q: seq<Id>)
      reads `all, `buf, `lo, `hi, buf
    {
      && lo <= hi <= buf.Length && |q| == hi - lo
      && forall k | 0 <= k < |q| :: buf[lo+k].id == q[k] && Known(buf[lo+k])
    }

    ghost predicate FieldsOk(v: QS.Shared)
      reads `all, `active, `bids, `maxSize, `defaultBid, `wake, `done
    {
      && (active != null ==> Known(active))
      && v.active == (if active == null then None else Some(active.id))
      && v.bids == bids && v.maxSize == maxSize && v.defaultBid == defaultBid
      && v.wake == wake && v.done == done
      && v.next == |all|
    }

    ghost predicate Valid()
      reads this, buf, reqs
    {
      TableOk(view.table) && SliceOk(view.queue) && FieldsOk(view) && QS.Fits(view)
    }

    constructor (maxSize: int, defaultBid: int)
      ensures Valid() && view == QS.Init(maxSize, defaultBid) && fresh(buf)
    {
      buf := new Request[0];
      lo, hi, active := 0, 0, null;
      bids := map[];
      this.maxSize := if maxSize <= 0 then QS.NEW_QUEUE_SIZE else maxSize;
      this.defaultBid := defaultBid;
      wake, done := false, false;
      all, reqs, view := [], {}, QS.Init(maxSize, defaultBid);
    }

    /** The slice as a sequence, with what the other proofs ask of it. */
    lemma Slice(q: seq<Id>, t: Table) returns (was: seq<Request>)
      requires TableOk(t) && SliceOk(q)
      ensures lo <= hi <= buf.Length && was == buf[lo..hi] && Mirrors(was, q, t) && Ids(was) == q && InTable(q, t)
      ensures forall k | 0 <= k < |was| :: was[k] == buf[lo+k] && Known(was[k]) && was[k] in reqs
      ensures Distinct(q) ==> Distinct(was)
    {
      was := buf[lo..hi];
      forall k | 0 <= k < |was|
        ensures q[k] in t && was[k].id == q[k] && was[k].Matches(t[q[k]])
        ensures was[k] == buf[lo+k] && Known(was[k]) && was[k] in reqs
      {
        assert buf[lo+k].id == q[k];
      }
    }

    /** The slice as the searching loops want it. */
    lemma SliceMirrors(q: seq<Id>, t: Table)
      requires TableOk(t) && SliceOk(q)
      ensures lo <= hi <= buf.Length && |q| == hi - lo && InTable(q, t) && Mirrors(buf[lo..hi], q, t)
    {
      var was := Slice(q, t);
    }

    /** Two known requests with one id are one object. */
    lemma SliceIdentity(q: seq<Id>, target: Request)
      requires SliceOk(q) && Known(target)
      ensures lo <= hi <= buf.Length && q == Ids(buf[lo..hi])
      ensures forall x | lo <= x < hi :: buf[x].id == target.id ==> buf[x] == target
    {
      assert forall k | 0 <= k < |q| :: buf[lo..hi][k] == buf[lo+k];
      forall x | lo <= x < hi && buf[x].id == target.id ensures buf[x] == target {
        var k := x - lo;
        assert buf[lo+k].id == q[k] && Known(buf[lo+k]);
      }
    }

    lemma SliceIs(s: seq<Request>, q: seq<Id>)
      requires lo <= hi <= buf.Length && buf[lo..hi] == s && Ids(s) == q
      requires forall r | r in s :: Known(r)
      ensures SliceOk(q)
    {
      forall k | 0 <= k < |q| ensures buf[lo+k].id == q[k] && Known(buf[lo+k]) {
        assert s[k] == buf[lo+k];
      }
    }

    /** If the requests of q match t' and the others still do, the table is t'. */
    lemma OnlyQueued(q: seq<Id>, was: seq<Request>, t': Table)
      requires forall i: Id :: i in t' <==> i < |all|
      requires forall i | 0 <= i < |all| :: all[i] in reqs && all[i].id == i
      requires |was| == |q| && forall k | 0 <= k < |q| :: q[k] in t' && was[k] == all[q[k]] && was[k].Matches(t'[q[k]])
      requires forall i | 0 <= i < |all| && i !in q :: all[i].Matches(t'[i])
      ensures TableOk(t')
    {
      forall i | 0 <= i < |all| ensures all[i].Matches(t'[i]) {
        if i in q {
          var k :| 0 <= k < |q| && q[k] == i;
          assert was[k] == all[i];
        }
      }
    }

    /** The requests that are not queued are not among the objects of the slice. */
    lemma NotInSlice(q: seq<Id>, was: seq<Request>, t: Table, i: Id)
      requires TableOk(t) && i < |all| && i !in q && |was| == |q|
      requires forall k | 0 <= k < |q| :: was[k].id == q[k]
      ensures all[i] !in was && all[i].Matches(t[i])
    {
    }

    // ----- The slice -----

    /** append: in place while the backing array has room, otherwise on a larger copy. */
    method Append(r: Request, ghost q: seq<Id>)
      requires SliceOk(q) && Known(r)
      modifies `buf, `lo, `hi, buf
      ensures SliceOk(q + [r.id]) && (buf == old(buf) || fresh(buf))
    {
      if hi == buf.Length {
        Grow(r, q);
      }
      buf[hi] := r;
      hi := hi + 1;
    }

    method Grow(filler: Request, ghost q: seq<Id>)
      requires SliceOk(q)
      modifies `buf, `lo, `hi
      ensures SliceOk(q) && fresh(buf) && hi < buf.Length
    {
      var n := hi - lo;
      var bigger := new Request[2 * n + 1](_ => filler);
      forall k | 0 <= k < n {
        bigger[k] := buf[lo + k];
      }
      buf, lo, hi := bigger, 0, n;
    }

    /** append(entries[:k], entries[k+1:]...): shifts the tail one place down. */
    method DeleteAt(k: nat, ghost q: seq<Id>)
      requires SliceOk(q) && lo + k < hi
      modifies `hi, buf
      ensures SliceOk(QS.Delete(q, k))
    {
      ShiftDown(buf, lo + k, hi);
      hi := hi - 1;
    }

    /** sort.SliceStable on the slice: the outcome is the one stable arrangement. */
    method SortEntries(ghost q: seq<Id>, ghost t: Table)
      requires SliceOk(q) && TableOk(t)
      modifies buf
      ensures InTable(q, t) && SliceOk(Sort(q, t))
    {
      ghost var was := Slice(q, t);
      hide SliceOk, TableOk, Sort;
      assert Carries(was, t);
      InsertionSort(buf, lo, hi, was, t);
      SliceIs(buf[lo..hi], Sort(q, t));
    }

    /** The loop of Stop over the slice, and what it leaves. */
    method FinishPending(o: Outcome, ghost q: seq<Id>, ghost t: Table)
      requires TableOk(t) && SliceOk(q) && Distinct(q) && InTable(q, t) && NothingSent(q, t)
      modifies reqs
      ensures TableOk(QS.FinishAll(t, q, o))
    {
      ghost var was := Slice(q, t);
      forall i: Id | i < |all| && i !in q { NotInSlice(q, was, t, i); }
      FinishEvery(buf, lo, hi, o, was, q, t, set r | r in was);
      ghost var t' := QS.FinishAll(t, q, o);
      forall i: Id | i < |all| && i !in q ensures all[i].Matches(t'[i]) {
        assert all[i] !in was;
      }
      OnlyQueued(q, was, t');
    }

    method RebidPending(c: ContainerId, bid: int, ghost q: seq<Id>, ghost t: Table)
      requires TableOk(t) && SliceOk(q) && Distinct(q)
      modifies reqs
      ensures TableOk(QS.Rebid(t, q, c, bid))
    {
      ghost var was := Slice(q, t);
      forall i: Id | i < |all| && i !in q { NotInSlice(q, was, t, i); }
      RebidAll(buf, lo, hi, c, bid, was, q, t, set r | r in was);
      ghost var t' := QS.Rebid(t, q, c, bid);
      forall i: Id | i < |all| && i !in q ensures all[i].Matches(t'[i]) {
        assert all[i] !in was;
      }
      OnlyQueued(q, was, t');
    }

    /** The requests that are not queued: they match, and the slice does not hold them. */
    ghost predicate Apart(q: seq<Id>, was: seq<Request>, t: Table)
      reads `all, set i: nat | i < |all| && i !in q :: all[i]
    {
      forall i: Id | i < |all| && i !in q :: all[i] !in was && i in t && all[i].Matches(t[i])
    }

    lemma SliceApart(q: seq<Id>, was: seq<Request>, t: Table)
      requires TableOk(t) && |was| == |q| && forall k | 0 <= k < |q| :: was[k].id == q[k]
      ensures Apart(q, was, t)
    {
      forall i: Id | i < |all| && i !in q ensures all[i] !in was && i in t && all[i].Matches(t[i]) {
        NotInSlice(q, was, t, i);
      }
    }

    lemma FinishedApart(q: seq<Id>, was: seq<Request>, t: Table, c: ContainerId, o: Outcome)
      requires Apart(q, was, t) && (forall i: Id :: i in t <==> i < |all|)
      requires forall i | 0 <= i < |all| :: all[i] in reqs && all[i].id == i
      requires |was| == |q| && InTable(q, t)
      requires forall k | 0 <= k < |q| :: was[k] == all[q[k]] && was[k].Matches(QS.FinishIf(t[q[k]], c, o))
      ensures TableOk(QS.FinishOf(t, q, c, o))
    {
      hide TableOk, Request.Matches, QS.FinishIf;
      OnlyQueued(q, was, QS.FinishOf(t, q, c, o));
    }

    method CompactWithout(c: ContainerId, o: Outcome, ghost q: seq<Id>, ghost t: Table)
      requires TableOk(t) && SliceOk(q) && Distinct(q) && InTable(q, t) && NothingSent(q, t)
      modifies `hi, buf, reqs
      ensures TableOk(QS.FinishOf(t, q, c, o)) && SliceOk(QS.Others(q, t, c))
    {
      ghost var was := Slice(q, t);
      SliceApart(q, was, t);
      assert forall i: Id :: i in t <==> i < |all|;
      assert forall i | 0 <= i < |all| :: all[i] in reqs && all[i].id == i;
      hide SliceOk, TableOk, QS.Others, Request.Matches;
      ghost var others := set i: nat | i < |all| && i !in q :: all[i];
      assert others !! set r | r in was;
      hide Apart;
      CompactSlice(c, o, was, q, t, set r | r in was);
      FinishedApart(q, was, t, c, o);
    }

    method CompactSlice(c: ContainerId, o: Outcome,
                        ghost was: seq<Request>, ghost q: seq<Id>, ghost t: Table, ghost objs: set<Request>)
      requires lo <= hi <= buf.Length && buf[lo..hi] == was && Mirrors(was, q, t) && Distinct(was)
      requires InTable(q, t) && NothingSent(q, t)
      requires forall k | 0 <= k < |was| :: was[k] in objs && Known(was[k])
      modifies `hi, buf, objs
      ensures SliceOk(QS.Others(q, t, c))
      ensures forall k | 0 <= k < |was| :: was[k].Matches(QS.FinishIf(t[q[k]], c, o))
    {
      KeptIds(was, q, t, c);
      hide KeepOthers, QS.Others;
      hi := Compact(buf, lo, hi, c, o, was, q, t, objs);
      SliceIs(KeepOthers(was, |was|, c), QS.Others(q, t, c));
    }

    method FinishKnown(r: Request, o: Outcome, ghost t: Table)
      requires TableOk(t) && Known(r) && t[r.id].sent == [] && !r.cancelled
      modifies r
      ensures TableOk(t[r.id := QS.Finish(t[r.id], o)])
    {
      r.Finish(o, t[r.id]);
    }

    // ----- Critical sections -----

    /** The duplicate check of HandleRequest. */
    method CheckDuplicate(c: ContainerId) returns (taken: bool)
      requires Valid()
      ensures taken <==> QS.HasRequest(view, c)
    {
      if active != null && active.container == c {
        return true;
      }
      hide Mirrors, SliceOk;
      SliceMirrors(view.queue, view.table);
      var k := FindPending(buf, lo, hi, c, view.queue, view.table);
      taken := lo + k < hi;
    }

    /** HandleRequest from reading the bid to the unlock; null when the queue is full. */
    method Admit(c: ContainerId) returns (r: Request?)
      requires Valid()
      modifies this, buf
      ensures Valid() && (buf == old(buf) || fresh(buf))
      ensures r == null <==> QS.Full(old(view))
      ensures view == if r == null then old(view) else QS.Admit(old(view), c)
      ensures r != null ==> fresh(r) && r.id == old(view).next && Known(r)
    {
      if hi - lo >= maxSize {
        return null;
      }
      var bid := if c in bids then bids[c] else 0;
      if bid == 0 {
        bid := defaultBid;
      }
      r := new Request(view.next, c, bid);
      Enlist(r, Entry(c, bid, false, false, []));
    }

    /** append and sortEntries on a new request. */
    method Enlist(r: Request, ghost e: Entry)
      requires Valid() && r.id == view.next && r.Matches(e)
      modifies this, buf
      ensures Valid() && Known(r) && (buf == old(buf) || fresh(buf))
      ensures var t := old(view).table[r.id := e];
              InTable(old(view).queue + [r.id], t) &&
              view == old(view).(table := t, queue := Sort(old(view).queue + [r.id], t), next := r.id + 1)
      ensures active == old(active) && bids == old(bids) && maxSize == old(maxSize) && defaultBid == old(defaultBid)
    {
      hide TableOk, SliceOk, Sort;
      ghost var q, t := view.queue, view.table[r.id := e];
      Register(r, q, view.table, e);
      Append(r, q);
      SortEntries(q + [r.id], t);
      view := view.(table := t, queue := Sort(q + [r.id], t), next := r.id + 1);
    }

    ghost method Register(r: Request, q: seq<Id>, t: Table, e: Entry)
      requires TableOk(t) && SliceOk(q) && r.id == |all| && r.Matches(e)
      modifies `all, `reqs
      ensures all == old(all) + [r] && reqs == old(reqs) + {r}
      ensures TableOk(t[r.id := e]) && SliceOk(q) && Known(r)
    {
      all, reqs := all + [r], reqs + {r};
    }

    /** The non-blocking offer on the one-slot wake channel. */
    method Signal()
      requires Valid()
      modifies `wake, `view
      ensures Valid() && view == old(view).(wake := true)
    {
      if !wake {
        wake := true;
      }
      view := view.(wake := true);
    }

    method CancelEntry(c: ContainerId) returns (found: bool)
      requires Valid() && Distinct(view.queue) && NothingSent(view.queue, view.table)
      modifies `hi, `view, buf, reqs
      ensures Valid() && view == QS.CancelEntry(old(view), c)
      ensures found <==> QS.FindLive(old(view).queue, old(view).table, c, 0) < |old(view).queue|
    {
      hide TableOk, SliceOk, Mirrors;
      ghost var q, t := view.queue, view.table;
      SliceMirrors(q, t);
      var k := FindPending(buf, lo, hi, c, q, t);
      if lo + k == hi {
        return false;
      }
      CancelAt(k, q, t);
      view := view.(table := t[q[k] := QS.Finish(t[q[k]], CancelledByUser)], queue := QS.Delete(q, k));
      return true;
    }

    method CancelAt(k: nat, ghost q: seq<Id>, ghost t: Table)
      requires TableOk(t) && SliceOk(q) && k < |q| && q[k] in t && t[q[k]].sent == [] && !t[q[k]].cancelled
      modifies `hi, buf, reqs
      ensures TableOk(t[q[k] := QS.Finish(t[q[k]], CancelledByUser)]) && SliceOk(QS.Delete(q, k))
    {
      assert buf[lo+k].id == q[k];
      FinishKnown(buf[lo+k], CancelledByUser, t);
      DeleteAt(k, q);
    }

    /** removeEntry: identity search, then the shift. */
    method RemoveEntry(target: Request)
      requires Valid() && Known(target)
      modifies `hi, `view, buf
      ensures Valid() && view == QS.RemoveEntry(old(view), target.id)
    {
      ghost var q := view.queue;
      SliceIdentity(q, target);
      hide TableOk, SliceOk;
      var k := FindRequest(buf, lo, hi, target, q);
      if lo + k < hi {
        DeleteAt(k, q);
        view := view.(queue := QS.Delete(q, k));
      }
    }

    /** Drops the cancelled requests in front, then takes the first live one. */
    lemma FieldsKept(v: QS.Shared, q: seq<Id>)
      requires FieldsOk(v) && (forall i | i in q :: i in v.queue) && QS.Fits(v)
      ensures FieldsOk(v.(queue := q)) && QS.Fits(v.(queue := q))
    {
      assert forall k | 0 <= k < |q| :: q[k] in q;
    }

    method PopNext() returns (r: Request?)
      requires Valid()
      modifies `lo, `view
      ensures Valid() && view == QS.Pop(old(view)).1
      ensures QS.Pop(old(view)).0 == if r == null then None else Some(r.id)
      ensures r != null ==> Known(r)
    {
      hide TableOk, SliceOk, Mirrors, FieldsOk, QS.Pop, QS.DropCancelled, QS.Fits;
      ghost var q, t := view.queue, view.table;
      SliceMirrors(q, t);
      var n := CountCancelled(buf, lo, hi, q, t);
      QS.PopAfterDrop(view, n);
      DropFront(n, q);
      if lo == hi {
        r := null;
        FieldsKept(view, []);
        view := view.(queue := []);
      } else {
        r := Front(q[n..]);
        DropFront(1, q[n..]);
        FieldsKept(view, q[n..][1..]);
        view := view.(queue := q[n..][1..]);
      }
    }

    method Front(ghost q: seq<Id>) returns (r: Request)
      requires SliceOk(q) && lo < hi
      ensures q != [] && r.id == q[0] && Known(r)
    {
      r := buf[lo];
      assert buf[lo+0].id == q[0];
    }

    /** entries = entries[n:] */
    method DropFront(n: nat, ghost q: seq<Id>)
      requires SliceOk(q) && n <= |q|
      modifies `lo
      ensures SliceOk(q[n..]) && lo == old(lo) + n
    {
      lo := lo + n;
      forall k | 0 <= k < |q| - n ensures buf[lo+k].id == q[n..][k] && Known(buf[lo+k]) {
        assert q[n..][k] == q[n+k];
      }
    }

    method Activate(r: Request)
      requires Valid() && Known(r)
      modifies `active, `view
      ensures Valid() && view == old(view).(active := Some(r.id))
    {
      active := r;
      view := view.(active := Some(r.id));
    }

    method Deactivate()
      requires Valid()
      modifies `active, `view
      ensures Valid() && view == old(view).(active := None)
    {
      active := null;
      view := view.(active := None);
    }

    /** The one send of processEntry. */
    method SendReply(r: Request)
      requires Valid() && Known(r) && view.table[r.id].sent == []
      modifies `view, r
      ensures Valid() && view == QS.Send(old(view), r.id, Reply)
    {
      r.Send(Reply, view.table[r.id]);
      view := QS.Send(view, r.id, Reply);
    }

    method SetBid(c: ContainerId, bid: int)
      requires Valid() && Distinct(view.queue)
      modifies `bids, `view, buf, reqs
      ensures Valid() && view == QS.SetBid(old(view), c, bid)
    {
      hide TableOk, SliceOk, Sort;
      ghost var q, t := view.queue, view.table;
      ghost var t' := QS.Rebid(t, q, c, bid);
      RebidPending(c, bid, q, t);
      SortEntries(q, t');
      bids := bids[c := bid];
      view := view.(table := t', queue := Sort(q, t'), bids := view.bids[c := bid]);
    }

    method CancelAllPending(c: ContainerId)
      requires Valid() && Distinct(view.queue) && NothingSent(view.queue, view.table)
      modifies `hi, `view, buf, reqs
      ensures Valid() && view == QS.CancelContainer(old(view), c, ContainerFrozen)
    {
      CancelPending(c, ContainerFrozen);
      CancelActive(c);
    }

    method CancelPending(c: ContainerId, o: Outcome)
      requires Valid() && Distinct(view.queue) && NothingSent(view.queue, view.table)
      modifies `hi, `view, buf, reqs
      ensures Valid()
      ensures view == old(view).(table := QS.FinishOf(old(view).table, old(view).queue, c, o),
                                 queue := QS.Others(old(view).queue, old(view).table, c))
    {
      ghost var q, t := view.queue, view.table;
      CompactWithout(c, o, q, t);
      view := view.(table := QS.FinishOf(t, q, c, o), queue := QS.Others(q, t, c));
    }

    method CancelActive(c: ContainerId)
      requires Valid()
      modifies `view, reqs
      ensures Valid() && view == QS.CancelActive(old(view), c)
    {
      if active != null && active.container == c {
        CancelAny();
      }
    }

    method RemoveContainer(c: ContainerId)
      requires Valid() && Distinct(view.queue) && NothingSent(view.queue, view.table)
      modifies `bids, `hi, `view, buf, reqs
      ensures Valid() && view == QS.RemoveContainer(old(view), c)
    {
      bids := bids - {c};
      view := view.(bids := view.bids - {c});
      CancelPending(c, ContainerRemoved);
      CancelActive(c);
    }

    /** Stop, from taking the mutex on. */
    method DrainOnStop()
      requires Valid() && Distinct(view.queue) && NothingSent(view.queue, view.table)
      modifies `hi, `view, reqs
      ensures Valid() && view == QS.DrainOnStop(old(view))
    {
      FinishSlice(view.queue, view.table);
      CancelAny();
    }

    method FinishSlice(ghost q: seq<Id>, ghost t: Table)
      requires Valid() && q == view.queue && t == view.table && Distinct(q) && NothingSent(q, t)
      modifies `hi, `view, reqs
      ensures Valid() && view == old(view).(table := QS.FinishAll(t, q, ShuttingDown), queue := [])
    {
      FinishPending(ShuttingDown, q, t);
      hide TableOk, QS.FinishAll;
      hi := lo;
      view := view.(table := QS.FinishAll(t, q, ShuttingDown), queue := []);
    }

    method CancelAny()
      requires Valid()
      modifies `view, reqs
      ensures Valid()
      ensures view == if old(view).active.Some?
                      then old(view).(table := QS.CancelCtx(old(view).table, old(view).active.value)) else old(view)
    {
      if active != null {
        active.ctxDone := true;
        view := view.(table := QS.CancelCtx(view.table, active.id));
      }
    }
  }
}
