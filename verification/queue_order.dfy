/** The order of the pending queue: highest bid first, stable for equal bids. */
module QueueOrder {
  import opened Model

  /** Entries are named by the number of admissions before them. */
  type Id = nat

  datatype Outcome = Reply | ShuttingDown | CancelledByUser | ContainerFrozen | ContainerRemoved

  /** One inference request. `sent` lists every value put on its result channel so far. */
  datatype Entry = Entry(container: ContainerId, bid: int, cancelled: bool, ctxDone: bool, sent: seq<Outcome>)

  type Table = map<Id, Entry>

  ghost predicate InTable(q: seq<Id>, t: Table)
  {
    forall i | 0 <= i < |q| :: q[i] in t
  }

  ghost predicate Sorted(q: seq<Id>, t: Table)
    requires InTable(q, t)
  {
    forall i, j | 0 <= i < j < |q| :: t[q[i]].bid >= t[q[j]].bid
  }

  /** The subsequence of entries that bid exactly b. */
  ghost function WithBid(q: seq<Id>, t: Table, b: int): seq<Id>
    requires InTable(q, t)
  {
    if q == [] then []
    else WithBid(q[..|q|-1], t, b) + (if t[q[|q|-1]].bid == b then [q[|q|-1]] else [])
  }

  /** What sort.SliceStable with "greater bid" promises about r, given q. */
  ghost predicate IsStableSort(q: seq<Id>, r: seq<Id>, t: Table)
    requires InTable(q, t)
  {
    && InTable(r, t)
    && Sorted(r, t)
    && forall b: int :: WithBid(r, t, b) == WithBid(q, t, b)
  }

  /** Puts e behind every entry that bids at least as much. */
  function Insert(r: seq<Id>, e: Id, t: Table): (out: seq<Id>)
    requires InTable(r, t) && e in t
    ensures InTable(out, t) && |out| == |r| + 1
  {
    if r == [] || t[r[|r|-1]].bid >= t[e].bid then r + [e]
    else Insert(r[..|r|-1], e, t) + [r[|r|-1]]
  }

  function Sort(q: seq<Id>, t: Table): (out: seq<Id>)
    requires InTable(q, t)
    ensures InTable(out, t) && |out| == |q|
  {
    if q == [] then [] else Insert(Sort(q[..|q|-1], t), q[|q|-1], t)
  }

  /** Walking down past the smaller bids finds the place of Insert. */
  lemma {:induction false} InsertAt(s: seq<Id>, e: Id, t: Table, j: nat)
    requires InTable(s, t) && e in t && j <= |s|
    requires forall k | j <= k < |s| :: t[s[k]].bid < t[e].bid
    requires j > 0 ==> t[s[j-1]].bid >= t[e].bid
    ensures Insert(s, e, t) == s[..j] + [e] + s[j..]
  {
    if j < |s| {
      var front := s[..|s|-1];
      InsertAt(front, e, t, j);
      assert front[..j] == s[..j] && front[j..] + [s[|s|-1]] == s[j..];
    } else {
      assert s[..j] == s && s[j..] == [];
    }
  }

  // ----- WithBid as a list homomorphism -----

  lemma WithBidSnoc(p: seq<Id>, e: Id, t: Table, b: int)
    requires InTable(p, t) && e in t
    ensures WithBid(p + [e], t, b) == WithBid(p, t, b) + (if t[e].bid == b then [e] else [])
  {
    assert (p + [e])[..|p|] == p;
  }

  lemma {:induction false} WithBidConcat(p: seq<Id>, q: seq<Id>, t: Table, b: int)
    requires InTable(p, t) && InTable(q, t)
    ensures InTable(p + q, t)
    ensures WithBid(p + q, t, b) == WithBid(p, t, b) + WithBid(q, t, b)
  {
    if q == [] {
      assert p + q == p;
    } else {
      var front, last := q[..|q|-1], q[|q|-1];
      WithBidConcat(p, front, t, b);
      assert q == front + [last] && p + q == (p + front) + [last];
      WithBidSnoc(p + front, last, t, b);
      WithBidSnoc(front, last, t, b);
      hide WithBid;
    }
  }

  lemma WithBidHead(q: seq<Id>, t: Table, b: int)
    requires InTable(q, t) && q != []
    ensures WithBid(q, t, b) == (if t[q[0]].bid == b then [q[0]] else []) + WithBid(q[1..], t, b)
  {
    assert q == [q[0]] + q[1..];
    WithBidConcat([q[0]], q[1..], t, b);
    assert [q[0]][..0] == [];
    assert WithBid([q[0]], t, b) == if t[q[0]].bid == b then [q[0]] else [];
  }

  lemma {:induction false} WithBidMember(q: seq<Id>, t: Table, b: int, e: Id)
    requires InTable(q, t)
    ensures e in WithBid(q, t, b) <==> e in q && t[e].bid == b
  {
    if q != [] {
      WithBidMember(q[..|q|-1], t, b, e);
      assert q == q[..|q|-1] + [q[|q|-1]];
    }
  }

  // ----- Sort is the stable sort -----

  lemma {:induction false} InsertElements(r: seq<Id>, e: Id, t: Table, x: Id)
    requires InTable(r, t) && e in t
    ensures x in Insert(r, e, t) <==> x == e || x in r
  {
    if r == [] || t[r[|r|-1]].bid >= t[e].bid {
    } else {
      InsertElements(r[..|r|-1], e, t, x);
      assert r == r[..|r|-1] + [r[|r|-1]];
    }
  }

  lemma {:induction false} InsertSorted(r: seq<Id>, e: Id, t: Table)
    requires InTable(r, t) && Sorted(r, t) && e in t
    ensures Sorted(Insert(r, e, t), t)
  {
    if r == [] || t[r[|r|-1]].bid >= t[e].bid {
    } else {
      var front, last := r[..|r|-1], r[|r|-1];
      InsertSorted(front, e, t);
      var ins := Insert(front, e, t);
      forall i | 0 <= i < |ins| ensures t[ins[i]].bid >= t[last].bid {
        InsertElements(front, e, t, ins[i]);
      }
    }
  }

  lemma {:induction false} InsertClasses(r: seq<Id>, e: Id, t: Table, b: int)
    requires InTable(r, t) && e in t
    ensures WithBid(Insert(r, e, t), t, b) == WithBid(r + [e], t, b)
  {
    if r == [] || t[r[|r|-1]].bid >= t[e].bid {
    } else {
      var front, last := r[..|r|-1], r[|r|-1];
      InsertClasses(front, e, t, b);
      WithBidSnoc(Insert(front, e, t), last, t, b);
      WithBidSnoc(front, e, t, b);
      WithBidSnoc(r, e, t, b);
    }
  }

  lemma {:induction false} SortIsStable(q: seq<Id>, t: Table)
    requires InTable(q, t)
    ensures IsStableSort(q, Sort(q, t), t)
  {
    if q != [] {
      var front, last := q[..|q|-1], q[|q|-1];
      SortIsStable(front, t);
      var r := Sort(front, t);
      InsertSorted(r, last, t);
      forall b: int ensures WithBid(Sort(q, t), t, b) == WithBid(q, t, b) {
        InsertClasses(r, last, t, b);
        WithBidSnoc(r, last, t, b);
      }
    }
  }

  /** The promise of a stable sort leaves no freedom: any two results are the same. */
  lemma {:induction false} StableSortUnique(q: seq<Id>, r1: seq<Id>, r2: seq<Id>, t: Table)
    requires InTable(q, t) && IsStableSort(q, r1, t) && IsStableSort(q, r2, t)
    ensures r1 == r2
  {
    SameClassesSameOrder(r1, r2, t);
  }

  /** The head of a sorted queue heads the class of the highest bid in it. */
  lemma SameHeads(r1: seq<Id>, r2: seq<Id>, t: Table)
    requires InTable(r1, t) && InTable(r2, t) && Sorted(r1, t) && Sorted(r2, t) && r1 != []
    requires forall b: int :: WithBid(r1, t, b) == WithBid(r2, t, b)
    ensures r2 != [] && r1[0] == r2[0]
  {
    var b := t[r1[0]].bid;
    WithBidMember(r1, t, b, r1[0]);
    WithBidMember(r2, t, b, r1[0]);
    assert r1[0] in r2;
    var c := t[r2[0]].bid;
    WithBidMember(r2, t, c, r2[0]);
    WithBidMember(r1, t, c, r2[0]);
    assert r2[0] in r1;
    assert b == c;
    WithBidHead(r1, t, b);
    WithBidHead(r2, t, b);
    assert WithBid(r1, t, b)[0] == r1[0] && WithBid(r2, t, b)[0] == r2[0];
  }

  lemma SameTailClasses(r1: seq<Id>, r2: seq<Id>, t: Table, x: int)
    requires InTable(r1, t) && InTable(r2, t) && r1 != [] && r2 != [] && r1[0] == r2[0]
    requires WithBid(r1, t, x) == WithBid(r2, t, x)
    ensures WithBid(r1[1..], t, x) == WithBid(r2[1..], t, x)
  {
    WithBidHead(r1, t, x);
    WithBidHead(r2, t, x);
    var d := if t[r1[0]].bid == x then 1 else 0;
    assert WithBid(r1[1..], t, x) == WithBid(r1, t, x)[d..];
    assert WithBid(r2[1..], t, x) == WithBid(r2, t, x)[d..];
  }

  lemma {:induction false} SameClassesSameOrder(r1: seq<Id>, r2: seq<Id>, t: Table)
    requires InTable(r1, t) && InTable(r2, t) && Sorted(r1, t) && Sorted(r2, t)
    requires forall b: int :: WithBid(r1, t, b) == WithBid(r2, t, b)
    ensures r1 == r2
    decreases |r1|
  {
    if r1 == [] {
      if r2 != [] {
        SameHeads(r2, r1, t);
        assert false;
      }
    } else {
      SameHeads(r1, r2, t);
      forall x: int ensures WithBid(r1[1..], t, x) == WithBid(r2[1..], t, x) {
        SameTailClasses(r1, r2, t, x);
      }
      SameClassesSameOrder(r1[1..], r2[1..], t);
      assert r1 == [r1[0]] + r1[1..] && r2 == [r2[0]] + r2[1..];
    }
  }

  /** Sorting a sorted queue changes nothing. */
  lemma SortOfSorted(q: seq<Id>, t: Table)
    requires InTable(q, t) && Sorted(q, t)
    ensures Sort(q, t) == q
  {
    SortIsStable(q, t);
    StableSortUnique(q, Sort(q, t), q, t);
  }

  // ----- Elements and relative order -----

  lemma SortElements(q: seq<Id>, t: Table, x: Id)
    requires InTable(q, t)
    ensures x in Sort(q, t) <==> x in q
  {
    SortIsStable(q, t);
    if x in t {
      WithBidMember(q, t, t[x].bid, x);
      WithBidMember(Sort(q, t), t, t[x].bid, x);
    }
  }

  lemma {:induction false} InsertDistinct(r: seq<Id>, e: Id, t: Table)
    requires InTable(r, t) && e in t && Distinct(r) && e !in r
    ensures Distinct(Insert(r, e, t))
  {
    if r == [] || t[r[|r|-1]].bid >= t[e].bid {
    } else {
      InsertDistinct(r[..|r|-1], e, t);
      InsertElements(r[..|r|-1], e, t, r[|r|-1]);
    }
  }

  lemma {:induction false} SortDistinct(q: seq<Id>, t: Table)
    requires InTable(q, t) && Distinct(q)
    ensures Distinct(Sort(q, t))
  {
    if q != [] {
      SortDistinct(q[..|q|-1], t);
      SortElements(q[..|q|-1], t, q[|q|-1]);
      InsertDistinct(Sort(q[..|q|-1], t), q[|q|-1], t);
    }
  }

  /** a stands ahead of b in q. */
  ghost predicate Before(q: seq<Id>, a: Id, b: Id)
  {
    exists i, j :: 0 <= i < j < |q| && q[i] == a && q[j] == b
  }

  lemma {:induction false} InsertKeepsBefore(r: seq<Id>, e: Id, t: Table, a: Id, b: Id)
    requires InTable(r, t) && e in t && Before(r, a, b)
    ensures Before(Insert(r, e, t), a, b)
  {
    var n := |r|;
    var i, j :| 0 <= i < j < n && r[i] == a && r[j] == b;
    var out := Insert(r, e, t);
    if r == [] || t[r[n-1]].bid >= t[e].bid {
      assert out[i] == a && out[j] == b;
    } else {
      var ins := Insert(r[..n-1], e, t);
      if j < n - 1 {
        assert r[..n-1][i] == a && r[..n-1][j] == b;
        InsertKeepsBefore(r[..n-1], e, t, a, b);
        var x, y :| 0 <= x < y < |ins| && ins[x] == a && ins[y] == b;
        assert out[x] == a && out[y] == b;
      } else {
        assert a == r[..n-1][i];
        InsertElements(r[..n-1], e, t, a);
        var x :| 0 <= x < |ins| && ins[x] == a;
        assert out[x] == a && out[n] == b;
      }
    }
  }

  lemma {:induction false} InsertBehind(r: seq<Id>, e: Id, t: Table, a: Id)
    requires InTable(r, t) && e in t && Sorted(r, t) && a in r && t[a].bid >= t[e].bid
    ensures Before(Insert(r, e, t), a, e)
  {
    var n := |r|;
    var out := Insert(r, e, t);
    var i :| 0 <= i < n && r[i] == a;
    if t[r[n-1]].bid >= t[e].bid {
      assert out[i] == a && out[n] == e;
    } else {
      assert i < n - 1;
      assert r[..n-1][i] == a;
      InsertBehind(r[..n-1], e, t, a);
      var ins := Insert(r[..n-1], e, t);
      var x, y :| 0 <= x < y < |ins| && ins[x] == a && ins[y] == e;
      assert out[x] == a && out[y] == e;
    }
  }

  /** Sorting never swaps two entries unless the one behind bids strictly more. */
  lemma {:induction false} SortKeepsBefore(q: seq<Id>, t: Table, a: Id, b: Id)
    requires InTable(q, t) && Before(q, a, b) && t[a].bid >= t[b].bid
    ensures Before(Sort(q, t), a, b)
  {
    var n := |q|;
    var i, j :| 0 <= i < j < n && q[i] == a && q[j] == b;
    var front := q[..n-1];
    SortIsStable(front, t);
    assert Sort(q, t) == Insert(Sort(front, t), q[n-1], t);
    hide Insert, Sort;
    if j < n - 1 {
      assert front[i] == a && front[j] == b;
      SortKeepsBefore(front, t, a, b);
      InsertKeepsBefore(Sort(front, t), q[n-1], t, a, b);
    } else {
      assert front[i] == a && b == q[n-1];
      SortElements(front, t, a);
      InsertBehind(Sort(front, t), b, t, a);
    }
  }

  lemma BeforeTotal(q: seq<Id>, a: Id, b: Id)
    requires a in q && b in q && a != b
    ensures Before(q, a, b) || Before(q, b, a)
  {
    var i :| 0 <= i < |q| && q[i] == a;
    var j :| 0 <= j < |q| && q[j] == b;
  }

  lemma NotBothBefore(q: seq<Id>, a: Id, b: Id)
    requires Distinct(q) && Before(q, a, b)
    ensures !Before(q, b, a)
  {
  }

  /** The order after a sort, pair by pair: the higher bid first, equal bids as they were. */
  lemma SortedBeforeIff(q: seq<Id>, t: Table, a: Id, b: Id)
    requires InTable(q, t) && Distinct(q) && a in q && b in q && a != b
    ensures a in t && b in t
    ensures Before(Sort(q, t), a, b) <==> t[a].bid > t[b].bid || (t[a].bid == t[b].bid && Before(q, a, b))
  {
    var out := Sort(q, t);
    SortIsStable(q, t);
    SortDistinct(q, t);
    SortElements(q, t, a);
    SortElements(q, t, b);
    BeforeTotal(q, a, b);
    BeforeTotal(out, a, b);
    if Before(out, a, b) {
      NotBothBefore(out, a, b);
      if Before(q, b, a) && t[b].bid >= t[a].bid {
        SortKeepsBefore(q, t, b, a);
      }
      assert t[a].bid >= t[b].bid;
    } else {
      NotBothBefore(out, b, a);
      assert t[b].bid >= t[a].bid;
      if Before(q, a, b) && t[a].bid >= t[b].bid {
        SortKeepsBefore(q, t, a, b);
      }
    }
  }

  // ----- Order in what is left of a queue -----

  lemma AppendBefore(q: seq<Id>, e: Id, a: Id, b: Id)
    requires e !in q
    ensures Before(q + [e], a, b) <==> Before(q, a, b) || (a in q && b == e)
  {
    var out := q + [e];
    if Before(q, a, b) {
      var i, j :| 0 <= i < j < |q| && q[i] == a && q[j] == b;
      assert out[i] == a && out[j] == b;
    }
    if a in q && b == e {
      var i :| 0 <= i < |q| && q[i] == a;
      assert out[i] == a && out[|q|] == b;
    }
  }

  /** What keeps the order one way keeps it both ways. */
  lemma SubsequenceBefore(q: seq<Id>, out: seq<Id>, a: Id, b: Id)
    requires Distinct(q) && a in out && b in out
    requires forall i, j | 0 <= i < j < |out| :: Before(q, out[i], out[j])
    ensures Before(out, a, b) <==> Before(q, a, b)
  {
    if Before(q, a, b) {
      NotBothBefore(q, a, b);
      BeforeTotal(out, a, b);
    }
  }

  lemma SuffixBefore(q: seq<Id>, k: nat, a: Id, b: Id)
    requires k <= |q| && Distinct(q) && a in q[k..] && b in q[k..]
    ensures Before(q[k..], a, b) <==> Before(q, a, b)
  {
    var out := q[k..];
    forall i, j | 0 <= i < j < |out| ensures Before(q, out[i], out[j]) {
      assert q[k+i] == out[i] && q[k+j] == out[j];
    }
    SubsequenceBefore(q, out, a, b);
  }
}
