/** Scopes and limit types shared by every part of the daemon. */
module Model {

  datatype Option<+T> = None | Some(value: T)

  /** Containers are told apart by their ids only; here an id is a number. */
  type ContainerId = nat

  /** Segments too; the daemon refuses an empty segment id. */
  type SegmentId = nat

  /** The host, which sees every container, or one segment. */
  datatype Scope = Host | Segment(id: SegmentId)

  // ----- How scopes are written -----

  const HOST_NAME: string := ""
  const SEGMENT_PREFIX: string := "segment:"

  function SegmentScope(id: string): string
  {
    SEGMENT_PREFIX + id
  }

  predicate IsSegment(scope: string)
  {
    SEGMENT_PREFIX <= scope
  }

  function SegmentID(scope: string): string
  {
    if IsSegment(scope) then scope[|SEGMENT_PREFIX|..] else ""
  }

  /** A scope name stands for one scope: different segments, and the host, are written differently. */
  lemma SegmentScopeRoundTrip(id: string, other: string)
    ensures IsSegment(SegmentScope(id)) && SegmentID(SegmentScope(id)) == id
    ensures SegmentScope(id) == "segment:" + id && HOST_NAME == ""
    ensures SegmentScope(id) != HOST_NAME && SegmentID(HOST_NAME) == ""
    ensures SegmentScope(other) == SegmentScope(id) <==> other == id
    ensures IsSegment(other) <==> SegmentScope(SegmentID(other)) == other
  {
    assert SegmentScope(other)[|SEGMENT_PREFIX|..] == other;
    assert SegmentScope(id)[|SEGMENT_PREFIX|..] == id;
    if IsSegment(other) {
      assert other == other[..|SEGMENT_PREFIX|] + other[|SEGMENT_PREFIX|..];
    }
  }

  datatype LimitType =
    | Cpu | Ram | Disk | Net | DiskIoBytes | DiskIoOps | Spending
    | RamUsageBsec | DiskUsageBsec | RamRequestBsec | DiskRequestBsec
    | Other(tag: nat)   // any other row type, such as "ollama-bid"

  const ALL_LIMIT_TYPES: seq<LimitType> :=
    [Cpu, Ram, Disk, Net, DiskIoBytes, DiskIoOps, Spending,
     RamUsageBsec, DiskUsageBsec, RamRequestBsec, DiskRequestBsec]

  /** The types whose usage outlives the container that ran it up. */
  const CUMULATIVE_LIMIT_TYPES: seq<LimitType> :=
    [Cpu, Net, DiskIoBytes, DiskIoOps, Spending,
     RamUsageBsec, DiskUsageBsec, RamRequestBsec, DiskRequestBsec]

  predicate IsByteSecond(lt: LimitType)
  {
    lt.RamUsageBsec? || lt.DiskUsageBsec? || lt.RamRequestBsec? || lt.DiskRequestBsec?
  }

  /** The types enforced by pausing the container. */
  predicate IsPauseType(lt: LimitType)
  {
    lt.Cpu? || lt.Disk?
  }

  ghost predicate Distinct<T>(s: seq<T>)
  {
    forall i, j | 0 <= i < j < |s| :: s[i] != s[j]
  }

  /** Integer division as Go does it: towards zero. */
  function TruncDiv(x: int, y: int): int
    requires y > 0
  {
    if x >= 0 then x / y else -((-x) / y)
  }

  /** The quotient of smallest size whose product falls short of x by less than y. */
  lemma TruncDivLaw(x: int, y: int)
    requires y > 0
    ensures x >= 0 ==> TruncDiv(x, y) * y <= x < (TruncDiv(x, y) + 1) * y
    ensures x <= 0 ==> (TruncDiv(x, y) - 1) * y < x <= TruncDiv(x, y) * y
    ensures TruncDiv(-x, y) == -TruncDiv(x, y)
  {
  }
}
