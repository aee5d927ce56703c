/**
 Transaction ids on heap pages are 32-bit; the verifier widens them to 64 bits
 relative to a cached copy of the cluster's next id, and refreshes that copy
 only when an id falls outside the cached range.
 */
module HeapXid {
  import opened Prelude

  const TWO31 := 0x8000_0000
  const TWO32 := 0x1_0000_0000
  const TWO64 := 0x1_0000_0000_0000_0000

  type Xid = x: int | 0 <= x < TWO32
  type FullXid = x: int | 0 <= x < TWO64

  const FIRST_NORMAL := 3

  /** The 32-bit part. */
  function Low(f: int): Xid {
    f % TWO32
  }

  /** Normal as a 64-bit id whose 32-bit part is normal too, as every assigned id is. */
  predicate Assigned(f: int) {
    FIRST_NORMAL <= f < TWO64 && FIRST_NORMAL <= Low(f)
  }

  /** (int32) (a - b) on unsigned operands. */
  function SignedDifference(a: Xid, b: Xid): (d: int)
    ensures -TWO31 <= d < TWO31
  {
    var d := (a - b) % TWO32;
    if d < TWO31 then d else d - TWO32
  }

  /** FullTransactionIdFromXidAndCtx. */
  function Widen(next: FullXid, xid: Xid): (f: FullXid)
    requires Assigned(next)
    ensures FIRST_NORMAL <= xid && next + TWO31 < TWO64 ==> FIRST_NORMAL <= f
  {
    if xid < FIRST_NORMAL then xid
    else
      var diff := SignedDifference(Low(next), xid);
      if diff > 0 && next - FIRST_NORMAL < diff then FIRST_NORMAL
      else (next - diff) % TWO64
  }

  lemma LowDifference(a: int, b: int)
    ensures (Low(a) - Low(b)) % TWO32 == (a - b) % TWO32
  {
    var qa, qb, qd := a / TWO32, b / TWO32, (a - b) / TWO32;
    assert a == qa * TWO32 + Low(a) && b == qb * TWO32 + Low(b);
    assert Low(a) - Low(b) == (qd - qa + qb) * TWO32 + (a - b) % TWO32;
  }

  /** Widening recovers every id less than 2^31 away from the cached next id. */
  lemma WidenExact(next: FullXid, f: FullXid)
    requires Assigned(next) && Assigned(f)
    requires next - TWO31 < f <= next + TWO31
    ensures Widen(next, Low(f)) == f
  {
    LowDifference(next, f);
    var d := (next - f) % TWO32;
    if next >= f {
      assert d == next - f;
    } else {
      assert d == next - f + TWO32;
    }
  }

  /** Hence it preserves order there. */
  lemma WidenMonotone(next: FullXid, f: FullXid, g: FullXid)
    requires Assigned(next) && Assigned(f) && Assigned(g)
    requires next - TWO31 < f <= next + TWO31 && next - TWO31 < g <= next + TWO31
    ensures Widen(next, Low(f)) < Widen(next, Low(g)) <==> f < g
  {
    WidenExact(next, f);
    WidenExact(next, g);
  }

  /** An id from before epoch 0 cannot be represented and becomes the first normal id. */
  lemma WidenClamps(next: FullXid, xid: Xid)
    requires Assigned(next) && FIRST_NORMAL <= xid
    requires SignedDifference(Low(next), xid) > next - FIRST_NORMAL
    ensures Widen(next, xid) == FIRST_NORMAL && next < FIRST_NORMAL + TWO31
  {
  }

  // ----- bounds checks

  /** The cluster's counters; in shared memory the oldest id has 32 bits. */
  datatype Shared = Shared(next: FullXid, oldest: FullXid)

  /** The cached range. */
  datatype Range = Range(next: FullXid, oldest: FullXid)

  datatype Bounds = Ok | Invalid | InFuture | PrecedesClusterMin | PrecedesRelMin
  datatype Status = Committed | IsCurrent | InProgress | Aborted

  /** update_cached_xid_range. */
  function Refresh(shared: Shared): Range
    requires Assigned(shared.next)
  {
    Range(shared.next, Widen(shared.next, Low(shared.oldest)))
  }

  predicate InRange(range: Range, f: int) {
    range.oldest <= f < range.next
  }

  /** The range after looking at an id: refreshed if the id was outside. */
  function RangeAfter(range: Range, shared: Shared, xid: Xid): Range
    requires Assigned(range.next) && Assigned(shared.next)
  {
    if FIRST_NORMAL <= xid && !InRange(range, Widen(range.next, xid)) then Refresh(shared) else range
  }

  function Verdict(range: Range, relfrozen: FullXid, xid: Xid): Bounds
    requires Assigned(range.next)
  {
    if xid == 0 then Invalid
    else if xid < FIRST_NORMAL then Ok
    else
      var f := Widen(range.next, xid);
      if range.next <= f then InFuture
      else if f < range.oldest then PrecedesClusterMin
      else if f < relfrozen then PrecedesRelMin
      else Ok
  }

  class Context {
    var next: FullXid
    var nextXid: Xid
    var oldest: FullXid
    var relfrozen: FullXid
    var cachedXid: Xid
    var cachedStatus: Status

    ghost predicate Valid()
      reads this
    {
      Assigned(next) && nextXid == Low(next)
    }

    function Cached(): Range
      reads this
    {
      Range(next, oldest)
    }

    constructor (shared: Shared, relfrozenxid: Xid)
      requires Assigned(shared.next)
      ensures Valid() && Cached() == Refresh(shared)
      ensures relfrozen == Widen(shared.next, relfrozenxid)
      ensures cachedXid == 0
    {
      next, nextXid := shared.next, Low(shared.next);
      oldest := Widen(shared.next, Low(shared.oldest));
      relfrozen := Widen(shared.next, relfrozenxid);
      cachedXid, cachedStatus := 0, Committed;
    }

    method UpdateCachedRange(shared: Shared)
      requires Assigned(shared.next)
      modifies this`next, this`nextXid, this`oldest
      ensures Valid() && Cached() == Refresh(shared)
    {
      next := shared.next;
      nextXid := Low(next);
      oldest := Widen(next, Low(shared.oldest));
    }

    /**
     get_xid_status.  `clog` answers what the commit log and the process array
     would say; ids before `clogHorizon` count as committed.
     */
    method GetXidStatus(xid: Xid, shared: Shared, clogHorizon: Xid, clog: Xid -> Status)
      returns (bounds: Bounds, status: Option<Status>)
      requires Valid() && Assigned(shared.next)
      modifies this
      ensures Valid() && relfrozen == old(relfrozen)
      ensures Cached() == RangeAfter(old(Cached()), shared, xid)
      ensures bounds == Verdict(Cached(), relfrozen, xid)
      ensures status.Some? <==> bounds.Ok?
      ensures bounds.Ok? && xid < FIRST_NORMAL ==> status.value.Committed?
      ensures bounds.Ok? && FIRST_NORMAL <= xid && xid == old(cachedXid) ==> status.value == old(cachedStatus)
      ensures bounds.Ok? && FIRST_NORMAL <= xid && xid != old(cachedXid) ==>
                && (cachedXid, Some(cachedStatus)) == (xid, status)
                && status.value == if Widen(next, clogHorizon) <= Widen(next, xid) then clog(xid) else Committed
    {
      if xid == 0 {
        return Invalid, None;
      } else if xid < FIRST_NORMAL {
        return Ok, Some(Committed);
      }
      var fxid := Widen(next, xid);
      if !(oldest <= fxid < next) {
        UpdateCachedRange(shared);
        fxid := Widen(next, xid);
      }
      if next <= fxid {
        return InFuture, None;
      }
      if fxid < oldest {
        return PrecedesClusterMin, None;
      }
      if fxid < relfrozen {
        return PrecedesRelMin, None;
      }
      if xid == cachedXid {
        return Ok, Some(cachedStatus);
      }
      var now := Committed;
      if Widen(next, clogHorizon) <= fxid {
        now := clog(xid);
      }
      cachedXid, cachedStatus := xid, now;
      return Ok, Some(now);
    }
  }

  /** All ids and counters of a run lie in one window of 2^31 ids. */
  predicate InWindow(base: int, f: int) {
    Assigned(f) && base <= f < base + TWO31
  }

  predicate SharedInWindow(base: int, shared: Shared) {
    InWindow(base, shared.next) && InWindow(base, shared.oldest)
  }

  lemma RefreshExact(base: int, shared: Shared)
    requires SharedInWindow(base, shared)
    ensures Refresh(shared) == Range(shared.next, shared.oldest)
  {
    WidenExact(shared.next, shared.oldest);
  }

  /**
   Exactly which ids pass, however stale the cached range: those inside it, and
   those inside the range at the time of the call, if not before relfrozenxid.
   Accepted ids lie in the range then cached.
   */
  lemma VerdictExact(base: int, earlier: Shared, now: Shared, relfrozen: FullXid, f: FullXid)
    requires SharedInWindow(base, earlier) && SharedInWindow(base, now) && InWindow(base, f)
    ensures var cached := RangeAfter(Refresh(earlier), now, Low(f));
            && (Verdict(cached, relfrozen, Low(f)) == Ok <==>
                  (earlier.oldest <= f < earlier.next || now.oldest <= f < now.next) && relfrozen <= f)
            && (Verdict(cached, relfrozen, Low(f)) == Ok ==> cached.oldest <= f < cached.next)
            && (cached == Refresh(earlier) || cached == Refresh(now))
  {
    RefreshExact(base, earlier);
    RefreshExact(base, now);
    WidenExact(earlier.next, f);
    WidenExact(now.next, f);
  }

  /**
   What a scan's `i`-th verdict must be: ok if the id is in range at the call
   and not before relfrozenxid, and only if it was in range at or before it.
   */
  ghost predicate Justified(relfrozen: FullXid, ids: seq<FullXid>, counters: seq<Shared>, i: nat, verdict: Bounds)
    requires i < |ids| && |counters| == |ids| + 1
  {
    && (relfrozen <= ids[i] && InRange(Counted(counters[i + 1]), ids[i]) ==> verdict == Ok)
    && (verdict == Ok ==> relfrozen <= ids[i] && exists j :: 0 <= j <= i + 1 && InRange(Counted(counters[j]), ids[i]))
  }

  function Counted(shared: Shared): Range {
    Range(shared.next, shared.oldest)
  }

  /**
   A whole scan, with the shared counters moving: although the range is
   refreshed only now and then, no id in range at its call is reported.  A
   relation without a normal relfrozenxid bounds nothing from below.
   */
  method CheckAll(
      base: int, relfrozenxid: Xid, ghost relfrozen: FullXid, ids: seq<FullXid>, counters: seq<Shared>,
      clog: Xid -> Status)
    returns (verdicts: seq<Bounds>)
    requires |counters| == |ids| + 1
    requires forall i :: 0 <= i < |counters| ==> SharedInWindow(base, counters[i])
    requires forall i :: 0 <= i < |ids| ==> InWindow(base, ids[i])
    requires if relfrozenxid < FIRST_NORMAL then relfrozen == relfrozenxid
             else InWindow(base, relfrozen) && Low(relfrozen) == relfrozenxid
    ensures |verdicts| == |ids|
    ensures forall i :: 0 <= i < |ids| ==> Justified(relfrozen, ids, counters, i, verdicts[i])
  {
    var ctx := new Context(counters[0], relfrozenxid);
    if FIRST_NORMAL <= relfrozenxid {
      WidenExact(counters[0].next, relfrozen);
    }
    verdicts := [];
    ghost var last := 0;
    for i := 0 to |ids|
      invariant fresh(ctx) && ctx.Valid() && ctx.relfrozen == relfrozen
      invariant 0 <= last <= i && ctx.Cached() == Refresh(counters[last])
      invariant |verdicts| == i
      invariant forall k :: 0 <= k < i ==> Justified(relfrozen, ids, counters, k, verdicts[k])
    {
      VerdictExact(base, counters[last], counters[i + 1], relfrozen, ids[i]);
      var bounds, _ := ctx.GetXidStatus(Low(ids[i]), counters[i + 1], Low(counters[i + 1].oldest), clog);
      assert Justified(relfrozen, ids, counters, i, bounds) by {
        if bounds == Ok {
          assert InRange(Counted(counters[last]), ids[i]) || InRange(Counted(counters[i + 1]), ids[i]);
        }
      }
      verdicts := verdicts + [bounds];
      if ctx.Cached() != Refresh(counters[last]) {
        last := i + 1;
      }
    }
  }
}
