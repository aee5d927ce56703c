/**
 B-tree pages as the verifier loads them, and the walk to the left over
 half-dead pages.
 */
module BtreePages {
  import opened Prelude
  import opened BtreeOrder

  const P_NONE: Block := 0
  const INVALID_BLOCK: Block := 0xFFFF_FFFF
  const P_HIKEY: nat := 1
  const MAX_ITEMS: nat := 408

  /** Offsets count from one; the high key, where there is one, is at P_HIKEY. */
  datatype Page = Page(
    leaf: bool, root: bool, deleted: bool, halfDead: bool, incompleteSplit: bool,
    hasFullXid: bool, hasGarbage: bool,
    prev: Block, next: Block, level: nat, items: seq<Item>) {

    predicate Ignore() {
      deleted || halfDead
    }

    predicate Rightmost() {
      next == P_NONE
    }

    function FirstDataKey(): nat {
      if Rightmost() then P_HIKEY else P_HIKEY + 1
    }

    function MaxOffset(): nat {
      |items|
    }

    predicate Has(offset: nat) {
      1 <= offset <= |items|
    }

    function At(offset: nat): Item
      requires Has(offset)
    {
      items[offset - 1]
    }

    predicate NegativeInfinity(offset: nat) {
      !leaf && offset == FirstDataKey()
    }

    /** The offset of the first item that is neither the high key nor negative infinity. */
    function FirstReal(): nat {
      if leaf then FirstDataKey() else FirstDataKey() + 1
    }

    predicate NonPivot(offset: nat) {
      leaf && offset >= FirstDataKey()
    }

    /** palloc_btree_page accepts the page. */
    predicate Sane() {
      && (!deleted || hasFullXid ==> leaf == (level == 0))
      && |items| <= MAX_ITEMS
      && (!leaf && !deleted ==> FirstDataKey() <= |items|)
      && (leaf && !deleted && !Rightmost() ==> P_HIKEY <= |items|)
      && (!leaf ==> !halfDead && !hasGarbage)
      && (hasFullXid ==> deleted)
      && !(deleted && halfDead)
    }
  }

  datatype Index = Index(schema: Schema, pages: map<Block, Page>, root: Block, rootLevel: nat)

  /** Reading a block: an error unless it exists and passes the sanity checks. */
  function Load(idx: Index, blk: Block): Option<Page> {
    if blk in idx.pages && blk != P_NONE && blk != INVALID_BLOCK && idx.pages[blk].Sane() then Some(idx.pages[blk])
    else None
  }

  /** _bt_check_natts for an index whose key space includes heap TIDs. */
  predicate CheckNatts(schema: Schema, page: Page, offset: nat)
    requires page.Has(offset)
  {
    var item := page.At(offset);
    page.Ignore() || (
      && (schema.natts != schema.KeyCount() ==> !item.kind.Posting?)
      && if page.NonPivot(offset) then !item.kind.Pivot? && |item.attrs| == schema.natts
         else if page.NegativeInfinity(offset) then item.attrs == []
         else
           && item.kind.Pivot?
           && (item.tids != [] ==> |item.attrs| == schema.KeyCount())
           && 0 < |item.attrs| <= schema.KeyCount())
  }

  /** What the tuple format guarantees whatever a page holds: TID counts by kind. */
  predicate WellFormed(idx: Index) {
    && idx.schema.KeyCount() <= idx.schema.natts
    && forall b <- idx.pages, i: nat | i < |idx.pages[b].items| :: TupleFormat(idx.pages[b].items[i])
  }

  predicate TupleFormat(item: Item) {
    match item.kind
    case Pivot => |item.tids| <= 1
    case Plain => |item.tids| == 1
    case Posting => |item.tids| >= 1
  }

  // ----- walking left over half-dead pages

  /** One accepted step: `reached` is half-dead and points back to the page it was reached from. */
  predicate StepsLeft(idx: Index, start: Block, from: Block, reached: Block) {
    Load(idx, reached).Some? &&
    var page := Load(idx, reached).value;
    page.halfDead && reached != start && reached != from && page.next == from
  }

  /** The block a walk over `chain` came from last, and the block it reaches next. */
  function CameFrom(start: Block, chain: seq<Block>): Block {
    if chain == [] then start else chain[|chain| - 1]
  }

  function LeftOf(idx: Index, prev: Block, chain: seq<Block>): Block {
    if chain == [] then prev
    else match Load(idx, chain[|chain| - 1]) { case Some(page) => page.prev case None => P_NONE }
  }

  /** `chain` lists pages to the left of `start`, nearest first, all half-dead and linked both ways. */
  ghost predicate HalfDeadChain(idx: Index, start: Block, prev: Block, chain: seq<Block>) {
    chain == [] ||
    var n := |chain| - 1;
    && HalfDeadChain(idx, start, prev, chain[..n])
    && chain[n] == LeftOf(idx, prev, chain[..n]) != P_NONE
    && StepsLeft(idx, start, CameFrom(start, chain[..n]), chain[n])
  }

  ghost predicate ReachesLeftEnd(idx: Index, start: Block, prev: Block, chain: seq<Block>) {
    HalfDeadChain(idx, start, prev, chain) && LeftOf(idx, prev, chain) == P_NONE
  }

  /** Nothing but a back-linked chain of half-dead pages stands to the left of `start`. */
  ghost predicate Leftmost(idx: Index, start: Block, prev: Block) {
    exists chain :: ReachesLeftEnd(idx, start, prev, chain)
  }

  /** Every element was an accepted step. */
  lemma {:induction false} ChainAt(idx: Index, start: Block, prev: Block, chain: seq<Block>, i: nat)
    requires HalfDeadChain(idx, start, prev, chain) && i < |chain|
    ensures HalfDeadChain(idx, start, prev, chain[..i])
    ensures chain[i] == LeftOf(idx, prev, chain[..i]) != P_NONE
    ensures StepsLeft(idx, start, CameFrom(start, chain[..i]), chain[i])
    decreases |chain|
  {
    var n := |chain| - 1;
    if i < n {
      ChainAt(idx, start, prev, chain[..n], i);
      assert chain[..n][..i] == chain[..i];
    }
  }

  /** No half-dead chain passes a block twice. */
  lemma {:induction false} ChainDistinct(idx: Index, start: Block, prev: Block, chain: seq<Block>)
    requires HalfDeadChain(idx, start, prev, chain)
    ensures NoRepeat(chain)
    decreases |chain|
  {
    if chain != [] {
      var n := |chain| - 1;
      var shorter := chain[..n];
      ChainDistinct(idx, start, prev, shorter);
      forall j: nat | j < n ensures chain[j] != chain[n] {
        ChainAt(idx, start, prev, shorter, j);
        ChainAt(idx, start, prev, shorter, n - 1);
        assert j > 0 ==> shorter[..j][j - 1] == shorter[j - 1] != shorter[n - 1];
      }
      assert forall i | 0 <= i < n :: chain[i] == shorter[i];
    }
  }

  /** Half-dead chains from one page are prefixes of one another. */
  lemma {:induction false} ChainsAgree(idx: Index, start: Block, prev: Block, a: seq<Block>, b: seq<Block>)
    requires HalfDeadChain(idx, start, prev, a) && HalfDeadChain(idx, start, prev, b) && |a| <= |b|
    ensures a == b[..|a|]
    decreases |a|
  {
    if a != [] {
      var n := |a| - 1;
      ChainsAgree(idx, start, prev, a[..n], b);
      ChainAt(idx, start, prev, b, n);
      assert a == a[..n] + [a[n]];
    }
  }

  /** A walk that cannot go on has seen all there is to see: other chains are shorter and can go on. */
  lemma WalkIsLongest(idx: Index, start: Block, prev: Block, chain: seq<Block>, other: seq<Block>)
    requires HalfDeadChain(idx, start, prev, chain) && HalfDeadChain(idx, start, prev, other) && other != chain
    requires !StepsLeft(idx, start, CameFrom(start, chain), LeftOf(idx, prev, chain))
    ensures LeftOf(idx, prev, other) != P_NONE && Load(idx, LeftOf(idx, prev, other)).Some?
  {
    if |other| <= |chain| {
      ChainsAgree(idx, start, prev, other, chain);
      assert |other| < |chain|;
      ChainAt(idx, start, prev, chain, |other|);
    } else {
      ChainsAgree(idx, start, prev, chain, other);
      ChainAt(idx, start, prev, other, |chain|);
    }
  }

  /** Walking left from `start` comes to a page that cannot be read. */
  ghost predicate Unreadable(idx: Index, start: Block, prev: Block) {
    exists chain :: HalfDeadChain(idx, start, prev, chain) && StopsAtUnreadable(idx, prev, chain)
  }

  ghost predicate StopsAtUnreadable(idx: Index, prev: Block, chain: seq<Block>) {
    LeftOf(idx, prev, chain) != P_NONE && Load(idx, LeftOf(idx, prev, chain)).None?
  }

  /** So where the walk stops decides its outcome. */
  lemma WalkDecides(idx: Index, start: Block, prev: Block, chain: seq<Block>)
    requires HalfDeadChain(idx, start, prev, chain)
    requires !StepsLeft(idx, start, CameFrom(start, chain), LeftOf(idx, prev, chain))
    ensures Leftmost(idx, start, prev) <==> LeftOf(idx, prev, chain) == P_NONE
    ensures Unreadable(idx, start, prev) <==> StopsAtUnreadable(idx, prev, chain)
  {
    forall other | HalfDeadChain(idx, start, prev, other) && other != chain
      ensures LeftOf(idx, prev, other) != P_NONE && !StopsAtUnreadable(idx, prev, other)
    {
      WalkIsLongest(idx, start, prev, chain, other);
    }
    assert LeftOf(idx, prev, chain) == P_NONE ==> ReachesLeftEnd(idx, start, prev, chain);
  }

  /**
   bt_leftmost_ignoring_half_dead.  `None` is the error of a page that cannot
   be read.  The walk ends on every page graph.
   */
  method LeftmostIgnoringHalfDead(idx: Index, start: Block, startPage: Page) returns (r: Option<bool>)
    ensures r == Some(true) <==> Leftmost(idx, start, startPage.prev)
    ensures r.None? <==> Unreadable(idx, start, startPage.prev)
  {
    var reached, reachedFrom, allHalfDead := startPage.prev, start, true;
    ghost var chain: seq<Block> := [];
    ghost var unseen := idx.pages.Keys;
    while reached != P_NONE && allHalfDead
      invariant HalfDeadChain(idx, start, startPage.prev, chain)
      invariant reachedFrom == CameFrom(start, chain)
      invariant reached == LeftOf(idx, startPage.prev, chain)
      invariant !allHalfDead ==>
          reached != P_NONE && Load(idx, reached).Some? && !StepsLeft(idx, start, reachedFrom, reached)
      invariant forall b <- idx.pages.Keys :: b in unseen || b in chain
      decreases unseen, allHalfDead
    {
      var page := Load(idx, reached);
      if page.None? {
        WalkDecides(idx, start, startPage.prev, chain);
        return None;
      }
      allHalfDead := page.value.halfDead && reached != start && reached != reachedFrom &&
          page.value.next == reachedFrom;
      if allHalfDead {
        ghost var longer := chain + [reached];
        assert longer[..|chain|] == chain;
        ChainDistinct(idx, start, startPage.prev, longer);
        assert forall i | 0 <= i < |chain| :: longer[i] == chain[i];
        assert reached !in chain;
        chain, unseen := longer, unseen - {reached};
        reachedFrom, reached := reached, page.value.prev;
      }
    }
    WalkDecides(idx, start, startPage.prev, chain);
    return Some(allHalfDead);
  }
}
