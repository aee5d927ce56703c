/**
 Keys of a level that the verifier accepts: the items of its pages, read along
 the right links, strictly increase.
 */
module BtreeLevelOrder {
  import opened Prelude
  import opened BtreeOrder
  import opened BtreePages
  import opened BtreeRules

  /** The items of a page other than its high key and its negative-infinity item. */
  function RealItems(page: Page): seq<Item> {
    if page.FirstReal() - 1 <= |page.items| then page.items[page.FirstReal() - 1..] else []
  }

  ghost predicate Increasing(schema: Schema, items: seq<Item>) {
    forall i, j | 0 <= i < j < |items| :: Less(schema, KeyOf(schema, items[i]), KeyOf(schema, items[j]))
  }

  /** Some call of bt_target_page_check accepts the page. */
  ghost predicate PageAccepted(idx: Index, page: Page) {
    exists lowkey, conn, budget :: TargetRule(idx, Target(page, lowkey), conn, budget).Passed?
  }

  /** The tests of one offset that concern the level itself. */
  ghost predicate OffsetAccepted(idx: Index, page: Page, o: nat)
    requires page.Has(o)
  {
    && CheckNatts(idx.schema, page, o)
    && (!page.NegativeInfinity(o) ==>
          ItemPasses(idx, page, o) && exists budget :: LastItemRule(idx, page, o, budget).Passed?)
  }

  ghost predicate ItemsAccepted(idx: Index, page: Page) {
    && (!page.Rightmost() ==> page.Has(P_HIKEY) && CheckNatts(idx.schema, page, P_HIKEY))
    && forall o: nat | page.FirstDataKey() <= o <= page.MaxOffset() :: OffsetAccepted(idx, page, o)
  }

  lemma {:induction false} OffsetsAccepted(idx: Index, target: Target, offset: nat, conn: Connection, budget: nat)
    requires offset > 0 && OffsetsRule(idx, target, offset, conn, budget).Passed?
    ensures forall o: nat | offset <= o <= target.page.MaxOffset() :: OffsetAccepted(idx, target.page, o)
    decreases target.page.MaxOffset() - offset
  {
    if offset <= target.page.MaxOffset() {
      var after := OffsetRule(idx, target, offset, conn, budget).value;
      assert OffsetAccepted(idx, target.page, offset);
      OffsetsAccepted(idx, target, offset + 1, after, budget);
    }
  }

  lemma AcceptedItems(idx: Index, page: Page)
    requires PageAccepted(idx, page)
    ensures ItemsAccepted(idx, page)
  {
    var lowkey, conn, budget :| TargetRule(idx, Target(page, lowkey), conn, budget).Passed?;
    OffsetsAccepted(idx, Target(page, lowkey), page.FirstDataKey(), conn, budget);
  }

  lemma {:induction false} OrderedEnds(tids: seq<Tid>)
    requires tids != [] && forall i | 0 < i < |tids| :: tids[i - 1] < tids[i]
    ensures tids[0] <= tids[|tids| - 1]
  {
    if |tids| > 1 {
      OrderedEnds(tids[..|tids| - 1]);
    }
  }

  /** An accepted item has the shape the comparison routine relies on. */
  lemma AcceptedShape(idx: Index, page: Page, o: nat)
    requires idx.schema.KeyCount() <= idx.schema.natts && !page.Ignore() && ItemsAccepted(idx, page)
    requires page.FirstReal() <= o <= page.MaxOffset() && TupleFormat(page.At(o))
    ensures ItemOk(idx.schema, page.At(o)) && TidCareful(page.At(o), page.NonPivot(o))
    ensures KeyOk(idx.schema, KeyOf(idx.schema, page.At(o))) && KeyOk(idx.schema, MaxKeyOf(idx.schema, page.At(o)))
  {
    assert OffsetAccepted(idx, page, o);
    var item := page.At(o);
    if item.kind.Posting? {
      OrderedEnds(item.tids);
    }
  }

  lemma AdjacentItems(idx: Index, page: Page, o: nat)
    requires WellFormed(idx) && page in idx.pages.Values && !page.Ignore() && ItemsAccepted(idx, page)
    requires page.FirstReal() <= o < page.MaxOffset()
    ensures Less(idx.schema, KeyOf(idx.schema, page.At(o)), KeyOf(idx.schema, page.At(o + 1)))
  {
    Formats(idx, page, o);
    Formats(idx, page, o + 1);
    AcceptedShape(idx, page, o);
    AcceptedShape(idx, page, o + 1);
    assert OffsetAccepted(idx, page, o);
    InvariantLExact(idx.schema, KeyOf(idx.schema, page.At(o)), page.At(o + 1), page.NonPivot(o + 1));
  }

  lemma Formats(idx: Index, page: Page, o: nat)
    requires WellFormed(idx) && page in idx.pages.Values && page.Has(o)
    ensures TupleFormat(page.At(o))
  {
    var b :| b in idx.pages && idx.pages[b] == page;
    assert TupleFormat(idx.pages[b].items[o - 1]);
  }

  /** Within a page. */
  lemma {:induction false} PageIncreasing(idx: Index, page: Page, lo: nat, hi: nat)
    requires WellFormed(idx) && page in idx.pages.Values && !page.Ignore() && ItemsAccepted(idx, page)
    requires page.FirstReal() <= lo < hi <= page.MaxOffset()
    ensures Less(idx.schema, KeyOf(idx.schema, page.At(lo)), KeyOf(idx.schema, page.At(hi)))
    decreases hi
  {
    AdjacentItems(idx, page, hi - 1);
    if lo < hi - 1 {
      PageIncreasing(idx, page, lo, hi - 1);
      LessTransitive(idx.schema, KeyOf(idx.schema, page.At(lo)), KeyOf(idx.schema, page.At(hi - 1)),
          KeyOf(idx.schema, page.At(hi)));
    }
  }

  lemma RealIncreasing(idx: Index, page: Page)
    requires WellFormed(idx) && page in idx.pages.Values && !page.Ignore() && ItemsAccepted(idx, page)
    ensures Increasing(idx.schema, RealItems(page))
  {
    var s := RealItems(page);
    forall i, j | 0 <= i < j < |s| ensures Less(idx.schema, KeyOf(idx.schema, s[i]), KeyOf(idx.schema, s[j])) {
      PageIncreasing(idx, page, page.FirstReal() + i, page.FirstReal() + j);
    }
  }

  /** The last item of a page was compared with the first of the live page to its right. */
  lemma LastCompared(idx: Index, page: Page, right: Page)
    requires !right.Ignore() && ItemsAccepted(idx, page) && page.FirstReal() <= page.MaxOffset() &&
        right.Has(right.FirstReal())
    requires page.next != P_NONE && Load(idx, page.next) == Some(right)
    ensures InvariantG(idx.schema, KeyOf(idx.schema, right.At(right.FirstReal())), page.At(page.MaxOffset()))
  {
    var last := page.MaxOffset();
    assert OffsetAccepted(idx, page, last);
    var budget :| LastItemRule(idx, page, last, budget).Passed?;
    assert FirstLiveRight(idx, page.next, budget) == Passed(right);
  }

  /** Across a right link. */
  lemma AcrossPages(idx: Index, page: Page, right: Page)
    requires WellFormed(idx) && page in idx.pages.Values && right in idx.pages.Values
    requires !page.Ignore() && !right.Ignore() && ItemsAccepted(idx, page) && ItemsAccepted(idx, right)
    requires page.next != P_NONE && Load(idx, page.next) == Some(right)
    requires page.FirstReal() <= page.MaxOffset() && right.FirstReal() <= right.MaxOffset()
    ensures Less(idx.schema, KeyOf(idx.schema, page.At(page.MaxOffset())),
        KeyOf(idx.schema, right.At(right.FirstReal())))
  {
    var last, first := page.MaxOffset(), right.FirstReal();
    Formats(idx, page, last);
    Formats(idx, right, first);
    AcceptedShape(idx, page, last);
    AcceptedShape(idx, right, first);
    LastCompared(idx, page, right);
    InvariantGExact(idx.schema, KeyOf(idx.schema, right.At(first)), page.At(last));
    AboveMaxIsAbove(idx.schema, KeyOf(idx.schema, right.At(first)), page.At(last));
  }

  lemma JoinIncreasing(schema: Schema, a: seq<Item>, b: seq<Item>)
    requires Increasing(schema, a) && Increasing(schema, b) && a != [] && b != []
    requires Less(schema, KeyOf(schema, a[|a| - 1]), KeyOf(schema, b[0]))
    ensures Increasing(schema, a + b)
  {
    var s := a + b;
    forall i, j | 0 <= i < j < |s| ensures Less(schema, KeyOf(schema, s[i]), KeyOf(schema, s[j])) {
      if i < |a| <= j {
        if i < |a| - 1 {
          LessTransitive(schema, KeyOf(schema, a[i]), KeyOf(schema, a[|a| - 1]), KeyOf(schema, b[0]));
        }
        if j > |a| {
          LessTransitive(schema, KeyOf(schema, a[i]), KeyOf(schema, b[0]), KeyOf(schema, b[j - |a|]));
        }
      }
    }
  }

  // ----- a whole level

  /** A sequence of pages each of which links to the next. */
  predicate RightChain(idx: Index, chain: seq<Block>) {
    && (forall i | 0 <= i < |chain| :: Load(idx, chain[i]).Some?)
    && (forall i | 0 < i < |chain| :: chain[i] == Load(idx, chain[i - 1]).value.next)
  }

  /** A page that is live, holds a real item and is accepted. */
  ghost predicate BlockAccepted(idx: Index, blk: Block) {
    Load(idx, blk).Some? &&
    var page := Load(idx, blk).value;
    !page.Ignore() && RealItems(page) != [] && PageAccepted(idx, page)
  }

  ghost predicate ChainAccepted(idx: Index, chain: seq<Block>) {
    forall i | 0 <= i < |chain| :: BlockAccepted(idx, chain[i])
  }

  function LevelItems(idx: Index, chain: seq<Block>): seq<Item>
    requires RightChain(idx, chain)
  {
    if chain == [] then [] else LevelItems(idx, chain[..|chain| - 1]) + RealItems(Load(idx, chain[|chain| - 1]).value)
  }

  /**
   If bt_target_page_check accepts every page of a right-link chain, the items
   of the chain strictly increase by key and lowest heap TID, truncated
   columns standing for minus infinity.
   */
  lemma {:induction false} LevelStrictlyIncreasing(idx: Index, chain: seq<Block>)
    requires WellFormed(idx) && RightChain(idx, chain) && ChainAccepted(idx, chain)
    ensures Increasing(idx.schema, LevelItems(idx, chain))
    decreases |chain|
  {
    if chain != [] {
      hide Increasing, Less, BlockAccepted, WellFormed;
      var n := |chain| - 1;
      var shorter, page := chain[..n], Load(idx, chain[n]).value;
      BlockIncreasing(idx, chain[n]);
      if n > 0 {
        LevelStrictlyIncreasing(idx, shorter);
        BoundaryIncreasing(idx, chain);
        assert shorter[n - 1] == chain[n - 1];
        LastOfLevel(idx, shorter);
        JoinIncreasing(idx.schema, LevelItems(idx, shorter), RealItems(page));
      } else {
        assert LevelItems(idx, chain) == RealItems(page);
      }
    }
  }

  lemma BlockIncreasing(idx: Index, blk: Block)
    requires WellFormed(idx) && BlockAccepted(idx, blk)
    ensures RealItems(Load(idx, blk).value) != [] && Increasing(idx.schema, RealItems(Load(idx, blk).value))
  {
    var page := Load(idx, blk).value;
    assert idx.pages[blk] == page;
    AcceptedItems(idx, page);
    RealIncreasing(idx, page);
  }

  lemma BoundaryIncreasing(idx: Index, chain: seq<Block>)
    requires WellFormed(idx) && RightChain(idx, chain) && ChainAccepted(idx, chain) && |chain| > 1
    ensures
      var left := RealItems(Load(idx, chain[|chain| - 2]).value);
      var right := RealItems(Load(idx, chain[|chain| - 1]).value);
      && left != [] && right != []
      && Less(idx.schema, KeyOf(idx.schema, left[|left| - 1]), KeyOf(idx.schema, right[0]))
  {
    assert BlockAccepted(idx, chain[|chain| - 2]) && BlockAccepted(idx, chain[|chain| - 1]);
    var left, right := Load(idx, chain[|chain| - 2]).value, Load(idx, chain[|chain| - 1]).value;
    assert idx.pages[chain[|chain| - 2]] == left && idx.pages[chain[|chain| - 1]] == right;
    AcceptedItems(idx, left);
    AcceptedItems(idx, right);
    AcrossPages(idx, left, right);
  }

  lemma LastOfLevel(idx: Index, chain: seq<Block>)
    requires RightChain(idx, chain) && chain != [] && RealItems(Load(idx, chain[|chain| - 1]).value) != []
    ensures LevelItems(idx, chain) != []
    ensures var last := RealItems(Load(idx, chain[|chain| - 1]).value);
            LevelItems(idx, chain)[|LevelItems(idx, chain)| - 1] == last[|last| - 1]
  {
  }
}
