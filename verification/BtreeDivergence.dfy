/** Indexes on which the B-tree check runs forever. */
module BtreeDivergence {
  import opened Prelude
  import opened BtreeOrder
  import opened BtreePages
  import opened BtreeRules
  import opened BtreeLevelOrder
  import opened BtreeWalks
  import opened BtreeLevelTermination
  import opened BtreeExamples

  // ----- along the children

  /** Under a root with downlinks to 4 and 3, unfinished leaves link 4, 5, 6, 7 and back to 6. */
  function LoopingIndex(): Index {
    Index(ONE_COLUMN,
          map[9 := LoopingRoot(), 3 := Leaf(7, P_NONE, false, []),
              4 := Leaf(P_NONE, 5, true, [Separator(1, 0)]), 5 := Leaf(4, 6, true, [Separator(2, 0)]),
              6 := Leaf(5, 7, true, [Separator(3, 0)]), 7 := Leaf(6, 6, true, [Separator(4, 0)])],
          9, 1)
  }

  function LoopingRoot(): Page {
    Internal(true, P_NONE, P_NONE, [NegativeInfinityItem(4), Separator(5, 3)])
  }

  /** The whole check of that index runs forever: only a return to block 5 would be noticed. */
  lemma CheckDiverges(budget: nat)
    ensures CheckRule(LoopingIndex(), budget) == OutOfBudget
  {
    var idx, target := LoopingIndex(), Target(LoopingRoot(), None);
    assert ReachesLeftEnd(idx, 9, P_NONE, []);
    FirstLinkPasses(budget);
    SecondLinkDiverges(budget);
    assert OffsetsRule(idx, target, 2, Connection(5, true), budget) == OutOfBudget;
    assert TargetRule(idx, target, NO_CONNECTION, budget) == OutOfBudget;
    assert PageRule(idx, 1, true, LevelStart(Level(9, 1)), budget) == OutOfBudget;
  }

  lemma FirstLinkPasses(budget: nat)
    ensures OffsetRule(LoopingIndex(), Target(LoopingRoot(), None), 1, NO_CONNECTION, budget) ==
            Passed(Connection(5, true))
  {
    var idx, target := LoopingIndex(), Target(LoopingRoot(), None);
    assert ReachesLeftEnd(idx, 4, P_NONE, []);
    assert HighkeyRule(idx, target, 1, NO_CONNECTION, budget) == Passed(Connection(5, true));
  }

  lemma SecondLinkDiverges(budget: nat)
    ensures OffsetRule(LoopingIndex(), Target(LoopingRoot(), None), 2, Connection(5, true), budget) == OutOfBudget
  {
    if budget > 0 {
      Circling(6, budget - 1);
    }
    assert HighkeyRule(LoopingIndex(), Target(LoopingRoot(), None), 2, Connection(5, true), budget) == OutOfBudget;
  }

  lemma {:induction false} Circling(blk: Block, budget: nat)
    requires blk == 6 || blk == 7
    ensures ChildWalk(LoopingIndex(), Target(LoopingRoot(), None), 2, Connection(5, true), blk, true, false, budget) ==
            OutOfBudget
    decreases budget
  {
    if budget > 0 {
      Circling(13 - blk, budget - 1);
    }
  }

  // ----- along a level

  lemma RunsRound(idx: Index, path: seq<Block>, lap: nat, budget: nat)
    requires LevelCircles(idx, Level(idx.root, idx.rootLevel), true, path, lap, budget)
    ensures CheckRule(idx, budget) == OutOfBudget
  {
    var level := Level(idx.root, idx.rootLevel);
    CirclingGoesOn(idx, level, true, path, lap, budget, budget);
    LevelBudget(idx, level.level, true, LevelStart(level), budget, budget);
    assert PastAt(idx, level, true, path, 0, budget);
    LevelsThen(idx, level, true, budget);
  }

  const HIGH_KEY := Separator(9, 0)

  /** A leaf that holds its high key and nothing else. */
  function Hollow(halfDead: bool, root: bool, prev: Block, next: Block): Page {
    Page(true, root, false, halfDead, false, false, false, prev, next, 0, [HIGH_KEY])
  }

  predicate IsHollow(page: Page) {
    page == Hollow(page.halfDead, page.root, page.prev, page.next) && page.next != P_NONE
  }

  lemma PastHollow(idx: Index, st: LevelState, page: Page, budget: nat)
    requires Load(idx, st.current) == Some(page) && IsHollow(page) && st.current != st.left && st.current != page.prev
    requires page.halfDead || (idx.schema == ONE_COLUMN && LivePasses(idx, 0, true, st, page))
    ensures WalkedPast(idx, 0, true, st, st.current, budget)
  {
    assert OffsetsRule(idx, Target(page, st.lowkey), 2, st.conn, budget) == Passed(st.conn);
  }

  /**
   The walk comes past position `i`: a hollow page, not linked to itself, that is
   half-dead, or live and linked back, after a live one at the start.
   */
  ghost predicate HollowAt(idx: Index, path: seq<Block>, i: nat)
    requires RightChain(idx, path) && i < |path|
  {
    var page := Load(idx, path[i]).value;
    && IsHollow(page) && path[i] != page.prev && (i > 0 ==> path[i] != path[i - 1])
    && (page.halfDead ||
        (&& idx.schema == ONE_COLUMN && !Load(idx, path[0]).value.Ignore()
         && if i == 0 then FirstPagePasses(idx, path[0], page, true) else page.prev == path[i - 1]))
  }

  ghost predicate HollowPath(idx: Index, path: seq<Block>) {
    && RightChain(idx, path) && path != [] && path[0] == idx.root && IsHollow(Load(idx, path[0]).value)
    && forall i: nat | i < |path| :: HollowAt(idx, path, i)
  }

  lemma {:induction false} HollowWalk(idx: Index, path: seq<Block>, n: nat, budget: nat)
    requires HollowPath(idx, path) && n <= |path|
    ensures WalkPath(idx, Level(idx.root, 0), true, path[..n], budget)
  {
    if n > 0 {
      HollowWalk(idx, path, n - 1, budget);
      var level, before := Level(idx.root, 0), path[..n - 1];
      assert HollowAt(idx, path, n - 1);
      HollowState(idx, before, budget);
      PastHollow(idx, StateOn(idx, level, before, n - 1), Load(idx, path[n - 1]).value, budget);
      LongerPath(idx, level, true, before, path[n - 1], budget);
      assert path[..n] == before + [path[n - 1]];
    }
  }

  lemma HollowState(idx: Index, path: seq<Block>, budget: nat)
    requires WalkPath(idx, Level(idx.root, 0), true, path, budget)
    ensures var st := StateOn(idx, Level(idx.root, 0), path, |path|);
            if path == [] then st == LevelStart(Level(idx.root, 0))
            else
              && st.current == Load(idx, path[|path| - 1]).value.next && st.left == path[|path| - 1]
              && (!Load(idx, path[0]).value.Ignore() && Load(idx, path[0]).value.leaf ==> st.down == Level(P_NONE, 0))
  {
    var level, n := Level(idx.root, 0), |path|;
    if n > 0 {
      assert PastAt(idx, level, true, path, n - 1, budget);
      if !Load(idx, path[0]).value.Ignore() && Load(idx, path[0]).value.leaf {
        assert StateOn(idx, level, path, 0) == LevelStart(level);
        assert StateOn(idx, level, path, 1).down == Level(P_NONE, 0);
        AfterLive(idx, level, path, 1, n);
      }
    }
  }

  lemma HollowRound(idx: Index, path: seq<Block>, lap: nat, budget: nat)
    requires HollowPath(idx, path) && idx.rootLevel == 0 && 2 * lap <= |path| && LapAgain(path, |path| - 2 * lap, lap)
    ensures LevelCircles(idx, Level(idx.root, 0), true, path, lap, budget)
    ensures CheckRule(idx, budget) == OutOfBudget
  {
    HollowWalk(idx, path, |path|, budget);
    assert path[..|path|] == path;
    RunsRound(idx, path, lap, budget);
  }

  /** Two half-dead pages that link to each other. */
  function HalfDeadIndex(schema: Schema): Index {
    Index(schema, map[2 := Hollow(true, true, 9, 3), 3 := Hollow(true, true, 9, 2)], 2, 0)
  }

  lemma HalfDeadDiverges(schema: Schema, budget: nat)
    ensures LevelCircles(HalfDeadIndex(schema), Level(2, 0), true, [2, 3, 2, 3], 2, budget)
    ensures CheckRule(HalfDeadIndex(schema), budget) == OutOfBudget
  {
    var idx := HalfDeadIndex(schema);
    HollowRound(idx, [2, 3, 2, 3], 2, budget);
  }

  /** A live page and a half-dead page that link to each other: the live page passes again and again. */
  function LiveIndex(): Index {
    Index(ONE_COLUMN, map[2 := Hollow(false, true, 3, 3), 3 := Hollow(true, false, P_NONE, 2)], 2, 0)
  }

  lemma LiveDiverges(budget: nat)
    ensures LevelCircles(LiveIndex(), Level(2, 0), true, [2, 3, 2, 3], 2, budget)
    ensures CheckRule(LiveIndex(), budget) == OutOfBudget
  {
    LiveHollow();
    HollowRound(LiveIndex(), [2, 3, 2, 3], 2, budget);
  }

  lemma LiveHollow()
    ensures HollowPath(LiveIndex(), [2, 3, 2, 3])
  {
    var idx := LiveIndex();
    assert HalfDeadChain(idx, 2, 3, []);
    assert [3][..0] == [] && ReachesLeftEnd(idx, 2, 3, [3]);
  }

  /** The first live page, block 1, need not be on the cycle: the walk comes onto it at the half-dead page 3. */
  function StemIndex(): Index {
    Index(ONE_COLUMN,
          map[1 := Hollow(false, true, P_NONE, 3), 3 := Hollow(true, false, 1, 4), 4 := Hollow(false, false, 3, 3)],
          1, 0)
  }

  lemma StemDiverges(budget: nat)
    ensures !StemIndex().pages[1].Ignore() && !StemIndex().pages[4].Ignore()
    ensures LevelCircles(StemIndex(), Level(1, 0), true, [1, 3, 4, 3, 4], 2, budget)
    ensures CheckRule(StemIndex(), budget) == OutOfBudget
  {
    StemHollow();
    HollowRound(StemIndex(), [1, 3, 4, 3, 4], 2, budget);
  }

  lemma StemHollow()
    ensures HollowPath(StemIndex(), [1, 3, 4, 3, 4])
  {
    StemPages();
    hide StemIndex, Leftmost;
    var idx, path := StemIndex(), [1, 3, 4, 3, 4];
    assert HollowAt(idx, path, 0) && HollowAt(idx, path, 1) && HollowAt(idx, path, 2);
  }

  lemma StemPages()
    ensures var idx := StemIndex();
            && idx.schema == ONE_COLUMN && idx.root == 1 && Leftmost(idx, 1, P_NONE)
            && Load(idx, 1) == Some(Hollow(false, true, P_NONE, 3))
            && Load(idx, 3) == Some(Hollow(true, false, 1, 4)) && Load(idx, 4) == Some(Hollow(false, false, 3, 3))
  {
    assert ReachesLeftEnd(StemIndex(), 1, P_NONE, []);
  }

  // ----- to the right

  /** Right of a live leaf with an item, two deleted pages link to each other. */
  function SkippingIndex(): Index {
    Index(ONE_COLUMN, map[2 := SkippingLeaf(), 3 := Deleted(4), 4 := Deleted(3)], 2, 0)
  }

  function SkippingLeaf(): Page {
    Page(true, true, false, false, false, false, false, P_NONE, 3, 0, [HIGH_KEY, Item(Plain, [Value(5, 5)], [1], 0)])
  }

  function Deleted(next: Block): Page {
    Page(true, false, true, false, false, true, false, P_NONE, next, 0, [])
  }

  lemma {:induction false} Skipping(blk: Block, budget: nat)
    requires blk == 3 || blk == 4
    ensures FirstLiveRight(SkippingIndex(), blk, budget) == OutOfBudget
    decreases budget
  {
    if budget > 0 {
      Skipping(7 - blk, budget - 1);
    }
  }

  /** No page is half-dead, and the search for a live page to take the next key from never ends. */
  lemma SearchDiverges(budget: nat)
    ensures NoHalfDead(SkippingIndex()) && CheckRule(SkippingIndex(), budget) == OutOfBudget
  {
    var idx, target := SkippingIndex(), Target(SkippingLeaf(), None);
    Skipping(3, budget);
    SkippingItem();
    assert ReachesLeftEnd(idx, 2, P_NONE, []);
    assert OffsetRule(idx, target, 2, NO_CONNECTION, budget) == OutOfBudget;
    assert TargetRule(idx, target, NO_CONNECTION, budget) == OutOfBudget;
    assert PageRule(idx, 0, true, LevelStart(Level(2, 0)), budget) == OutOfBudget;
  }

  lemma SkippingItem()
    ensures ItemPasses(SkippingIndex(), SkippingLeaf(), 2)
  {
    var item := Item(Plain, [Value(5, 5)], [1], 0);
    assert Compare(ONE_COLUMN, KeyOf(ONE_COLUMN, item), HIGH_KEY) < 0;
  }
}
