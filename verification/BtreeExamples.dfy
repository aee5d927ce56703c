/**
 Indexes on which the B-tree check does not do what one might expect of it: it
 stops early, or passes although parents and children disagree or a level is out
 of order.
 */
module BtreeExamples {
  import opened Prelude
  import opened BtreeOrder
  import opened BtreePages
  import opened BtreeRules
  import opened BtreeLevelOrder
  import opened BtreeWalks
  import opened BtreeLockstep
  import opened BtreeTree

  const ONE_COLUMN := Schema([Column(false, false)], 1)

  function Separator(rank: int, downlink: Block): Item {
    Item(Pivot, [Value(rank, rank)], [], downlink)
  }

  function NegativeInfinityItem(downlink: Block): Item {
    Item(Pivot, [], [], downlink)
  }

  function Internal(root: bool, prev: Block, next: Block, items: seq<Item>): Page {
    Page(false, root, false, false, false, false, false, prev, next, 1, items)
  }

  function Leaf(prev: Block, next: Block, incompleteSplit: bool, items: seq<Item>): Page {
    Page(true, false, false, false, incompleteSplit, false, false, prev, next, 0, items)
  }

  // ----- stopping early

  /** An internal root whose only downlink is P_NONE passes after one round instead of two. */
  lemma StopsEarly(schema: Schema, budget: nat)
    ensures CheckRule(Index(schema, map[1 := Internal(true, P_NONE, P_NONE, [NegativeInfinityItem(P_NONE)])], 1, 1),
                      budget) == Passed(1)
  {
    var root := Internal(true, P_NONE, P_NONE, [NegativeInfinityItem(P_NONE)]);
    var idx := Index(schema, map[1 := root], 1, 1);
    var target := Target(root, None);
    assert ReachesLeftEnd(idx, 1, P_NONE, []);
    assert OffsetRule(idx, target, 1, NO_CONNECTION, budget) == Passed(NO_CONNECTION);
    assert OffsetsRule(idx, target, 2, NO_CONNECTION, budget) == Passed(NO_CONNECTION);
    assert TargetRule(idx, target, NO_CONNECTION, budget) == Passed(NO_CONNECTION);
    assert PageRule(idx, 1, true, LevelStart(Level(1, 1)), budget).Passed?;
  }

  // ----- parents and children that disagree

  /**
   The second page of the root level has P_NONE for its first downlink, so that
   the children under its other downlinks are taken for the start of a level.
   They never become part of the level verified below.
   */
  function SplitIndex(): Index {
    Index(ONE_COLUMN,
          map[1 := LeftParent(), 2 := RightParent(),
              5 := Leaf(P_NONE, P_NONE, false, []), 6 := StrayLeaf(), 7 := Leaf(6, P_NONE, false, [])],
          1, 1)
  }

  function LeftParent(): Page {
    Internal(true, P_NONE, 2, [Separator(1, 0), NegativeInfinityItem(5)])
  }

  function RightParent(): Page {
    Internal(false, 1, P_NONE, [NegativeInfinityItem(P_NONE), Separator(10, 6), Separator(20, 7)])
  }

  /** Its high key is 20, but it holds 100. */
  function StrayLeaf(): Page {
    Leaf(P_NONE, 7, false, [Separator(20, 0), Item(Plain, [Value(100, 100)], [1], 0)])
  }

  lemma LeftParentPasses(budget: nat)
    ensures TargetRule(SplitIndex(), Target(LeftParent(), None), NO_CONNECTION, budget) == Passed(Connection(0, false))
  {
    var idx, target := SplitIndex(), Target(LeftParent(), None);
    assert ReachesLeftEnd(idx, 5, P_NONE, []);
    assert HighkeyRule(idx, target, 2, NO_CONNECTION, budget) == Passed(Connection(0, false));
    assert OffsetRule(idx, target, 2, NO_CONNECTION, budget) == Passed(Connection(0, false));
    assert OffsetsRule(idx, target, 3, Connection(0, false), budget) == Passed(Connection(0, false));
  }

  lemma FirstOfRight(target: Target, budget: nat)
    requires target.page == RightParent()
    ensures OffsetRule(SplitIndex(), target, 1, Connection(0, false), budget) == Passed(NO_CONNECTION)
  {
  }

  lemma SecondOfRight(target: Target, budget: nat)
    requires target.page == RightParent()
    ensures OffsetRule(SplitIndex(), target, 2, NO_CONNECTION, budget) == Passed(Connection(7, false))
  {
    var idx := SplitIndex();
    assert ReachesLeftEnd(idx, 6, P_NONE, []);
    assert HighkeyRule(idx, target, 2, NO_CONNECTION, budget) == Passed(Connection(7, false));
    var key, item := KeyOf(ONE_COLUMN, Separator(10, 6)), Item(Plain, [Value(100, 100)], [1], 0);
    assert Compare(ONE_COLUMN, key, item) < 0 && Compare(ONE_COLUMN, key, Separator(20, 7)) < 0;
    assert LowerBound(ONE_COLUMN, key, StrayLeaf());
    assert ItemPasses(idx, RightParent(), 2);
  }

  lemma ThirdOfRight(target: Target, budget: nat)
    requires target.page == RightParent()
    ensures OffsetRule(SplitIndex(), target, 3, Connection(7, false), budget) == Passed(Connection(0, false))
  {
    var idx := SplitIndex();
    assert HighkeyRule(idx, target, 3, Connection(7, false), budget) == Passed(Connection(0, false));
    assert ItemPasses(idx, RightParent(), 3);
  }

  lemma RightParentPasses(target: Target, budget: nat)
    requires target.page == RightParent()
    ensures TargetRule(SplitIndex(), target, Connection(0, false), budget) == Passed(NO_CONNECTION)
  {
    var idx := SplitIndex();
    FirstOfRight(target, budget);
    SecondOfRight(target, budget);
    ThirdOfRight(target, budget);
    assert HighkeyRule(idx, target, 0, Connection(0, false), budget) == Passed(NO_CONNECTION);
    assert OffsetsRule(idx, target, 4, Connection(0, false), budget) == Passed(NO_CONNECTION);
    assert OffsetsRule(idx, target, 3, Connection(7, false), budget) == Passed(NO_CONNECTION);
    assert OffsetsRule(idx, target, 2, NO_CONNECTION, budget) == Passed(NO_CONNECTION);
    assert OffsetsRule(idx, target, 1, Connection(0, false), budget) == Passed(NO_CONNECTION);
  }

  lemma RootLevelPasses(budget: nat, fuel: nat)
    requires fuel > 0
    ensures LevelRule(SplitIndex(), 1, true, LevelStart(Level(1, 1)), budget, fuel) == Passed(Level(5, 0))
  {
    var idx := SplitIndex();
    assert ReachesLeftEnd(idx, 1, P_NONE, []);
    LeftParentPasses(budget);
    var second := LevelState(2, 1, Level(5, 0), Connection(0, false), Some(Separator(1, 0)));
    assert PageRule(idx, 1, true, LevelStart(Level(1, 1)), budget) == Passed(second);
    RightParentPasses(Target(RightParent(), Some(Separator(1, 0))), budget);
    assert PageRule(idx, 1, true, second, budget) == Passed(LevelState(P_NONE, 2, Level(5, 0), NO_CONNECTION, None));
    assert LevelRule(idx, 1, true, second, budget, fuel - 1) == Passed(Level(5, 0));
  }

  lemma LeafLevelPasses(budget: nat, fuel: nat)
    ensures LevelRule(SplitIndex(), 0, false, LevelStart(Level(5, 0)), budget, fuel) == Passed(Level(P_NONE, 0))
  {
    var idx, page := SplitIndex(), Leaf(P_NONE, P_NONE, false, []);
    assert ReachesLeftEnd(idx, 5, P_NONE, []);
    assert TargetRule(idx, Target(page, None), NO_CONNECTION, budget) == Passed(NO_CONNECTION);
    assert PageRule(idx, 0, false, LevelStart(Level(5, 0)), budget).Passed?;
  }

  /** The whole check passes. */
  lemma SplitPasses(budget: nat)
    requires budget > 0
    ensures CheckRule(SplitIndex(), budget) == Passed(2)
  {
    RootLevelPasses(budget, budget);
    LeafLevelPasses(budget, budget);
    assert LevelsRule(SplitIndex(), Level(5, 0), false, budget) == Passed(1);
  }

  /**
   There are no half-dead pages and no child is flagged root, but lockstep and
   the sandwich fail: leaf 6 is finished and not rightmost, stands under key 10
   with next key 20, and holds 100.
   */
  lemma SplitDisagrees()
    ensures WellFormed(SplitIndex()) && NoHalfDead(SplitIndex()) && !StrayLeaf().root
    ensures RightChain(SplitIndex(), [1, 2]) && !FirstLinksSet(SplitIndex(), [1, 2])
    ensures !InLockstep(SplitIndex(), [1, 2], [5]) && !EverySandwiched(SplitIndex(), [1, 2])
    ensures IsChild(SplitIndex(), RightParent(), 2, StrayLeaf())
    ensures !StrayLeaf().incompleteSplit && !StrayLeaf().Rightmost()
    ensures !Between(SplitIndex(), RightParent(), 2, StrayLeaf(), 2)
  {
    var idx := SplitIndex();
    assert !FirstLinkSet(Load(idx, [1, 2][1]).value);
    if InLockstep(idx, [1, 2], [5]) {
      LockstepNeedsLinks(idx, [1, 2], [5]);
    }
    StrayItem();
    assert !Sandwiched(idx, RightParent(), 2, StrayLeaf());
    assert !ChildSandwiched(idx, Load(idx, [1, 2][1]).value, 2);
  }

  lemma StrayItem()
    ensures !Between(SplitIndex(), RightParent(), 2, StrayLeaf(), 2)
  {
    var low, high := KeyOf(ONE_COLUMN, Separator(20, 7)), MaxKeyOf(ONE_COLUMN, Item(Plain, [Value(100, 100)], [1], 0));
    assert BtreeOrder.At(ONE_COLUMN, low, 0) == Finite(1, 20) && BtreeOrder.At(ONE_COLUMN, high, 0) == Finite(1, 100);
    assert LessAt(ONE_COLUMN, low, high, 0);
    assert Less(ONE_COLUMN, low, high);
  }

  // ----- a level out of order

  /** An empty leaf under the first parent hides that the leaf under the second holds a lower key. */
  function DisorderIndex(): Index {
    Index(ONE_COLUMN,
          map[1 := FullParent(), 2 := Internal(false, 1, P_NONE, [NegativeInfinityItem(7)]),
              5 := LowLeaf(), 6 := Leaf(5, 7, false, [Separator(20, 0)]), 7 := Leaf(6, P_NONE, false, [Five()])],
          1, 1)
  }

  function FullParent(): Page {
    Internal(true, P_NONE, 2, [Separator(20, 0), NegativeInfinityItem(5), Separator(10, 6)])
  }

  function LowLeaf(): Page {
    Leaf(P_NONE, 6, false, [Separator(10, 0), Eight()])
  }

  function Eight(): Item {
    Item(Plain, [Value(8, 8)], [1], 0)
  }

  function Five(): Item {
    Item(Plain, [Value(5, 5)], [2], 0)
  }

  lemma FullParentPasses(budget: nat)
    ensures TargetRule(DisorderIndex(), Target(FullParent(), None), NO_CONNECTION, budget) ==
            Passed(Connection(7, false))
  {
    var idx, target := DisorderIndex(), Target(FullParent(), None);
    assert ReachesLeftEnd(idx, 5, P_NONE, []);
    assert OffsetRule(idx, target, 2, NO_CONNECTION, budget) == Passed(Connection(6, false));
    EmptyChildPasses(budget);
    assert OffsetsRule(idx, target, 4, Connection(7, false), budget) == Passed(Connection(7, false));
    assert OffsetsRule(idx, target, 3, Connection(6, false), budget) == Passed(Connection(7, false));
  }

  lemma EmptyChildPasses(budget: nat)
    ensures OffsetRule(DisorderIndex(), Target(FullParent(), None), 3, Connection(6, false), budget) ==
            Passed(Connection(7, false))
  {
    var idx, target := DisorderIndex(), Target(FullParent(), None);
    assert HighkeyRule(idx, target, 3, Connection(6, false), budget) == Passed(Connection(7, false));
    assert Compare(ONE_COLUMN, KeyOf(ONE_COLUMN, Separator(10, 6)), Separator(20, 0)) < 0;
    assert ItemPasses(idx, FullParent(), 3);
  }

  lemma SecondParentPasses(target: Target, budget: nat)
    requires target.page == Internal(false, 1, P_NONE, [NegativeInfinityItem(7)])
    ensures TargetRule(DisorderIndex(), target, Connection(7, false), budget) == Passed(NO_CONNECTION)
  {
    var idx := DisorderIndex();
    assert OffsetRule(idx, target, 1, Connection(7, false), budget) == Passed(Connection(0, false));
    assert HighkeyRule(idx, target, 0, Connection(0, false), budget) == Passed(NO_CONNECTION);
    assert OffsetsRule(idx, target, 2, Connection(0, false), budget) == Passed(NO_CONNECTION);
  }

  lemma ParentsPass(budget: nat, fuel: nat)
    requires fuel > 0
    ensures LevelRule(DisorderIndex(), 1, true, LevelStart(Level(1, 1)), budget, fuel) == Passed(Level(5, 0))
  {
    var idx, high := DisorderIndex(), Some(Separator(20, 0));
    assert ReachesLeftEnd(idx, 1, P_NONE, []);
    FullParentPasses(budget);
    var second := LevelState(2, 1, Level(5, 0), Connection(7, false), high);
    assert PageRule(idx, 1, true, LevelStart(Level(1, 1)), budget) == Passed(second);
    SecondParentPasses(Target(idx.pages[2], high), budget);
    assert PageRule(idx, 1, true, second, budget) == Passed(LevelState(P_NONE, 2, Level(5, 0), NO_CONNECTION, None));
    assert LevelRule(idx, 1, true, second, budget, fuel - 1) == Passed(Level(5, 0));
  }

  lemma LeavesPass(lowkey: Option<Item>, budget: nat)
    ensures var idx := DisorderIndex();
            && TargetRule(idx, Target(LowLeaf(), lowkey), NO_CONNECTION, budget) == Passed(NO_CONNECTION)
            && TargetRule(idx, Target(idx.pages[6], lowkey), NO_CONNECTION, budget) == Passed(NO_CONNECTION)
            && TargetRule(idx, Target(idx.pages[7], lowkey), NO_CONNECTION, budget) == Passed(NO_CONNECTION)
  {
    LowLeafPasses(lowkey, budget);
    LastLeafPasses(lowkey, budget);
    var idx := DisorderIndex();
    assert OffsetsRule(idx, Target(idx.pages[6], lowkey), 2, NO_CONNECTION, budget) == Passed(NO_CONNECTION);
  }

  lemma LowLeafPasses(lowkey: Option<Item>, budget: nat)
    ensures TargetRule(DisorderIndex(), Target(LowLeaf(), lowkey), NO_CONNECTION, budget) == Passed(NO_CONNECTION)
  {
    var idx, target := DisorderIndex(), Target(LowLeaf(), lowkey);
    assert Compare(ONE_COLUMN, KeyOf(ONE_COLUMN, Eight()), Separator(10, 0)) < 0;
    assert ItemPasses(idx, LowLeaf(), 2);
    assert FirstLiveRight(idx, 6, budget) == Passed(idx.pages[6]);
    assert OffsetRule(idx, target, 2, NO_CONNECTION, budget) == Passed(NO_CONNECTION);
    assert OffsetsRule(idx, target, 3, NO_CONNECTION, budget) == Passed(NO_CONNECTION);
  }

  lemma LastLeafPasses(lowkey: Option<Item>, budget: nat)
    ensures var idx := DisorderIndex();
            TargetRule(idx, Target(idx.pages[7], lowkey), NO_CONNECTION, budget) == Passed(NO_CONNECTION)
  {
    var idx := DisorderIndex();
    var target := Target(idx.pages[7], lowkey);
    assert ItemPasses(idx, idx.pages[7], 1);
    assert OffsetRule(idx, target, 1, NO_CONNECTION, budget) == Passed(NO_CONNECTION);
    assert OffsetsRule(idx, target, 2, NO_CONNECTION, budget) == Passed(NO_CONNECTION);
  }

  lemma LeafLevelsPass(budget: nat, fuel: nat)
    requires fuel > 1
    ensures LevelRule(DisorderIndex(), 0, false, LevelStart(Level(5, 0)), budget, fuel) == Passed(Level(P_NONE, 0))
  {
    var idx, down := DisorderIndex(), Level(P_NONE, 0);
    assert ReachesLeftEnd(idx, 5, P_NONE, []);
    LeavesPass(None, budget);
    var second := LevelState(6, 5, down, NO_CONNECTION, Some(Separator(10, 0)));
    assert PageRule(idx, 0, false, LevelStart(Level(5, 0)), budget) == Passed(second);
    LeavesPass(second.lowkey, budget);
    var third := LevelState(7, 6, down, NO_CONNECTION, Some(Separator(20, 0)));
    assert PageRule(idx, 0, false, second, budget) == Passed(third);
    LeavesPass(third.lowkey, budget);
    assert PageRule(idx, 0, false, third, budget) == Passed(LevelState(P_NONE, 7, down, NO_CONNECTION, None));
    assert LevelRule(idx, 0, false, third, budget, fuel - 2) == Passed(down);
    assert LevelRule(idx, 0, false, second, budget, fuel - 1) == Passed(down);
  }

  /** The whole check passes, though the leaves read 8, 5. */
  lemma DisorderPasses(budget: nat)
    requires budget > 1
    ensures CheckRule(DisorderIndex(), budget) == Passed(2)
  {
    ParentsPass(budget, budget);
    LeafLevelsPass(budget, budget);
    assert LevelsRule(DisorderIndex(), Level(5, 0), false, budget) == Passed(1);
  }

  lemma DisorderedLevel()
    ensures WellFormed(DisorderIndex()) && NoHalfDead(DisorderIndex())
    ensures RightChain(DisorderIndex(), [1, 2]) && FirstLinksSet(DisorderIndex(), [1, 2])
    ensures RightChain(DisorderIndex(), [5, 6, 7]) && LevelItems(DisorderIndex(), [5, 6, 7]) == [Eight(), Five()]
    ensures !Increasing(ONE_COLUMN, LevelItems(DisorderIndex(), [5, 6, 7]))
  {
    DisorderSets();
    DisorderLinks();
    DisorderChain();
    DisorderItems();
    FiveBelowEight();
    var items := [Eight(), Five()];
    assert !Less(ONE_COLUMN, KeyOf(ONE_COLUMN, items[0]), KeyOf(ONE_COLUMN, items[1]));
  }

  lemma DisorderSets()
    ensures WellFormed(DisorderIndex()) && NoHalfDead(DisorderIndex())
  {
  }

  lemma DisorderLinks()
    ensures RightChain(DisorderIndex(), [1, 2]) && FirstLinksSet(DisorderIndex(), [1, 2])
  {
  }

  lemma DisorderChain()
    ensures RightChain(DisorderIndex(), [5]) && RightChain(DisorderIndex(), [5, 6])
    ensures RightChain(DisorderIndex(), [5, 6, 7])
  {
  }

  lemma DisorderItems()
    requires RightChain(DisorderIndex(), [5]) && RightChain(DisorderIndex(), [5, 6])
    requires RightChain(DisorderIndex(), [5, 6, 7])
    ensures LevelItems(DisorderIndex(), [5, 6, 7]) == [Eight(), Five()]
  {
    DisorderReal();
    hide DisorderIndex, RightChain, RealItems;
    var idx, none: seq<Block> := DisorderIndex(), [];
    NothingRead(idx);
    OneMorePage(idx, none, 5, [5]);
    OneMorePage(idx, [5], 6, [5, 6]);
    OneMorePage(idx, [5, 6], 7, [5, 6, 7]);
  }

  lemma NothingRead(idx: Index)
    ensures RightChain(idx, []) && LevelItems(idx, []) == []
  {
  }

  lemma DisorderReal()
    ensures var idx := DisorderIndex();
            && Load(idx, 5).Some? && RealItems(Load(idx, 5).value) == [Eight()]
            && Load(idx, 6).Some? && RealItems(Load(idx, 6).value) == []
            && Load(idx, 7).Some? && RealItems(Load(idx, 7).value) == [Five()]
  {
  }

  lemma OneMorePage(idx: Index, chain: seq<Block>, blk: Block, longer: seq<Block>)
    requires longer == chain + [blk] && RightChain(idx, chain) && RightChain(idx, longer)
    ensures Load(idx, blk).Some?
    ensures LevelItems(idx, longer) == LevelItems(idx, chain) + RealItems(Load(idx, blk).value)
  {
    assert longer[..|longer| - 1] == chain && longer[|longer| - 1] == blk;
  }

  lemma FiveBelowEight()
    ensures !Less(ONE_COLUMN, KeyOf(ONE_COLUMN, Eight()), KeyOf(ONE_COLUMN, Five()))
  {
    var low, high := KeyOf(ONE_COLUMN, Five()), KeyOf(ONE_COLUMN, Eight());
    assert BtreeOrder.At(ONE_COLUMN, low, 0) == Finite(1, 5) && BtreeOrder.At(ONE_COLUMN, high, 0) == Finite(1, 8);
    assert LessAt(ONE_COLUMN, low, high, 0);
    LessAsymmetric(ONE_COLUMN, low, high);
  }
}
