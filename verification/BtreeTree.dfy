/**
 What a B-tree check that raises no error says about the whole tree: order along
 every level, lockstep between neighbouring levels, and every child's items
 between its parent's keys.
 */
module BtreeTree {
  import opened Prelude
  import opened BtreeOrder
  import opened BtreePages
  import opened BtreeRules
  import opened BtreeLevelOrder
  import opened BtreeWalks
  import opened BtreeLockstep

  // ----- between the parent's keys

  /** An accepted page was accepted at each of its offsets. */
  lemma {:induction false} AcceptedAt(idx: Index, target: Target, offset: nat, conn: Connection, budget: nat, o: nat)
    returns (there: Connection)
    requires offset > 0 && OffsetsRule(idx, target, offset, conn, budget).Passed?
    requires offset <= o <= target.page.MaxOffset()
    ensures OffsetRule(idx, target, o, there, budget).Passed?
    decreases o - offset
  {
    if offset == o {
      there := conn;
    } else {
      var after := OffsetRule(idx, target, offset, conn, budget).value;
      there := AcceptedAt(idx, target, offset + 1, after, budget, o);
    }
  }

  lemma OffsetOfAccepted(idx: Index, page: Page, o: nat) returns (target: Target, conn: Connection, budget: nat)
    requires PageAccepted(idx, page) && page.FirstDataKey() <= o <= page.MaxOffset()
    ensures target.page == page && OffsetRule(idx, target, o, conn, budget).Passed?
  {
    var lowkey, c, b :| TargetRule(idx, Target(page, lowkey), c, b).Passed?;
    target, budget := Target(page, lowkey), b;
    conn := AcceptedAt(idx, target, page.FirstDataKey(), c, b, o);
  }

  /** The walk checks the high key of the page its downlink leads to. */
  lemma {:induction false} DownlinkPageMatched(
      idx: Index, target: Target, offset: nat, conn: Connection,
      blk: Block, rightSplit: bool, first: bool, budget: nat)
    requires target.page.Has(offset) && target.page.At(offset).downlink != P_NONE
    requires ChildWalk(idx, target, offset, conn, blk, rightSplit, first, budget).Passed?
    ensures Load(idx, target.page.At(offset).downlink).Some?
    ensures HighKeyMatches(target, offset, true, Load(idx, target.page.At(offset).downlink).value)
    decreases budget
  {
    if blk != target.page.At(offset).downlink {
      var page := Load(idx, blk).value;
      DownlinkPageMatched(idx, target, offset, conn, page.next, page.incompleteSplit, false, budget - 1);
    }
  }

  /** The key right of a downlink: the next pivot, or the parent's high key. */
  function NextKey(page: Page, offset: nat): Option<Item> {
    if page.Has(offset + 1) then Some(page.At(offset + 1))
    else if !page.Rightmost() && page.Has(P_HIKEY) then Some(page.At(P_HIKEY))
    else None
  }

  predicate IsChild(idx: Index, parent: Page, offset: nat, child: Page) {
    && !parent.leaf && parent.FirstDataKey() <= offset <= parent.MaxOffset()
    && Load(idx, parent.At(offset).downlink) == Some(child)
  }

  /** A finished, non-rightmost child's high key is the key right of its downlink. */
  lemma ChildHighKey(idx: Index, parent: Page, offset: nat, child: Page)
    requires PageAccepted(idx, parent) && IsChild(idx, parent, offset, child)
    requires !child.incompleteSplit && !child.Rightmost()
    ensures child.Has(P_HIKEY) && NextKey(parent, offset).Some?
    ensures Identical(child.At(P_HIKEY), NextKey(parent, offset).value)
  {
    var target, conn, budget := OffsetOfAccepted(idx, parent, offset);
    OffsetLooksFor(idx, target, offset, conn, budget);
    if conn.prevRight == INVALID_BLOCK {
      DownlinkPageMatched(idx, target, offset, conn, parent.At(offset).downlink, false, true, budget);
    } else {
      DownlinkPageMatched(idx, target, offset, conn, conn.prevRight, conn.incomplete, true, budget);
    }
  }

  /** Every real item of an accepted non-rightmost page is bounded by the page's high key. */
  lemma BoundedByHighKey(idx: Index, page: Page, o: nat)
    requires WellFormed(idx) && page in idx.pages.Values && !page.Ignore() && ItemsAccepted(idx, page)
    requires !page.Rightmost() && page.FirstReal() <= o <= page.MaxOffset()
    ensures var high, item := KeyOf(idx.schema, page.At(P_HIKEY)), page.At(o);
            if page.leaf then !Less(idx.schema, high, MaxKeyOf(idx.schema, item))
            else Less(idx.schema, KeyOf(idx.schema, item), high)
  {
    var item, high := page.At(o), page.At(P_HIKEY);
    Formats(idx, page, o);
    Formats(idx, page, P_HIKEY);
    AcceptedShape(idx, page, o);
    assert OffsetAccepted(idx, page, o);
    assert ItemOk(idx.schema, high) && TidCareful(high, false) && MaxKeyOf(idx.schema, high) == KeyOf(idx.schema, high);
    assert HighCheckKey(idx, item) == MaxKeyOf(idx.schema, item);
    if page.leaf {
      InvariantGExact(idx.schema, MaxKeyOf(idx.schema, item), high);
    } else {
      assert MaxKeyOf(idx.schema, item) == KeyOf(idx.schema, item);
      InvariantLExact(idx.schema, KeyOf(idx.schema, item), high, false);
    }
  }

  /** Below a downlink that is not negative infinity the child was compared with the downlink's key. */
  lemma LowerBoundChecked(idx: Index, parent: Page, offset: nat, child: Page)
    requires PageAccepted(idx, parent) && IsChild(idx, parent, offset, child) && parent.FirstReal() <= offset
    ensures LowerBound(idx.schema, KeyOf(idx.schema, parent.At(offset)), child)
  {
    var target, conn, budget := OffsetOfAccepted(idx, parent, offset);
  }

  /** A downlink's key is below every real item of an accepted child. */
  lemma AboveDownlink(idx: Index, parent: Page, offset: nat, child: Page, o: nat)
    requires WellFormed(idx) && parent in idx.pages.Values && child in idx.pages.Values
    requires !parent.Ignore() && PageAccepted(idx, parent) && !child.Ignore() && ItemsAccepted(idx, child)
    requires IsChild(idx, parent, offset, child) && parent.FirstReal() <= offset
    requires child.FirstReal() <= o <= child.MaxOffset()
    ensures Less(idx.schema, KeyOf(idx.schema, parent.At(offset)), KeyOf(idx.schema, child.At(o)))
  {
    AcceptedItems(idx, parent);
    Formats(idx, parent, offset);
    Formats(idx, child, o);
    AcceptedShape(idx, parent, offset);
    AcceptedShape(idx, child, o);
    LowerBoundChecked(idx, parent, offset, child);
    InvariantLExact(idx.schema, KeyOf(idx.schema, parent.At(offset)), child.At(o), child.NonPivot(o));
  }

  /**
   An item of a child lies strictly above the key of the child's downlink,
   unless that is negative infinity, and at most at the next parent key on a
   leaf, strictly below it on an internal page.
   */
  ghost predicate Between(idx: Index, parent: Page, offset: nat, child: Page, o: nat)
    requires parent.Has(offset) && child.Has(o)
  {
    var item := child.At(o);
    && (parent.FirstReal() <= offset ==>
          Less(idx.schema, KeyOf(idx.schema, parent.At(offset)), KeyOf(idx.schema, item)))
    && NextKey(parent, offset).Some?
    && var next := KeyOf(idx.schema, NextKey(parent, offset).value);
       if child.leaf then !Less(idx.schema, next, MaxKeyOf(idx.schema, item))
       else Less(idx.schema, KeyOf(idx.schema, item), next)
  }

  /** All items of a child that has a high key of its own to compare with the parent. */
  ghost predicate Sandwiched(idx: Index, parent: Page, offset: nat, child: Page)
    requires parent.Has(offset)
  {
    child.incompleteSplit || child.Rightmost() ||
    forall o: nat | child.FirstReal() <= o <= child.MaxOffset() :: Between(idx, parent, offset, child, o)
  }

  lemma Sandwich(idx: Index, parent: Page, offset: nat, child: Page)
    requires WellFormed(idx) && parent in idx.pages.Values && child in idx.pages.Values
    requires !parent.Ignore() && PageAccepted(idx, parent) && !child.Ignore() && PageAccepted(idx, child)
    requires IsChild(idx, parent, offset, child)
    ensures Sandwiched(idx, parent, offset, child)
  {
    if !child.incompleteSplit && !child.Rightmost() {
      AcceptedItems(idx, child);
      ChildHighKey(idx, parent, offset, child);
      assert KeyOf(idx.schema, child.At(P_HIKEY)) == KeyOf(idx.schema, NextKey(parent, offset).value);
      forall o: nat | child.FirstReal() <= o <= child.MaxOffset() ensures Between(idx, parent, offset, child, o) {
        BoundedByHighKey(idx, child, o);
        if parent.FirstReal() <= offset {
          AboveDownlink(idx, parent, offset, child, o);
        }
      }
    }
  }

  /** Every item of `left` is below every item of `right`. */
  ghost predicate Ordered(idx: Index, left: Page, right: Page) {
    forall o: nat, q: nat |
      left.FirstReal() <= o <= left.MaxOffset() && right.FirstReal() <= q <= right.MaxOffset() ::
      Less(idx.schema, LastKeyOf(idx, left, o), KeyOf(idx.schema, right.At(q)))
  }

  /** The key of an item with its highest heap TID. */
  function LastKeyOf(idx: Index, page: Page, o: nat): Key
    requires page.Has(o)
  {
    if page.leaf then MaxKeyOf(idx.schema, page.At(o)) else KeyOf(idx.schema, page.At(o))
  }

  /** Two children of one parent are in order, whatever stands between them; empty pages do no harm there. */
  lemma Siblings(idx: Index, parent: Page, lo: nat, left: Page, hi: nat, right: Page)
    requires WellFormed(idx) && parent in idx.pages.Values && left in idx.pages.Values && right in idx.pages.Values
    requires !parent.Ignore() && PageAccepted(idx, parent)
    requires !left.Ignore() && PageAccepted(idx, left) && !right.Ignore() && PageAccepted(idx, right)
    requires lo < hi && IsChild(idx, parent, lo, left) && IsChild(idx, parent, hi, right)
    requires !left.incompleteSplit && !left.Rightmost()
    ensures Ordered(idx, left, right)
  {
    Sandwich(idx, parent, lo, left);
    AcceptedItems(idx, parent);
    AcceptedItems(idx, right);
    forall o: nat, q: nat |
      left.FirstReal() <= o <= left.MaxOffset() && right.FirstReal() <= q <= right.MaxOffset()
      ensures Less(idx.schema, LastKeyOf(idx, left, o), KeyOf(idx.schema, right.At(q)))
    {
      assert Between(idx, parent, lo, left, o);
      AboveDownlink(idx, parent, hi, right, q);
      ParentKeyBelow(idx, parent, lo, hi, KeyOf(idx.schema, right.At(q)));
      var next := KeyOf(idx.schema, NextKey(parent, lo).value);
      if left.leaf {
        NotAboveBelow(idx.schema, next, LastKeyOf(idx, left, o), KeyOf(idx.schema, right.At(q)));
      } else {
        LessTransitive(idx.schema, LastKeyOf(idx, left, o), next, KeyOf(idx.schema, right.At(q)));
      }
    }
  }

  /** What is above the key at `hi` is above the one right after an earlier offset. */
  lemma ParentKeyBelow(idx: Index, parent: Page, lo: nat, hi: nat, key: Key)
    requires WellFormed(idx) && parent in idx.pages.Values && !parent.Ignore() && ItemsAccepted(idx, parent)
    requires !parent.leaf && parent.FirstDataKey() <= lo < hi <= parent.MaxOffset()
    requires Less(idx.schema, KeyOf(idx.schema, parent.At(hi)), key)
    ensures NextKey(parent, lo).Some? && Less(idx.schema, KeyOf(idx.schema, NextKey(parent, lo).value), key)
  {
    if lo + 1 < hi {
      PageIncreasing(idx, parent, lo + 1, hi);
      LessTransitive(idx.schema, KeyOf(idx.schema, parent.At(lo + 1)), KeyOf(idx.schema, parent.At(hi)), key);
    }
  }

  /** Children of one parent that are among `children` are in order. */
  ghost predicate SiblingsOrdered(idx: Index, parents: seq<Block>, children: seq<Block>)
    requires RightChain(idx, parents) && RightChain(idx, children)
  {
    forall i: nat, lo: nat, hi: nat |
      i < |parents| && PairOfChildren(idx, Load(idx, parents[i]).value, lo, hi, children) ::
      var parent := Load(idx, parents[i]).value;
      Ordered(idx, Load(idx, parent.At(lo).downlink).value, Load(idx, parent.At(hi).downlink).value)
  }

  /** Both downlinks lead to `children`, and the left one to a finished page that is not rightmost. */
  predicate PairOfChildren(idx: Index, parent: Page, lo: nat, hi: nat, children: seq<Block>)
    requires RightChain(idx, children)
  {
    && !parent.leaf && parent.FirstDataKey() <= lo < hi <= parent.MaxOffset()
    && parent.At(lo).downlink in children && parent.At(hi).downlink in children
    && var left := Load(idx, parent.At(lo).downlink).value;
       !left.incompleteSplit && !left.Rightmost()
  }

  lemma LevelsOrdered(idx: Index, level: nat, parents: seq<Block>, below: nat, children: seq<Block>)
    requires WellFormed(idx) && Walked(idx, level, parents) && Walked(idx, below, children)
    ensures SiblingsOrdered(idx, parents, children)
  {
    forall i: nat, lo: nat, hi: nat |
      i < |parents| && PairOfChildren(idx, Load(idx, parents[i]).value, lo, hi, children)
      ensures var parent := Load(idx, parents[i]).value;
              Ordered(idx, Load(idx, parent.At(lo).downlink).value, Load(idx, parent.At(hi).downlink).value)
    {
      var parent := Load(idx, parents[i]).value;
      assert LevelPage(idx, level, parents[i]) && idx.pages[parents[i]] == parent;
      var left, right := parent.At(lo).downlink, parent.At(hi).downlink;
      assert LevelPage(idx, below, left) && LevelPage(idx, below, right);
      assert idx.pages[left] == Load(idx, left).value && idx.pages[right] == Load(idx, right).value;
      Siblings(idx, parent, lo, Load(idx, left).value, hi, Load(idx, right).value);
    }
  }

  /** Every downlink of `parents` that leads to one of `children` has that child between its keys. */
  ghost predicate AllSandwiched(idx: Index, parents: seq<Block>, children: seq<Block>)
    requires RightChain(idx, parents) && RightChain(idx, children)
  {
    forall i: nat, offset: nat, j: nat |
      i < |parents| && j < |children| &&
          IsChild(idx, Load(idx, parents[i]).value, offset, Load(idx, children[j]).value) ::
      Sandwiched(idx, Load(idx, parents[i]).value, offset, Load(idx, children[j]).value)
  }

  lemma LevelsSandwiched(idx: Index, level: nat, parents: seq<Block>, below: nat, children: seq<Block>)
    requires WellFormed(idx) && Walked(idx, level, parents) && Walked(idx, below, children)
    ensures AllSandwiched(idx, parents, children)
  {
    forall i: nat, offset: nat, j: nat |
      i < |parents| && j < |children| && IsChild(idx, Load(idx, parents[i]).value, offset, Load(idx, children[j]).value)
      ensures Sandwiched(idx, Load(idx, parents[i]).value, offset, Load(idx, children[j]).value)
    {
      assert LevelPage(idx, level, parents[i]) && LevelPage(idx, below, children[j]);
      assert idx.pages[parents[i]] == Load(idx, parents[i]).value &&
          idx.pages[children[j]] == Load(idx, children[j]).value;
      Sandwich(idx, Load(idx, parents[i]).value, offset, Load(idx, children[j]).value);
    }
  }

  /** Every downlink of `parents` leads to a page that lies between its keys. */
  ghost predicate EverySandwiched(idx: Index, parents: seq<Block>)
    requires RightChain(idx, parents)
  {
    forall i: nat, offset: nat |
      i < |parents| &&
          Load(idx, parents[i]).value.FirstDataKey() <= offset <= Load(idx, parents[i]).value.MaxOffset() ::
      ChildSandwiched(idx, Load(idx, parents[i]).value, offset)
  }

  ghost predicate ChildSandwiched(idx: Index, parent: Page, offset: nat)
    requires parent.Has(offset)
  {
    Load(idx, parent.At(offset).downlink).Some? &&
    Sandwiched(idx, parent, offset, Load(idx, parent.At(offset).downlink).value)
  }

  lemma LockstepSandwiched(idx: Index, level: nat, parents: seq<Block>, children: seq<Block>)
    requires Walked(idx, level, parents) && level > 0
    requires InLockstep(idx, parents, children) && AllSandwiched(idx, parents, children)
    ensures EverySandwiched(idx, parents)
  {
    forall i: nat, offset: nat |
      i < |parents| && Load(idx, parents[i]).value.FirstDataKey() <= offset <= Load(idx, parents[i]).value.MaxOffset()
      ensures ChildSandwiched(idx, Load(idx, parents[i]).value, offset)
    {
      var j := LinkToChild(idx, parents, children, i, offset);
      assert LevelPage(idx, level, parents[i]);
      assert IsChild(idx, Load(idx, parents[i]).value, offset, Load(idx, children[j]).value);
    }
  }

  // ----- the whole tree

  /**
   A verified level: the right links from its first page to its last, linked back
   as well, each block once, every page live and accepted; its items strictly
   increase if no page is empty.
   */
  ghost predicate LevelSound(idx: Index, level: nat, chain: seq<Block>) {
    && Walked(idx, level, chain) && EndsRight(idx, chain)
    && (WellFormed(idx) && (forall i | 0 <= i < |chain| :: RealItems(Load(idx, chain[i]).value) != []) ==>
          Increasing(idx.schema, LevelItems(idx, chain)))
  }

  /**
   A level and the one verified below it, none if the check stopped: they are in
   lockstep if and only if no page of the upper one has P_NONE for its first
   downlink; every verified child lies between its parent's keys, below its
   siblings to the right, and in lockstep that is every child.
   */
  ghost predicate LevelsSound(idx: Index, parents: seq<Block>, children: seq<Block>)
    requires RightChain(idx, parents) && RightChain(idx, children)
  {
    && (InLockstep(idx, parents, children) <==> FirstLinksSet(idx, parents))
    && (WellFormed(idx) ==> AllSandwiched(idx, parents, children) && SiblingsOrdered(idx, parents, children))
    && (WellFormed(idx) && FirstLinksSet(idx, parents) ==> EverySandwiched(idx, parents))
  }

  /** The verified levels from the one numbered `top` down. */
  ghost predicate TreeSound(idx: Index, top: nat, levels: seq<seq<Block>>)
    decreases |levels|
  {
    levels == [] ||
    (&& LevelSound(idx, top, levels[0])
     && (|levels| == 1 ==> top > 0 ==> LevelsSound(idx, levels[0], []))
     && (|levels| > 1 ==>
           && top > 0 && TreeSound(idx, top - 1, levels[1..])
           && levels[1][0] == DownFrom(Load(idx, levels[0][0]).value).leftmost
           && LevelsSound(idx, levels[0], levels[1])))
  }

  /** The first page of a passing level, and the whole of it. */
  lemma LevelIsSound(idx: Index, level: Level, isRoot: bool, budget: nat) returns (chain: seq<Block>)
    requires NoHalfDead(idx) && level.leftmost != P_NONE
    requires LevelRule(idx, level.level, isRoot, LevelStart(level), budget, budget).Passed?
    ensures LevelSound(idx, level.level, chain) && Ahead(idx, level.level, LevelStart(level), chain)
    ensures LevelRule(idx, level.level, isRoot, LevelStart(level), budget, budget).value ==
            DownFrom(Load(idx, chain[0]).value)
  {
    chain := LevelWalkOnce(idx, level.level, isRoot, LevelStart(level), budget, budget, []);
    assert LevelPage(idx, level.level, chain[0]);
    LevelHandsDown(idx, level.level, isRoot, LevelStart(level), budget, budget);
    if WellFormed(idx) && forall i | 0 <= i < |chain| :: RealItems(Load(idx, chain[i]).value) != [] {
      WalkedIncreasing(idx, level.level, chain);
    }
  }

  /** A level below which the check stopped is not in lockstep with anything. */
  lemma StoppedBelow(idx: Index, level: nat, parents: seq<Block>)
    requires LevelSound(idx, level, parents) && level > 0 && DownFrom(Load(idx, parents[0]).value).leftmost == P_NONE
    ensures LevelsSound(idx, parents, [])
  {
    assert LevelPage(idx, level, parents[0]);
    assert !FirstLinkSet(Load(idx, parents[0]).value);
    if InLockstep(idx, parents, []) {
      LockstepNeedsLinks(idx, parents, []);
    }
  }

  lemma LevelsAreSound(
      idx: Index, level: Level, isRoot: bool, budget: nat, parents: seq<Block>, below: nat, children: seq<Block>)
    requires NoHalfDead(idx) && level.level > 0
    requires LevelSound(idx, level.level, parents) && Ahead(idx, level.level, LevelStart(level), parents)
    requires LevelRule(idx, level.level, isRoot, LevelStart(level), budget, budget).Passed?
    requires LevelSound(idx, below, children) && children[0] == DownFrom(Load(idx, parents[0]).value).leftmost
    ensures LevelsSound(idx, parents, children)
  {
    forall i | 0 <= i < |children| ensures !Load(idx, children[i]).value.Ignore() {
      assert LevelPage(idx, below, children[i]);
    }
    if FirstLinksSet(idx, parents) {
      Lockstep(idx, level, isRoot, budget, budget, parents, children);
    }
    if InLockstep(idx, parents, children) {
      LockstepNeedsLinks(idx, parents, children);
    }
    if WellFormed(idx) {
      LevelsSandwiched(idx, level.level, parents, below, children);
      LevelsOrdered(idx, level.level, parents, below, children);
      if FirstLinksSet(idx, parents) {
        LockstepSandwiched(idx, level.level, parents, children);
      }
    }
  }

  /** What the levels below contribute to a passing check. */
  lemma LevelsBelow(idx: Index, level: Level, isRoot: bool, budget: nat, down: Level)
    requires level.leftmost != P_NONE && LevelsRule(idx, level, isRoot, budget).Passed?
    requires LevelRule(idx, level.level, isRoot, LevelStart(level), budget, budget) == Passed(down)
    ensures down.leftmost == P_NONE ==> LevelsRule(idx, level, isRoot, budget).value == 1
    ensures down.leftmost != P_NONE ==>
              && down.level + 1 == level.level && LevelsRule(idx, down, false, budget).Passed?
              && LevelsRule(idx, level, isRoot, budget).value == LevelsRule(idx, down, false, budget).value + 1
  {
  }

  lemma {:induction false} LevelsRuleSound(idx: Index, level: Level, isRoot: bool, budget: nat)
    returns (levels: seq<seq<Block>>)
    requires NoHalfDead(idx) && LevelsRule(idx, level, isRoot, budget).Passed?
    ensures |levels| == LevelsRule(idx, level, isRoot, budget).value && SoundFrom(idx, level, levels)
    decreases level.level
  {
    if level.leftmost == P_NONE {
      levels := [];
    } else {
      var chain := LevelIsSound(idx, level, isRoot, budget);
      var down := LevelRule(idx, level.level, isRoot, LevelStart(level), budget, budget).value;
      LevelsBelow(idx, level, isRoot, budget, down);
      if down.leftmost == P_NONE {
        levels := [chain];
        LastLevel(idx, level, chain);
      } else {
        var rest := LevelsRuleSound(idx, down, false, budget);
        levels := [chain] + rest;
        LevelAbove(idx, level, isRoot, budget, chain, down, rest);
      }
    }
  }

  ghost predicate SoundFrom(idx: Index, level: Level, levels: seq<seq<Block>>) {
    && TreeSound(idx, level.level, levels)
    && (level.leftmost == P_NONE <==> levels == [])
    && (levels != [] ==> levels[0][0] == level.leftmost)
  }

  lemma LastLevel(idx: Index, level: Level, chain: seq<Block>)
    requires LevelSound(idx, level.level, chain) && Ahead(idx, level.level, LevelStart(level), chain)
    requires DownFrom(Load(idx, chain[0]).value).leftmost == P_NONE
    ensures SoundFrom(idx, level, [chain])
  {
    if level.level > 0 {
      StoppedBelow(idx, level.level, chain);
    }
  }

  lemma LevelAbove(idx: Index, level: Level, isRoot: bool, budget: nat, chain: seq<Block>,
                   down: Level, rest: seq<seq<Block>>)
    requires NoHalfDead(idx) && down.level + 1 == level.level && down.leftmost != P_NONE
    requires LevelSound(idx, level.level, chain) && Ahead(idx, level.level, LevelStart(level), chain)
    requires LevelRule(idx, level.level, isRoot, LevelStart(level), budget, budget) == Passed(down)
    requires DownFrom(Load(idx, chain[0]).value) == down && SoundFrom(idx, down, rest)
    ensures SoundFrom(idx, level, [chain] + rest)
  {
    LevelsAreSound(idx, level, isRoot, budget, chain, down.level, rest[0]);
    OneLevelMore(idx, level.level, chain, rest);
  }

  lemma OneLevelMore(idx: Index, top: nat, chain: seq<Block>, rest: seq<seq<Block>>)
    requires top > 0 && LevelSound(idx, top, chain) && rest != [] && TreeSound(idx, top - 1, rest)
    requires LevelPage(idx, top, chain[0]) && rest[0][0] == DownFrom(Load(idx, chain[0]).value).leftmost
    requires LevelsSound(idx, chain, rest[0])
    ensures TreeSound(idx, top, [chain] + rest)
  {
    assert ([chain] + rest)[1..] == rest;
  }

  /** The levels from the root down, as many as rounds, are a sound tree. */
  ghost predicate Verified(idx: Index, rounds: nat) {
    exists levels :: |levels| == rounds && SoundFrom(idx, Level(idx.root, idx.rootLevel), levels)
  }

  /** A check that raises no error, on an index without half-dead pages, has verified a sound tree. */
  lemma CheckVerifies(idx: Index, budget: nat)
    ensures CheckRule(idx, budget).Passed? && NoHalfDead(idx) ==> Verified(idx, CheckRule(idx, budget).value)
  {
    if CheckRule(idx, budget).Passed? && NoHalfDead(idx) {
      var levels := LevelsRuleSound(idx, Level(idx.root, idx.rootLevel), true, budget);
    }
  }
}
