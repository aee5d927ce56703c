/**
 Where the B-tree verifier's walks go, and when they end: along a level, along
 the children of a level, and down from level to level.
 */
module BtreeWalks {
  import opened Prelude
  import opened BtreeOrder
  import opened BtreePages
  import opened BtreeRules
  import opened BtreeLevelOrder

  ghost predicate NoHalfDead(idx: Index) {
    forall b <- idx.pages :: !idx.pages[b].halfDead
  }

  lemma NothingHalfDead(idx: Index, start: Block, prev: Block)
    requires NoHalfDead(idx) && Leftmost(idx, start, prev)
    ensures prev == P_NONE
  {
    var chain :| ReachesLeftEnd(idx, start, prev, chain);
    assert chain == [];
  }

  // ----- along one level

  /** Each page's left link leads to the page it was reached from; nothing is left of the first. */
  ghost predicate BackLinked(idx: Index, chain: seq<Block>)
    requires RightChain(idx, chain)
  {
    && (chain != [] ==> Load(idx, chain[0]).value.prev == P_NONE)
    && (forall i | 0 < i < |chain| :: Load(idx, chain[i]).value.prev == chain[i - 1])
  }

  /** A live page of the level that passed the page check. */
  ghost predicate LevelPage(idx: Index, level: nat, blk: Block) {
    Load(idx, blk).Some? &&
    var page := Load(idx, blk).value;
    !page.Ignore() && page.level == level && PageAccepted(idx, page)
  }

  /** Pages of the level linked both ways from its left end, no block twice, all accepted. */
  ghost predicate Walked(idx: Index, level: nat, chain: seq<Block>) {
    && RightChain(idx, chain) && BackLinked(idx, chain) && NoRepeat(chain)
    && forall i | 0 <= i < |chain| :: LevelPage(idx, level, chain[i])
  }

  /** The level walk has been to exactly the pages of `visited`. */
  ghost predicate Been(idx: Index, level: nat, st: LevelState, visited: seq<Block>) {
    && st.current != P_NONE && Walked(idx, level, visited)
    && if visited == [] then st.left == P_NONE && st.down == NO_LEVEL
       else st.left == visited[|visited| - 1] && st.current == Load(idx, st.left).value.next
  }

  /** With no half-dead pages, a page that passes was not visited before. */
  lemma NewPage(idx: Index, level: nat, isRoot: bool, st: LevelState, budget: nat, visited: seq<Block>)
    requires NoHalfDead(idx) && Been(idx, level, st, visited) && PageRule(idx, level, isRoot, st, budget).Passed?
    ensures st.current !in visited && Load(idx, st.current).Some?
    ensures Load(idx, st.current).value.prev == if visited == [] then P_NONE else visited[|visited| - 1]
  {
    var page := Load(idx, st.current).value;
    if visited == [] {
      NothingHalfDead(idx, st.current, page.prev);
    } else {
      assert page.prev == st.left != P_NONE;
      forall i | 0 <= i < |visited| ensures visited[i] != st.current {
        assert i > 0 ==> Load(idx, visited[i]).value.prev == visited[i - 1] != visited[|visited| - 1];
      }
    }
  }

  lemma PassedPage(idx: Index, level: nat, isRoot: bool, st: LevelState, budget: nat)
    requires NoHalfDead(idx) && PageRule(idx, level, isRoot, st, budget).Passed?
    ensures LevelPage(idx, level, st.current)
    ensures var after := PageRule(idx, level, isRoot, st, budget).value;
            after.current == Load(idx, st.current).value.next && after.left == st.current
  {
    var page := Load(idx, st.current).value;
    assert TargetRule(idx, Target(page, st.lowkey), st.conn, budget).Passed?;
  }

  /** One more page. */
  lemma WalkedOn(idx: Index, level: nat, isRoot: bool, st: LevelState, budget: nat, visited: seq<Block>)
    requires NoHalfDead(idx) && Been(idx, level, st, visited) && PageRule(idx, level, isRoot, st, budget).Passed?
    ensures Walked(idx, level, visited + [st.current])
    ensures var after := PageRule(idx, level, isRoot, st, budget).value;
            && after.current == Load(idx, st.current).value.next
            && (after.current != P_NONE ==> Been(idx, level, after, visited + [st.current]))
  {
    NewPage(idx, level, isRoot, st, budget, visited);
    PassedPage(idx, level, isRoot, st, budget);
    LongerChain(idx, level, visited, st.current);
  }

  lemma LongerChain(idx: Index, level: nat, chain: seq<Block>, blk: Block)
    requires Walked(idx, level, chain) && LevelPage(idx, level, blk) && blk !in chain
    requires Load(idx, blk).value.prev == if chain == [] then P_NONE else chain[|chain| - 1]
    requires chain != [] ==> blk == Load(idx, chain[|chain| - 1]).value.next
    ensures Walked(idx, level, chain + [blk])
  {
    var longer, n := chain + [blk], |chain|;
    assert longer[n] == blk && forall i | 0 <= i < n :: longer[i] == chain[i];
    forall i | 0 <= i < |longer| ensures LevelPage(idx, level, longer[i]) {
      assert i < n ==> LevelPage(idx, level, chain[i]);
    }
    LongerRight(idx, chain, blk);
    forall i | 0 < i < |longer| ensures Load(idx, longer[i]).value.prev == longer[i - 1] {
      assert i < n ==> Load(idx, chain[i]).value.prev == chain[i - 1];
    }
    forall i, j | 0 <= i < j < |longer| ensures longer[i] != longer[j] {
      assert j < n ==> chain[i] != chain[j];
    }
  }

  lemma LongerRight(idx: Index, chain: seq<Block>, blk: Block)
    requires RightChain(idx, chain) && Load(idx, blk).Some?
    requires chain != [] ==> blk == Load(idx, chain[|chain| - 1]).value.next
    ensures RightChain(idx, chain + [blk])
  {
    var longer, n := chain + [blk], |chain|;
    assert longer[n] == blk && forall i | 0 <= i < n :: longer[i] == chain[i];
  }

  ghost predicate EndsRight(idx: Index, chain: seq<Block>) {
    chain != [] && Load(idx, chain[|chain| - 1]).Some? && Load(idx, chain[|chain| - 1]).value.Rightmost()
  }

  /**
   With no half-dead pages, a level walk that raises no error has
   followed the right links once through, never coming to a block twice, and
   every page it came to is on the level and passed the page check.
   */
  lemma {:induction false} LevelWalkOnce(idx: Index, level: nat, isRoot: bool, st: LevelState, budget: nat, fuel: nat,
                                         visited: seq<Block>) returns (chain: seq<Block>)
    requires NoHalfDead(idx) && DownOk(level, st.down) && Been(idx, level, st, visited)
    requires LevelRule(idx, level, isRoot, st, budget, fuel).Passed?
    ensures |visited| < |chain| && chain[..|visited|] == visited && chain[|visited|] == st.current
    ensures Walked(idx, level, chain) && EndsRight(idx, chain)
    decreases fuel
  {
    WalkedOn(idx, level, isRoot, st, budget, visited);
    var longer := visited + [st.current];
    var after := PageRule(idx, level, isRoot, st, budget).value;
    if after.current == P_NONE {
      chain := longer;
    } else {
      chain := LevelWalkOnce(idx, level, isRoot, after, budget, fuel - 1, longer);
      assert chain[..|visited|] == longer[..|visited|] == visited;
      assert chain[|visited|] == longer[|visited|];
    }
  }

  /**
   So when a level passes and none of the pages walked is empty, all its items
   strictly increase along the right links.
   */
  lemma WalkedIncreasing(idx: Index, level: nat, chain: seq<Block>)
    requires WellFormed(idx) && Walked(idx, level, chain)
    requires forall i | 0 <= i < |chain| :: RealItems(Load(idx, chain[i]).value) != []
    ensures Increasing(idx.schema, LevelItems(idx, chain))
  {
    forall i | 0 <= i < |chain| ensures BlockAccepted(idx, chain[i]) {
      assert LevelPage(idx, level, chain[i]);
    }
    LevelStrictlyIncreasing(idx, chain);
  }

  // ----- down the levels

  /** The first live page at or right of a block, within so many steps. */
  function FirstLive(idx: Index, blk: Block, fuel: nat): Option<Page>
    decreases fuel
  {
    match Load(idx, blk)
    case None => None
    case Some(page) =>
      if !page.Ignore() then Some(page)
      else if fuel == 0 then None
      else FirstLive(idx, page.next, fuel - 1)
  }

  /** A page that passes as the first of its level does not name INVALID_BLOCK as the next level. */
  lemma FirstDownlinkValid(idx: Index, target: Target, budget: nat)
    requires target.page.Sane() && !target.page.Ignore() && TargetRule(idx, target, NO_CONNECTION, budget).Passed?
    ensures DownFrom(target.page).leftmost != INVALID_BLOCK
  {
    var o := target.page.FirstDataKey();
    if !target.page.leaf {
      assert OffsetRule(idx, target, o, NO_CONNECTION, budget).Passed?;
      assert HighkeyRule(idx, target, o, NO_CONNECTION, budget).Passed?;
    }
  }

  /** Once the level below is known it stays known. */
  lemma {:induction false} DownKept(idx: Index, level: nat, isRoot: bool, st: LevelState, budget: nat, fuel: nat)
    requires DownOk(level, st.down) && st.down.leftmost != INVALID_BLOCK
    requires LevelRule(idx, level, isRoot, st, budget, fuel).Passed?
    ensures LevelRule(idx, level, isRoot, st, budget, fuel).value == st.down
    decreases fuel
  {
    var after := PageRule(idx, level, isRoot, st, budget).value;
    if after.current != P_NONE {
      DownKept(idx, level, isRoot, after, budget, fuel - 1);
    }
  }

  /** A passing level walk hands down the first downlink of the level's first live page. */
  lemma {:induction false} LevelHandsDown(idx: Index, level: nat, isRoot: bool, st: LevelState, budget: nat, fuel: nat)
    requires st.down == NO_LEVEL && st.conn == NO_CONNECTION && LevelRule(idx, level, isRoot, st, budget, fuel).Passed?
    ensures FirstLive(idx, st.current, fuel).Some?
    ensures var page := FirstLive(idx, st.current, fuel).value;
            && page.level == level && page.Sane() && !page.Ignore()
            && LevelRule(idx, level, isRoot, st, budget, fuel).value == DownFrom(page)
            && DownFrom(page).leftmost != INVALID_BLOCK
    decreases fuel
  {
    var page := Load(idx, st.current).value;
    var after := PageRule(idx, level, isRoot, st, budget).value;
    if page.Ignore() {
      LevelHandsDown(idx, level, isRoot, after, budget, fuel - 1);
    } else {
      FirstDownlinkValid(idx, Target(page, st.lowkey), budget);
      if after.current != P_NONE {
        DownKept(idx, level, isRoot, after, budget, fuel - 1);
      }
    }
  }

  /** Going down by first downlinks of first live pages, one comes to a leaf and not to P_NONE. */
  predicate SpineComplete(idx: Index, blk: Block, level: nat, fuel: nat)
    decreases level
  {
    blk != P_NONE &&
    match FirstLive(idx, blk, fuel)
    case None => false
    case Some(page) =>
      page.leaf ||
      (level > 0 && page.Has(page.FirstDataKey()) &&
          SpineComplete(idx, page.At(page.FirstDataKey()).downlink, level - 1, fuel))
  }

  /**
   A check that raises no error verifies at most root level plus one levels,
   and exactly so many unless a first downlink on the way down is P_NONE.
   */
  lemma {:induction false} RoundsExact(idx: Index, level: Level, isRoot: bool, budget: nat)
    requires LevelsRule(idx, level, isRoot, budget).Passed?
    ensures var rounds := LevelsRule(idx, level, isRoot, budget).value;
            rounds <= level.level + 1 &&
                (rounds == level.level + 1 <==> SpineComplete(idx, level.leftmost, level.level, budget))
    decreases level.level
  {
    if level.leftmost != P_NONE {
      LevelHandsDown(idx, level.level, isRoot, LevelStart(level), budget, budget);
      var page := FirstLive(idx, level.leftmost, budget).value;
      if !page.leaf && DownFrom(page).leftmost != P_NONE {
        RoundsExact(idx, DownFrom(page), false, budget);
      }
    }
  }
}
