/**
 When the B-tree verifier's walk along a level ends, and when the whole check
 does.
 */
module BtreeLevelTermination {
  import opened Prelude
  import opened Iteration
  import opened BtreeOrder
  import opened BtreePages
  import opened BtreeRules
  import opened BtreeLevelOrder
  import opened BtreeWalks
  import opened BtreeTermination

  // ----- the states of the walk, read off the pages

  /** What the walk carries on after a page that passes. */
  function StateAfter(idx: Index, st: LevelState, page: Page): LevelState
    requires page.Sane()
  {
    LevelState(page.next, st.current,
               if !page.Ignore() && st.down.leftmost == INVALID_BLOCK then DownFrom(page) else st.down,
               if page.Ignore() then st.conn else LinkAfterPage(idx, page, st.conn),
               if page.Rightmost() || !page.Has(P_HIKEY) then None else Some(page.At(P_HIKEY)))
  }

  /** The state in which the walk comes to position `i` of a path of right links. */
  function StateOn(idx: Index, level: Level, path: seq<Block>, i: nat): LevelState
    requires RightChain(idx, path) && i <= |path|
  {
    if i == 0 then LevelStart(level)
    else StateAfter(idx, StateOn(idx, level, path, i - 1), Load(idx, path[i - 1]).value)
  }

  /** The tests of a live page before its items. */
  ghost predicate LivePasses(idx: Index, level: nat, isRoot: bool, st: LevelState, page: Page) {
    && (st.down.leftmost == INVALID_BLOCK ==> FirstPagePasses(idx, st.current, page, isRoot))
    && (st.left != P_NONE ==> page.prev == st.left) && page.level == level
  }

  /** The page at `blk`, come to in a state: half-dead, or live, linked back and accepted; never linked to itself. */
  ghost predicate WalkedPast(idx: Index, level: nat, isRoot: bool, st: LevelState, blk: Block, budget: nat) {
    Load(idx, blk).Some? && st.current == blk &&
    var page := Load(idx, blk).value;
    && blk != st.left && blk != page.prev
    && if page.Ignore() then page.halfDead && !page.Rightmost()
       else
         && LivePasses(idx, level, isRoot, st, page)
         && TargetRule(idx, Target(page, st.lowkey), st.conn, budget).Passed?
  }

  lemma WalkedPastIff(idx: Index, level: nat, isRoot: bool, st: LevelState, budget: nat)
    ensures PageRule(idx, level, isRoot, st, budget).Passed? <==>
            WalkedPast(idx, level, isRoot, st, st.current, budget)
    ensures PageRule(idx, level, isRoot, st, budget).Passed? ==>
              PageRule(idx, level, isRoot, st, budget).value == StateAfter(idx, st, Load(idx, st.current).value)
  {
    if Load(idx, st.current).Some? && !Load(idx, st.current).value.Ignore() {
      var target := Target(Load(idx, st.current).value, st.lowkey);
      if TargetRule(idx, target, st.conn, budget).Passed? {
        TargetLeaves(idx, target, st.conn, budget);
      }
    }
  }

  ghost predicate PastAt(idx: Index, level: Level, isRoot: bool, path: seq<Block>, i: nat, budget: nat)
    requires RightChain(idx, path) && i < |path|
  {
    WalkedPast(idx, level.level, isRoot, StateOn(idx, level, path, i), path[i], budget)
  }

  /** The walk comes past every page of the path. */
  ghost predicate WalkPath(idx: Index, level: Level, isRoot: bool, path: seq<Block>, budget: nat) {
    RightChain(idx, path) && forall i: nat | i < |path| :: PastAt(idx, level, isRoot, path, i, budget)
  }

  /** An iteration of bt_check_level_from_leftmost after which the loop goes on. */
  ghost function LevelStep(idx: Index, level: nat, isRoot: bool, budget: nat, st: LevelState): Option<LevelState> {
    match PageRule(idx, level, isRoot, st, budget)
    case Passed(after) => if after.current == P_NONE then None else Some(after)
    case Rejected => None
    case OutOfBudget => None
  }

  ghost function LevelStepper(
      idx: Index, level: nat, isRoot: bool, budget: nat): LevelState -> Option<LevelState> {
    st => LevelStep(idx, level, isRoot, budget, st)
  }

  /** The state after `n` iterations of the level walk, while it goes on. */
  ghost function Reached(idx: Index, level: Level, isRoot: bool, budget: nat, n: nat): Option<LevelState> {
    Iterate(LevelStepper(idx, level.level, isRoot, budget), LevelStart(level), n)
  }

  lemma ReachedNext(idx: Index, level: Level, isRoot: bool, budget: nat, n: nat)
    requires Reached(idx, level, isRoot, budget, n).Some?
    ensures Reached(idx, level, isRoot, budget, n + 1) ==
            LevelStep(idx, level.level, isRoot, budget, Reached(idx, level, isRoot, budget, n).value)
  {
    var step := LevelStepper(idx, level.level, isRoot, budget);
    IterateSum(step, LevelStart(level), n, 1);
    var t := Reached(idx, level, isRoot, budget, n).value;
    assert Iterate(step, t, 1) == match step(t) { case None => None case Some(u) => Iterate(step, u, 0) };
  }

  lemma {:induction false} SameStates(idx: Index, level: Level, path: seq<Block>, blk: Block, i: nat)
    requires RightChain(idx, path) && RightChain(idx, path + [blk]) && i <= |path|
    ensures StateOn(idx, level, path + [blk], i) == StateOn(idx, level, path, i)
    decreases i
  {
    if i > 0 {
      SameStates(idx, level, path, blk, i - 1);
      assert (path + [blk])[i - 1] == path[i - 1];
    }
  }

  lemma LongerPath(idx: Index, level: Level, isRoot: bool, path: seq<Block>, blk: Block, budget: nat)
    requires WalkPath(idx, level, isRoot, path, budget)
    requires WalkedPast(idx, level.level, isRoot, StateOn(idx, level, path, |path|), blk, budget)
    ensures WalkPath(idx, level, isRoot, path + [blk], budget)
    ensures StateOn(idx, level, path + [blk], |path| + 1) ==
            StateAfter(idx, StateOn(idx, level, path, |path|), Load(idx, blk).value)
  {
    hide WalkedPast;
    var longer := path + [blk];
    PastIsNext(idx, level, isRoot, path, blk, budget);
    assert longer[|path|] == blk && forall i | 0 <= i < |path| :: longer[i] == path[i];
    LongerRight(idx, path, blk);
    forall i: nat | i < |longer| ensures PastAt(idx, level, isRoot, longer, i, budget) {
      SameStates(idx, level, path, blk, i);
      assert i < |path| ==> PastAt(idx, level, isRoot, path, i, budget);
    }
    SameStates(idx, level, path, blk, |path|);
  }

  lemma PastIsNext(idx: Index, level: Level, isRoot: bool, path: seq<Block>, blk: Block, budget: nat)
    requires RightChain(idx, path)
    requires WalkedPast(idx, level.level, isRoot, StateOn(idx, level, path, |path|), blk, budget)
    ensures Load(idx, blk).Some? && (path != [] ==> blk == Load(idx, path[|path| - 1]).value.next)
  {
  }

  /** The pages the walk has come past. */
  lemma {:induction false} Trace(idx: Index, level: Level, isRoot: bool, budget: nat, n: nat) returns (path: seq<Block>)
    requires Reached(idx, level, isRoot, budget, n).Some?
    ensures |path| == n && WalkPath(idx, level, isRoot, path, budget)
    ensures Reached(idx, level, isRoot, budget, n) == Some(StateOn(idx, level, path, n))
    decreases n
  {
    if n == 0 {
      path := [];
    } else {
      IterateLess(LevelStepper(idx, level.level, isRoot, budget), LevelStart(level), n - 1, n);
      var before := Trace(idx, level, isRoot, budget, n - 1);
      ReachedNext(idx, level, isRoot, budget, n - 1);
      var st := StateOn(idx, level, before, n - 1);
      WalkedPastIff(idx, level.level, isRoot, st, budget);
      LongerPath(idx, level, isRoot, before, st.current, budget);
      path := before + [st.current];
    }
  }

  /** And such a path is one the walk takes. */
  lemma {:induction false} Follow(idx: Index, level: Level, isRoot: bool, path: seq<Block>, i: nat, budget: nat)
    requires WalkPath(idx, level, isRoot, path, budget) && i <= |path|
    requires i == |path| ==> StateOn(idx, level, path, i).current != P_NONE || i == 0
    ensures Reached(idx, level, isRoot, budget, i) == Some(StateOn(idx, level, path, i))
    decreases i
  {
    if i > 0 {
      Follow(idx, level, isRoot, path, i - 1, budget);
      ReachedNext(idx, level, isRoot, budget, i - 1);
      assert PastAt(idx, level, isRoot, path, i - 1, budget);
      WalkedPastIff(idx, level.level, isRoot, StateOn(idx, level, path, i - 1), budget);
      if i < |path| {
        assert PastAt(idx, level, isRoot, path, i, budget);
      }
    }
  }

  // ----- going round

  /** From position `start` the path goes round the same lap twice. */
  predicate LapAgain(path: seq<Block>, start: nat, lap: nat) {
    0 < lap && start + 2 * lap <= |path| && forall k | start + lap <= k < start + 2 * lap :: path[k] == path[k - lap]
  }

  /** The right links from the start of the level run into a cycle, past pages that all let the walk go on. */
  ghost predicate LevelCircles(
      idx: Index, level: Level, isRoot: bool, path: seq<Block>, lap: nat, budget: nat) {
    WalkPath(idx, level, isRoot, path, budget) && 2 * lap <= |path| && LapAgain(path, |path| - 2 * lap, lap)
  }

  /** Until the first live page, the walk knows no level below and no child. */
  lemma {:induction false} BeforeLive(idx: Index, level: Level, isRoot: bool, path: seq<Block>, i: nat, budget: nat)
    requires WalkPath(idx, level, isRoot, path, budget) && i <= |path|
    requires StateOn(idx, level, path, i).down.leftmost == INVALID_BLOCK
    ensures StateOn(idx, level, path, i).down == NO_LEVEL && StateOn(idx, level, path, i).conn == NO_CONNECTION
    ensures forall k | 0 <= k < i :: Load(idx, path[k]).value.Ignore()
    decreases i
  {
    if i > 0 {
      var st, page := StateOn(idx, level, path, i - 1), Load(idx, path[i - 1]).value;
      assert PastAt(idx, level, isRoot, path, i - 1, budget);
      BeforeLive(idx, level, isRoot, path, i - 1, budget);
      if !page.Ignore() {
        FirstDownlinkValid(idx, Target(page, st.lowkey), budget);
      }
    }
  }

  /** Once it is known, the level below stays. */
  lemma {:induction false} AfterLive(idx: Index, level: Level, path: seq<Block>, i: nat, j: nat)
    requires RightChain(idx, path) && i <= j <= |path|
    requires StateOn(idx, level, path, i).down.leftmost != INVALID_BLOCK ||
             forall k | i <= k < j :: Load(idx, path[k]).value.Ignore()
    ensures StateOn(idx, level, path, j).down == StateOn(idx, level, path, i).down
    decreases j
  {
    if i < j {
      AfterLive(idx, level, path, i, j - 1);
    }
  }

  lemma DownTwice(idx: Index, level: Level, isRoot: bool, path: seq<Block>, lap: nat, budget: nat)
    requires LevelCircles(idx, level, isRoot, path, lap, budget)
    ensures StateOn(idx, level, path, |path|).down == StateOn(idx, level, path, |path| - lap).down
  {
    var n := |path|;
    if StateOn(idx, level, path, n - lap).down.leftmost == INVALID_BLOCK {
      BeforeLive(idx, level, isRoot, path, n - lap, budget);
      forall k | n - lap <= k < n ensures Load(idx, path[k]).value.Ignore() {
        assert path[k] == path[k - lap];
      }
    }
    AfterLive(idx, level, path, n - lap, n);
  }

  /** Over the same pages the connectivity state becomes the same, or stays. */
  lemma {:induction false} LinksAlike(idx: Index, level: Level, path: seq<Block>, i: nat, j: nat, n: nat)
    requires RightChain(idx, path) && i + n <= |path| && j + n <= |path|
    requires i <= j && forall k | j <= k < j + n :: path[k] == path[k - j + i]
    ensures var a, b := StateOn(idx, level, path, i + n).conn, StateOn(idx, level, path, j + n).conn;
            a == b || (a == StateOn(idx, level, path, i).conn && b == StateOn(idx, level, path, j).conn)
    decreases n
  {
    if n > 0 {
      LinksAlike(idx, level, path, i, j, n - 1);
      assert path[j + n - 1] == path[i + n - 1];
    }
  }

  /** After the second lap the walk is in the state it was in before. */
  lemma StateTwice(idx: Index, level: Level, isRoot: bool, path: seq<Block>, lap: nat, budget: nat)
    requires LevelCircles(idx, level, isRoot, path, lap, budget)
    ensures StateOn(idx, level, path, |path|) == StateOn(idx, level, path, |path| - lap)
  {
    var n := |path|;
    DownTwice(idx, level, isRoot, path, lap, budget);
    LinksAlike(idx, level, path, n - 2 * lap, n - lap, lap);
    assert path[n - 1] == path[n - 1 - lap];
    assert PastAt(idx, level, isRoot, path, n - 1, budget) && PastAt(idx, level, isRoot, path, n - 1 - lap, budget);
  }

  lemma CirclingRecurs(idx: Index, level: Level, isRoot: bool, path: seq<Block>, lap: nat, budget: nat)
    requires LevelCircles(idx, level, isRoot, path, lap, budget)
    ensures Recurs(LevelStepper(idx, level.level, isRoot, budget), LevelStart(level))
  {
    var n := |path|;
    StateTwice(idx, level, isRoot, path, lap, budget);
    assert PastAt(idx, level, isRoot, path, n - lap, budget);
    Follow(idx, level, isRoot, path, n - lap, budget);
    Follow(idx, level, isRoot, path, n, budget);
  }

  lemma RecurringCircles(idx: Index, level: Level, isRoot: bool, budget: nat) returns (path: seq<Block>, lap: nat)
    requires Recurs(LevelStepper(idx, level.level, isRoot, budget), LevelStart(level))
    ensures LevelCircles(idx, level, isRoot, path, lap, budget)
  {
    var step, start := LevelStepper(idx, level.level, isRoot, budget), LevelStart(level);
    var m: nat, n: nat :| m < n && Iterate(step, start, m).Some? && Iterate(step, start, m) == Iterate(step, start, n);
    lap := n - m;
    RecurringNeverEnds(step, start, n + lap);
    path := Trace(idx, level, isRoot, budget, n + lap);
    forall k | n <= k < n + lap ensures path[k] == path[k - lap] {
      SameAgain(step, start, m, n, k - n);
      BlockReached(idx, level, isRoot, path, k, budget);
      BlockReached(idx, level, isRoot, path, k - lap, budget);
    }
  }

  lemma BlockReached(idx: Index, level: Level, isRoot: bool, path: seq<Block>, i: nat, budget: nat)
    requires WalkPath(idx, level, isRoot, path, budget) && i < |path|
    ensures Iterate(LevelStepper(idx, level.level, isRoot, budget), LevelStart(level), i).Some?
    ensures path[i] == Iterate(LevelStepper(idx, level.level, isRoot, budget), LevelStart(level), i).value.current
  {
    Follow(idx, level, isRoot, path, i, budget);
    assert PastAt(idx, level, isRoot, path, i, budget);
  }

  /** From equal states on, a loop does the same. */
  lemma SameAgain<S(!new)>(step: S -> Option<S>, s: S, m: nat, n: nat, k: nat)
    requires Iterate(step, s, m).Some? && Iterate(step, s, m) == Iterate(step, s, n)
    ensures Iterate(step, s, m + k) == Iterate(step, s, n + k)
  {
    IterateSum(step, s, m, k);
    IterateSum(step, s, n, k);
  }

  /** A live page that is not the first is linked back to the page before it. */
  lemma LinkedBack(idx: Index, level: Level, isRoot: bool, path: seq<Block>, i: nat, budget: nat)
    requires WalkPath(idx, level, isRoot, path, budget) && i < |path| && !Load(idx, path[i]).value.Ignore()
    ensures i > 0 ==> Load(idx, path[i]).value.prev == path[i - 1]
    ensures i == 0 ==> Leftmost(idx, path[0], Load(idx, path[0]).value.prev)
  {
    assert PastAt(idx, level, isRoot, path, i, budget);
    if i > 0 {
      assert PastAt(idx, level, isRoot, path, i - 1, budget);
    }
  }

  lemma LeftIsHalfDead(idx: Index, start: Block, prev: Block)
    requires Leftmost(idx, start, prev) && prev != P_NONE
    ensures Load(idx, prev).Some? && Load(idx, prev).value.halfDead
  {
    var chain :| ReachesLeftEnd(idx, start, prev, chain);
    ChainAt(idx, start, prev, chain, 0);
    assert chain[..0] == [];
  }

  /** One page earlier, if the pages before are the same. */
  lemma LapEarlier(path: seq<Block>, start: nat, lap: nat)
    requires LapAgain(path, start, lap) && start > 0 && path[start - 1] == path[start - 1 + lap]
    ensures LapAgain(path, start - 1, lap)
  {
  }

  /** Every cycle the level walk goes round has a half-dead page. */
  lemma {:induction false} HalfDeadOnCycle(
      idx: Index, level: Level, isRoot: bool, path: seq<Block>, start: nat, lap: nat, budget: nat) returns (i: nat)
    requires WalkPath(idx, level, isRoot, path, budget) && LapAgain(path, start, lap)
    ensures start + lap <= i < start + 2 * lap && Load(idx, path[i]).value.halfDead
    decreases start
  {
    assert path[start + lap] == path[start] && path[start + 2 * lap - 1] == path[start + lap - 1];
    if Load(idx, path[start]).value.Ignore() {
      assert PastAt(idx, level, isRoot, path, start, budget);
      i := start + lap;
    } else {
      LinkedBack(idx, level, isRoot, path, start, budget);
      LinkedBack(idx, level, isRoot, path, start + lap, budget);
      i := start + 2 * lap - 1;
      if start == 0 {
        LeftIsHalfDead(idx, path[0], path[lap - 1]);
      } else {
        LapEarlier(path, start, lap);
        var k := HalfDeadOnCycle(idx, level, isRoot, path, start - 1, lap, budget);
        i := if k == start + lap - 1 then i else k;
      }
    }
  }

  /**
   Where the walk comes onto the cycle: the level starts on it, or the walk comes
   to a half-dead page from outside and again from the cycle.
   */
  lemma {:induction false} CycleEntry(
      idx: Index, level: Level, isRoot: bool, path: seq<Block>, start: nat, lap: nat, budget: nat) returns (i: nat)
    requires WalkPath(idx, level, isRoot, path, budget) && LapAgain(path, start, lap)
    ensures i <= start && LapAgain(path, i, lap)
    ensures i == 0 || (path[i - 1] != path[i - 1 + lap] && Load(idx, path[i]).value.halfDead)
    decreases start
  {
    i := start;
    if start > 0 && path[start - 1] == path[start - 1 + lap] {
      LapEarlier(path, start, lap);
      i := CycleEntry(idx, level, isRoot, path, start - 1, lap, budget);
    } else if start > 0 {
      assert path[start + lap] == path[start];
      if !Load(idx, path[start]).value.Ignore() {
        LinkedBack(idx, level, isRoot, path, start, budget);
        LinkedBack(idx, level, isRoot, path, start + lap, budget);
      }
      assert PastAt(idx, level, isRoot, path, start, budget);
    }
  }

  // The walk is on the cycle from that page on, and not before.

  /** The block that many right links away. */
  function RightOf(idx: Index, blk: Block, n: nat): Block
    decreases n
  {
    if n == 0 then blk
    else match Load(idx, blk) { case None => blk case Some(page) => RightOf(idx, page.next, n - 1) }
  }

  lemma {:induction false} RightSum(idx: Index, blk: Block, m: nat, n: nat)
    ensures RightOf(idx, blk, m + n) == RightOf(idx, RightOf(idx, blk, m), n)
    decreases m
  {
    if m > 0 && Load(idx, blk).Some? {
      RightSum(idx, Load(idx, blk).value.next, m - 1, n);
    } else if m > 0 {
      Unmoved(idx, blk, n);
    }
  }

  lemma {:induction false} Unmoved(idx: Index, blk: Block, n: nat)
    requires Load(idx, blk).None?
    ensures RightOf(idx, blk, n) == blk
  {
  }

  lemma {:induction false} RightOfPath(idx: Index, path: seq<Block>, i: nat)
    requires RightChain(idx, path) && i < |path|
    ensures path[i] == RightOf(idx, path[0], i)
  {
    if i > 0 {
      RightOfPath(idx, path, i - 1);
      RightSum(idx, path[0], i - 1, 1);
      assert RightOf(idx, path[i - 1], 1) == RightOf(idx, Load(idx, path[i - 1]).value.next, 0);
    }
  }

  /** From a block to which right links lead back, they lead back after any number of laps. */
  lemma {:induction false} ManyLaps(idx: Index, blk: Block, lap: nat, n: nat, extra: nat)
    requires RightOf(idx, blk, lap) == blk
    ensures RightOf(idx, blk, n * lap + extra) == RightOf(idx, blk, extra)
    decreases n
  {
    if n > 0 {
      assert n * lap + extra == lap + ((n - 1) * lap + extra);
      RightSum(idx, blk, lap, (n - 1) * lap + extra);
      ManyLaps(idx, blk, lap, n - 1, extra);
    }
  }

  /** A page before the cycle, if it were on it, would be followed by the cycle's first page from the same block. */
  lemma SamePredecessor(idx: Index, blk: Block, lap: nat, other: nat)
    requires RightOf(idx, blk, lap) == blk && RightOf(idx, blk, other) == blk && lap > 0 && other > 0
    ensures RightOf(idx, blk, lap - 1) == RightOf(idx, blk, other - 1)
  {
    ManyLaps(idx, blk, lap, other - 1, lap - 1);
    ManyLaps(idx, blk, other, lap - 1, other - 1);
    assert (other - 1) * lap + (lap - 1) == (lap - 1) * other + (other - 1);
  }

  lemma BeforeEntry(idx: Index, path: seq<Block>, entry: nat, lap: nat, f: nat, m: nat)
    requires RightChain(idx, path) && LapAgain(path, entry, lap)
    requires f < entry <= m < entry + lap && path[f] == path[m]
    ensures path[entry - 1] == path[entry - 1 + lap]
  {
    var blk, start := path[entry], path[0];
    RightOfPath(idx, path, f);
    RightOfPath(idx, path, m);
    RightOfPath(idx, path, entry);
    RightOfPath(idx, path, entry - 1);
    RightOfPath(idx, path, entry - 1 + lap);
    RightOfPath(idx, path, entry + lap);
    assert path[entry + lap] == path[entry];
    var d := entry - f;
    RightSum(idx, start, f, d);
    RightSum(idx, start, m, d);
    RightSum(idx, start, f, d - 1);
    RightSum(idx, start, m, d - 1);
    RightSum(idx, start, entry, m - f);
    RightSum(idx, start, entry, m - f - 1);
    RightSum(idx, start, entry, lap);
    RightSum(idx, start, entry, lap - 1);
    assert m + d == entry + (m - f) && m + (d - 1) == entry + (m - f - 1);
    SamePredecessor(idx, blk, lap, m - f);
  }

  lemma {:induction false} AfterEntry(idx: Index, path: seq<Block>, entry: nat, lap: nat, f: nat)
    requires RightChain(idx, path) && LapAgain(path, entry, lap) && entry <= f < |path|
    ensures path[f] in path[entry..entry + lap]
    decreases f
  {
    if f < entry + lap {
      assert path[f] == path[entry..entry + lap][f - entry];
    } else {
      AfterEntry(idx, path, entry, lap, f - lap);
      RightOfPath(idx, path, f);
      RightOfPath(idx, path, f - lap);
      RightOfPath(idx, path, entry);
      RightOfPath(idx, path, entry + lap);
      RightSum(idx, path[0], entry, f - lap - entry);
      RightSum(idx, path[0], entry + lap, f - lap - entry);
      assert path[entry + lap] == path[entry];
    }
  }

  /**
   Where the walk comes onto a cycle and what is on it: the cycle has a
   half-dead page, the walk starts on it or comes onto it at a half-dead page,
   and a page of the walk, live or not, is on the cycle if and only if it does
   not stand before that one.
   */
  lemma CycleShape(idx: Index, level: Level, isRoot: bool, path: seq<Block>, lap: nat, budget: nat)
    returns (entry: nat, dead: nat)
    requires LevelCircles(idx, level, isRoot, path, lap, budget)
    ensures entry + 2 * lap <= |path| && (entry == 0 || Load(idx, path[entry]).value.halfDead)
    ensures entry + lap <= dead < entry + 2 * lap && Load(idx, path[dead]).value.halfDead
    ensures forall f: nat | f < |path| :: path[f] in path[entry..entry + lap] <==> f >= entry
  {
    entry := CycleEntry(idx, level, isRoot, path, |path| - 2 * lap, lap, budget);
    dead := HalfDeadOnCycle(idx, level, isRoot, path, entry, lap, budget);
    forall f: nat | f < |path| ensures path[f] in path[entry..entry + lap] <==> f >= entry {
      if f >= entry {
        AfterEntry(idx, path, entry, lap, f);
      } else if path[f] in path[entry..entry + lap] {
        var k :| 0 <= k < lap && path[entry..entry + lap][k] == path[f];
        BeforeEntry(idx, path, entry, lap, f, entry + k);
      }
    }
  }

  // ----- there are finitely many states

  ghost function Connections(idx: Index): set<Connection> {
    {NO_CONNECTION} + set b <- idx.pages :: Connection(idx.pages[b].next, idx.pages[b].incompleteSplit)
  }

  ghost function HighKeys(idx: Index): set<Option<Item>> {
    {None} + set b | b in idx.pages && idx.pages[b].Has(P_HIKEY) :: Some(idx.pages[b].At(P_HIKEY))
  }

  predicate HasDownlink(page: Page) {
    page.level > 0 && page.Has(page.FirstDataKey())
  }

  ghost function Downs(idx: Index): set<Level> {
    {NO_LEVEL, Level(P_NONE, 0)} +
    set b | b in idx.pages && HasDownlink(idx.pages[b]) ::
      Level(idx.pages[b].At(idx.pages[b].FirstDataKey()).downlink, idx.pages[b].level - 1)
  }

  /** The state is made of the index's own links, flags and keys, or of the initial ones. */
  ghost predicate MadeOf(idx: Index, st: LevelState) {
    && st.left in idx.pages.Keys + {P_NONE} && st.down in Downs(idx)
    && st.conn in Connections(idx) && st.lowkey in HighKeys(idx)
  }

  ghost function LevelStates(idx: Index): set<LevelState> {
    set current <- idx.pages.Keys, left <- idx.pages.Keys + {P_NONE}, down <- Downs(idx), conn <- Connections(idx),
        lowkey <- HighKeys(idx) ::
      LevelState(current, left, down, conn, lowkey)
  }

  lemma NextMadeOf(idx: Index, st: LevelState, page: Page)
    requires MadeOf(idx, st) && Load(idx, st.current) == Some(page)
    ensures st in LevelStates(idx) && MadeOf(idx, StateAfter(idx, st, page))
  {
    assert idx.pages[st.current] == page;
    assert page.Ignore() || page.leaf || HasDownlink(page);
    LinkMade(idx, page, st.conn);
  }

  lemma LinkMade(idx: Index, page: Page, conn: Connection)
    requires conn in Connections(idx)
    ensures LinkAfterPage(idx, page, conn) in Connections(idx)
  {
    if !page.leaf && !page.Rightmost() && page.items != [] {
      var child := page.At(page.MaxOffset()).downlink;
      assert Load(idx, child).Some? ==> child in idx.pages;
    }
  }

  lemma {:induction false} OnMadeOf(idx: Index, level: Level, path: seq<Block>, i: nat)
    requires RightChain(idx, path) && i <= |path| && (path != [] ==> path[0] == level.leftmost)
    ensures MadeOf(idx, StateOn(idx, level, path, i))
    ensures i < |path| ==> StateOn(idx, level, path, i).current == path[i]
    decreases i
  {
    if i > 0 {
      OnMadeOf(idx, level, path, i - 1);
      NextMadeOf(idx, StateOn(idx, level, path, i - 1), Load(idx, path[i - 1]).value);
    }
  }

  lemma LevelStaysIn(idx: Index, level: Level, isRoot: bool, budget: nat)
    ensures StaysIn(LevelStepper(idx, level.level, isRoot, budget), LevelStart(level), LevelStates(idx))
  {
    var step := LevelStepper(idx, level.level, isRoot, budget);
    forall m: nat | Iterate(step, LevelStart(level), m + 1).Some?
      ensures Iterate(step, LevelStart(level), m).Some?
      ensures Iterate(step, LevelStart(level), m).value in LevelStates(idx)
    {
      IterateLess(step, LevelStart(level), m, m + 1);
      var path := Trace(idx, level, isRoot, budget, m + 1);
      StateKnown(idx, level, isRoot, path, m, budget);
    }
  }

  lemma StateKnown(idx: Index, level: Level, isRoot: bool, path: seq<Block>, i: nat, budget: nat)
    requires WalkPath(idx, level, isRoot, path, budget) && i < |path|
    ensures Reached(idx, level, isRoot, budget, i).Some?
    ensures Reached(idx, level, isRoot, budget, i).value in LevelStates(idx)
  {
    assert PastAt(idx, level, isRoot, path, 0, budget) && PastAt(idx, level, isRoot, path, i, budget);
    Follow(idx, level, isRoot, path, i, budget);
    OnMadeOf(idx, level, path, i);
    NextMadeOf(idx, StateOn(idx, level, path, i), Load(idx, path[i]).value);
  }

  // ----- the level walk

  /** As many iterations as any of the walks can make before it comes to a state twice. */
  ghost predicate Plenty(idx: Index, budget: nat) {
    Ample(idx, budget) && budget >= |LevelStates(idx)|
  }

  /** The walk comes past every page of the path, and then to a live page whose own check runs forever. */
  ghost predicate LevelStuck(idx: Index, level: Level, isRoot: bool, path: seq<Block>, budget: nat) {
    WalkPath(idx, level, isRoot, path, budget) &&
    var st := StateOn(idx, level, path, |path|);
    Load(idx, st.current).Some? &&
    var page := Load(idx, st.current).value;
    && !page.Ignore() && LivePasses(idx, level.level, isRoot, st, page)
    && PageCircles(idx, Target(page, st.lowkey), st.conn, budget)
  }

  /** After `n` iterations the walk is at a page whose own check runs out of budget. */
  ghost predicate StoppedAt(idx: Index, level: nat, isRoot: bool, st: LevelState, budget: nat, n: nat) {
    var reached := Iterate(LevelStepper(idx, level, isRoot, budget), st, n);
    reached.Some? && PageRule(idx, level, isRoot, reached.value, budget).OutOfBudget?
  }

  lemma PageDownOk(idx: Index, level: nat, isRoot: bool, st: LevelState, budget: nat)
    requires DownOk(level, st.down) && PageRule(idx, level, isRoot, st, budget).Passed?
    ensures DownOk(level, PageRule(idx, level, isRoot, st, budget).value.down)
  {
  }

  lemma {:induction false} LevelBudget(idx: Index, level: nat, isRoot: bool, st: LevelState, budget: nat, fuel: nat)
    requires DownOk(level, st.down)
    ensures LevelRule(idx, level, isRoot, st, budget, fuel).OutOfBudget? <==>
            || Iterate(LevelStepper(idx, level, isRoot, budget), st, fuel + 1).Some?
            || exists n: nat :: n <= fuel && StoppedAt(idx, level, isRoot, st, budget, n)
    decreases fuel
  {
    hide PageRule;
    var step := LevelStepper(idx, level, isRoot, budget);
    if PageRule(idx, level, isRoot, st, budget).OutOfBudget? {
      assert StoppedAt(idx, level, isRoot, st, budget, 0);
    } else if step(st).Some? {
      var after := step(st).value;
      PageDownOk(idx, level, isRoot, st, budget);
      forall n: nat | n > 0
        ensures StoppedAt(idx, level, isRoot, st, budget, n) <==> StoppedAt(idx, level, isRoot, after, budget, n - 1)
      {
      }
      if fuel > 0 {
        LevelBudget(idx, level, isRoot, after, budget, fuel - 1);
        if n: nat :| n <= fuel - 1 && StoppedAt(idx, level, isRoot, after, budget, n) {
          assert StoppedAt(idx, level, isRoot, st, budget, n + 1);
        }
      }
    }
  }

  lemma PageSettles(idx: Index, level: nat, isRoot: bool, st: LevelState, budget: nat, ample: nat)
    requires Ample(idx, ample)
    ensures Settles(PageRule(idx, level, isRoot, st, budget), PageRule(idx, level, isRoot, st, ample))
    ensures PageRule(idx, level, isRoot, st, ample).OutOfBudget? <==>
            Load(idx, st.current).Some? &&
            var page := Load(idx, st.current).value;
            && !page.Ignore() && LivePasses(idx, level, isRoot, st, page)
            && PageCircles(idx, Target(page, st.lowkey), st.conn, ample)
  {
    if Load(idx, st.current).Some? {
      TargetSettles(idx, Target(Load(idx, st.current).value, st.lowkey), st.conn, budget, ample);
    }
  }

  lemma StuckStops(idx: Index, level: Level, isRoot: bool, path: seq<Block>, ample: nat)
    requires Ample(idx, ample) && LevelStuck(idx, level, isRoot, path, ample)
    ensures StoppedAt(idx, level.level, isRoot, LevelStart(level), ample, |path|)
  {
    Follow(idx, level, isRoot, path, |path|, ample);
    PageSettles(idx, level.level, isRoot, StateOn(idx, level, path, |path|), ample, ample);
  }

  lemma StoppedStuck(idx: Index, level: Level, isRoot: bool, n: nat, ample: nat) returns (path: seq<Block>)
    requires Ample(idx, ample) && StoppedAt(idx, level.level, isRoot, LevelStart(level), ample, n)
    ensures LevelStuck(idx, level, isRoot, path, ample)
  {
    path := Trace(idx, level, isRoot, ample, n);
    PageSettles(idx, level.level, isRoot, StateOn(idx, level, path, n), ample, ample);
  }

  /** The level walk runs forever. */
  ghost predicate LevelForever(idx: Index, level: Level, isRoot: bool, budget: nat) {
    || (exists path, lap: nat :: LevelCircles(idx, level, isRoot, path, lap, budget))
    || (exists path :: LevelStuck(idx, level, isRoot, path, budget))
  }

  /** After `fuel` more iterations the walk still goes on, or before that it comes to a page it does not get past. */
  ghost predicate GoesOn(idx: Index, level: Level, isRoot: bool, budget: nat, fuel: nat) {
    || Iterate(LevelStepper(idx, level.level, isRoot, budget), LevelStart(level), fuel + 1).Some?
    || exists n: nat :: n <= fuel && StoppedAt(idx, level.level, isRoot, LevelStart(level), budget, n)
  }

  lemma CirclingGoesOn(idx: Index, level: Level, isRoot: bool, path: seq<Block>, lap: nat, budget: nat, fuel: nat)
    requires LevelCircles(idx, level, isRoot, path, lap, budget)
    ensures GoesOn(idx, level, isRoot, budget, fuel)
  {
    CirclingRecurs(idx, level, isRoot, path, lap, budget);
    RecurringNeverEnds(LevelStepper(idx, level.level, isRoot, budget), LevelStart(level), fuel + 1);
  }

  lemma StuckGoesOn(idx: Index, level: Level, isRoot: bool, path: seq<Block>, ample: nat, fuel: nat)
    requires Ample(idx, ample) && LevelStuck(idx, level, isRoot, path, ample)
    ensures GoesOn(idx, level, isRoot, ample, fuel)
  {
    StuckStops(idx, level, isRoot, path, ample);
    if |path| > fuel {
      IterateLess(LevelStepper(idx, level.level, isRoot, ample), LevelStart(level), fuel + 1, |path|);
    }
  }

  lemma ForeverGoesOn(idx: Index, level: Level, isRoot: bool, plenty: nat, fuel: nat)
    requires Plenty(idx, plenty) && LevelForever(idx, level, isRoot, plenty)
    ensures GoesOn(idx, level, isRoot, plenty, fuel)
  {
    if path, lap: nat :| LevelCircles(idx, level, isRoot, path, lap, plenty) {
      CirclingGoesOn(idx, level, isRoot, path, lap, plenty, fuel);
    } else {
      var path :| LevelStuck(idx, level, isRoot, path, plenty);
      StuckGoesOn(idx, level, isRoot, path, plenty, fuel);
    }
  }

  lemma GoesOnForever(idx: Index, level: Level, isRoot: bool, plenty: nat)
    requires Plenty(idx, plenty) && GoesOn(idx, level, isRoot, plenty, plenty)
    ensures LevelForever(idx, level, isRoot, plenty)
  {
    if n: nat :| n <= plenty && StoppedAt(idx, level.level, isRoot, LevelStart(level), plenty, n) {
      var path := StoppedStuck(idx, level, isRoot, n, plenty);
    } else {
      var path, lap := LongWalkCircles(idx, level, isRoot, plenty);
    }
  }

  lemma LongWalkCircles(idx: Index, level: Level, isRoot: bool, plenty: nat) returns (path: seq<Block>, lap: nat)
    requires Plenty(idx, plenty)
    requires Iterate(LevelStepper(idx, level.level, isRoot, plenty), LevelStart(level), plenty + 1).Some?
    ensures LevelCircles(idx, level, isRoot, path, lap, plenty)
  {
    hide PageRule, LevelStep, LevelCircles, LevelStates, Ample;
    var st, step := LevelStart(level), LevelStepper(idx, level.level, isRoot, plenty);
    LevelStaysIn(idx, level, isRoot, plenty);
    IterateLess(step, st, |LevelStates(idx)| + 1, plenty + 1);
    ManyRecur(step, st, LevelStates(idx));
    path, lap := RecurringCircles(idx, level, isRoot, plenty);
  }

  lemma ForeverIff(idx: Index, level: Level, isRoot: bool, plenty: nat, fuel: nat)
    requires Plenty(idx, plenty) && fuel >= plenty
    ensures GoesOn(idx, level, isRoot, plenty, fuel) <==> LevelForever(idx, level, isRoot, plenty)
  {
    if LevelForever(idx, level, isRoot, plenty) {
      ForeverGoesOn(idx, level, isRoot, plenty, fuel);
    }
    if GoesOn(idx, level, isRoot, plenty, fuel) {
      LessGoesOn(idx, level, isRoot, plenty, fuel);
      GoesOnForever(idx, level, isRoot, plenty);
    }
  }

  lemma LessGoesOn(idx: Index, level: Level, isRoot: bool, budget: nat, fuel: nat)
    requires fuel >= budget && GoesOn(idx, level, isRoot, budget, fuel)
    ensures GoesOn(idx, level, isRoot, budget, budget)
  {
    hide PageRule, LevelStep;
    var st, step := LevelStart(level), LevelStepper(idx, level.level, isRoot, budget);
    if Iterate(step, st, fuel + 1).Some? {
      IterateLess(step, st, budget + 1, fuel + 1);
    } else {
      var n: nat :| n <= fuel && StoppedAt(idx, level.level, isRoot, st, budget, n);
      if n > budget {
        IterateLess(step, st, budget + 1, n);
      }
    }
  }

  /** More fuel, or enough of a budget, changes nothing once the walk has ended. */
  lemma {:induction false} LevelMore(
      idx: Index, level: nat, isRoot: bool, st: LevelState, budget: nat, fuel: nat, ample: nat, more: nat)
    requires DownOk(level, st.down) && Ample(idx, ample) && fuel <= more
    ensures Settles(LevelRule(idx, level, isRoot, st, budget, fuel), LevelRule(idx, level, isRoot, st, ample, more))
    decreases fuel
  {
    PageSettles(idx, level, isRoot, st, budget, ample);
    if PageRule(idx, level, isRoot, st, budget).Passed? && fuel > 0 {
      var after := PageRule(idx, level, isRoot, st, budget).value;
      LevelMore(idx, level, isRoot, after, budget, fuel - 1, ample, more - 1);
    }
  }

  /** What the walk along one level does. */
  ghost function LevelOutcome(idx: Index, level: Level, isRoot: bool, budget: nat): Outcome<Level> {
    LevelRule(idx, level.level, isRoot, LevelStart(level), budget, budget)
  }

  lemma LevelSettles(idx: Index, level: Level, isRoot: bool, budget: nat, plenty: nat)
    requires Plenty(idx, plenty)
    ensures Settles(LevelOutcome(idx, level, isRoot, budget), LevelOutcome(idx, level, isRoot, plenty))
  {
    var st := LevelStart(level);
    if budget <= plenty {
      LevelMore(idx, level.level, isRoot, st, budget, budget, plenty, plenty);
    } else {
      LevelMore(idx, level.level, isRoot, st, budget, budget, plenty, budget);
      LevelMore(idx, level.level, isRoot, st, plenty, plenty, plenty, budget);
      LevelForeverIff(idx, level, isRoot, plenty, plenty);
      LevelForeverIff(idx, level, isRoot, plenty, budget);
    }
  }

  lemma LevelForeverIff(idx: Index, level: Level, isRoot: bool, plenty: nat, fuel: nat)
    requires Plenty(idx, plenty) && fuel >= plenty
    ensures LevelRule(idx, level.level, isRoot, LevelStart(level), plenty, fuel).OutOfBudget? <==>
            LevelForever(idx, level, isRoot, plenty)
  {
    LevelBudget(idx, level.level, isRoot, LevelStart(level), plenty, fuel);
    ForeverIff(idx, level, isRoot, plenty, fuel);
  }

  /**
   The level walk runs forever if and only if the right links from its start run
   into a cycle, every page on the way and on it being half-dead, or live, linked
   back to the page before and accepted, and none linked to itself; or if it
   comes past such pages to a live page whose own check runs forever.
   */
  lemma LevelWalkNeverEndsIff(idx: Index, level: Level, isRoot: bool, plenty: nat)
    requires Plenty(idx, plenty)
    ensures (forall budget: nat :: LevelOutcome(idx, level, isRoot, budget).OutOfBudget?) <==>
            LevelForever(idx, level, isRoot, plenty)
  {
    forall budget: nat
      ensures Settles(LevelOutcome(idx, level, isRoot, budget), LevelOutcome(idx, level, isRoot, plenty))
    {
      LevelSettles(idx, level, isRoot, budget, plenty);
    }
    LevelForeverIff(idx, level, isRoot, plenty, plenty);
    assert LevelOutcome(idx, level, isRoot, plenty).OutOfBudget? <==> LevelForever(idx, level, isRoot, plenty);
  }

  /** Without half-dead pages it cannot go round. */
  lemma LevelWalkEnds(idx: Index, level: Level, isRoot: bool, plenty: nat)
    requires NoHalfDead(idx) && Plenty(idx, plenty)
    ensures (forall budget: nat :: LevelOutcome(idx, level, isRoot, budget).OutOfBudget?) <==>
            exists path :: LevelStuck(idx, level, isRoot, path, plenty)
  {
    LevelWalkNeverEndsIff(idx, level, isRoot, plenty);
    NeverRound(idx, level, isRoot, plenty);
  }

  lemma NeverRound(idx: Index, level: Level, isRoot: bool, budget: nat)
    requires NoHalfDead(idx)
    ensures forall path, lap: nat :: !LevelCircles(idx, level, isRoot, path, lap, budget)
  {
    forall path, lap: nat | LevelCircles(idx, level, isRoot, path, lap, budget) ensures false {
      var i := HalfDeadOnCycle(idx, level, isRoot, path, |path| - 2 * lap, lap, budget);
    }
  }

  // ----- the whole check

  /** The level passes and there is one below it. */
  ghost predicate HandsDown(idx: Index, level: Level, isRoot: bool, down: Level, budget: nat) {
    && level.leftmost != P_NONE && down.leftmost != INVALID_BLOCK && down.leftmost != P_NONE
    && LevelOutcome(idx, level, isRoot, budget) == Passed(down)
  }

  /** Every level but the last passes and hands down the next. */
  ghost predicate Descends(idx: Index, isRoot: bool, levels: seq<Level>, budget: nat) {
    && levels != [] && levels[|levels| - 1].leftmost != P_NONE
    && forall i | 0 < i < |levels| :: HandsDown(idx, levels[i - 1], isRoot && i == 1, levels[i], budget)
  }

  /** The check comes down to a level whose walk runs forever. */
  ghost predicate ComesTo(idx: Index, isRoot: bool, levels: seq<Level>, budget: nat) {
    && Descends(idx, isRoot, levels, budget)
    && LevelForever(idx, levels[|levels| - 1], isRoot && |levels| == 1, budget)
  }

  /** What the check of a level and those below comes to. */
  function LevelThen(outcome: Outcome<Level>, below: Outcome<nat>): Outcome<nat> {
    match outcome
    case Rejected => Rejected
    case OutOfBudget => OutOfBudget
    case Passed(down) =>
      if down.leftmost == INVALID_BLOCK then Rejected
      else if down.leftmost == P_NONE then Passed(1)
      else
        match below
        case Passed(rounds) => Passed(rounds + 1)
        case Rejected => Rejected
        case OutOfBudget => OutOfBudget
  }

  lemma LevelsThen(idx: Index, level: Level, isRoot: bool, budget: nat)
    requires level.leftmost != P_NONE
    ensures var outcome := LevelOutcome(idx, level, isRoot, budget);
            && (outcome.Passed? && level.level == 0 ==> outcome.value.leftmost in {P_NONE, INVALID_BLOCK})
            && LevelsRule(idx, level, isRoot, budget) ==
               LevelThen(outcome,
                         if outcome.Passed? && level.level > 0 then LevelsRule(idx, outcome.value, false, budget)
                         else Rejected)
  {
  }

  lemma {:induction false} LevelsSettle(idx: Index, level: Level, isRoot: bool, budget: nat, plenty: nat)
    requires Plenty(idx, plenty)
    ensures Settles(LevelsRule(idx, level, isRoot, budget), LevelsRule(idx, level, isRoot, plenty))
    decreases level.level
  {
    if level.leftmost != P_NONE {
      LevelSettles(idx, level, isRoot, budget, plenty);
      LevelsThen(idx, level, isRoot, budget);
      LevelsThen(idx, level, isRoot, plenty);
      var r := LevelOutcome(idx, level, isRoot, plenty);
      if r.Passed? && HandsDown(idx, level, isRoot, r.value, plenty) {
        LevelsSettle(idx, r.value, false, budget, plenty);
      }
    }
  }

  lemma OneLevelUp(idx: Index, level: Level, isRoot: bool, below: seq<Level>, budget: nat)
    requires ComesTo(idx, false, below, budget) && HandsDown(idx, level, isRoot, below[0], budget)
    ensures ComesTo(idx, isRoot, [level] + below, budget)
  {
    var levels := [level] + below;
    assert levels[|levels| - 1] == below[|below| - 1];
    forall i | 0 < i < |levels| ensures HandsDown(idx, levels[i - 1], isRoot && i == 1, levels[i], budget) {
      assert i > 1 ==> HandsDown(idx, below[i - 2], false, below[i - 1], budget);
    }
  }

  lemma OneLevelDown(idx: Index, isRoot: bool, levels: seq<Level>, budget: nat)
    requires ComesTo(idx, isRoot, levels, budget) && |levels| > 1
    ensures HandsDown(idx, levels[0], isRoot, levels[1], budget) && ComesTo(idx, false, levels[1..], budget)
  {
    var below := levels[1..];
    assert below[|below| - 1] == levels[|levels| - 1];
    forall i | 0 < i < |below| ensures HandsDown(idx, below[i - 1], false, below[i], budget) {
      assert HandsDown(idx, levels[i], false, levels[i + 1], budget);
    }
  }

  lemma FirstLevelKnown(idx: Index, level: Level, isRoot: bool, budget: nat)
    requires LevelsRule(idx, level, isRoot, budget).OutOfBudget?
    ensures level.leftmost != P_NONE
  {
  }

  lemma {:induction false} ForeverBelow(idx: Index, level: Level, isRoot: bool, plenty: nat)
    requires Plenty(idx, plenty) && LevelsRule(idx, level, isRoot, plenty).OutOfBudget?
    ensures exists levels :: ComesTo(idx, isRoot, levels, plenty) && levels[0] == level
    decreases level.level
  {
    hide LevelsRule, LevelForever, LevelRule;
    LevelForeverIff(idx, level, isRoot, plenty, plenty);
    FirstLevelKnown(idx, level, isRoot, plenty);
    LevelsThen(idx, level, isRoot, plenty);
    var r := LevelOutcome(idx, level, isRoot, plenty);
    if r.OutOfBudget? {
      assert ComesTo(idx, isRoot, [level], plenty);
    } else {
      ForeverBelow(idx, r.value, false, plenty);
      var below :| ComesTo(idx, false, below, plenty) && below[0] == r.value;
      OneLevelUp(idx, level, isRoot, below, plenty);
    }
  }

  lemma {:induction false} ComingTo(idx: Index, isRoot: bool, levels: seq<Level>, plenty: nat)
    requires Plenty(idx, plenty) && ComesTo(idx, isRoot, levels, plenty)
    ensures LevelsRule(idx, levels[0], isRoot, plenty).OutOfBudget?
    decreases |levels|
  {
    hide LevelsRule, LevelForever, LevelRule;
    if |levels| == 1 {
      LevelForeverIff(idx, levels[0], isRoot, plenty, plenty);
      LevelsThen(idx, levels[0], isRoot, plenty);
    } else {
      OneLevelDown(idx, isRoot, levels, plenty);
      LevelsThen(idx, levels[0], isRoot, plenty);
      ComingTo(idx, false, levels[1..], plenty);
    }
  }

  ghost predicate CheckForever(idx: Index, budget: nat) {
    exists levels :: ComesTo(idx, true, levels, budget) && levels[0] == Level(idx.root, idx.rootLevel)
  }

  /**
   The whole check runs forever if and only if it comes down, through levels that
   pass, to one whose walk does; and a larger budget than `plenty` changes nothing.
   */
  lemma CheckNeverEndsIff(idx: Index, plenty: nat)
    requires Plenty(idx, plenty)
    ensures (forall budget: nat :: CheckRule(idx, budget).OutOfBudget?) <==> CheckForever(idx, plenty)
    ensures forall budget: nat :: Settles(CheckRule(idx, budget), CheckRule(idx, plenty))
  {
    var root := Level(idx.root, idx.rootLevel);
    forall budget: nat ensures Settles(CheckRule(idx, budget), CheckRule(idx, plenty)) {
      LevelsSettle(idx, root, true, budget, plenty);
    }
    if CheckRule(idx, plenty).OutOfBudget? {
      ForeverBelow(idx, root, true, plenty);
    }
    if levels :| ComesTo(idx, true, levels, plenty) && levels[0] == root {
      ComingTo(idx, true, levels, plenty);
    }
    assert CheckRule(idx, plenty).OutOfBudget? <==> CheckForever(idx, plenty);
  }

  /** The check comes down to a level and along it to a live page whose own check runs forever. */
  ghost predicate ReachesStuckPage(idx: Index, levels: seq<Level>, path: seq<Block>, budget: nat) {
    && Descends(idx, true, levels, budget) && levels[0] == Level(idx.root, idx.rootLevel)
    && LevelStuck(idx, levels[|levels| - 1], |levels| == 1, path, budget)
  }

  /**
   Without half-dead pages the whole check runs forever if and only if a page it
   reaches starts a walk along the children that runs into a cycle, or a search
   to the right that comes to a block twice.
   */
  lemma CheckEndsUnlessStuck(idx: Index, plenty: nat)
    requires NoHalfDead(idx) && Plenty(idx, plenty)
    ensures (forall budget: nat :: CheckRule(idx, budget).OutOfBudget?) <==>
            exists levels, path :: ReachesStuckPage(idx, levels, path, plenty)
  {
    CheckNeverEndsIff(idx, plenty);
    if CheckForever(idx, plenty) {
      var levels :| ComesTo(idx, true, levels, plenty) && levels[0] == Level(idx.root, idx.rootLevel);
      NeverRound(idx, levels[|levels| - 1], |levels| == 1, plenty);
      var path :| LevelStuck(idx, levels[|levels| - 1], |levels| == 1, path, plenty);
      assert ReachesStuckPage(idx, levels, path, plenty);
    }
    if levels, path :| ReachesStuckPage(idx, levels, path, plenty) {
      assert ComesTo(idx, true, levels, plenty);
    }
  }
}
