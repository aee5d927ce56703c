/**
 When the B-tree verifier's walks along children and over ignorable pages end,
 and so when the check of one page does.  The rules carry a budget; here it is
 shown that a large enough one stands for running without a budget.
 */
module BtreeTermination {
  import opened Prelude
  import opened Iteration
  import opened BtreeOrder
  import opened BtreePages
  import opened BtreeRules
  import opened BtreeLevelOrder
  import opened BtreeWalks

  // ----- along the children

  datatype ChildState = ChildState(blk: Block, rightSplit: bool, first: bool)

  /** One iteration of bt_child_highkey_check that neither returns nor raises an error. */
  ghost function ChildStep(
      idx: Index, target: Target, offset: nat, conn: Connection, s: ChildState): Option<ChildState> {
    if (offset == 0 || target.page.Has(offset)) && s.blk != P_NONE && Load(idx, s.blk).Some? &&
       ChildPagePasses(idx, target, offset, conn, s.blk, Load(idx, s.blk).value, s.rightSplit, s.first) &&
       s.blk != DownlinkAt(target.page, offset)
    then Some(ChildState(Load(idx, s.blk).value.next, Load(idx, s.blk).value.incompleteSplit, false))
    else None
  }

  ghost function ChildStepper(
      idx: Index, target: Target, offset: nat, conn: Connection): ChildState -> Option<ChildState> {
    s => ChildStep(idx, target, offset, conn, s)
  }

  lemma {:induction false} ChildBudget(
      idx: Index, target: Target, offset: nat, conn: Connection, s: ChildState, budget: nat)
    requires offset == 0 || target.page.Has(offset)
    ensures ChildWalk(idx, target, offset, conn, s.blk, s.rightSplit, s.first, budget).OutOfBudget? <==>
            Iterate(ChildStepper(idx, target, offset, conn), s, budget + 1).Some?
    decreases budget
  {
    var step := ChildStepper(idx, target, offset, conn);
    if step(s).Some? && budget > 0 {
      ChildBudget(idx, target, offset, conn, step(s).value, budget - 1);
    }
  }

  /** Four states for every page. */
  ghost function ChildStates(idx: Index): set<ChildState> {
    set blk, rightSplit, first | blk in idx.pages && rightSplit in {false, true} && first in {false, true} ::
      ChildState(blk, rightSplit, first)
  }

  lemma ChildStaysIn(idx: Index, target: Target, offset: nat, conn: Connection, s: ChildState)
    ensures StaysIn(ChildStepper(idx, target, offset, conn), s, ChildStates(idx))
  {
    var step := ChildStepper(idx, target, offset, conn);
    forall m: nat | Iterate(step, s, m + 1).Some?
      ensures Iterate(step, s, m).Some? && Iterate(step, s, m).value in ChildStates(idx)
    {
      IterateLess(step, s, m, m + 1);
      IterateSum(step, s, m, 1);
      var t := Iterate(step, s, m).value;
      assert Iterate(step, t, 1).Some? && step(t).Some?;
    }
  }

  /** Page `i` of a path of right links passes its checks and is not the page looked for. */
  ghost predicate PassedBy(
      idx: Index, target: Target, offset: nat, conn: Connection, s: ChildState, path: seq<Block>, i: nat)
    requires RightChain(idx, path) && i < |path| && (offset == 0 || target.page.Has(offset))
  {
    && path[i] != DownlinkAt(target.page, offset)
    && ChildPagePasses(idx, target, offset, conn, path[i], Load(idx, path[i]).value,
                       if i == 0 then s.rightSplit else Load(idx, path[i - 1]).value.incompleteSplit, i == 0 && s.first)
  }

  /** The right links from the start lead, past acceptable pages none of which is looked for, to a page again. */
  ghost predicate RunsIntoCycle(
      idx: Index, target: Target, offset: nat, conn: Connection, s: ChildState, path: seq<Block>)
    requires offset == 0 || target.page.Has(offset)
  {
    && RightChain(idx, path) && |path| > 1 && path[0] == s.blk && path[|path| - 1] in path[..|path| - 1]
    && forall i: nat | i < |path| :: PassedBy(idx, target, offset, conn, s, path, i)
  }

  ghost predicate WalkCircles(idx: Index, target: Target, offset: nat, conn: Connection, s: ChildState)
    requires offset == 0 || target.page.Has(offset)
  {
    exists path :: RunsIntoCycle(idx, target, offset, conn, s, path)
  }

  /** The state at position `i` of such a path. */
  ghost function StateAt(idx: Index, s: ChildState, path: seq<Block>, i: nat): ChildState
    requires RightChain(idx, path) && i <= |path| && |path| > 0
  {
    if i == 0 then s
    else ChildState(Load(idx, path[i - 1]).value.next, Load(idx, path[i - 1]).value.incompleteSplit, false)
  }

  lemma {:induction false} PathStates(
      idx: Index, target: Target, offset: nat, conn: Connection, s: ChildState, path: seq<Block>, i: nat)
    requires offset == 0 || target.page.Has(offset)
    requires RightChain(idx, path) && i <= |path| && |path| > 0 && path[0] == s.blk
    requires forall k: nat | k < |path| :: PassedBy(idx, target, offset, conn, s, path, k)
    ensures Iterate(ChildStepper(idx, target, offset, conn), s, i) == Some(StateAt(idx, s, path, i))
  {
    if i > 0 {
      var step := ChildStepper(idx, target, offset, conn);
      PathStates(idx, target, offset, conn, s, path, i - 1);
      IterateSum(step, s, i - 1, 1);
      var t := StateAt(idx, s, path, i - 1);
      assert PassedBy(idx, target, offset, conn, s, path, i - 1);
      assert step(t) == Some(StateAt(idx, s, path, i));
      assert Iterate(step, t, 1) == step(t);
    }
  }

  lemma CycleRecurs(idx: Index, target: Target, offset: nat, conn: Connection, s: ChildState, path: seq<Block>)
    requires offset == 0 || target.page.Has(offset)
    requires RunsIntoCycle(idx, target, offset, conn, s, path)
    ensures Recurs(ChildStepper(idx, target, offset, conn), s)
  {
    var n := |path| - 1;
    var m: nat :| m < n && path[m] == path[n];
    PathStates(idx, target, offset, conn, s, path, m + 1);
    PathStates(idx, target, offset, conn, s, path, n + 1);
    assert StateAt(idx, s, path, m + 1) == StateAt(idx, s, path, n + 1);
  }

  /** What one more iteration says about the state before it. */
  lemma ChildStepped(idx: Index, target: Target, offset: nat, conn: Connection, s: ChildState, k: nat)
    requires Iterate(ChildStepper(idx, target, offset, conn), s, k + 1).Some?
    ensures Iterate(ChildStepper(idx, target, offset, conn), s, k).Some?
    ensures var t := Iterate(ChildStepper(idx, target, offset, conn), s, k).value;
            ChildStep(idx, target, offset, conn, t) == Iterate(ChildStepper(idx, target, offset, conn), s, k + 1)
  {
    var step := ChildStepper(idx, target, offset, conn);
    IterateLess(step, s, k, k + 1);
    IterateSum(step, s, k, 1);
    var t := Iterate(step, s, k).value;
    assert Iterate(step, t, 1) == match step(t) { case None => None case Some(u) => Some(u) };
  }

  /** The blocks of the first `n` + 1 states. */
  ghost predicate Traces(
      idx: Index, target: Target, offset: nat, conn: Connection, s: ChildState, path: seq<Block>, n: nat) {
    && |path| == n + 1
    && forall k: nat | k <= n + 1 ::
         && Iterate(ChildStepper(idx, target, offset, conn), s, k).Some?
         && (k <= n ==> path[k] == Iterate(ChildStepper(idx, target, offset, conn), s, k).value.blk)
  }

  lemma TracePassed(
      idx: Index, target: Target, offset: nat, conn: Connection, s: ChildState, path: seq<Block>, n: nat, i: nat)
    requires offset == 0 || target.page.Has(offset)
    requires Traces(idx, target, offset, conn, s, path, n) && i <= n && RightChain(idx, path)
    ensures PassedBy(idx, target, offset, conn, s, path, i)
  {
    ChildStepped(idx, target, offset, conn, s, i);
    if i > 0 {
      ChildStepped(idx, target, offset, conn, s, i - 1);
    }
  }

  lemma TraceChained(
      idx: Index, target: Target, offset: nat, conn: Connection, s: ChildState, path: seq<Block>, n: nat)
    requires Traces(idx, target, offset, conn, s, path, n)
    ensures RightChain(idx, path)
  {
    forall i | 0 <= i < |path| ensures Load(idx, path[i]).Some? {
      ChildStepped(idx, target, offset, conn, s, i);
    }
    forall i | 0 < i < |path| ensures path[i] == Load(idx, path[i - 1]).value.next {
      ChildStepped(idx, target, offset, conn, s, i - 1);
    }
  }

  /** Where an endless walk comes to in `n` iterations. */
  lemma Trace(idx: Index, target: Target, offset: nat, conn: Connection, s: ChildState, n: nat)
    returns (path: seq<Block>)
    requires Recurs(ChildStepper(idx, target, offset, conn), s)
    ensures Traces(idx, target, offset, conn, s, path, n)
  {
    var step := ChildStepper(idx, target, offset, conn);
    forall k: nat ensures Iterate(step, s, k).Some? {
      RecurringNeverEnds(step, s, k);
    }
    path := seq(n + 1, k requires 0 <= k <= n => Iterate(step, s, k).value.blk);
  }

  lemma RecurringCycles(idx: Index, target: Target, offset: nat, conn: Connection, s: ChildState)
    requires offset == 0 || target.page.Has(offset)
    requires Recurs(ChildStepper(idx, target, offset, conn), s)
    ensures WalkCircles(idx, target, offset, conn, s)
  {
    var step := ChildStepper(idx, target, offset, conn);
    var m: nat, n: nat :| m < n && Iterate(step, s, m).Some? && Iterate(step, s, m) == Iterate(step, s, n);
    var path := Trace(idx, target, offset, conn, s, n);
    TracedCycle(idx, target, offset, conn, s, path, m, n);
  }

  lemma TracedCycle(
      idx: Index, target: Target, offset: nat, conn: Connection, s: ChildState, path: seq<Block>, m: nat, n: nat)
    requires offset == 0 || target.page.Has(offset)
    requires Traces(idx, target, offset, conn, s, path, n) && m < n && path[m] == path[n]
    ensures RunsIntoCycle(idx, target, offset, conn, s, path)
  {
    assert path[n] == path[..n][m];
    TraceChained(idx, target, offset, conn, s, path, n);
    forall i: nat | i < |path| ensures PassedBy(idx, target, offset, conn, s, path, i) {
      TracePassed(idx, target, offset, conn, s, path, n, i);
    }
    assert Iterate(ChildStepper(idx, target, offset, conn), s, 0) == Some(s);
  }

  /**
   The walk along the children runs forever if and only if the right links from
   its start run into a cycle, past pages that all pass their checks and none of
   which is the one looked for; otherwise it ends within four iterations per page.
   */
  lemma ChildWalkNeverEndsIff(idx: Index, target: Target, offset: nat, conn: Connection, s: ChildState)
    requires offset == 0 || target.page.Has(offset)
    ensures (forall budget: nat ::
               ChildWalk(idx, target, offset, conn, s.blk, s.rightSplit, s.first, budget).OutOfBudget?) <==>
            WalkCircles(idx, target, offset, conn, s)
    ensures ChildWalk(idx, target, offset, conn, s.blk, s.rightSplit, s.first, |ChildStates(idx)|).OutOfBudget? <==>
            WalkCircles(idx, target, offset, conn, s)
  {
    var step := ChildStepper(idx, target, offset, conn);
    forall budget: nat
      ensures ChildWalk(idx, target, offset, conn, s.blk, s.rightSplit, s.first, budget).OutOfBudget? <==>
              Iterate(step, s, budget + 1).Some?
    {
      ChildBudget(idx, target, offset, conn, s, budget);
    }
    ChildStaysIn(idx, target, offset, conn, s);
    NeverEndsIff(step, s, ChildStates(idx));
    CirclesIff(idx, target, offset, conn, s);
    var enough := |ChildStates(idx)|;
    assert ChildWalk(idx, target, offset, conn, s.blk, s.rightSplit, s.first, enough).OutOfBudget? <==> Recurs(step, s);
    if Recurs(step, s) {
      forall budget: nat
        ensures ChildWalk(idx, target, offset, conn, s.blk, s.rightSplit, s.first, budget).OutOfBudget?
      {
        assert Iterate(step, s, budget + 1).Some?;
      }
    }
  }

  lemma CirclesIff(idx: Index, target: Target, offset: nat, conn: Connection, s: ChildState)
    requires offset == 0 || target.page.Has(offset)
    ensures WalkCircles(idx, target, offset, conn, s) <==> Recurs(ChildStepper(idx, target, offset, conn), s)
  {
    if Recurs(ChildStepper(idx, target, offset, conn), s) {
      RecurringCycles(idx, target, offset, conn, s);
    }
    if path :| RunsIntoCycle(idx, target, offset, conn, s, path) {
      CycleRecurs(idx, target, offset, conn, s, path);
    }
  }

  /** So it ends if the right links from its start lead to the end of the level. */
  lemma {:induction false} ChildWalkEnds(idx: Index, target: Target, offset: nat, conn: Connection,
                                         chain: seq<Block>, rightSplit: bool, first: bool, budget: nat)
    requires offset == 0 || target.page.Has(offset)
    requires RightChain(idx, chain) && EndsRight(idx, chain) && budget >= |chain|
    ensures !ChildWalk(idx, target, offset, conn, chain[0], rightSplit, first, budget).OutOfBudget?
    decreases |chain|
  {
    var page := Load(idx, chain[0]).value;
    if |chain| > 1 {
      ChildWalkEnds(idx, target, offset, conn, chain[1..], page.incompleteSplit, false, budget - 1);
    } else {
      assert page.next == P_NONE;
    }
  }

  // ----- to the right of a page

  /** A step of bt_right_page_check_scankey over an ignorable page. */
  function SkipStep(idx: Index, blk: Block): Option<Block> {
    match Load(idx, blk)
    case None => None
    case Some(page) => if !page.Ignore() || page.Rightmost() then None else Some(page.next)
  }

  ghost function SkipStepper(idx: Index): Block -> Option<Block> {
    blk => SkipStep(idx, blk)
  }

  lemma {:induction false} SkipBudget(idx: Index, blk: Block, budget: nat)
    ensures FirstLiveRight(idx, blk, budget).OutOfBudget? <==> Iterate(SkipStepper(idx), blk, budget + 1).Some?
    decreases budget
  {
    var step := SkipStepper(idx);
    if step(blk).Some? && budget > 0 {
      SkipBudget(idx, step(blk).value, budget - 1);
    }
  }

  /**
   The search for a live page to the right runs forever if and only if the right
   links over ignorable pages come to a block twice, and otherwise ends within
   as many iterations as there are pages.
   */
  lemma SkipNeverEndsIff(idx: Index, blk: Block)
    ensures FirstLiveRight(idx, blk, |idx.pages|).OutOfBudget? <==> Recurs(SkipStepper(idx), blk)
    ensures (forall budget: nat :: FirstLiveRight(idx, blk, budget).OutOfBudget?) <==> Recurs(SkipStepper(idx), blk)
  {
    var step := SkipStepper(idx);
    forall m: nat | Iterate(step, blk, m + 1).Some?
      ensures Iterate(step, blk, m).Some? && Iterate(step, blk, m).value in idx.pages.Keys
    {
      IterateLess(step, blk, m, m + 1);
      IterateSum(step, blk, m, 1);
      var t := Iterate(step, blk, m).value;
      assert Iterate(step, t, 1).Some? && step(t).Some?;
    }
    NeverEndsIff(step, blk, idx.pages.Keys);
    assert |idx.pages.Keys| == |idx.pages|;
    SkipBudget(idx, blk, |idx.pages|);
    if Recurs(step, blk) {
      forall budget: nat ensures FirstLiveRight(idx, blk, budget).OutOfBudget? {
        SkipBudget(idx, blk, budget);
      }
    }
  }

  // ----- enough iterations

  /** The outcome with some budget, against the outcome with one that is large enough. */
  predicate Settles<T(==)>(outcome: Outcome<T>, final: Outcome<T>) {
    outcome.OutOfBudget? || outcome == final
  }

  /** As many iterations as a walk along children or over ignorable pages can make before it comes to a state twice. */
  ghost predicate Ample(idx: Index, budget: nat) {
    budget >= |ChildStates(idx)| && budget >= |idx.pages|
  }

  lemma {:induction false} ChildWalkMore(idx: Index, target: Target, offset: nat, conn: Connection,
                                         blk: Block, rightSplit: bool, first: bool, budget: nat, more: nat)
    requires (offset == 0 || target.page.Has(offset)) && budget <= more
    ensures Settles(ChildWalk(idx, target, offset, conn, blk, rightSplit, first, budget),
                    ChildWalk(idx, target, offset, conn, blk, rightSplit, first, more))
    decreases budget
  {
    if budget > 0 && Load(idx, blk).Some? {
      var page := Load(idx, blk).value;
      ChildWalkMore(idx, target, offset, conn, page.next, page.incompleteSplit, false, budget - 1, more - 1);
    }
  }

  lemma HighkeySettles(idx: Index, target: Target, offset: nat, conn: Connection, budget: nat, ample: nat)
    requires (offset == 0 || target.page.Has(offset)) && Ample(idx, ample)
    ensures Settles(HighkeyRule(idx, target, offset, conn, budget), HighkeyRule(idx, target, offset, conn, ample))
    ensures HighkeyRule(idx, target, offset, conn, ample).OutOfBudget? <==>
            WalkCircles(idx, target, offset, conn, WalkStart(target, offset, conn))
  {
    var s := WalkStart(target, offset, conn);
    ChildWalkNeverEndsIff(idx, target, offset, conn, s);
    ChildWalkMore(idx, target, offset, conn, s.blk, s.rightSplit, s.first, |ChildStates(idx)|, ample);
    assert ChildWalk(idx, target, offset, conn, s.blk, s.rightSplit, s.first, ample).OutOfBudget? <==>
           WalkCircles(idx, target, offset, conn, s);
    if budget <= ample {
      ChildWalkMore(idx, target, offset, conn, s.blk, s.rightSplit, s.first, budget, ample);
    } else {
      ChildWalkMore(idx, target, offset, conn, s.blk, s.rightSplit, s.first, ample, budget);
      assert WalkCircles(idx, target, offset, conn, s) ==>
          ChildWalk(idx, target, offset, conn, s.blk, s.rightSplit, s.first, budget).OutOfBudget?;
    }
  }

  lemma {:induction false} SearchMore(idx: Index, blk: Block, budget: nat, more: nat)
    requires budget <= more
    ensures Settles(FirstLiveRight(idx, blk, budget), FirstLiveRight(idx, blk, more))
    decreases budget
  {
    if budget > 0 && Load(idx, blk).Some? {
      SearchMore(idx, Load(idx, blk).value.next, budget - 1, more - 1);
    }
  }

  lemma SearchSettles(idx: Index, blk: Block, budget: nat, ample: nat)
    requires Ample(idx, ample)
    ensures Settles(FirstLiveRight(idx, blk, budget), FirstLiveRight(idx, blk, ample))
    ensures FirstLiveRight(idx, blk, ample).OutOfBudget? <==> Recurs(SkipStepper(idx), blk)
  {
    SkipNeverEndsIff(idx, blk);
    SearchMore(idx, blk, |idx.pages|, ample);
    if budget <= ample {
      SearchMore(idx, blk, budget, ample);
    } else {
      SearchMore(idx, blk, ample, budget);
    }
  }

  // ----- one page

  /** Where the walk along the children starts. */
  function WalkStart(target: Target, offset: nat, conn: Connection): ChildState
    requires offset == 0 || target.page.Has(offset)
  {
    if conn.prevRight == INVALID_BLOCK then ChildState(DownlinkAt(target.page, offset), false, true)
    else ChildState(conn.prevRight, conn.incomplete, true)
  }

  /** The check of an item comes to the search for a live page to the right. */
  predicate SearchStarts(idx: Index, page: Page, offset: nat)
    requires page.Has(offset)
  {
    && CheckNatts(idx.schema, page, offset) && !page.NegativeInfinity(offset) && ItemPasses(idx, page, offset)
    && offset == page.MaxOffset() && !page.Rightmost()
  }

  /** The check of an item comes to the walk along the children. */
  predicate WalkStarts(idx: Index, page: Page, offset: nat, budget: nat)
    requires page.Has(offset)
  {
    && CheckNatts(idx.schema, page, offset) && !page.leaf
    && (page.NegativeInfinity(offset) ||
        (&& ItemPasses(idx, page, offset) && LastItemRule(idx, page, offset, budget).Passed?
         && Load(idx, page.At(offset).downlink).Some?))
  }

  /** The check of an item runs forever. */
  ghost predicate ItemCircles(idx: Index, target: Target, offset: nat, conn: Connection, budget: nat)
    requires target.page.Has(offset)
  {
    || (SearchStarts(idx, target.page, offset) && Recurs(SkipStepper(idx), target.page.next))
    || (WalkStarts(idx, target.page, offset, budget) &&
        WalkCircles(idx, target, offset, conn, WalkStart(target, offset, conn)))
  }

  lemma LastItemSettles(idx: Index, page: Page, offset: nat, budget: nat, ample: nat)
    requires page.Has(offset) && Ample(idx, ample)
    ensures Settles(LastItemRule(idx, page, offset, budget), LastItemRule(idx, page, offset, ample))
    ensures LastItemRule(idx, page, offset, ample).OutOfBudget? <==>
            offset == page.MaxOffset() && !page.Rightmost() && Recurs(SkipStepper(idx), page.next)
  {
    SearchSettles(idx, page.next, budget, ample);
  }

  lemma OffsetSettles(idx: Index, target: Target, offset: nat, conn: Connection, budget: nat, ample: nat)
    requires target.page.Has(offset) && Ample(idx, ample)
    ensures Settles(OffsetRule(idx, target, offset, conn, budget), OffsetRule(idx, target, offset, conn, ample))
    ensures OffsetRule(idx, target, offset, conn, ample).OutOfBudget? <==> ItemCircles(idx, target, offset, conn, ample)
  {
    LastItemSettles(idx, target.page, offset, budget, ample);
    HighkeySettles(idx, target, offset, conn, budget, ample);
  }

  /** The connectivity state a walk leaves that stopped at `blk`. */
  function LinkAfter(idx: Index, blk: Block): Connection {
    match Load(idx, blk)
    case None => NO_CONNECTION
    case Some(page) => Connection(page.next, page.incompleteSplit)
  }

  lemma {:induction false} WalkLeaves(idx: Index, target: Target, offset: nat, conn: Connection,
                                      blk: Block, rightSplit: bool, first: bool, budget: nat)
    requires offset == 0 || target.page.Has(offset)
    requires ChildWalk(idx, target, offset, conn, blk, rightSplit, first, budget).Passed?
    ensures ChildWalk(idx, target, offset, conn, blk, rightSplit, first, budget).value ==
            LinkAfter(idx, DownlinkAt(target.page, offset))
    decreases budget
  {
    if blk != P_NONE && blk != DownlinkAt(target.page, offset) {
      var page := Load(idx, blk).value;
      WalkLeaves(idx, target, offset, conn, page.next, page.incompleteSplit, false, budget - 1);
    }
  }

  /** So what the check of an item leaves depends on its downlink alone. */
  lemma OffsetLeaves(idx: Index, target: Target, offset: nat, conn: Connection, budget: nat)
    requires target.page.Has(offset) && OffsetRule(idx, target, offset, conn, budget).Passed?
    ensures OffsetRule(idx, target, offset, conn, budget).value ==
            if target.page.leaf then conn else LinkAfter(idx, target.page.At(offset).downlink)
  {
    if !target.page.leaf {
      var s := WalkStart(target, offset, conn);
      assert OffsetRule(idx, target, offset, conn, budget) ==
             ChildWalk(idx, target, offset, conn, s.blk, s.rightSplit, s.first, budget);
      WalkLeaves(idx, target, offset, conn, s.blk, s.rightSplit, s.first, budget);
    }
  }

  /** The connectivity state with which the check comes to an offset, having started at `first`. */
  function ConnectionBefore(idx: Index, page: Page, first: nat, conn: Connection, offset: nat): Connection
    requires 0 < first <= offset <= page.MaxOffset() + 1
  {
    if page.leaf || offset == first then conn else LinkAfter(idx, page.At(offset - 1).downlink)
  }

  ghost predicate PassesAt(idx: Index, target: Target, first: nat, conn: Connection, offset: nat, budget: nat)
    requires 0 < first <= offset <= target.page.MaxOffset()
  {
    OffsetRule(idx, target, offset, ConnectionBefore(idx, target.page, first, conn, offset), budget).Passed?
  }

  /** What the page check does at an offset, or after the last one, runs forever. */
  ghost predicate StuckAt(idx: Index, target: Target, first: nat, conn: Connection, offset: nat, budget: nat)
    requires 0 < first <= offset <= target.page.MaxOffset() + 1
  {
    var page, there := target.page, ConnectionBefore(idx, target.page, first, conn, offset);
    if offset <= page.MaxOffset() then ItemCircles(idx, target, offset, there, budget)
    else !page.leaf && page.Rightmost() && WalkCircles(idx, target, 0, there, WalkStart(target, 0, there))
  }

  /** The page check passes every item before `offset` and runs forever there. */
  ghost predicate CirclesAt(idx: Index, target: Target, first: nat, conn: Connection, offset: nat, budget: nat)
    requires 0 < first
  {
    && first <= offset <= target.page.MaxOffset() + 1
    && (forall o | first <= o < offset :: PassesAt(idx, target, first, conn, o, budget))
    && StuckAt(idx, target, first, conn, offset, budget)
  }

  lemma {:induction false} OffsetsSettle(
      idx: Index, target: Target, first: nat, conn: Connection, budget: nat, ample: nat)
    requires first > 0 && Ample(idx, ample)
    ensures Settles(OffsetsRule(idx, target, first, conn, budget), OffsetsRule(idx, target, first, conn, ample))
    decreases target.page.MaxOffset() - first
  {
    if first > target.page.MaxOffset() {
      HighkeySettles(idx, target, 0, conn, budget, ample);
    } else {
      OffsetSettles(idx, target, first, conn, budget, ample);
      if OffsetRule(idx, target, first, conn, ample).Passed? {
        OffsetsSettle(idx, target, first + 1, OffsetRule(idx, target, first, conn, ample).value, budget, ample);
      }
    }
  }

  /** Starting one offset later, after an item that passes. */
  lemma CirclesLater(
      idx: Index, target: Target, first: nat, conn: Connection, next: nat, after: Connection, offset: nat, budget: nat)
    requires 0 < first < offset && first <= target.page.MaxOffset() && next == first + 1
    requires OffsetRule(idx, target, first, conn, budget) == Passed(after)
    ensures CirclesAt(idx, target, first, conn, offset, budget) <==>
            CirclesAt(idx, target, next, after, offset, budget)
  {
    OffsetLeaves(idx, target, first, conn, budget);
    var page := target.page;
    forall o | first < o <= page.MaxOffset() + 1
      ensures ConnectionBefore(idx, page, first, conn, o) == ConnectionBefore(idx, page, next, after, o)
    {
    }
    if offset <= page.MaxOffset() + 1 {
      assert PassesAt(idx, target, first, conn, first, budget);
      forall o | first < o < offset
        ensures PassesAt(idx, target, first, conn, o, budget) <==> PassesAt(idx, target, next, after, o, budget)
      {
      }
    }
  }

  lemma {:induction false} OffsetsCircle(idx: Index, target: Target, first: nat, conn: Connection, ample: nat)
    requires 0 < first <= target.page.MaxOffset() + 1 && Ample(idx, ample)
    ensures OffsetsRule(idx, target, first, conn, ample).OutOfBudget? <==>
            exists offset :: CirclesAt(idx, target, first, conn, offset, ample)
    decreases target.page.MaxOffset() - first
  {
    var page := target.page;
    if first > page.MaxOffset() {
      HighkeySettles(idx, target, 0, conn, ample, ample);
      assert CirclesAt(idx, target, first, conn, first, ample) <==>
             OffsetsRule(idx, target, first, conn, ample).OutOfBudget?;
    } else {
      OffsetSettles(idx, target, first, conn, ample, ample);
      assert CirclesAt(idx, target, first, conn, first, ample) <==>
             OffsetRule(idx, target, first, conn, ample).OutOfBudget?;
      forall offset | offset > first && CirclesAt(idx, target, first, conn, offset, ample)
        ensures OffsetRule(idx, target, first, conn, ample).Passed?
      {
        assert PassesAt(idx, target, first, conn, first, ample);
      }
      if OffsetRule(idx, target, first, conn, ample).Passed? {
        var next, after := first + 1, OffsetRule(idx, target, first, conn, ample).value;
        OffsetsCircle(idx, target, next, after, ample);
        forall offset | offset > first
          ensures CirclesAt(idx, target, first, conn, offset, ample) <==>
                  CirclesAt(idx, target, next, after, offset, ample)
        {
          CirclesLater(idx, target, first, conn, next, after, offset, ample);
        }
      }
    }
  }

  /** The check of a page runs forever: at some offset it starts a walk or a search that does. */
  ghost predicate PageCircles(idx: Index, target: Target, conn: Connection, budget: nat) {
    && (!target.page.Rightmost() ==> target.page.Has(P_HIKEY) && CheckNatts(idx.schema, target.page, P_HIKEY))
    && exists offset :: CirclesAt(idx, target, target.page.FirstDataKey(), conn, offset, budget)
  }

  lemma TargetSettles(idx: Index, target: Target, conn: Connection, budget: nat, ample: nat)
    requires Ample(idx, ample)
    ensures Settles(TargetRule(idx, target, conn, budget), TargetRule(idx, target, conn, ample))
    ensures TargetRule(idx, target, conn, ample).OutOfBudget? <==> PageCircles(idx, target, conn, ample)
  {
    OffsetsSettle(idx, target, target.page.FirstDataKey(), conn, budget, ample);
    if !target.page.Rightmost() ==> target.page.Has(P_HIKEY) {
      OffsetsCircle(idx, target, target.page.FirstDataKey(), conn, ample);
    }
  }

  /**
   The check of a page runs forever if and only if at one of its offsets, all
   before having passed, a walk along the children runs into a cycle or a search
   to the right comes to a block twice.
   */
  lemma PageNeverEndsIff(idx: Index, target: Target, conn: Connection, ample: nat)
    requires Ample(idx, ample)
    ensures (forall budget: nat :: TargetRule(idx, target, conn, budget).OutOfBudget?) <==>
            PageCircles(idx, target, conn, ample)
  {
    forall budget: nat
      ensures Settles(TargetRule(idx, target, conn, budget), TargetRule(idx, target, conn, ample))
    {
      TargetSettles(idx, target, conn, budget, ample);
    }
    TargetSettles(idx, target, conn, ample, ample);
  }

  /** The connectivity state after a page that passes. */
  function LinkAfterPage(idx: Index, page: Page, conn: Connection): Connection {
    if page.leaf then conn
    else if page.Rightmost() || page.items == [] then NO_CONNECTION
    else LinkAfter(idx, page.At(page.MaxOffset()).downlink)
  }

  lemma {:induction false} OffsetsLeave(idx: Index, target: Target, first: nat, conn: Connection, budget: nat)
    requires 0 < first <= target.page.MaxOffset() && !target.page.leaf
    requires OffsetsRule(idx, target, first, conn, budget).Passed?
    ensures OffsetsRule(idx, target, first, conn, budget).value == LinkAfterPage(idx, target.page, conn)
    decreases target.page.MaxOffset() - first
  {
    OffsetLeaves(idx, target, first, conn, budget);
    var after := OffsetRule(idx, target, first, conn, budget).value;
    if first < target.page.MaxOffset() {
      OffsetsLeave(idx, target, first + 1, after, budget);
    } else if target.page.Rightmost() {
      var s := WalkStart(target, 0, after);
      WalkLeaves(idx, target, 0, after, s.blk, s.rightSplit, s.first, budget);
    }
  }

  lemma TargetLeaves(idx: Index, target: Target, conn: Connection, budget: nat)
    requires target.page.Sane() && !target.page.Ignore() && TargetRule(idx, target, conn, budget).Passed?
    ensures TargetRule(idx, target, conn, budget).value == LinkAfterPage(idx, target.page, conn)
  {
    if target.page.leaf {
      LeafLeaves(idx, target, target.page.FirstDataKey(), conn, budget);
    } else {
      OffsetsLeave(idx, target, target.page.FirstDataKey(), conn, budget);
    }
  }

  lemma {:induction false} LeafLeaves(idx: Index, target: Target, first: nat, conn: Connection, budget: nat)
    requires 0 < first && target.page.leaf && OffsetsRule(idx, target, first, conn, budget).Passed?
    ensures OffsetsRule(idx, target, first, conn, budget).value == conn
    decreases target.page.MaxOffset() - first
  {
    if first <= target.page.MaxOffset() {
      OffsetLeaves(idx, target, first, conn, budget);
      LeafLeaves(idx, target, first + 1, conn, budget);
    }
  }
}
