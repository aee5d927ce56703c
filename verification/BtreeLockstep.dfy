/**
 Parent level and child level of an accepted B-tree: the children are met in
 the order of their downlinks.
 */
module BtreeLockstep {
  import opened Prelude
  import opened BtreeOrder
  import opened BtreePages
  import opened BtreeRules
  import opened BtreeLevelOrder
  import opened BtreeWalks

  // ----- positions on the child level

  /** The left neighbour of the page at position `p` has an unfinished split. */
  predicate FollowsSplit(idx: Index, children: seq<Block>, p: int)
    requires RightChain(idx, children)
  {
    0 < p < |children| && Load(idx, children[p - 1]).value.incompleteSplit
  }

  /** The page at position `p` may lack a downlink. */
  predicate Excused(idx: Index, children: seq<Block>, p: int)
    requires RightChain(idx, children)
  {
    0 <= p < |children| && (Load(idx, children[p]).value.root || FollowsSplit(idx, children, p))
  }

  function BlockAt(children: seq<Block>, p: nat): Block {
    if p < |children| then children[p] else P_NONE
  }

  /** The connectivity state once the first `p` children have been passed. */
  function ConnectionAt(idx: Index, children: seq<Block>, p: nat): Connection
    requires RightChain(idx, children) && p <= |children|
  {
    if p == 0 then NO_CONNECTION
    else Connection(Load(idx, children[p - 1]).value.next, Load(idx, children[p - 1]).value.incompleteSplit)
  }

  /** Live pages linked from the first to the last of a level. */
  predicate ChildLevel(idx: Index, children: seq<Block>) {
    && RightChain(idx, children) && children != [] && Load(idx, children[|children| - 1]).value.Rightmost()
    && forall i | 0 <= i < |children| :: !Load(idx, children[i]).value.Ignore()
  }

  lemma NextChild(idx: Index, children: seq<Block>, p: nat)
    requires ChildLevel(idx, children) && p < |children|
    ensures Load(idx, children[p]).value.next == BlockAt(children, p + 1) != INVALID_BLOCK
    ensures children[p] != P_NONE
    ensures FollowsSplit(idx, children, p + 1) ==
            (p + 1 < |children| && Load(idx, children[p]).value.incompleteSplit)
  {
  }

  /** Without half-dead pages a missing downlink is excused only for a root or after an unfinished split. */
  lemma NoInterruptedDeletion(idx: Index, rightSplit: bool, blk: Block, page: Page)
    requires NoHalfDead(idx) && MayLackDownlink(idx, rightSplit, blk, page)
    ensures page.root || rightSplit
  {
    if !page.root && !rightSplit {
      LeafIsWhole(idx, page.At(page.FirstDataKey()).downlink, page.level);
    }
  }

  lemma {:induction false} LeafIsWhole(idx: Index, blk: Block, level: nat)
    requires NoHalfDead(idx)
    ensures FirstLeafUnder(idx, blk, level).Some? ==> !FirstLeafUnder(idx, blk, level).value.halfDead
    decreases level
  {
    if Load(idx, blk).Some? {
      var page := Load(idx, blk).value;
      if !page.leaf && page.level + 1 == level && page.Has(page.FirstDataKey()) {
        LeafIsWhole(idx, page.At(page.FirstDataKey()).downlink, page.level);
      }
    }
  }

  /** bt_child_highkey_check's loop, started at position `p`, stops at the downlink it looks for. */
  lemma {:induction false} WalkAlong(
      idx: Index, target: Target, offset: nat, conn: Connection, children: seq<Block>,
      p: nat, first: bool, budget: nat) returns (q: nat)
    requires NoHalfDead(idx) && ChildLevel(idx, children) && p <= |children|
    requires offset == 0 || target.page.Has(offset)
    requires ChildWalk(idx, target, offset, conn, BlockAt(children, p), FollowsSplit(idx, children, p),
                       first, budget).Passed?
    ensures p <= q <= |children| && BlockAt(children, q) == DownlinkAt(target.page, offset)
    ensures BlockAt(children, p) == DownlinkAt(target.page, offset) ==> q == p
    ensures forall i | p <= i < q :: Excused(idx, children, i)
    ensures ChildWalk(idx, target, offset, conn, BlockAt(children, p), FollowsSplit(idx, children, p),
                      first, budget).value ==
            if q < |children| then ConnectionAt(idx, children, q + 1) else NO_CONNECTION
    decreases budget
  {
    q := p;
    if p < |children| && children[p] != DownlinkAt(target.page, offset) {
      NextChild(idx, children, p);
      NoInterruptedDeletion(idx, FollowsSplit(idx, children, p), children[p], Load(idx, children[p]).value);
      q := WalkAlong(idx, target, offset, conn, children, p + 1, false, budget - 1);
    } else {
      NextChild(idx, children, if p < |children| then p else 0);
    }
  }

  // ----- downlinks met so far

  /** The position after the last downlink met. */
  function Reached(at: seq<int>): int {
    if at == [] then 0 else at[|at| - 1] + 1
  }

  /** Downlink `links[k]` leads to position `at[k]`; every other position so far is excused. */
  ghost predicate Met(idx: Index, children: seq<Block>, links: seq<Block>, at: seq<int>)
    requires RightChain(idx, children)
  {
    && |at| == |links| && StrictlyIncreasing(at)
    && (forall k | 0 <= k < |at| :: 0 <= at[k] < |children| && children[at[k]] == links[k])
    && (at != [] ==> at[0] == 0)
    && (forall p | 0 <= p < Reached(at) :: p in at || Excused(idx, children, p))
  }

  lemma MeetOne(idx: Index, children: seq<Block>, links: seq<Block>, at: seq<int>, link: Block, q: int)
    requires RightChain(idx, children) && Met(idx, children, links, at)
    requires Reached(at) <= q < |children| && children[q] == link && (at == [] ==> q == 0)
    requires forall i | Reached(at) <= i < q :: Excused(idx, children, i)
    ensures Met(idx, children, links + [link], at + [q]) && Reached(at + [q]) == q + 1
  {
    var more := at + [q];
    forall p | 0 <= p < Reached(more) ensures p in more || Excused(idx, children, p) {
      if p == q {
        assert more[|at|] == q;
      } else if p < Reached(at) && p in at {
        var k :| 0 <= k < |at| && at[k] == p;
        assert more[k] == p;
      }
    }
  }

  /** The downlinks of `links` have been met, and `conn` is the state to go on from. */
  ghost predicate Following(idx: Index, children: seq<Block>, links: seq<Block>, at: seq<int>, conn: Connection)
    requires RightChain(idx, children)
  {
    Met(idx, children, links, at) && 0 <= Reached(at) <= |children| &&
    conn == ConnectionAt(idx, children, Reached(at))
  }

  /** One call for a downlink. */
  lemma LinkFollowed(
      idx: Index, target: Target, offset: nat, conn: Connection, budget: nat,
      children: seq<Block>, links: seq<Block>, at: seq<int>) returns (more: seq<int>)
    requires NoHalfDead(idx) && ChildLevel(idx, children) && target.page.Has(offset)
    requires Following(idx, children, links, at, conn) && target.page.At(offset).downlink != P_NONE
    requires at == [] ==> target.page.At(offset).downlink == children[0]
    requires HighkeyRule(idx, target, offset, conn, budget).Passed?
    ensures more != []
    ensures Following(idx, children, links + [target.page.At(offset).downlink], more,
                      HighkeyRule(idx, target, offset, conn, budget).value)
  {
    var p := Reached(at);
    if p > 0 {
      NextChild(idx, children, p - 1);
    }
    var q := WalkAlong(idx, target, offset, conn, children, p, true, budget);
    MeetOne(idx, children, links, at, target.page.At(offset).downlink, q);
    more := at + [q];
  }

  // ----- a page of the parent level

  /** The downlinks of a page from an offset on. */
  function LinksFrom(page: Page, offset: nat): seq<Block>
    requires offset > 0
    decreases page.MaxOffset() - offset
  {
    if offset > page.MaxOffset() then [] else [page.At(offset).downlink] + LinksFrom(page, offset + 1)
  }

  /** One offset of an internal page: its downlink is looked for next. */
  lemma OffsetLooksFor(idx: Index, target: Target, offset: nat, conn: Connection, budget: nat)
    requires target.page.Has(offset) && !target.page.leaf && OffsetRule(idx, target, offset, conn, budget).Passed?
    ensures HighkeyRule(idx, target, offset, conn, budget) == OffsetRule(idx, target, offset, conn, budget)
    ensures !target.page.NegativeInfinity(offset) ==> target.page.At(offset).downlink != P_NONE
  {
  }

  /** Every child is met by a downlink or excused. */
  ghost predicate AllMet(idx: Index, children: seq<Block>, at: seq<int>)
    requires RightChain(idx, children)
  {
    forall p | 0 <= p < |children| :: p in at || Excused(idx, children, p)
  }

  /** Where the children stand after a page: at a downlink, or past the last page of the level. */
  ghost predicate PageFollowed(
      idx: Index, page: Page, children: seq<Block>, links: seq<Block>, at: seq<int>, conn: Connection)
    requires RightChain(idx, children)
  {
    if page.Rightmost() then AllFollowed(idx, children, links, at)
    else Following(idx, children, links, at, conn)
  }

  predicate FirstLinkSet(page: Page) {
    page.Has(page.FirstDataKey()) ==> page.At(page.FirstDataKey()).downlink != P_NONE
  }

  lemma {:induction false} OffsetsFollowed(
      idx: Index, target: Target, offset: nat, conn: Connection, budget: nat,
      children: seq<Block>, links: seq<Block>, at: seq<int>) returns (more: seq<int>)
    requires NoHalfDead(idx) && ChildLevel(idx, children) && !target.page.leaf && offset > 0
    requires Following(idx, children, links, at, conn) && FirstLinkSet(target.page)
    requires at == [] ==> target.page.Has(offset) && target.page.At(offset).downlink == children[0]
    requires OffsetsRule(idx, target, offset, conn, budget).Passed?
    ensures more != []
    ensures PageFollowed(idx, target.page, children, links + LinksFrom(target.page, offset), more,
                         OffsetsRule(idx, target, offset, conn, budget).value)
    decreases target.page.MaxOffset() - offset
  {
    if offset > target.page.MaxOffset() {
      more := at;
      assert links + LinksFrom(target.page, offset) == links;
      LastOffset(idx, target, conn, budget, children, links, at);
    } else {
      var after := OffsetRule(idx, target, offset, conn, budget).value;
      OffsetLooksFor(idx, target, offset, conn, budget);
      var link := target.page.At(offset).downlink;
      var one := LinkFollowed(idx, target, offset, conn, budget, children, links, at);
      more := OffsetsFollowed(idx, target, offset + 1, after, budget, children, links + [link], one);
      Regroup(idx, target.page, children, links, [link], LinksFrom(target.page, offset + 1), more,
              OffsetsRule(idx, target, offset, conn, budget).value);
    }
  }

  lemma Regroup(
      idx: Index, page: Page, children: seq<Block>, a: seq<Block>, b: seq<Block>, c: seq<Block>,
      at: seq<int>, conn: Connection)
    requires RightChain(idx, children) && PageFollowed(idx, page, children, a + b + c, at, conn)
    ensures PageFollowed(idx, page, children, a + (b + c), at, conn)
  {
    assert a + b + c == a + (b + c);
  }

  lemma LastOffset(
      idx: Index, target: Target, conn: Connection, budget: nat,
      children: seq<Block>, links: seq<Block>, at: seq<int>)
    requires NoHalfDead(idx) && ChildLevel(idx, children) && at != [] && Following(idx, children, links, at, conn)
    requires target.page.Rightmost() ==> HighkeyRule(idx, target, 0, conn, budget).Passed?
    ensures PageFollowed(idx, target.page, children, links, at, conn)
  {
    if target.page.Rightmost() {
      RestExcused(idx, target, conn, budget, children, Reached(at));
    }
  }

  /** The final call of a level: no page to the right of the last downlink lacks an excuse. */
  lemma RestExcused(idx: Index, target: Target, conn: Connection, budget: nat, children: seq<Block>, p: nat)
    requires NoHalfDead(idx) && ChildLevel(idx, children)
    requires 0 < p <= |children| && conn == ConnectionAt(idx, children, p)
    requires HighkeyRule(idx, target, 0, conn, budget).Passed?
    ensures forall i | p <= i < |children| :: Excused(idx, children, i)
  {
    NextChild(idx, children, p - 1);
    var q := WalkAlong(idx, target, 0, conn, children, p, true, budget);
    assert q < |children| ==> Load(idx, children[q]).Some?;
  }

  // ----- the parent level

  /** The downlinks of a level in key order. */
  function LevelLinks(idx: Index, parents: seq<Block>): seq<Block>
    requires RightChain(idx, parents)
  {
    if parents == [] then []
    else
      var page := Load(idx, parents[0]).value;
      LinksFrom(page, page.FirstDataKey()) + LevelLinks(idx, parents[1..])
  }

  /** No page of the chain has P_NONE for its first downlink. */
  predicate FirstLinksSet(idx: Index, parents: seq<Block>)
    requires RightChain(idx, parents)
  {
    forall i | 0 <= i < |parents| :: FirstLinkSet(Load(idx, parents[i]).value)
  }

  /** One page of the parent level, within the level walk. */
  lemma PageOfLevel(
      idx: Index, level: nat, isRoot: bool, st: LevelState, budget: nat,
      children: seq<Block>, links: seq<Block>, at: seq<int>) returns (more: seq<int>)
    requires NoHalfDead(idx) && ChildLevel(idx, children) && level > 0
    requires Following(idx, children, links, at, st.conn) && PageRule(idx, level, isRoot, st, budget).Passed?
    requires Load(idx, st.current).Some? && !Load(idx, st.current).value.Ignore()
    requires FirstLinkSet(Load(idx, st.current).value)
    requires at == [] ==> DownFrom(Load(idx, st.current).value).leftmost == children[0]
    ensures more != []
    ensures
      var page, after := Load(idx, st.current).value, PageRule(idx, level, isRoot, st, budget).value;
      && after.current == page.next
      && PageFollowed(idx, page, children, links + LinksFrom(page, page.FirstDataKey()), more, after.conn)
  {
    var page := Load(idx, st.current).value;
    more := OffsetsFollowed(idx, Target(page, st.lowkey), page.FirstDataKey(), st.conn, budget, children, links, at);
  }

  /** `parents` is the rest of the level, from the walk's current page on. */
  ghost predicate Ahead(idx: Index, level: nat, st: LevelState, parents: seq<Block>) {
    && RightChain(idx, parents) && EndsRight(idx, parents) && parents[0] == st.current
    && forall i | 0 <= i < |parents| :: LevelPage(idx, level, parents[i])
  }

  /** The walk along the parents passes from here on, and so far the children have been followed. */
  ghost predicate Ready(
      idx: Index, level: nat, isRoot: bool, st: LevelState, budget: nat, fuel: nat, parents: seq<Block>,
      children: seq<Block>, links: seq<Block>, at: seq<int>) {
    && NoHalfDead(idx) && ChildLevel(idx, children) && level > 0 && DownOk(level, st.down)
    && Ahead(idx, level, st, parents) && FirstLinksSet(idx, parents)
    && Following(idx, children, links, at, st.conn)
    && LevelRule(idx, level, isRoot, st, budget, fuel).Passed?
    && (at == [] ==> LevelPage(idx, level, st.current) && DownFrom(Load(idx, st.current).value).leftmost == children[0])
  }

  /** The downlinks of all parents have been followed. */
  ghost predicate Done(
      idx: Index, parents: seq<Block>, children: seq<Block>, links: seq<Block>, at: seq<int>) {
    && RightChain(idx, parents) && RightChain(idx, children)
    && AllFollowed(idx, children, links + LevelLinks(idx, parents), at)
  }

  /** The downlinks so far and those of the first parent. */
  function LinksPast(idx: Index, links: seq<Block>, parents: seq<Block>): seq<Block> {
    if parents == [] || Load(idx, parents[0]).None? then links
    else
      var page := Load(idx, parents[0]).value;
      links + LinksFrom(page, page.FirstDataKey())
  }

  lemma {:induction false} LevelFollowed(
      idx: Index, level: nat, isRoot: bool, st: LevelState, budget: nat, fuel: nat, parents: seq<Block>,
      children: seq<Block>, links: seq<Block>, at: seq<int>) returns (more: seq<int>)
    requires Ready(idx, level, isRoot, st, budget, fuel, parents, children, links, at)
    ensures Done(idx, parents, children, links, more)
    decreases fuel
  {
    hide Ready, Done, LinksPast, PageRule;
    var one := PageStep(idx, level, isRoot, st, budget, fuel, parents, children, links, at);
    var after := PageRule(idx, level, isRoot, st, budget).value;
    if after.current == P_NONE {
      more := one;
    } else {
      more := LevelFollowed(idx, level, isRoot, after, budget, fuel - 1, parents[1..], children,
                            LinksPast(idx, links, parents), one);
      LinksOfFirst(idx, parents, children, links, more);
    }
  }

  lemma LinksOfFirst(idx: Index, parents: seq<Block>, children: seq<Block>, links: seq<Block>, at: seq<int>)
    requires RightChain(idx, parents) && parents != []
    requires Done(idx, parents[1..], children, LinksPast(idx, links, parents), at)
    ensures Done(idx, parents, children, links, at)
  {
    var page := Load(idx, parents[0]).value;
    RegroupAll(idx, children, links, LinksFrom(page, page.FirstDataKey()), LevelLinks(idx, parents[1..]), at);
  }

  /** One page of the level, and where that leaves the walk. */
  lemma PageStep(
      idx: Index, level: nat, isRoot: bool, st: LevelState, budget: nat, fuel: nat, parents: seq<Block>,
      children: seq<Block>, links: seq<Block>, at: seq<int>) returns (one: seq<int>)
    requires Ready(idx, level, isRoot, st, budget, fuel, parents, children, links, at)
    ensures PageRule(idx, level, isRoot, st, budget).Passed? && RightChain(idx, parents) && parents != []
    ensures var after := PageRule(idx, level, isRoot, st, budget).value;
            if after.current == P_NONE then Done(idx, parents, children, links, one)
            else
              fuel > 0 &&
              Ready(idx, level, isRoot, after, budget, fuel - 1, parents[1..], children,
                    LinksPast(idx, links, parents), one)
  {
    assert LevelPage(idx, level, parents[0]) && FirstLinkSet(Load(idx, parents[0]).value);
    hide TargetRule, ChildLevel, PageAccepted;
    one := PageOfLevel(idx, level, isRoot, st, budget, children, links, at);
    var after := PageRule(idx, level, isRoot, st, budget).value;
    if after.current == P_NONE {
      LastPage(idx, parents);
    } else {
      NotLastPage(idx, level, parents, after);
    }
  }

  /** The downlinks of a whole level have been met. */
  ghost predicate AllFollowed(idx: Index, children: seq<Block>, links: seq<Block>, at: seq<int>)
    requires RightChain(idx, children)
  {
    Met(idx, children, links, at) && AllMet(idx, children, at)
  }

  lemma RegroupAll(
      idx: Index, children: seq<Block>, a: seq<Block>, b: seq<Block>, c: seq<Block>, at: seq<int>)
    requires RightChain(idx, children) && AllFollowed(idx, children, a + b + c, at)
    ensures AllFollowed(idx, children, a + (b + c), at)
  {
    assert a + b + c == a + (b + c);
  }

  lemma LastPage(idx: Index, parents: seq<Block>)
    requires RightChain(idx, parents) && parents != [] && Load(idx, parents[0]).value.Rightmost()
    ensures var page := Load(idx, parents[0]).value; LevelLinks(idx, parents) == LinksFrom(page, page.FirstDataKey())
  {
    assert |parents| > 1 ==> Load(idx, parents[1]).Some?;
    assert LevelLinks(idx, parents[1..]) == [];
  }

  lemma NotLastPage(idx: Index, level: nat, parents: seq<Block>, after: LevelState)
    requires RightChain(idx, parents) && EndsRight(idx, parents) && !Load(idx, parents[0]).value.Rightmost()
    requires after.current == Load(idx, parents[0]).value.next
    requires forall i | 0 <= i < |parents| :: LevelPage(idx, level, parents[i])
    ensures |parents| > 1 && Ahead(idx, level, after, parents[1..])
    ensures FirstLinksSet(idx, parents) ==> FirstLinksSet(idx, parents[1..])
  {
  }

  /**
   `at` places the downlinks of the parents among the children, in order, and
   every child without a downlink is flagged root or directly follows a page
   whose split is unfinished.
   */
  ghost predicate InStep(idx: Index, parents: seq<Block>, children: seq<Block>, at: seq<int>) {
    && RightChain(idx, parents) && RightChain(idx, children)
    && |at| == |LevelLinks(idx, parents)| && StrictlyIncreasing(at)
    && (forall k | 0 <= k < |at| :: 0 <= at[k] < |children| && children[at[k]] == LevelLinks(idx, parents)[k])
    && AllMet(idx, children, at)
  }

  ghost predicate InLockstep(idx: Index, parents: seq<Block>, children: seq<Block>)
    ensures InLockstep(idx, parents, children) ==> RightChain(idx, parents) && RightChain(idx, children)
  {
    exists at :: InStep(idx, parents, children, at)
  }

  /** In a passing level, if no first downlink is P_NONE the children are in lockstep with the parents. */
  lemma Lockstep(
      idx: Index, level: Level, isRoot: bool, budget: nat, fuel: nat, parents: seq<Block>, children: seq<Block>)
    requires NoHalfDead(idx) && ChildLevel(idx, children) && level.level > 0
    requires Ahead(idx, level.level, LevelStart(level), parents) && FirstLinksSet(idx, parents)
    requires LevelRule(idx, level.level, isRoot, LevelStart(level), budget, fuel).Passed?
    requires DownFrom(Load(idx, parents[0]).value).leftmost == children[0]
    ensures InLockstep(idx, parents, children)
  {
    var at := LevelFollowed(idx, level.level, isRoot, LevelStart(level), budget, fuel, parents, children, [], []);
    assert [] + LevelLinks(idx, parents) == LevelLinks(idx, parents);
    assert InStep(idx, parents, children, at);
  }

  /** In lockstep every downlink of the parents leads to one of the children. */
  lemma LinkToChild(idx: Index, parents: seq<Block>, children: seq<Block>, i: nat, offset: nat) returns (j: nat)
    requires InLockstep(idx, parents, children) && i < |parents|
    requires Load(idx, parents[i]).value.FirstDataKey() <= offset <= Load(idx, parents[i]).value.MaxOffset()
    ensures j < |children| && children[j] == Load(idx, parents[i]).value.At(offset).downlink
  {
    var at :| InStep(idx, parents, children, at);
    var k := PlaceOfLink(idx, parents, i, offset);
    var position: int := at[k];
    j := position;
  }

  /** So lockstep needs every first downlink: no child is at P_NONE. */
  lemma LockstepNeedsLinks(idx: Index, parents: seq<Block>, children: seq<Block>)
    requires InLockstep(idx, parents, children)
    ensures FirstLinksSet(idx, parents)
  {
    forall i | 0 <= i < |parents| && Load(idx, parents[i]).value.Has(Load(idx, parents[i]).value.FirstDataKey())
      ensures FirstLinkSet(Load(idx, parents[i]).value)
    {
      var j := LinkToChild(idx, parents, children, i, Load(idx, parents[i]).value.FirstDataKey());
      assert Load(idx, children[j]).Some?;
    }
  }

  lemma {:induction false} PlaceOfLink(idx: Index, parents: seq<Block>, i: nat, offset: nat) returns (k: nat)
    requires RightChain(idx, parents) && i < |parents|
    requires Load(idx, parents[i]).value.FirstDataKey() <= offset <= Load(idx, parents[i]).value.MaxOffset()
    ensures k < |LevelLinks(idx, parents)|
    ensures LevelLinks(idx, parents)[k] == Load(idx, parents[i]).value.At(offset).downlink
    decreases i
  {
    var page := Load(idx, parents[0]).value;
    if i == 0 {
      LinksAt(page, page.FirstDataKey(), offset);
      k := offset - page.FirstDataKey();
    } else {
      k := PlaceOfLink(idx, parents[1..], i - 1, offset);
      k := k + |LinksFrom(page, page.FirstDataKey())|;
    }
  }

  lemma {:induction false} LinksAt(page: Page, from: nat, offset: nat)
    requires 0 < from <= offset <= page.MaxOffset()
    ensures offset - from < |LinksFrom(page, from)|
    ensures LinksFrom(page, from)[offset - from] == page.At(offset).downlink
    decreases offset - from
  {
    if from < offset {
      LinksAt(page, from + 1, offset);
    }
  }
}
