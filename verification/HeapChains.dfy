/**
 Update chains on one heap page.  A first pass validates line pointers and
 records each one's successor, a second follows the links and records
 predecessors, a third looks for heap-only tuples that nothing leads to.
 */
module HeapChains {
  import opened Prelude

  const BLCKSZ := 8192
  const HEADER_SIZE := 24

  type Xid = nat

  datatype Tuple = Tuple(
    xmin: Xid,
    updateXid: Xid,      // xmax, or the update member of a multixact; 0 if none
    ctidBlock: nat,
    ctidOffset: nat,
    hotUpdated: bool,
    heapOnly: bool)

  datatype LinePointer =
    | Unused
    | Dead
    | Redirect(target: nat)
    | Normal(offset: nat, length: nat, tuple: Tuple)

  datatype XidStatus = Committed | IsCurrent | InProgress | Aborted

  /** What the per-tuple checks said: problems found, and xmin's status if known. */
  datatype TupleCheck = TupleCheck(reports: nat, status: Option<XidStatus>)

  /** Line pointer `i` stands at items[i - 1]; offset 0 means none. */
  datatype Page = Page(block: nat, items: seq<LinePointer>, checks: seq<TupleCheck>) {
    ghost predicate Valid() {
      |checks| == |items|
    }

    predicate HasOffset(i: int) {
      1 <= i <= |items|
    }

    function Item(i: int): LinePointer
      requires HasOffset(i)
    {
      items[i - 1]
    }

    /** xmin's status, known only if the tuple was examined and passed far enough. */
    function XminStatus(i: int): Option<XidStatus>
      requires Valid() && HasOffset(i)
    {
      if Item(i).Normal? && Storage(Item(i)) then checks[i - 1].status else None
    }

    /** The line pointer passed basic checks and can be examined. */
    predicate LpValid(i: int)
      requires HasOffset(i)
    {
      match Item(i)
      case Redirect(target) => HasOffset(target) && Item(target).Normal?
      case Normal(_, _, _) => Storage(Item(i))
      case _ => false
    }

    /** Where the first pass says the line pointer leads, 0 if nowhere. */
    function Successor(i: int): nat
      requires HasOffset(i)
    {
      if !LpValid(i) then 0
      else match Item(i)
           case Redirect(target) => target
           case Normal(_, _, t) =>
             if t.ctidBlock == block && t.ctidOffset != i && HasOffset(t.ctidOffset) then t.ctidOffset else 0
           case _ => 0
    }

    /** Is there an update-chain link from `i` to `j`? */
    predicate Linked(i: int, j: int) {
      && HasOffset(i) && HasOffset(j)
      && Successor(i) == j
      && LpValid(j)
      && (Item(i).Redirect? ||
          (&& Item(j).Normal?
           && Item(i).tuple.updateXid != 0
           && Item(i).tuple.updateXid == Item(j).tuple.xmin))
    }
  }

  /** Aligned, long enough for a tuple header, and within the page. */
  predicate Storage(lp: LinePointer)
    requires lp.Normal?
  {
    lp.offset % 8 == 0 && HEADER_SIZE <= lp.length && lp.offset + lp.length <= BLCKSZ
  }

  /** A line pointer the first pass has nothing to say about. */
  predicate PointerOk(page: Page, i: int)
    requires page.Valid() && page.HasOffset(i)
  {
    match page.Item(i)
    case Unused => true
    case Dead => true
    case Redirect(_) => page.LpValid(i)
    case Normal(_, _, _) => page.LpValid(i) && page.checks[i - 1].reports == 0
  }

  /** A link the second pass has nothing to say about, apart from other links. */
  predicate LinkOk(page: Page, inProgress: Xid -> bool, i: int, j: int)
    requires page.Valid() && page.Linked(i, j)
  {
    if page.Item(i).Redirect? then page.Item(j).Normal? && page.Item(j).tuple.heapOnly
    else
      && page.Item(i).tuple.hotUpdated == page.Item(j).tuple.heapOnly
      && StatusesOk(inProgress(page.Item(i).tuple.xmin), page.XminStatus(i), page.XminStatus(j))
  }

  /**
   A tuple whose inserter is in progress has no committed successor, one whose
   inserter aborted no committed or in-progress one.
   */
  predicate StatusesOk(stillInProgress: bool, here: Option<XidStatus>, next: Option<XidStatus>) {
    && !(here == Some(InProgress) && next == Some(XidStatus.Committed) && stillInProgress)
    && !(here == Some(Aborted) && (next == Some(InProgress) || next == Some(XidStatus.Committed)))
  }

  /** Inserted by a transaction known to have committed or to be running. */
  predicate KnownAlive(page: Page, i: int)
    requires page.Valid() && page.HasOffset(i)
  {
    page.XminStatus(i) == Some(XidStatus.Committed) || page.XminStatus(i) == Some(InProgress)
  }

  ghost predicate PointersOk(page: Page, upto: int)
    requires page.Valid() && upto <= |page.items|
  {
    forall i :: 1 <= i <= upto ==> PointerOk(page, i)
  }

  ghost predicate LinksOk(page: Page, inProgress: Xid -> bool, upto: int)
    requires page.Valid()
  {
    forall i, j :: 1 <= i <= upto && page.Linked(i, j) ==> LinkOk(page, inProgress, i, j)
  }

  ghost predicate LinksInjective(page: Page, upto: int) {
    forall i, k, j :: 1 <= i < k <= upto && page.Linked(i, j) ==> !page.Linked(k, j)
  }

  /** A heap-only tuple known alive is reached from somewhere. */
  ghost predicate RootOk(page: Page, j: int)
    requires page.Valid() && page.HasOffset(j)
  {
    KnownAlive(page, j) && page.Item(j).tuple.heapOnly ==> exists i :: page.Linked(i, j)
  }

  ghost predicate RootsOk(page: Page, upto: int)
    requires page.Valid() && upto <= |page.items|
  {
    forall j :: 1 <= j <= upto ==> RootOk(page, j)
  }

  /** The three per-page loops, run one after the other. */
  method CheckPage(page: Page, inProgress: Xid -> bool) returns (reports: nat)
    requires page.Valid()
    ensures reports == 0 <==>
              && PointersOk(page, |page.items|)
              && LinksOk(page, inProgress, |page.items|)
              && LinksInjective(page, |page.items|)
              && RootsOk(page, |page.items|)
  {
    var maxoff := |page.items|;
    var successor := new nat[maxoff + 1](_ => 0);
    var lpValid := new bool[maxoff + 1](_ => false);
    var predecessor := new nat[maxoff + 1](_ => 0);
    var first := CheckPointers(page, successor, lpValid);
    var second := CheckLinks(page, inProgress, successor, lpValid, predecessor);
    var third := CheckRoots(page, predecessor);
    reports := first + second + third;
    if second == 0 {
      RootsByPredecessor(page, predecessor[..]);
    }
  }

  /** The arrays the first pass fills. */
  ghost predicate Filled(page: Page, successor: seq<nat>, lpValid: seq<bool>, upto: nat) {
    && |successor| == |lpValid| == |page.items| + 1
    && upto <= |page.items|
    && forall i :: 1 <= i <= upto ==> successor[i] == page.Successor(i) && lpValid[i] == page.LpValid(i)
  }

  method CheckPointers(page: Page, successor: array<nat>, lpValid: array<bool>) returns (reports: nat)
    requires page.Valid()
    requires successor.Length == lpValid.Length == |page.items| + 1
    modifies successor, lpValid
    ensures Filled(page, successor[..], lpValid[..], |page.items|)
    ensures reports == 0 <==> PointersOk(page, |page.items|)
  {
    reports := 0;
    for off := 1 to |page.items| + 1
      invariant Filled(page, successor[..], lpValid[..], off - 1)
      invariant reports == 0 <==> PointersOk(page, off - 1)
    {
      var next, valid, m := CheckPointer(page, off);
      successor[off], lpValid[off] := next, valid;
      reports := reports + m;
    }
  }

  /** The body of the first loop. */
  method CheckPointer(page: Page, off: nat) returns (next: nat, valid: bool, reports: nat)
    requires page.Valid() && page.HasOffset(off)
    ensures next == page.Successor(off) && valid == page.LpValid(off)
    ensures reports == 0 <==> PointerOk(page, off)
  {
    next, valid, reports := 0, false, 0;
    var lp := page.Item(off);
    if lp.Unused? || lp.Dead? {
      return;
    }
    if lp.Redirect? {
      if lp.target < 1 || lp.target > |page.items| {
        reports := 1;
        return;
      }
      var target := page.Item(lp.target);
      if target.Unused? || target.Dead? || target.Redirect? {
        reports := 1;
        return;
      }
      return lp.target, true, 0;
    }
    if lp.offset % 8 != 0 {
      reports := 1;
      return;
    }
    if lp.length < HEADER_SIZE {
      reports := 1;
      return;
    }
    if lp.offset + lp.length > BLCKSZ {
      reports := 1;
      return;
    }
    valid := true;
    reports := page.checks[off - 1].reports;
    var t := lp.tuple;
    if t.ctidBlock == page.block && t.ctidOffset != off && 1 <= t.ctidOffset <= |page.items| {
      next := t.ctidOffset;
    }
  }

  /** Predecessors recorded so far are real; without reports, all are recorded. */
  ghost predicate Recorded(page: Page, predecessor: seq<nat>, upto: int, all: bool) {
    && |predecessor| == |page.items| + 1
    && (forall j :: 1 <= j <= |page.items| && predecessor[j] != 0 ==>
          predecessor[j] <= upto && page.Linked(predecessor[j], j))
    && (all ==> forall i, j :: 1 <= i <= upto && page.Linked(i, j) ==> predecessor[j] == i)
  }

  method CheckLinks(
      page: Page, inProgress: Xid -> bool, successor: array<nat>, lpValid: array<bool>, predecessor: array<nat>)
    returns (reports: nat)
    requires page.Valid() && predecessor != successor
    requires Filled(page, successor[..], lpValid[..], |page.items|)
    requires predecessor.Length == |page.items| + 1 && forall j :: 0 <= j < predecessor.Length ==> predecessor[j] == 0
    modifies predecessor
    ensures Recorded(page, predecessor[..], |page.items|, reports == 0)
    ensures reports == 0 <==> LinksOk(page, inProgress, |page.items|) && LinksInjective(page, |page.items|)
  {
    assert LinksOk(page, inProgress, 0) && LinksInjective(page, 0);
    hide LinksOk, LinksInjective, LinkOk;
    reports := 0;
    for off := 1 to |page.items| + 1
      invariant Filled(page, successor[..], lpValid[..], |page.items|)
      invariant Recorded(page, predecessor[..], off - 1, reports == 0)
      invariant reports == 0 <==> LinksOk(page, inProgress, off - 1) && LinksInjective(page, off - 1)
    {
      var next := successor[off];
      if next == 0 || !lpValid[next] {
        LinksExtend(page, inProgress, predecessor[..], off, reports == 0);
        continue;
      }
      var record, m := CheckLink(page, inProgress, off, next, predecessor[next]);
      LinksExtend(page, inProgress, predecessor[..], off, reports == 0);
      if record {
        predecessor[next] := off;
      }
      reports := reports + m;
    }
  }

  /** The body of the second loop; `known` is the predecessor recorded for `next` so far. */
  method CheckLink(page: Page, inProgress: Xid -> bool, off: nat, next: nat, known: nat)
    returns (record: bool, reports: nat)
    requires page.Valid() && page.HasOffset(off) && page.HasOffset(next)
    requires page.Successor(off) == next && page.LpValid(next)
    ensures record <==> page.Linked(off, next) && known == 0
    ensures reports == 0 <==> (page.Linked(off, next) ==> known == 0 && LinkOk(page, inProgress, off, next))
  {
    record, reports := false, 0;
    var currLp, nextLp := page.Item(off), page.Item(next);
    if currLp.Redirect? {
      if !nextLp.tuple.heapOnly {
        reports := reports + 1;
      }
      if known != 0 {
        reports := reports + 1;
        return;
      }
      record := true;
      return;
    }
    if nextLp.Redirect? {
      return;
    }
    var curr, succ := currLp.tuple, nextLp.tuple;
    if curr.updateXid == 0 || curr.updateXid != succ.xmin {
      return;
    }
    if known != 0 {
      reports := reports + 1;
      return;
    }
    record := true;
    if !curr.hotUpdated && succ.heapOnly {
      reports := reports + 1;
    }
    if curr.hotUpdated && !succ.heapOnly {
      reports := reports + 1;
    }
    var here, there := page.XminStatus(off), page.XminStatus(next);
    if here == Some(InProgress) && there == Some(XidStatus.Committed) && inProgress(curr.xmin) {
      reports := reports + 1;
    }
    if here == Some(Aborted) && there.Some? {
      if there.value == InProgress {
        reports := reports + 1;
      } else if there.value == XidStatus.Committed {
        reports := reports + 1;
      }
    }
  }

  /** One more line pointer adds at most the link to its successor. */
  lemma LinksExtend(page: Page, inProgress: Xid -> bool, predecessor: seq<nat>, off: int, all: bool)
    requires page.Valid() && page.HasOffset(off)
    requires Recorded(page, predecessor, off - 1, all)
    requires all <==> LinksOk(page, inProgress, off - 1) && LinksInjective(page, off - 1)
    ensures var next := page.Successor(off);
            LinksOk(page, inProgress, off) && LinksInjective(page, off) <==>
            all && (page.Linked(off, next) ==> predecessor[next] == 0 && LinkOk(page, inProgress, off, next))
  {
    var next := page.Successor(off);
    assert forall j :: page.Linked(off, j) ==> j == next;
    assert page.Linked(off, next) && predecessor[next] != 0 ==> page.Linked(predecessor[next], next);
  }

  /** The third loop: nothing known alive may be heap-only without a predecessor. */
  method CheckRoots(page: Page, predecessor: array<nat>) returns (reports: nat)
    requires page.Valid() && predecessor.Length == |page.items| + 1
    ensures reports == 0 <==>
              forall j :: 1 <= j <= |page.items| && KnownAlive(page, j) && predecessor[j] == 0 ==>
                  !page.Item(j).tuple.heapOnly
  {
    reports := 0;
    for off := 1 to |page.items| + 1
      invariant reports == 0 <==>
        forall j :: 1 <= j < off && KnownAlive(page, j) && predecessor[j] == 0 ==> !page.Item(j).tuple.heapOnly
    {
      if KnownAlive(page, off) && predecessor[off] == 0 {
        var lp := page.Item(off);
        if !lp.Redirect? {
          if lp.tuple.heapOnly {
            reports := reports + 1;
          }
        }
      }
    }
  }

  lemma RootsByPredecessor(page: Page, predecessor: seq<nat>)
    requires page.Valid() && Recorded(page, predecessor, |page.items|, true)
    ensures RootsOk(page, |page.items|) <==>
              forall j :: 1 <= j <= |page.items| && KnownAlive(page, j) && predecessor[j] == 0 ==>
                  !page.Item(j).tuple.heapOnly
  {
    forall j | 1 <= j <= |page.items|
      ensures RootOk(page, j) <==> (KnownAlive(page, j) && predecessor[j] == 0 ==> !page.Item(j).tuple.heapOnly)
    {
      if predecessor[j] != 0 {
        assert page.Linked(predecessor[j], j);
      }
    }
  }

  /**
   What an unreported page guarantees: every heap-only tuple known alive has
   exactly one predecessor, along every tuple-to-tuple link the flags agree, and
   a redirect leads to a heap-only tuple.
   */
  lemma UnreportedPage(page: Page, inProgress: Xid -> bool)
    requires page.Valid()
    requires PointersOk(page, |page.items|) && LinksOk(page, inProgress, |page.items|)
    requires LinksInjective(page, |page.items|) && RootsOk(page, |page.items|)
    ensures forall i, k, j :: page.Linked(i, j) && page.Linked(k, j) ==> i == k
    ensures forall i, j :: page.Linked(i, j) && !page.Item(i).Redirect? ==>
              page.Item(i).tuple.hotUpdated == page.Item(j).tuple.heapOnly
    ensures forall i :: page.HasOffset(i) && page.Item(i).Redirect? ==>
              var j := page.Item(i).target;
              page.HasOffset(j) && page.Item(j).Normal? && page.Item(j).tuple.heapOnly && page.Linked(i, j)
    ensures forall j :: page.HasOffset(j) && KnownAlive(page, j) && page.Item(j).tuple.heapOnly ==>
              exists i :: page.Linked(i, j) && forall k :: page.Linked(k, j) ==> k == i
  {
    forall i, k, j | page.Linked(i, j) && page.Linked(k, j)
      ensures i == k
    {
      assert i < k ==> !page.Linked(k, j);
      assert k < i ==> !page.Linked(i, j);
    }
    forall i | page.HasOffset(i) && page.Item(i).Redirect?
      ensures page.Linked(i, page.Item(i).target) && page.Item(page.Item(i).target).tuple.heapOnly
    {
      assert PointerOk(page, i) && PointerOk(page, page.Item(i).target);
      assert LinkOk(page, inProgress, i, page.Item(i).target);
    }
    forall j | page.HasOffset(j) && KnownAlive(page, j) && page.Item(j).tuple.heapOnly
      ensures exists i :: page.Linked(i, j) && forall k :: page.Linked(k, j) ==> k == i
    {
      assert RootOk(page, j);
      var i :| page.Linked(i, j);
    }
  }

  /** Two heap-only tuples that succeed each other. */
  function CyclicPage(block: nat): Page {
    var committed := TupleCheck(0, Some(XidStatus.Committed));
    Page(block,
         [Normal(8000, 24, Tuple(10, 11, block, 2, true, true)), Normal(8024, 24, Tuple(11, 10, block, 1, true, true))],
         [committed, committed])
  }

  /** Having no report does not guarantee that chains end. */
  lemma CycleUnreported(block: nat, inProgress: Xid -> bool)
    ensures var page := CyclicPage(block);
            && page.Linked(1, 2) && page.Linked(2, 1)
            && PointersOk(page, 2) && LinksOk(page, inProgress, 2) && LinksInjective(page, 2) && RootsOk(page, 2)
  {
    var page := CyclicPage(block);
    assert page.Linked(1, 2) && page.Linked(2, 1);
  }

  // ----- when chains end

  /** Line pointers each of which links to the next. */
  ghost predicate Chain(page: Page, chain: seq<int>) {
    && (forall i | 0 <= i < |chain| :: page.HasOffset(chain[i]))
    && (forall i | 0 < i < |chain| :: page.Linked(chain[i - 1], chain[i]))
  }

  /** No chain is longer than the page has line pointers. */
  ghost predicate ChainsEnd(page: Page) {
    forall chain :: Chain(page, chain) ==> |chain| <= |page.items|
  }

  /** Nothing links to the line pointer. */
  ghost predicate Unlinked(page: Page, i: int) {
    forall k :: !page.Linked(k, i)
  }

  /** A chain from a line pointer that nothing links to comes to `j`. */
  ghost predicate ChainFromRoot(page: Page, j: int, chain: seq<int>) {
    Chain(page, chain) && chain != [] && Unlinked(page, chain[0]) && chain[|chain| - 1] == j
  }

  ghost predicate Rooted(page: Page, j: int) {
    exists chain :: ChainFromRoot(page, j, chain)
  }

  lemma OnePredecessor(page: Page, i: int, k: int, j: int)
    requires LinksInjective(page, |page.items|) && page.Linked(i, j) && page.Linked(k, j)
    ensures i == k
  {
    assert i < k ==> !page.Linked(k, j);
    assert k < i ==> !page.Linked(i, j);
  }

  /** With injective links, going back from one line pointer along two chains gives the same line pointers. */
  lemma {:induction false} SameBackwards(page: Page, a: seq<int>, b: seq<int>, n: nat)
    requires LinksInjective(page, |page.items|) && Chain(page, a) && Chain(page, b)
    requires a != [] && b != [] && a[|a| - 1] == b[|b| - 1] && n < |a| && n < |b|
    ensures a[|a| - 1 - n] == b[|b| - 1 - n]
  {
    if n > 0 {
      SameBackwards(page, a, b, n - 1);
      var x, y := |a| - n, |b| - n;
      assert page.Linked(a[x - 1], a[x]) && page.Linked(b[y - 1], b[y]) && a[x] == b[y];
      OnePredecessor(page, a[x - 1], b[y - 1], a[x]);
    }
  }

  /** A chain from a root never comes to a line pointer twice. */
  lemma RootedChainsDiffer(page: Page, chain: seq<int>)
    requires LinksInjective(page, |page.items|) && Chain(page, chain) && chain != [] && Unlinked(page, chain[0])
    ensures NoRepeat(chain)
  {
    forall i, j | 0 <= i < j < |chain| ensures chain[i] != chain[j] {
      assert page.Linked(chain[j - i - 1], chain[j - i]);
      if chain[i] == chain[j] {
        SameBackwards(page, chain[..i + 1], chain[..j + 1], i);
      }
    }
  }

  lemma NoLongChain(page: Page, chain: seq<int>)
    requires Chain(page, chain) && NoRepeat(chain)
    ensures |chain| <= |page.items|
  {
    OffsetCount(|page.items|);
    Pigeonhole(chain, Offsets(|page.items|));
  }

  ghost function Offsets(n: nat): set<int> {
    if n == 0 then {} else Offsets(n - 1) + {n}
  }

  lemma {:induction false} OffsetCount(n: nat)
    ensures |Offsets(n)| == n && forall i :: i in Offsets(n) <==> 1 <= i <= n
  {
    if n > 0 {
      OffsetCount(n - 1);
    }
  }

  /** Every chain can be begun at a root, if everything linked to is reached from one. */
  lemma RootedChainsEnd(page: Page, chain: seq<int>)
    requires LinksInjective(page, |page.items|) && Chain(page, chain) && chain != []
    requires forall i, j :: page.Linked(i, j) ==> Rooted(page, j)
    ensures |chain| <= |page.items|
  {
    if Unlinked(page, chain[0]) {
      RootedChainsDiffer(page, chain);
      NoLongChain(page, chain);
    } else {
      var k :| page.Linked(k, chain[0]);
      var front :| ChainFromRoot(page, chain[0], front);
      var whole := front + chain[1..];
      assert forall i | 0 < i < |whole| :: page.Linked(whole[i - 1], whole[i]) by {
        forall i | 0 < i < |whole| ensures page.Linked(whole[i - 1], whole[i]) {
          if i >= |front| {
            assert whole[i] == chain[i - |front| + 1] && whole[i - 1] == chain[i - |front|];
          }
        }
      }
      RootedChainsDiffer(page, whole);
      NoLongChain(page, whole);
    }
  }

  /** Going back from a line pointer, chains that end lead to a root. */
  lemma {:induction false} ReachRoot(page: Page, chain: seq<int>)
    requires ChainsEnd(page) && Chain(page, chain) && chain != []
    ensures Rooted(page, chain[|chain| - 1])
    decreases |page.items| - |chain|
  {
    if Unlinked(page, chain[0]) {
      assert ChainFromRoot(page, chain[|chain| - 1], chain);
    } else {
      var k :| page.Linked(k, chain[0]);
      var longer := [k] + chain;
      assert Chain(page, longer);
      ReachRoot(page, longer);
    }
  }

  /**
   On an unreported page, whose links are injective, all chains end if and only
   if every line pointer that something links to is reached from one that nothing
   links to.
   */
  lemma ChainsEndIff(page: Page)
    requires LinksInjective(page, |page.items|)
    ensures ChainsEnd(page) <==> forall i, j :: page.Linked(i, j) ==> Rooted(page, j)
  {
    if ChainsEnd(page) {
      forall i, j | page.Linked(i, j) ensures Rooted(page, j) {
        assert Chain(page, [i, j]);
        ReachRoot(page, [i, j]);
      }
    }
    if forall i, j :: page.Linked(i, j) ==> Rooted(page, j) {
      forall chain | Chain(page, chain) ensures |chain| <= |page.items| {
        if chain != [] {
          RootedChainsEnd(page, chain);
        }
      }
    }
  }
}
