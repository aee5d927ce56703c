/** The B-tree verifier itself, loop by loop, against the rules it follows. */
module BtreeChecker {
  import opened Prelude
  import opened BtreeOrder
  import opened BtreePages
  import opened BtreeRules
  import opened BtreeWalks
  import opened BtreeTree

  /** `before` more levels than an outcome reports. */
  ghost function After(before: nat, o: Outcome<nat>): Outcome<nat> {
    match o
    case Passed(n) => Passed(before + n)
    case Rejected => Rejected
    case OutOfBudget => OutOfBudget
  }

  class BtreeCheckState {
    const idx: Index
    const budget: nat
    var target: Page
    var lowkey: Option<Item>
    var prevRightLink: Block
    var prevIncompleteSplit: bool

    constructor (idx: Index, budget: nat)
      ensures this.idx == idx && this.budget == budget && lowkey == None && Conn() == NO_CONNECTION
    {
      this.idx, this.budget := idx, budget;
      target := Page(true, false, false, false, false, false, false, P_NONE, P_NONE, 0, []);
      lowkey, prevRightLink, prevIncompleteSplit := None, INVALID_BLOCK, false;
    }

    function Conn(): Connection
      reads this`prevRightLink, this`prevIncompleteSplit
    {
      Connection(prevRightLink, prevIncompleteSplit)
    }

    function Under(): Target
      reads this`target, this`lowkey
    {
      Target(target, lowkey)
    }

    /** bt_right_page_check_scankey. */
    method RightPageCheckScankey() returns (r: Outcome<Option<Key>>)
      ensures r == RightKey(idx, target, budget)
    {
      if target.Rightmost() {
        return Passed(None);
      }
      var targetNext, left := target.next, budget;
      while true
        invariant FirstLiveRight(idx, target.next, budget) == FirstLiveRight(idx, targetNext, left)
        decreases left
      {
        var page := Load(idx, targetNext);
        if page.None? {
          return Rejected;
        }
        if !page.value.Ignore() || page.value.Rightmost() {
          return Passed(FirstKeyOf(idx, page.value));
        }
        if left == 0 {
          return OutOfBudget;
        }
        targetNext, left := page.value.next, left - 1;
      }
    }

    /** bt_downlink_missing_check: false is the error. */
    method DownlinkMissingCheck(rightSplit: bool, blk: Block, page: Page) returns (ok: bool)
      ensures ok == MayLackDownlink(idx, rightSplit, blk, page)
    {
      if page.root || rightSplit {
        return true;
      }
      if page.leaf || !page.Has(page.FirstDataKey()) {
        return false;
      }
      var level, childBlk := page.level, page.At(page.FirstDataKey()).downlink;
      var child := Load(idx, childBlk);
      while child.Some? && !child.value.leaf
        invariant child == Load(idx, childBlk)
        invariant FirstLeafUnder(idx, page.At(page.FirstDataKey()).downlink, page.level) ==
            FirstLeafUnder(idx, childBlk, level)
        decreases level
      {
        if child.value.level + 1 != level || !child.value.Has(child.value.FirstDataKey()) {
          return false;
        }
        level, childBlk := child.value.level, child.value.At(child.value.FirstDataKey()).downlink;
        child := Load(idx, childBlk);
      }
      if child.None? || child.value.deleted {
        return false;
      }
      return child.value.halfDead && !child.value.Rightmost() && child.value.Has(P_HIKEY) &&
          child.value.At(P_HIKEY).downlink == blk;
    }

    /** The checks of one page on the child level. */
    method ChildPageCheck(offset: nat, blk: Block, page: Page, rightSplit: bool, first: bool) returns (ok: bool)
      requires offset == 0 || target.Has(offset)
      ensures ok == ChildPagePasses(idx, Under(), offset, Conn(), blk, page, rightSplit, first)
    {
      if first && prevRightLink == INVALID_BLOCK {
        var leftmost := LeftmostIgnoringHalfDead(idx, blk, page);
        if leftmost != Some(true) {
          return false;
        }
      }
      if (!page.deleted || page.hasFullXid) && page.level + 1 != target.level {
        return false;
      }
      if (!first && blk == prevRightLink) || blk == page.prev {
        return false;
      }
      var downlink := DownlinkAt(target, offset);
      if blk != downlink && !page.Ignore() {
        var excused := DownlinkMissingCheck(rightSplit, blk, page);
        if !excused {
          return false;
        }
      }
      return HighKeyMatches(Target(target, lowkey), offset, blk == downlink, page);
    }

    /** bt_child_highkey_check. */
    method ChildHighkeyCheck(offset: nat) returns (r: Outcome<Connection>)
      requires offset == 0 || target.Has(offset)
      modifies this`prevRightLink, this`prevIncompleteSplit
      ensures r == HighkeyRule(idx, Under(), offset, old(Conn()), budget)
      ensures r.Passed? ==> Conn() == r.value
    {
      var blk, rightSplit, first, left := prevRightLink, prevIncompleteSplit, true, budget;
      var downlink := DownlinkAt(target, offset);
      if blk == INVALID_BLOCK {
        blk, rightSplit := downlink, false;
      }
      ghost var conn := Conn();
      while true
        invariant Conn() == conn
        invariant HighkeyRule(idx, Under(), offset, conn, budget) ==
            ChildWalk(idx, Under(), offset, conn, blk, rightSplit, first, left)
        decreases left
      {
        if blk == P_NONE {
          if downlink != P_NONE {
            return Rejected;
          }
          prevRightLink, prevIncompleteSplit := INVALID_BLOCK, false;
          return Passed(NO_CONNECTION);
        }
        var page := Load(idx, blk);
        if page.None? {
          return Rejected;
        }
        var ok := ChildPageCheck(offset, blk, page.value, rightSplit, first);
        if !ok {
          return Rejected;
        }
        rightSplit := page.value.incompleteSplit;
        if blk == downlink {
          prevRightLink, prevIncompleteSplit := page.value.next, rightSplit;
          return Passed(Connection(page.value.next, rightSplit));
        }
        if left == 0 {
          return OutOfBudget;
        }
        blk, first, left := page.value.next, false, left - 1;
      }
    }

    /** The lower-bound loop of bt_child_check. */
    method LowerBoundCheck(key: Key, child: Page) returns (ok: bool)
      requires |key.attrs| <= idx.schema.KeyCount()
      ensures ok == LowerBound(idx.schema, key, child)
    {
      var offset := child.FirstDataKey();
      while offset <= child.MaxOffset()
        invariant 1 <= offset
        invariant forall o: nat | child.FirstReal() <= o < offset && o <= child.MaxOffset() ::
            InvariantL(idx.schema, key, child.At(o), child.NonPivot(o))
        decreases child.MaxOffset() + 1 - offset
      {
        if !child.NegativeInfinity(offset) && !InvariantL(idx.schema, key, child.At(offset), child.NonPivot(offset)) {
          return false;
        }
        offset := offset + 1;
      }
      return true;
    }

    /** bt_child_check. */
    method ChildCheck(offset: nat) returns (r: Outcome<Connection>)
      requires target.Has(offset)
      modifies this`prevRightLink, this`prevIncompleteSplit
      ensures r == ChildRule(idx, Under(), offset, old(Conn()), budget)
      ensures r.Passed? ==> Conn() == r.value
    {
      var child := Load(idx, target.At(offset).downlink);
      if child.None? {
        return Rejected;
      }
      r := ChildHighkeyCheck(offset);
      if r.Passed? {
        var bounded := LowerBoundCheck(KeyOf(idx.schema, target.At(offset)), child.value);
        if child.value.deleted || !bounded {
          return Rejected;
        }
      }
    }

    static method PostingListCheck(item: Item) returns (ok: bool)
      ensures ok == PostingOrdered(item)
    {
      var i := 1;
      while i < |item.tids|
        invariant 1 <= i && forall j | 0 < j < i && j < |item.tids| :: item.tids[j - 1] < item.tids[j]
      {
        if item.tids[i] <= item.tids[i - 1] {
          return false;
        }
        i := i + 1;
      }
      return true;
    }

    /** The checks of one item other than negative infinity. */
    method ItemCheck(offset: nat) returns (ok: bool)
      requires target.Has(offset)
      ensures ok == ItemPasses(idx, target, offset)
    {
      var item := target.At(offset);
      if item.kind.Posting? {
        var ordered := PostingListCheck(item);
        if !ordered {
          return false;
        }
      }
      if !BelowHighKey(idx, target, item) {
        return false;
      }
      return !target.Has(offset + 1) ||
             InvariantL(idx.schema, KeyOf(idx.schema, item), target.At(offset + 1), target.NonPivot(offset + 1));
    }

    method LastItemCheck(offset: nat) returns (r: Outcome<bool>)
      requires target.Has(offset)
      ensures r == LastItemRule(idx, target, offset, budget)
    {
      if offset != target.MaxOffset() {
        return Passed(true);
      }
      var key := RightPageCheckScankey();
      match key {
        case Passed(k) =>
          if k.Some? && !InvariantG(idx.schema, k.value, target.At(offset)) {
            return Rejected;
          }
          return Passed(true);
        case Rejected => return Rejected;
        case OutOfBudget => return OutOfBudget;
      }
    }

    /** One offset of bt_target_page_check. */
    method OffsetCheck(offset: nat) returns (r: Outcome<Connection>)
      requires target.Has(offset)
      modifies this`prevRightLink, this`prevIncompleteSplit
      ensures r == OffsetRule(idx, Under(), offset, old(Conn()), budget)
      ensures r.Passed? ==> Conn() == r.value
    {
      if !CheckNatts(idx.schema, target, offset) {
        return Rejected;
      }
      if target.NegativeInfinity(offset) {
        r := ChildHighkeyCheck(offset);
        return;
      }
      var ok := ItemCheck(offset);
      if !ok {
        return Rejected;
      }
      var last := LastItemCheck(offset);
      if last.Rejected? {
        return Rejected;
      }
      if last.OutOfBudget? {
        return OutOfBudget;
      }
      if target.leaf {
        return Passed(Connection(prevRightLink, prevIncompleteSplit));
      }
      r := ChildCheck(offset);
    }

    /** bt_target_page_check. */
    method TargetPageCheck() returns (r: Outcome<Connection>)
      modifies this`prevRightLink, this`prevIncompleteSplit
      ensures r == TargetRule(idx, Under(), old(Conn()), budget)
      ensures r.Passed? ==> Conn() == r.value
    {
      if !target.Rightmost() && !(target.Has(P_HIKEY) && CheckNatts(idx.schema, target, P_HIKEY)) {
        return Rejected;
      }
      var offset := target.FirstDataKey();
      while offset <= target.MaxOffset()
        invariant 1 <= offset
        invariant OffsetsRule(idx, Under(), target.FirstDataKey(), old(Conn()), budget) ==
            OffsetsRule(idx, Under(), offset, Conn(), budget)
        decreases target.MaxOffset() + 1 - offset
      {
        r := OffsetCheck(offset);
        if !r.Passed? {
          return;
        }
        offset := offset + 1;
      }
      if !target.leaf && target.Rightmost() {
        r := ChildHighkeyCheck(0);
      } else {
        r := Passed(Connection(prevRightLink, prevIncompleteSplit));
      }
    }

    /** One page of a level, up to the test for circular links. */
    method PageCheck(level: nat, isRoot: bool, current: Block, leftCurrent: Block, down: Level)
        returns (r: Outcome<LevelState>)
      modifies this`target, this`lowkey, this`prevRightLink, this`prevIncompleteSplit
      ensures r ==
          PageRule(idx, level, isRoot, LevelState(current, leftCurrent, down, old(Conn()), old(lowkey)), budget)
      ensures r.Passed? ==> Conn() == r.value.conn && lowkey == r.value.lowkey
    {
      var page := Load(idx, current);
      if page.None? {
        return Rejected;
      }
      target := page.value;
      var nextDown := down;
      if target.Ignore() {
        if target.deleted || target.Rightmost() {
          return Rejected;
        }
      } else {
        if down.leftmost == INVALID_BLOCK {
          var leftmost := LeftmostIgnoringHalfDead(idx, current, target);
          if leftmost != Some(true) || (isRoot && !target.root) {
            return Rejected;
          }
          nextDown := DownFrom(target);
        }
        if (target.prev != leftCurrent && leftCurrent != P_NONE) || level != target.level {
          return Rejected;
        }
        var checked := TargetPageCheck();
        if checked.Rejected? {
          return Rejected;
        }
        if checked.OutOfBudget? {
          return OutOfBudget;
        }
      }
      if current == leftCurrent || current == target.prev {
        return Rejected;
      }
      lowkey := if target.Rightmost() then None else Some(target.At(P_HIKEY));
      return Passed(LevelState(target.next, current, nextDown, Connection(prevRightLink, prevIncompleteSplit), lowkey));
    }

    /** bt_check_level_from_leftmost. */
    method CheckLevelFromLeftmost(level: Level, isRoot: bool) returns (r: Outcome<Level>)
      requires lowkey == None
      modifies this`target, this`lowkey, this`prevRightLink, this`prevIncompleteSplit
      ensures r == LevelRule(idx, level.level, isRoot, LevelStart(level), budget, budget)
      ensures r.Passed? ==> lowkey == None
    {
      prevRightLink, prevIncompleteSplit := INVALID_BLOCK, false;
      var st, left := LevelStart(level), budget;
      while true
        invariant DownOk(level.level, st.down) && Conn() == st.conn && lowkey == st.lowkey
        invariant LevelRule(idx, level.level, isRoot, LevelStart(level), budget, budget) ==
            LevelRule(idx, level.level, isRoot, st, budget, left)
        decreases left
      {
        var page := PageCheck(level.level, isRoot, st.current, st.left, st.down);
        if page.Rejected? {
          return Rejected;
        }
        if page.OutOfBudget? {
          return OutOfBudget;
        }
        st := page.value;
        if st.current == P_NONE {
          lowkey := None;
          return Passed(st.down);
        }
        if left == 0 {
          return OutOfBudget;
        }
        left := left - 1;
      }
    }

    /**
     bt_check_every_level: the number of levels verified.  If no error is raised
     these are root level plus one unless a first downlink on the way down is
     P_NONE, and without half-dead pages they form a sound tree.
     */
    method CheckEveryLevel() returns (r: Outcome<nat>)
      requires lowkey == None
      modifies this`target, this`lowkey, this`prevRightLink, this`prevIncompleteSplit
      ensures r == CheckRule(idx, budget)
      ensures r.Passed? ==>
                && r.value <= idx.rootLevel + 1
                && (r.value == idx.rootLevel + 1 <==> SpineComplete(idx, idx.root, idx.rootLevel, budget))
      ensures r.Passed? && NoHalfDead(idx) ==> Verified(idx, r.value)
    {
      r := CheckLevels();
      if r.Passed? {
        RoundsExact(idx, Level(idx.root, idx.rootLevel), true, budget);
        CheckVerifies(idx, budget);
      }
    }

    /** Its loop, from the true root down. */
    method CheckLevels() returns (r: Outcome<nat>)
      requires lowkey == None
      modifies this`target, this`lowkey, this`prevRightLink, this`prevIncompleteSplit
      ensures r == CheckRule(idx, budget)
    {
      var current, isRoot, rounds := Level(idx.root, idx.rootLevel), true, 0;
      while current.leftmost != P_NONE
        invariant lowkey == None
        invariant CheckRule(idx, budget) == After(rounds, LevelsRule(idx, current, isRoot, budget))
        decreases current.level
      {
        var down := CheckLevelFromLeftmost(current, isRoot);
        if down.Rejected? {
          return Rejected;
        }
        if down.OutOfBudget? {
          return OutOfBudget;
        }
        if down.value.leftmost == INVALID_BLOCK {
          return Rejected;
        }
        rounds := rounds + 1;
        if down.value.leftmost == P_NONE {
          return Passed(rounds);
        }
        current, isRoot := down.value, false;
      }
      return Passed(rounds);
    }
  }
}
