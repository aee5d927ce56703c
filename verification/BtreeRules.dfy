/**
 What each walk of the B-tree verifier computes, under the share lock that
 keeps the index still.  A rule returns the connectivity state it leaves, or
 says that the check raises an error.  Loops that follow links of an arbitrary
 page graph need not end, so the rules carry a budget of iterations and say
 when it ran out; nothing else depends on it.
 */
module BtreeRules {
  import opened Prelude
  import opened BtreeOrder
  import opened BtreePages

  datatype Outcome<T> = Passed(value: T) | Rejected | OutOfBudget

  /** The right link and incomplete-split flag of the child page met last; INVALID_BLOCK at the start of a level. */
  datatype Connection = Connection(prevRight: Block, incomplete: bool)

  /** The page under check and the high key of its left sibling. */
  datatype Target = Target(page: Page, lowkey: Option<Item>)

  const NO_CONNECTION := Connection(INVALID_BLOCK, false)

  // ----- items of one page

  predicate PostingOrdered(item: Item) {
    forall i | 0 < i < |item.tids| :: item.tids[i - 1] < item.tids[i]
  }

  /** bt_right_page_check_scankey's search for a page to take a key from. */
  function FirstLiveRight(idx: Index, blk: Block, budget: nat): Outcome<Page>
    decreases budget
  {
    match Load(idx, blk)
    case None => Rejected
    case Some(page) =>
      if !page.Ignore() || page.Rightmost() then Passed(page)
      else if budget == 0 then OutOfBudget
      else FirstLiveRight(idx, page.next, budget - 1)
  }

  function FirstKeyOf(idx: Index, page: Page): Option<Key> {
    if page.Has(page.FirstReal()) then Some(KeyOf(idx.schema, page.At(page.FirstReal()))) else None
  }

  /** The key that must be above the last item of `page`, if any. */
  function RightKey(idx: Index, page: Page, budget: nat): Outcome<Option<Key>> {
    if page.Rightmost() then Passed(None)
    else
      match FirstLiveRight(idx, page.next, budget)
      case Passed(right) => Passed(FirstKeyOf(idx, right))
      case Rejected => Rejected
      case OutOfBudget => OutOfBudget
  }

  /** The key bt_target_page_check compares with the high key. */
  function HighCheckKey(idx: Index, item: Item): Key {
    if item.kind.Posting? then MaxKeyOf(idx.schema, item) else KeyOf(idx.schema, item)
  }

  /** The page's high key bounds the item. */
  predicate BelowHighKey(idx: Index, page: Page, item: Item) {
    page.Rightmost() ||
    (page.Has(P_HIKEY) &&
     if page.leaf then InvariantLeq(idx.schema, HighCheckKey(idx, item), page.At(P_HIKEY))
     else InvariantL(idx.schema, HighCheckKey(idx, item), page.At(P_HIKEY), false))
  }

  /** The checks of one item that is not negative infinity, except those of the neighbouring pages. */
  predicate ItemPasses(idx: Index, page: Page, offset: nat)
    requires page.Has(offset)
  {
    var item := page.At(offset);
    && (item.kind.Posting? ==> PostingOrdered(item))
    && BelowHighKey(idx, page, item)
    && (page.Has(offset + 1) ==>
        InvariantL(idx.schema, KeyOf(idx.schema, item), page.At(offset + 1), page.NonPivot(offset + 1)))
  }

  /** The check of the last item against the page to the right. */
  function LastItemRule(idx: Index, page: Page, offset: nat, budget: nat): Outcome<bool>
    requires page.Has(offset)
  {
    if offset != page.MaxOffset() then Passed(true)
    else
      match RightKey(idx, page, budget)
      case Passed(None) => Passed(true)
      case Passed(Some(key)) => if InvariantG(idx.schema, key, page.At(offset)) then Passed(true) else Rejected
      case Rejected => Rejected
      case OutOfBudget => OutOfBudget
  }

  // ----- downlinks

  /** The leaf that a chain of first downlinks ends in, levels going down by one. */
  function FirstLeafUnder(idx: Index, blk: Block, level: nat): Option<Page>
    decreases level
  {
    match Load(idx, blk)
    case None => None
    case Some(page) =>
      if page.leaf then Some(page)
      else if page.level + 1 == level && page.Has(page.FirstDataKey()) then
        FirstLeafUnder(idx, page.At(page.FirstDataKey()).downlink, page.level)
      else None
  }

  /** bt_downlink_missing_check accepts that no downlink leads to the page. */
  predicate MayLackDownlink(idx: Index, rightSplit: bool, blk: Block, page: Page) {
    page.root || rightSplit ||
    (!page.leaf && page.Has(page.FirstDataKey()) &&
     match FirstLeafUnder(idx, page.At(page.FirstDataKey()).downlink, page.level)
     case None => false
     case Some(leaf) =>
       !leaf.deleted && leaf.halfDead && !leaf.Rightmost() && leaf.Has(P_HIKEY) && leaf.At(P_HIKEY).downlink == blk)
  }

  function DownlinkAt(target: Page, offset: nat): Block
    requires offset == 0 || target.Has(offset)
  {
    if offset == 0 then P_NONE else target.At(offset).downlink
  }

  /** The parent key that must match a child's high key. */
  function PivotFor(target: Target, offset: nat): Option<Item> {
    var page := target.page;
    if page.NegativeInfinity(offset) then target.lowkey
    else if offset > page.MaxOffset() then
      if page.Rightmost() || !page.Has(P_HIKEY) then None else Some(page.At(P_HIKEY))
    else if offset == 0 then None
    else Some(page.At(offset))
  }

  /** bt_pivot_tuple_identical: equal in all but the block number. */
  predicate Identical(a: Item, b: Item) {
    a.(downlink := 0) == b.(downlink := 0)
  }

  predicate HighKeyMatches(target: Target, offset: nat, atDownlink: bool, page: Page) {
    page.incompleteSplit || page.Rightmost() ||
    (page.Has(P_HIKEY) &&
     match PivotFor(target, if atDownlink then offset + 1 else offset)
     case None => false
     case Some(pivot) => Identical(page.At(P_HIKEY), pivot))
  }

  /** The checks bt_child_highkey_check makes of one page on the child level. */
  ghost predicate ChildPagePasses(idx: Index, target: Target, offset: nat, conn: Connection,
                                  blk: Block, page: Page, rightSplit: bool, first: bool)
    requires offset == 0 || target.page.Has(offset)
  {
    var downlink := DownlinkAt(target.page, offset);
    && (first && conn.prevRight == INVALID_BLOCK ==> Leftmost(idx, blk, page.prev))
    && (!page.deleted || page.hasFullXid ==> page.level + 1 == target.page.level)
    && !(!first && blk == conn.prevRight) && blk != page.prev
    && (blk != downlink && !page.Ignore() ==> MayLackDownlink(idx, rightSplit, blk, page))
    && HighKeyMatches(target, offset, blk == downlink, page)
  }

  /** The loop of bt_child_highkey_check from block `blk` on. */
  ghost function ChildWalk(idx: Index, target: Target, offset: nat, conn: Connection,
                           blk: Block, rightSplit: bool, first: bool, budget: nat): Outcome<Connection>
    requires offset == 0 || target.page.Has(offset)
    decreases budget
  {
    var downlink := DownlinkAt(target.page, offset);
    if blk == P_NONE then
      if downlink == P_NONE then Passed(NO_CONNECTION) else Rejected
    else if Load(idx, blk).None? then Rejected
    else
      var page := Load(idx, blk).value;
      if !ChildPagePasses(idx, target, offset, conn, blk, page, rightSplit, first) then Rejected
      else if blk == downlink then Passed(Connection(page.next, page.incompleteSplit))
      else if budget == 0 then OutOfBudget
      else ChildWalk(idx, target, offset, conn, page.next, page.incompleteSplit, false, budget - 1)
  }

  /** bt_child_highkey_check; offset zero is the final call of a level. */
  ghost function HighkeyRule(idx: Index, target: Target, offset: nat, conn: Connection, budget: nat):
      Outcome<Connection>
    requires offset == 0 || target.page.Has(offset)
  {
    if conn.prevRight == INVALID_BLOCK then
      ChildWalk(idx, target, offset, conn, DownlinkAt(target.page, offset), false, true, budget)
    else
      ChildWalk(idx, target, offset, conn, conn.prevRight, conn.incomplete, true, budget)
  }

  /** A downlink's key is strictly below every item of its child. */
  predicate LowerBound(schema: Schema, key: Key, child: Page)
    requires |key.attrs| <= schema.KeyCount()
  {
    forall o: nat | child.FirstReal() <= o <= child.MaxOffset() ::
        InvariantL(schema, key, child.At(o), child.NonPivot(o))
  }

  /** bt_child_check. */
  ghost function ChildRule(idx: Index, target: Target, offset: nat, conn: Connection, budget: nat): Outcome<Connection>
    requires target.page.Has(offset)
  {
    match Load(idx, DownlinkAt(target.page, offset))
    case None => Rejected
    case Some(child) =>
      match HighkeyRule(idx, target, offset, conn, budget)
      case Rejected => Rejected
      case OutOfBudget => OutOfBudget
      case Passed(after) =>
        if !child.deleted && LowerBound(idx.schema, KeyOf(idx.schema, target.page.At(offset)), child) then Passed(after)
        else Rejected
  }

  // ----- one page

  /** One iteration of bt_target_page_check's loop. */
  ghost function OffsetRule(idx: Index, target: Target, offset: nat, conn: Connection, budget: nat): Outcome<Connection>
    requires target.page.Has(offset)
  {
    var page := target.page;
    if !CheckNatts(idx.schema, page, offset) then Rejected
    else if page.NegativeInfinity(offset) then HighkeyRule(idx, target, offset, conn, budget)
    else if !ItemPasses(idx, page, offset) then Rejected
    else
      match LastItemRule(idx, page, offset, budget)
      case Rejected => Rejected
      case OutOfBudget => OutOfBudget
      case Passed(_) => if page.leaf then Passed(conn) else ChildRule(idx, target, offset, conn, budget)
  }

  /** The rest of bt_target_page_check, from an offset on. */
  ghost function OffsetsRule(idx: Index, target: Target, offset: nat, conn: Connection, budget: nat):
      Outcome<Connection>
    requires offset > 0
    decreases target.page.MaxOffset() - offset
  {
    if offset > target.page.MaxOffset() then
      if !target.page.leaf && target.page.Rightmost() then HighkeyRule(idx, target, 0, conn, budget) else Passed(conn)
    else
      match OffsetRule(idx, target, offset, conn, budget)
      case Rejected => Rejected
      case OutOfBudget => OutOfBudget
      case Passed(after) => OffsetsRule(idx, target, offset + 1, after, budget)
  }

  /** bt_target_page_check. */
  ghost function TargetRule(idx: Index, target: Target, conn: Connection, budget: nat): Outcome<Connection> {
    if !target.page.Rightmost() &&
        !(target.page.Has(P_HIKEY) && CheckNatts(idx.schema, target.page, P_HIKEY)) then Rejected
    else OffsetsRule(idx, target, target.page.FirstDataKey(), conn, budget)
  }

  // ----- one level

  /** Where a level starts; INVALID_BLOCK while no live page has been seen. */
  datatype Level = Level(leftmost: Block, level: nat)

  const NO_LEVEL := Level(INVALID_BLOCK, 0)

  datatype LevelState = LevelState(current: Block, left: Block, down: Level, conn: Connection, lowkey: Option<Item>)

  function LevelStart(level: Level): LevelState {
    LevelState(level.leftmost, P_NONE, NO_LEVEL, NO_CONNECTION, None)
  }

  /** The next level down, read from the first live page of a level. */
  function DownFrom(page: Page): Level
    requires page.Sane() && !page.Ignore()
  {
    if page.leaf then Level(P_NONE, 0) else Level(page.At(page.FirstDataKey()).downlink, page.level - 1)
  }

  /** The checks of the first live page of a level. */
  ghost predicate FirstPagePasses(idx: Index, blk: Block, page: Page, isRoot: bool) {
    Leftmost(idx, blk, page.prev) && (isRoot ==> page.root)
  }

  /** What is left of the state after the page at `current`. */
  function Advance(st: LevelState, page: Page, down: Level, conn: Connection): LevelState
    requires !page.Rightmost() ==> page.Has(P_HIKEY)
  {
    LevelState(page.next, st.current, down, conn, if page.Rightmost() then None else Some(page.At(P_HIKEY)))
  }

  /** One iteration of bt_check_level_from_leftmost. */
  ghost function PageRule(idx: Index, level: nat, isRoot: bool, st: LevelState, budget: nat): Outcome<LevelState> {
    if Load(idx, st.current).None? then Rejected
    else
      var page := Load(idx, st.current).value;
      var circular := st.current == st.left || st.current == page.prev;
      if page.Ignore() then
        if page.deleted || page.Rightmost() || circular then Rejected
        else Passed(Advance(st, page, st.down, st.conn))
      else if st.down.leftmost == INVALID_BLOCK && !FirstPagePasses(idx, st.current, page, isRoot) then Rejected
      else if (page.prev != st.left && st.left != P_NONE) || page.level != level then Rejected
      else
        match TargetRule(idx, Target(page, st.lowkey), st.conn, budget)
        case Rejected => Rejected
        case OutOfBudget => OutOfBudget
        case Passed(conn) =>
          if circular then Rejected
          else Passed(Advance(st, page, if st.down.leftmost == INVALID_BLOCK then DownFrom(page) else st.down, conn))
  }

  /** The level a passing level walk found below level `level`, if any, is numbered one less. */
  predicate DownOk(level: nat, down: Level) {
    down.leftmost == INVALID_BLOCK || down.leftmost == P_NONE || down.level + 1 == level
  }

  /** bt_check_level_from_leftmost from a state on. */
  ghost function LevelRule(idx: Index, level: nat, isRoot: bool, st: LevelState, budget: nat, fuel: nat):
      (r: Outcome<Level>)
    requires DownOk(level, st.down)
    ensures r.Passed? ==> DownOk(level, r.value)
    decreases fuel
  {
    match PageRule(idx, level, isRoot, st, budget)
    case Rejected => Rejected
    case OutOfBudget => OutOfBudget
    case Passed(after) =>
      if after.current == P_NONE then Passed(after.down)
      else if fuel == 0 then OutOfBudget
      else LevelRule(idx, level, isRoot, after, budget, fuel - 1)
  }

  // ----- every level

  /** bt_check_every_level: the number of levels verified. */
  ghost function LevelsRule(idx: Index, level: Level, isRoot: bool, budget: nat): Outcome<nat>
    decreases level.level
  {
    if level.leftmost == P_NONE then Passed(0)
    else
      match LevelRule(idx, level.level, isRoot, LevelStart(level), budget, budget)
      case Rejected => Rejected
      case OutOfBudget => OutOfBudget
      case Passed(down) =>
        if down.leftmost == INVALID_BLOCK then Rejected
        else if down.leftmost == P_NONE then Passed(1)
        else
          match LevelsRule(idx, down, false, budget)
          case Passed(rounds) => Passed(rounds + 1)
          case Rejected => Rejected
          case OutOfBudget => OutOfBudget
  }

  ghost function CheckRule(idx: Index, budget: nat): Outcome<nat> {
    LevelsRule(idx, Level(idx.root, idx.rootLevel), true, budget)
  }
}
