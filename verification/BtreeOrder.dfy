/**
 Keys of a B-tree whose heap TID is a tiebreaker key column.  Pivot tuples may
 be truncated: missing trailing columns, the heap TID last of all, stand for
 minus infinity.
 */
module BtreeOrder {
  import opened Prelude

  /** A heap TID, ordered as item pointers are. */
  type Tid = int
  type Block = nat

  /** `rank` is what the operator class compares, `image` the exact representation. */
  datatype Attr = Null | Value(rank: int, image: int)

  datatype Column = Column(nullsFirst: bool, descending: bool)

  /** Key columns, and how many columns a complete tuple has in all. */
  datatype Schema = Schema(columns: seq<Column>, natts: nat) {
    function KeyCount(): nat {
      |columns|
    }
  }

  datatype Kind = Pivot | Plain | Posting

  /** `tids`: none or one in a pivot, one in a plain tuple, all of a posting list. */
  datatype Item = Item(kind: Kind, attrs: seq<Attr>, tids: seq<Tid>, downlink: Block) {
    function HeapTid(): Option<Tid> {
      if tids == [] then None else Some(tids[0])
    }

    function MaxHeapTid(): Option<Tid> {
      if tids == [] then None else Some(tids[|tids| - 1])
    }
  }

  /** An insertion scan key set up for pivot searches. */
  datatype Key = Key(attrs: seq<Attr>, tid: Option<Tid>)

  function Min(a: nat, b: nat): nat {
    if a < b then a else b
  }

  function KeyOf(schema: Schema, item: Item): Key {
    Key(item.attrs[..Min(schema.KeyCount(), |item.attrs|)], item.HeapTid())
  }

  // ----- the comparison routine

  function CompareAttr(column: Column, key: Attr, item: Attr): int {
    if key.Null? then
      if item.Null? then 0 else if column.nullsFirst then -1 else 1
    else if item.Null? then
      if column.nullsFirst then 1 else -1
    else
      var result := if item.rank < key.rank then -1 else if item.rank > key.rank then 1 else 0;
      if column.descending then result else -result
  }

  /** The first nonzero column comparison from column `i` on, over `n` columns. */
  function CompareAttrs(columns: seq<Column>, key: seq<Attr>, item: seq<Attr>, i: nat, n: nat): int
    requires i <= n <= |columns| && n <= |key| && n <= |item|
    decreases n - i
  {
    if i == n then 0
    else
      var result := CompareAttr(columns[i], key[i], item[i]);
      if result != 0 then result else CompareAttrs(columns, key, item, i + 1, n)
  }

  /** _bt_compare for a pivot search, away from a page's negative-infinity item. */
  function Compare(schema: Schema, key: Key, item: Item): int
    requires |key.attrs| <= schema.KeyCount()
  {
    var result := CompareAttrs(schema.columns, key.attrs, item.attrs, 0, Min(|key.attrs|, |item.attrs|));
    if result != 0 then result
    else if |key.attrs| > |item.attrs| then 1
    else if key.tid.None? then 0
    else if item.HeapTid().None? then 1
    else if key.tid.value <= item.HeapTid().value || !item.kind.Posting? then key.tid.value - item.HeapTid().value
    else if key.tid.value > item.MaxHeapTid().value then 1
    else 0
  }

  /** BTreeTupleGetHeapTIDCareful raises no error. */
  predicate TidCareful(item: Item, nonPivot: bool) {
    item.kind.Pivot? != nonPivot && (nonPivot ==> item.HeapTid().Some?)
  }

  /** invariant_l_offset and invariant_l_nontarget_offset: strictly less, completing truncated keys. */
  predicate InvariantL(schema: Schema, key: Key, item: Item, nonPivot: bool)
    requires |key.attrs| <= schema.KeyCount()
  {
    var cmp := Compare(schema, key, item);
    if cmp == 0 then
      var upper := Min(schema.KeyCount(), |item.attrs|);
      TidCareful(item, nonPivot) &&
      if |key.attrs| == upper then key.tid.None? && item.HeapTid().Some? else |key.attrs| < upper
    else cmp < 0
  }

  predicate InvariantLeq(schema: Schema, key: Key, item: Item)
    requires |key.attrs| <= schema.KeyCount()
  {
    Compare(schema, key, item) <= 0
  }

  predicate InvariantG(schema: Schema, key: Key, item: Item)
    requires |key.attrs| <= schema.KeyCount()
  {
    Compare(schema, key, item) > 0
  }

  // ----- the order they are meant to decide

  /** One padded key column; values are ordered by group, then position. */
  datatype Cell = MinusInfinity | Finite(group: int, position: int)

  predicate CellLess(a: Cell, b: Cell) {
    b.Finite? && (a.Finite? ==> a.group < b.group || (a.group == b.group && a.position < b.position))
  }

  function CellOf(column: Column, a: Attr): Cell {
    match a
    case Null => Finite(if column.nullsFirst then 0 else 2, 0)
    case Value(rank, _) => Finite(1, if column.descending then -rank else rank)
  }

  /** Column `p` of a key padded with minus infinity; the heap TID is the last column. */
  function At(schema: Schema, k: Key, p: nat): Cell {
    if p < schema.KeyCount() then
      if p < |k.attrs| then CellOf(schema.columns[p], k.attrs[p]) else MinusInfinity
    else
      match k.tid { case Some(tid) => Finite(1, tid) case None => MinusInfinity }
  }

  ghost predicate SameUpTo(schema: Schema, a: Key, b: Key, p: nat) {
    forall q: nat | q < p :: At(schema, a, q) == At(schema, b, q)
  }

  ghost predicate LessAt(schema: Schema, a: Key, b: Key, p: nat) {
    SameUpTo(schema, a, b, p) && CellLess(At(schema, a, p), At(schema, b, p))
  }

  /** Strict lexicographic order of padded keys. */
  ghost predicate Less(schema: Schema, a: Key, b: Key) {
    exists p: nat :: p <= schema.KeyCount() && LessAt(schema, a, b, p)
  }

  /** Equal in every padded column. */
  ghost predicate Same(schema: Schema, a: Key, b: Key) {
    SameUpTo(schema, a, b, schema.KeyCount() + 1)
  }

  /** A heap TID is present only in a complete key. */
  predicate KeyOk(schema: Schema, k: Key) {
    |k.attrs| <= schema.KeyCount() && (k.tid.Some? ==> |k.attrs| == schema.KeyCount())
  }

  /** Only a posting list holds several heap TIDs, lowest first; a heap TID needs every key column. */
  predicate ItemOk(schema: Schema, item: Item) {
    && (item.tids != [] ==> schema.KeyCount() <= |item.attrs|)
    && (!item.kind.Posting? ==> |item.tids| <= 1)
    && (item.tids != [] ==> item.tids[0] <= item.tids[|item.tids| - 1])
  }

  /** The key of an item's highest heap TID. */
  function MaxKeyOf(schema: Schema, item: Item): Key {
    KeyOf(schema, item).(tid := item.MaxHeapTid())
  }

  lemma LessIrreflexive(schema: Schema, a: Key)
    ensures !Less(schema, a, a)
  {
  }

  lemma LessTransitive(schema: Schema, a: Key, b: Key, c: Key)
    requires Less(schema, a, b) && Less(schema, b, c)
    ensures Less(schema, a, c)
  {
    var p: nat :| p <= schema.KeyCount() && LessAt(schema, a, b, p);
    var q: nat :| q <= schema.KeyCount() && LessAt(schema, b, c, q);
    var m := Min(p, q);
    assert LessAt(schema, a, c, m);
  }

  lemma LessAsymmetric(schema: Schema, a: Key, b: Key)
    requires Less(schema, a, b)
    ensures !Less(schema, b, a) && !Same(schema, a, b)
  {
    if Less(schema, b, a) {
      LessTransitive(schema, a, b, a);
      LessIrreflexive(schema, a);
    }
    var p: nat :| p <= schema.KeyCount() && LessAt(schema, a, b, p);
    assert At(schema, a, p) != At(schema, b, p);
  }

  /** Two padded keys are in order one way or the other unless all columns agree. */
  lemma {:induction false} LessTotal(schema: Schema, a: Key, b: Key, p: nat)
    requires p <= schema.KeyCount() + 1 && SameUpTo(schema, a, b, p)
    ensures Less(schema, a, b) || Less(schema, b, a) || Same(schema, a, b)
    decreases schema.KeyCount() + 1 - p
  {
    if p <= schema.KeyCount() {
      if At(schema, a, p) == At(schema, b, p) {
        LessTotal(schema, a, b, p + 1);
      } else {
        assert LessAt(schema, a, b, p) || LessAt(schema, b, a, p);
      }
    }
  }

  /** A key that is not above `n` is below whatever `n` is below. */
  lemma NotAboveBelow(schema: Schema, n: Key, a: Key, b: Key)
    requires !Less(schema, n, a) && Less(schema, n, b)
    ensures Less(schema, a, b)
  {
    LessTotal(schema, a, n, 0);
    if Less(schema, a, n) {
      LessTransitive(schema, a, n, b);
    } else {
      var p: nat :| p <= schema.KeyCount() && LessAt(schema, n, b, p);
      assert LessAt(schema, a, b, p);
    }
  }

  // ----- what the checks decide

  /** Two keys that first differ at column `p` are ordered there. */
  lemma DecidedAt(schema: Schema, a: Key, b: Key, p: nat)
    requires p <= schema.KeyCount() && SameUpTo(schema, a, b, p) && At(schema, a, p) != At(schema, b, p)
    ensures Less(schema, a, b) <==> CellLess(At(schema, a, p), At(schema, b, p))
  {
    assert LessAt(schema, a, b, p) <==> CellLess(At(schema, a, p), At(schema, b, p));
    assert forall q: nat :: LessAt(schema, a, b, q) ==> q == p;
  }

  /** Where the column loop stops, and what its result says there. */
  lemma {:induction false} FirstDifference(schema: Schema, key: Key, item: Item, i: nat, n: nat) returns (p: nat)
    requires i <= n <= schema.KeyCount() && n <= |key.attrs| && n <= |item.attrs|
    requires SameUpTo(schema, key, KeyOf(schema, item), i)
    ensures i <= p <= n && SameUpTo(schema, key, KeyOf(schema, item), p)
    ensures
      var c := CompareAttrs(schema.columns, key.attrs, item.attrs, i, n);
      var a, b := At(schema, key, p), At(schema, KeyOf(schema, item), p);
      if p == n then c == 0 else c != 0 && a != b && (c < 0 <==> CellLess(a, b)) && (c > 0 <==> CellLess(b, a))
    decreases n - i
  {
    if i == n || CompareAttr(schema.columns[i], key.attrs[i], item.attrs[i]) != 0 {
      p := i;
    } else {
      p := FirstDifference(schema, key, item, i + 1, n);
    }
  }

  /**
   invariant_l_offset and invariant_l_nontarget_offset decide exactly the
   strict order of padded keys, against an item's lowest heap TID.
   */
  lemma InvariantLExact(schema: Schema, key: Key, item: Item, nonPivot: bool)
    requires KeyOk(schema, key) && ItemOk(schema, item) && TidCareful(item, nonPivot)
    ensures InvariantL(schema, key, item, nonPivot) <==> Less(schema, key, KeyOf(schema, item))
  {
    var other := KeyOf(schema, item);
    var n := Min(|key.attrs|, |item.attrs|);
    var p := FirstDifference(schema, key, item, 0, n);
    if p < n {
      DecidedAt(schema, key, other, p);
    } else if |key.attrs| != |other.attrs| {
      DecidedAt(schema, key, other, n);
    } else {
      TiesUpToTid(schema, key, other, n);
    }
  }

  /** Keys agreeing on all the columns they have are ordered by heap TID. */
  lemma TiesUpToTid(schema: Schema, a: Key, b: Key, n: nat)
    requires KeyOk(schema, a) && KeyOk(schema, b) && |a.attrs| == |b.attrs| == n && SameUpTo(schema, a, b, n)
    ensures SameUpTo(schema, a, b, schema.KeyCount())
    ensures Less(schema, a, b) <==> b.tid.Some? && (a.tid.Some? ==> a.tid.value < b.tid.value)
  {
    if At(schema, a, schema.KeyCount()) != At(schema, b, schema.KeyCount()) {
      DecidedAt(schema, a, b, schema.KeyCount());
    }
  }

  /**
   The comparison routine finds a key above an item exactly when the key is
   above the item's highest heap TID.  This is invariant_g_offset as it stands,
   and invariant_leq_offset negated.
   */
  lemma InvariantGExact(schema: Schema, key: Key, item: Item)
    requires KeyOk(schema, key) && ItemOk(schema, item)
    ensures InvariantG(schema, key, item) <==> Less(schema, MaxKeyOf(schema, item), key)
    ensures InvariantLeq(schema, key, item) <==> !Less(schema, MaxKeyOf(schema, item), key)
  {
    var low, high := KeyOf(schema, item), MaxKeyOf(schema, item);
    var n := Min(|key.attrs|, |item.attrs|);
    var p := FirstDifference(schema, key, item, 0, n);
    assert forall q: nat | q < schema.KeyCount() :: At(schema, low, q) == At(schema, high, q);
    if p < n {
      DecidedAt(schema, high, key, p);
    } else if |key.attrs| != |high.attrs| {
      DecidedAt(schema, high, key, n);
    } else {
      TiesUpToTid(schema, high, key, n);
    }
  }

  /** So invariant_g_offset is sound for the lowest heap TID as well. */
  lemma AboveMaxIsAbove(schema: Schema, key: Key, item: Item)
    requires ItemOk(schema, item) && Less(schema, MaxKeyOf(schema, item), key)
    ensures Less(schema, KeyOf(schema, item), key)
  {
    var low, high := KeyOf(schema, item), MaxKeyOf(schema, item);
    var p: nat :| p <= schema.KeyCount() && LessAt(schema, high, key, p);
    assert forall q: nat | q < schema.KeyCount() :: At(schema, low, q) == At(schema, high, q);
    assert LessAt(schema, low, key, p);
  }

  /** And exact for it except between a posting list's lowest and highest heap TIDs. */
  lemma InvariantGAgainstLowest(schema: Schema, key: Key, item: Item)
    requires KeyOk(schema, key) && ItemOk(schema, item)
    ensures InvariantG(schema, key, item) <==>
            && Less(schema, KeyOf(schema, item), key)
            && !(SameUpTo(schema, key, KeyOf(schema, item), schema.KeyCount()) && key.tid.Some? &&
                 item.tids != [] && key.tid.value <= item.MaxHeapTid().value)
  {
    InvariantGExact(schema, key, item);
    var low, high := KeyOf(schema, item), MaxKeyOf(schema, item);
    assert forall q: nat | q < schema.KeyCount() :: At(schema, low, q) == At(schema, high, q);
    if Less(schema, high, key) {
      AboveMaxIsAbove(schema, key, item);
      var p: nat :| p <= schema.KeyCount() && LessAt(schema, high, key, p);
      assert At(schema, high, p) != At(schema, key, p);
    } else if Less(schema, low, key) {
      var p: nat :| p <= schema.KeyCount() && LessAt(schema, low, key, p);
      assert p < schema.KeyCount() ==> LessAt(schema, high, key, p);
      assert p == schema.KeyCount() ==> !LessAt(schema, high, key, p);
    }
  }
}
