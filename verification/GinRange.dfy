/**
 Range queries on a GIN index over an ordinary ordered type: the query is
 turned into a starting key and a comparison that says match, skip or stop,
 and the index is scanned forward from the starting key.
 */
module GinRange {
  import opened Prelude

  type Comparator<!K> = (K, K) -> int

  /** `cmp` is the sign function of a total preorder. */
  ghost predicate TotalOrder<K(!new)>(cmp: Comparator<K>) {
    && (forall a, b :: cmp(a, b) < 0 <==> cmp(b, a) > 0)
    && (forall a, b, c :: cmp(a, b) <= 0 && cmp(b, c) <= 0 ==> cmp(a, c) <= 0)
  }

  /** Distinct keys in index order. */
  ghost predicate Sorted<K>(cmp: Comparator<K>, keys: seq<K>) {
    forall i, j :: 0 <= i < j < |keys| ==> cmp(keys[i], keys[j]) < 0
  }

  /** The strategy numbers of a btree operator class. */
  const LESS := 1
  const LESS_EQUAL := 2
  const EQUAL := 3
  const GREATER_EQUAL := 4
  const GREATER := 5

  predicate Recognized(strategy: nat) {
    LESS <= strategy <= GREATER
  }

  /** The operator a strategy stands for: `key op query`. */
  predicate Satisfies<K>(cmp: Comparator<K>, strategy: nat, query: K, key: K) {
    match strategy
    case LESS => cmp(key, query) < 0
    case LESS_EQUAL => cmp(key, query) <= 0
    case EQUAL => cmp(key, query) == 0
    case GREATER_EQUAL => cmp(key, query) >= 0
    case GREATER => cmp(key, query) > 0
    case _ => false
  }

  function Satisfying<K>(cmp: Comparator<K>, strategy: nat, query: K): K -> bool {
    (key: K) => Satisfies(cmp, strategy, query, key)
  }

  /** What a query extracts to. */
  datatype Extracted<K> = Extracted(entry: K, partialMatch: bool, strategy: nat, datum: K)

  function ExtractQuery<K>(leftmost: K, query: K, strategy: nat): Option<Extracted<K>> {
    match strategy
    case LESS => Some(Extracted(leftmost, true, strategy, query))
    case LESS_EQUAL => Some(Extracted(leftmost, true, strategy, query))
    case GREATER_EQUAL => Some(Extracted(query, true, strategy, query))
    case GREATER => Some(Extracted(query, true, strategy, query))
    case EQUAL => Some(Extracted(query, false, strategy, query))
    case _ => None
  }

  /** 0 is a match, negative means skip, positive means stop. */
  function ComparePrefix<K>(cmp: Comparator<K>, x: Extracted<K>, key: K): int {
    var c := cmp(if x.strategy == LESS || x.strategy == LESS_EQUAL then x.datum else x.entry, key);
    match x.strategy
    case LESS => if c > 0 then 0 else 1
    case LESS_EQUAL => if c >= 0 then 0 else 1
    case EQUAL => if c != 0 then 1 else 0
    case GREATER_EQUAL => if c <= 0 then 0 else 1
    case GREATER => if c < 0 then 0 else if c == 0 then -1 else 1
    case _ => 0
  }

  lemma StrictRight<K(!new)>(cmp: Comparator<K>, a: K, b: K, c: K)
    requires TotalOrder(cmp)
    requires cmp(a, b) <= 0 && cmp(b, c) < 0
    ensures cmp(a, c) < 0
  {
    assert cmp(c, a) <= 0 ==> cmp(c, b) <= 0;
  }

  /** Locate the first key at or above the starting key. */
  method FindItem<K(!new)>(cmp: Comparator<K>, keys: seq<K>, entry: K) returns (off: nat)
    requires TotalOrder(cmp) && Sorted(cmp, keys)
    ensures off <= |keys|
    ensures forall i :: 0 <= i < off ==> cmp(keys[i], entry) < 0
    ensures off < |keys| ==> cmp(keys[off], entry) >= 0
    ensures forall i :: off < i < |keys| ==> cmp(keys[i], entry) > 0
  {
    off := 0;
    while off < |keys| && cmp(keys[off], entry) < 0
      invariant off <= |keys|
      invariant forall i :: 0 <= i < off ==> cmp(keys[i], entry) < 0
    {
      off := off + 1;
    }
    forall i | off < i < |keys|
      ensures cmp(keys[i], entry) > 0
    {
      StrictRight(cmp, entry, keys[off], keys[i]);
    }
  }

  /** Does the scan's starting point exclude the key? */
  predicate AtOrAboveStart<K>(cmp: Comparator<K>, leftmost: K, strategy: nat, key: K) {
    strategy == LESS || strategy == LESS_EQUAL ==> cmp(key, leftmost) >= 0
  }

  function Found<K>(cmp: Comparator<K>, leftmost: K, strategy: nat, query: K): K -> bool {
    (key: K) => Satisfies(cmp, strategy, query, key) && AtOrAboveStart(cmp, leftmost, strategy, key)
  }

  /**
   The partial-match scan: from `start`, collect on 0, skip on a negative and
   stop at a positive result.  It is a filter when 0 means wanted and nothing
   wanted follows a stopping key.
   */
  method Collect<K>(compare: K -> int, keys: seq<K>, start: nat, ghost wanted: K -> bool) returns (hits: seq<K>)
    requires start <= |keys|
    requires forall i :: 0 <= i < start ==> !wanted(keys[i])
    requires forall i :: start <= i < |keys| ==> (compare(keys[i]) == 0 <==> wanted(keys[i]))
    requires forall i, j :: start <= i <= j < |keys| && compare(keys[i]) > 0 ==> !wanted(keys[j])
    ensures hits == Filter(wanted, keys)
  {
    hits := [];
    FilterNone(wanted, keys[..start]);
    var off := start;
    while off < |keys|
      invariant start <= off <= |keys|
      invariant hits == Filter(wanted, keys[..off])
    {
      var cmp := compare(keys[off]);
      if cmp > 0 {
        break;
      }
      assert keys[..off + 1][..off] == keys[..off];
      if cmp == 0 {
        hits := hits + [keys[off]];
      }
      off := off + 1;
    }
    FilterPrefix(wanted, keys, off);
  }

  /**
   The whole scan.  Whatever the leftmost value, it returns the satisfying keys
   at or above its starting point, in index order.
   */
  method Scan<K(!new)>(cmp: Comparator<K>, leftmost: K, keys: seq<K>, query: K, strategy: nat)
    returns (r: Option<seq<K>>)
    requires TotalOrder(cmp) && Sorted(cmp, keys)
    ensures r.Some? <==> Recognized(strategy)
    ensures r.Some? ==> r.value == Filter(Found(cmp, leftmost, strategy, query), keys)
  {
    var extracted := ExtractQuery(leftmost, query, strategy);
    if extracted.None? {
      return None;
    }
    var x := extracted.value;
    var off := FindItem(cmp, keys, x.entry);
    BelowStart(cmp, leftmost, query, strategy, keys, off);
    if x.partialMatch {
      FromStart(cmp, leftmost, query, strategy, keys, off);
      var hits := Collect((key: K) => ComparePrefix(cmp, x, key), keys, off, Found(cmp, leftmost, strategy, query));
      r := Some(hits);
    } else {
      EqualIsOne(cmp, leftmost, query, keys, off);
      r := Some(if off < |keys| && cmp(keys[off], x.entry) == 0 then [keys[off]] else []);
    }
  }

  lemma BelowStart<K(!new)>(cmp: Comparator<K>, leftmost: K, query: K, strategy: nat, keys: seq<K>, off: nat)
    requires Recognized(strategy) && off <= |keys|
    requires forall i :: 0 <= i < off ==> cmp(keys[i], ExtractQuery(leftmost, query, strategy).value.entry) < 0
    ensures forall i :: 0 <= i < off ==> !Found(cmp, leftmost, strategy, query)(keys[i])
  {
  }

  /** From the starting point on, the comparison tells found keys and the end of the range. */
  lemma FromStart<K(!new)>(cmp: Comparator<K>, leftmost: K, query: K, strategy: nat, keys: seq<K>, off: nat)
    requires TotalOrder(cmp) && Sorted(cmp, keys) && Recognized(strategy) && strategy != EQUAL && off <= |keys|
    requires forall i :: off <= i < |keys| ==> cmp(keys[i], ExtractQuery(leftmost, query, strategy).value.entry) >= 0
    ensures var x, found := ExtractQuery(leftmost, query, strategy).value, Found(cmp, leftmost, strategy, query);
            && (forall i :: off <= i < |keys| ==> (ComparePrefix(cmp, x, keys[i]) == 0 <==> found(keys[i])))
            && (forall i, j :: off <= i <= j < |keys| && ComparePrefix(cmp, x, keys[i]) > 0 ==> !found(keys[j]))
  {
    var x, found := ExtractQuery(leftmost, query, strategy).value, Found(cmp, leftmost, strategy, query);
    forall i | off <= i < |keys|
      ensures ComparePrefix(cmp, x, keys[i]) == 0 <==> found(keys[i])
      ensures ComparePrefix(cmp, x, keys[i]) > 0 ==>
                cmp(query, keys[i]) <= 0 && (strategy == LESS || cmp(query, keys[i]) < 0)
    {
      ComparePrefixMeaning(cmp, leftmost, query, strategy, keys[i]);
    }
    forall i, j | off <= i < j < |keys| && ComparePrefix(cmp, x, keys[i]) > 0
      ensures !found(keys[j])
    {
      StrictRight(cmp, query, keys[i], keys[j]);
      ComparePrefixMeaning(cmp, leftmost, query, strategy, keys[i]);
    }
  }

  lemma ComparePrefixMeaning<K(!new)>(cmp: Comparator<K>, leftmost: K, query: K, strategy: nat, key: K)
    requires TotalOrder(cmp) && Recognized(strategy) && strategy != EQUAL
    requires cmp(key, ExtractQuery(leftmost, query, strategy).value.entry) >= 0
    ensures var x := ExtractQuery(leftmost, query, strategy).value;
            && (ComparePrefix(cmp, x, key) == 0 <==> Found(cmp, leftmost, strategy, query)(key))
            && (ComparePrefix(cmp, x, key) > 0 ==>
                  && (strategy == LESS || strategy == LESS_EQUAL)
                  && cmp(query, key) <= 0 && (strategy == LESS || cmp(query, key) < 0))
  {
    assert cmp(key, query) < 0 <==> cmp(query, key) > 0;
    assert cmp(query, key) < 0 <==> cmp(key, query) > 0;
  }

  lemma EqualIsOne<K(!new)>(cmp: Comparator<K>, leftmost: K, query: K, keys: seq<K>, off: nat)
    requires off <= |keys|
    requires forall i :: 0 <= i < |keys| && i != off ==> cmp(keys[i], query) != 0
    ensures Filter(Found(cmp, leftmost, EQUAL, query), keys)
         == if off < |keys| && cmp(keys[off], query) == 0 then [keys[off]] else []
  {
    var found := Found(cmp, leftmost, EQUAL, query);
    FilterNone(found, keys[..off]);
    if off < |keys| {
      FilterPrefix(found, keys, off + 1);
      assert keys[..off + 1][..off] == keys[..off];
    } else {
      assert keys[..off] == keys;
    }
  }

  /**
   The scan is the plain filter exactly when no satisfying key lies below the
   type's leftmost value; only the two downward strategies depend on it.
   */
  lemma ScanIsFilter<K(!new)>(cmp: Comparator<K>, leftmost: K, keys: seq<K>, query: K, strategy: nat)
    requires TotalOrder(cmp) && Sorted(cmp, keys) && Recognized(strategy)
    ensures Filter(Found(cmp, leftmost, strategy, query), keys) == Filter(Satisfying(cmp, strategy, query), keys)
       <==> forall i :: 0 <= i < |keys| && Satisfies(cmp, strategy, query, keys[i])
                        ==> AtOrAboveStart(cmp, leftmost, strategy, keys[i])
  {
    var found, satisfying := Found(cmp, leftmost, strategy, query), Satisfying(cmp, strategy, query);
    if forall i :: 0 <= i < |keys| && satisfying(keys[i]) ==> AtOrAboveStart(cmp, leftmost, strategy, keys[i]) {
      FilterAgree(found, satisfying, keys);
    } else {
      var i :| 0 <= i < |keys| && satisfying(keys[i]) && !AtOrAboveStart(cmp, leftmost, strategy, keys[i]);
      FilterMember(found, keys, keys[i]);
      FilterMember(satisfying, keys, keys[i]);
    }
  }

  // ----- comparators with an artificial leftmost value

  /** gin_numeric_cmp: the null pointer is below every number. */
  function NumericCmp<N>(base: Comparator<N>, a: Option<N>, b: Option<N>): int {
    if a.None? then if b.None? then 0 else -1
    else if b.None? then 1
    else base(a.value, b.value)
  }

  /** gin_enum_cmp: InvalidOid (0) is below every label. */
  function EnumCmp(base: Comparator<nat>, a: nat, b: nat): int {
    if a == 0 then if b == 0 then 0 else -1
    else if b == 0 then 1
    else base(a, b)
  }

  function NumericComparator<N>(base: Comparator<N>): Comparator<Option<N>> {
    (a: Option<N>, b: Option<N>) => NumericCmp(base, a, b)
  }

  function EnumComparator(base: Comparator<nat>): Comparator<nat> {
    (a: nat, b: nat) => EnumCmp(base, a, b)
  }

  /** `base` orders the labels, which are all the values but InvalidOid. */
  ghost predicate OrdersLabels(base: Comparator<nat>) {
    && (forall a, b :: a != 0 && b != 0 ==> (base(a, b) < 0 <==> base(b, a) > 0))
    && (forall a, b, c :: a != 0 && b != 0 && c != 0 && base(a, b) <= 0 && base(b, c) <= 0 ==> base(a, c) <= 0)
  }

  lemma NumericOrder<N(!new)>(base: Comparator<N>)
    requires TotalOrder(base)
    ensures TotalOrder(NumericComparator(base))
    ensures forall k: Option<N> :: NumericCmp(base, k, None) >= 0
  {
  }

  lemma EnumOrder(base: Comparator<nat>)
    requires OrdersLabels(base)
    ensures TotalOrder(EnumComparator(base))
    ensures forall k: nat :: EnumCmp(base, k, 0) >= 0
  {
  }

  /** With the artificial leftmost value the scan is the plain filter, for every strategy. */
  method NumericScan<N(!new)>(base: Comparator<N>, keys: seq<Option<N>>, query: Option<N>, strategy: nat)
    returns (r: Option<seq<Option<N>>>)
    requires TotalOrder(base) && Sorted(NumericComparator(base), keys)
    ensures r.Some? <==> Recognized(strategy)
    ensures r.Some? ==> r.value == Filter(Satisfying(NumericComparator(base), strategy, query), keys)
  {
    NumericOrder(base);
    var cmp := NumericComparator(base);
    r := Scan(cmp, None, keys, query, strategy);
    FilterAgree(Found(cmp, None, strategy, query), Satisfying(cmp, strategy, query), keys);
  }

  method EnumScan(base: Comparator<nat>, keys: seq<nat>, query: nat, strategy: nat) returns (r: Option<seq<nat>>)
    requires OrdersLabels(base) && Sorted(EnumComparator(base), keys)
    ensures r.Some? <==> Recognized(strategy)
    ensures r.Some? ==> r.value == Filter(Satisfying(EnumComparator(base), strategy, query), keys)
  {
    EnumOrder(base);
    var cmp := EnumComparator(base);
    r := Scan(cmp, 0, keys, query, strategy);
    FilterAgree(Found(cmp, 0, strategy, query), Satisfying(cmp, strategy, query), keys);
  }
}
