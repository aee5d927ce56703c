/**
 One page of a bloom index: fixed-size entries packed after the page header,
 an entry count and a deleted flag in the page's special space.
 */
module BloomPage {
  import opened Prelude
  import opened BloomSignature

  /** A heap tuple's address. */
  type Tid = nat

  /** One index entry: the heap tuple it points to and its signature. */
  datatype Entry = Entry(tid: Tid, sign: seq<Word>)

  const BLCKSZ := 8192
  const HEADER := 24
  const SPECIAL := 8
  const SIZE_T := 0x1_0000_0000_0000_0000

  /** Item pointer plus signature words, in bytes. */
  function EntrySize(words: nat): nat {
    6 + 2 * words
  }

  /** Unused bytes, in C's unsigned arithmetic. */
  function FreeSpace(words: nat, maxoff: nat): int {
    (BLCKSZ - HEADER - maxoff * EntrySize(words) - SPECIAL) % SIZE_T
  }

  function Capacity(words: nat): (cap: nat)
    ensures cap * EntrySize(words) <= BLCKSZ - HEADER - SPECIAL < (cap + 1) * EntrySize(words)
  {
    Quotient(BLCKSZ - HEADER - SPECIAL, EntrySize(words))
  }

  function Quotient(a: nat, b: nat): (q: nat)
    requires 0 < b
    ensures q * b <= a < (q + 1) * b
  {
    a / b
  }

  lemma Times(a: nat, b: nat, size: nat)
    requires a <= b
    ensures a * size <= b * size && (a + 1) * size == a * size + size
  {
  }

  /** On a page within capacity the free-space test is exact and never wraps. */
  lemma FreeSpaceExact(words: nat, maxoff: nat)
    requires maxoff <= Capacity(words)
    ensures FreeSpace(words, maxoff) == BLCKSZ - HEADER - SPECIAL - maxoff * EntrySize(words)
    ensures FreeSpace(words, maxoff) >= EntrySize(words) <==> maxoff < Capacity(words)
  {
    var room, size, cap := BLCKSZ - HEADER - SPECIAL, EntrySize(words), Capacity(words);
    Times(maxoff, cap, size);
    if maxoff < cap {
      Times(maxoff + 1, cap, size);
    }
  }

  /** Is there room for one more entry? */
  predicate HasRoom(words: nat, maxoff: nat)
    requires maxoff <= Capacity(words)
    ensures HasRoom(words, maxoff) <==> maxoff < Capacity(words)
  {
    FreeSpaceExact(words, maxoff);
    FreeSpace(words, maxoff) >= EntrySize(words)
  }

  /** Where the used part of a page with `maxoff` entries ends. */
  function PdLower(words: nat, maxoff: nat): nat {
    HEADER + maxoff * EntrySize(words)
  }

  /** An empty page always takes an entry. */
  lemma CapacityPositive(words: nat)
    requires 1 <= words <= MAX_WORDS
    ensures 15 <= Capacity(words) <= 1020
  {
    var size: int, cap: int := EntrySize(words), Capacity(words);
    assert cap < 15 ==> (cap + 1) * size <= 15 * size;
    assert 1020 < cap ==> 1021 * size <= cap * size;
  }

  /** What a page means: never initialised, or a list of entries. */
  datatype Image = New | Data(entries: seq<Entry>, deleted: bool) {
    predicate Reusable() {
      New? || deleted
    }

    /** The entries a scan sees. */
    function Live(): seq<Entry> {
      if Reusable() then [] else entries
    }

    /** Every entry physically present. */
    function Stored(): seq<Entry> {
      if New? then [] else entries
    }

    predicate Valid(words: nat) {
      Data? ==> |entries| <= Capacity(words) && (deleted ==> entries == [])
    }
  }

  /** Insertion into a page, reinitialising it first if it is reusable. */
  function Insert(words: nat, page: Image, e: Entry): Option<Image> {
    if |page.Live()| < Capacity(words) then Some(Data(page.Live() + [e], false)) else None
  }

  /** The entries that bulk deletion keeps. */
  function Survives(callback: Tid -> bool): Entry -> bool {
    (e: Entry) => !callback(e.tid)
  }

  /** Bulk deletion from an initialised, undeleted page. */
  function Vacuum(callback: Tid -> bool, page: Image): (r: Image)
    ensures page.Reusable() ==> r == page
    ensures r.Live() == Filter(Survives(callback), page.Live())
  {
    if page.Reusable() then page
    else
      var kept := Filter(Survives(callback), page.entries);
      if kept == page.entries then page else Data(kept, kept == [])
  }

  /** Would bulk deletion list the page as worth trying for insertion? */
  predicate NotFull(words: nat, page: Image) {
    0 < |page.Live()| < Capacity(words)
  }

  class Page {
    const words: nat
    const slots: array<Entry>
    var initialized: bool
    var deleted: bool
    var maxoff: nat
    var pdLower: nat

    ghost predicate Valid()
      reads this
    {
      && 1 <= words <= MAX_WORDS
      && slots.Length == Capacity(words)
      && (initialized ==>
            && maxoff <= slots.Length
            && pdLower == PdLower(words, maxoff)
            && (deleted ==> maxoff == 0))
    }

    function View(): Image
      requires Valid()
      reads this, slots
    {
      if initialized then Data(slots[..maxoff], deleted) else New
    }

    /** A zeroed block, as extending the relation leaves it. */
    constructor (words: nat)
      requires 1 <= words <= MAX_WORDS
      ensures Valid() && this.words == words && fresh(slots)
      ensures View() == New
    {
      this.words := words;
      slots := new Entry[Capacity(words)](_ => Entry(0, []));
      initialized, deleted, maxoff, pdLower := false, false, 0, 0;
    }

    method Init()
      requires Valid()
      modifies this
      ensures Valid() && View() == Data([], false)
    {
      initialized, deleted, maxoff, pdLower := true, false, 0, HEADER;
    }

    method AddItem(e: Entry) returns (added: bool)
      requires Valid() && initialized && !deleted
      modifies this, slots
      ensures Valid()
      ensures added <==> |old(View().entries)| < Capacity(words)
      ensures View() == if added then Data(old(View().entries) + [e], false) else old(View())
      ensures maxoff == |View().entries|
    {
      if !HasRoom(words, maxoff) {
        return false;
      }
      slots[maxoff] := e;
      maxoff := maxoff + 1;
      pdLower := PdLower(words, maxoff);
      return true;
    }

    /** The page part of an insertion, as both of its call sites do it. */
    method TryInsert(e: Entry) returns (added: bool)
      requires Valid()
      modifies this, slots
      ensures Valid()
      ensures added <==> Insert(words, old(View()), e).Some?
      ensures View() == if added then Insert(words, old(View()), e).value else old(View())
    {
      CapacityPositive(words);
      if !initialized || deleted {
        Init();
      }
      added := AddItem(e);
    }

    /**
     The page part of bulk deletion: survivors are moved down over deleted
     entries while the count is decremented in place.
     */
    method BulkDelete(callback: Tid -> bool) returns (removed: nat, notFull: bool)
      requires Valid()
      modifies this, slots
      ensures Valid() && View() == Vacuum(callback, old(View()))
      ensures removed + |View().Live()| == |old(View().Live())|
      ensures notFull <==> NotFull(words, View())
    {
      if !initialized || deleted {
        return 0, false;
      }
      ghost var before := slots[..maxoff];
      var end := maxoff;
      var to := Compact(Survives(callback));
      removed := end - to;
      notFull := maxoff != 0 && HasRoom(words, maxoff);
      if to != end {
        if maxoff == 0 {
          deleted := true;
        }
        pdLower := PdLower(words, to);
      } else {
        FilterWhole(Survives(callback), before);
      }
    }

    /** Copy a survivor down, unless it is in place already. */
    method MoveSlot(from: nat, to: nat)
      requires to <= from < slots.Length
      modifies slots
      ensures slots[..to + 1] == old(slots[..to]) + [old(slots[from])]
      ensures forall k | from < k < slots.Length :: slots[k] == old(slots[k])
    {
      if to != from {
        slots[to] := slots[from];
      }
    }

    /** The two-pointer loop; returns where the next survivor would go. */
    method Compact(keep: Entry -> bool) returns (to: nat)
      requires Valid() && initialized
      modifies this`maxoff, slots
      ensures to == maxoff <= old(maxoff)
      ensures slots[..maxoff] == Filter(keep, old(slots[..maxoff]))
    {
      ghost var before := slots[..maxoff];
      var end, from := maxoff, 0;
      to := 0;
      while from < end
        invariant 0 <= to <= from <= end <= slots.Length
        invariant maxoff == end - (from - to)
        invariant slots[..to] == Filter(keep, before[..from])
        invariant forall k | from <= k < end :: slots[k] == before[k]
      {
        FilterNext(keep, before, from);
        if !keep(slots[from]) {
          maxoff := maxoff - 1;
        } else {
          MoveSlot(from, to);
          to := to + 1;
        }
        from := from + 1;
      }
      assert before[..end] == before;
    }
  }

  lemma {:induction false} FilterWhole<T>(p: T -> bool, s: seq<T>)
    ensures |Filter(p, s)| == |s| ==> Filter(p, s) == s
  {
    if s != [] {
      FilterWhole(p, s[..|s| - 1]);
      assert s == s[..|s| - 1] + [s[|s| - 1]];
    }
  }
}
