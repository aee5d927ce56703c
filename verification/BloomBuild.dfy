/** Bulk build of an index, and the page loop of a scan. */
module BloomBuild {
  import opened Prelude
  import opened BloomSignature
  import opened BloomPage
  import opened BloomIndex
  import opened BloomRuns

  /** The entries of a list of pages, in page order. */
  function Flatten(pages: seq<Image>): seq<Entry> {
    if pages == [] then [] else Flatten(pages[..|pages| - 1]) + pages[|pages| - 1].Live()
  }

  ghost predicate Full(words: nat, page: Image) {
    page.Data? && !page.deleted && |page.entries| == Capacity(words)
  }

  /** Build state: one page is filled in memory before it is written out. */
  class BuildState {
    const cached: Page
    var count: nat
    var indtuples: nat
    var flushed: seq<Image>

    ghost predicate Valid()
      reads this, cached
    {
      && cached.Valid() && cached.initialized && !cached.deleted
      && count == cached.maxoff
      && (forall i :: 0 <= i < |flushed| ==> Full(cached.words, flushed[i]))
      && (flushed != [] ==> count > 0)
    }

    /** The entries taken in so far. */
    ghost function Taken(): seq<Entry>
      requires Valid()
      reads this, cached, cached.slots
    {
      Flatten(flushed) + cached.View().entries
    }

    constructor (words: nat)
      requires 1 <= words <= MAX_WORDS
      ensures Valid() && fresh(cached) && fresh(cached.slots)
      ensures cached.words == words && flushed == [] && indtuples == 0 && Taken() == []
    {
      var page := new Page(words);
      page.Init();
      cached := page;
      count, indtuples, flushed := 0, 0, [];
    }

    /** Per-tuple callback of the heap scan. */
    method Add(e: Entry)
      requires Valid()
      modifies this, cached, cached.slots
      ensures Valid() && Taken() == old(Taken()) + [e]
      ensures indtuples == old(indtuples) + 1 && count > 0
    {
      CapacityPositive(cached.words);
      var added := cached.AddItem(e);
      if added {
        count := count + 1;
      } else {
        NextPage(e);
      }
      indtuples := indtuples + 1;
    }

    /** Write the full page out and start another one. */
    method NextPage(e: Entry)
      requires Valid() && Full(cached.words, cached.View())
      modifies this`flushed, this`count, cached, cached.slots
      ensures Valid() && Taken() == old(Taken()) + [e] && count > 0
    {
      CapacityPositive(cached.words);
      Flush();
      cached.Init();
      var again := cached.AddItem(e);
      assert again && cached.View().entries == [e];
      count := 1;
    }

    /** Append a copy of the cached page to the index. */
    method Flush()
      requires Valid()
      modifies this`flushed
      ensures flushed == old(flushed) + [cached.View()]
      ensures Flatten(flushed) == old(Taken())
    {
      flushed := flushed + [cached.View()];
      assert flushed[..|flushed| - 1] == old(flushed);
    }
  }

  /**
   The build packs the rows' entries, in heap order, into full pages; only the
   last page may be partly filled, and none is empty.
   */
  method Build(words: nat, entries: seq<Entry>) returns (pages: seq<Image>, indtuples: nat)
    requires 1 <= words <= MAX_WORDS
    ensures indtuples == |entries|
    ensures Flatten(pages) == entries
    ensures forall i :: 0 <= i < |pages| - 1 ==> Full(words, pages[i])
    ensures forall i :: 0 <= i < |pages| ==> pages[i].Valid(words) && 0 < |pages[i].Live()|
    ensures BuiltFrom(words, pages, entries)
  {
    CapacityPositive(words);
    var state := new BuildState(words);
    for i := 0 to |entries|
      invariant fresh(state) && fresh(state.cached) && fresh(state.cached.slots)
      invariant state.Valid() && state.cached.words == words
      invariant state.Taken() == entries[..i] && state.indtuples == i
      invariant i > 0 ==> state.count > 0
    {
      state.Add(entries[i]);
      assert entries[..i + 1] == entries[..i] + [entries[i]];
    }
    assert entries[..|entries|] == entries;
    if state.count > 0 {
      state.Flush();
    }
    pages := state.flushed;
    indtuples := state.indtuples;
  }

  lemma {:induction false} FlattenCount(pages: seq<Image>, x: Entry)
    requires forall i :: 0 <= i < |pages| ==> pages[i].Stored() == pages[i].Live()
    ensures Count(pages, x) == Occurrences(Flatten(pages), x)
  {
    if pages != [] {
      var n := |pages| - 1;
      FlattenCount(pages[..n], x);
      OccurrencesConcat(Flatten(pages[..n]), pages[n].Live(), x);
    }
  }

  lemma {:induction false} OccurrencesConcat<T>(a: seq<T>, b: seq<T>, x: T)
    ensures Occurrences(a + b, x) == Occurrences(a, x) + Occurrences(b, x)
  {
    if b == [] {
      assert a + b == a;
    } else {
      OccurrencesConcat(a, b[..|b| - 1], x);
      assert (a + b)[..|a + b| - 1] == a + b[..|b| - 1];
    }
  }

  /** The index a build leaves, before any backend has done anything. */
  function BuiltState(words: nat, built: seq<Image>): State {
    State(words, [Data([], false)] + built, Meta(0, 0, seq(META_BLOCKS, _ => 0)), None, map[], {}, map[])
  }

  /** The pages a build of these entries leaves. */
  ghost predicate BuiltFrom(words: nat, built: seq<Image>, entries: seq<Entry>) {
    && 1 <= words <= MAX_WORDS && Flatten(built) == entries
    && forall i :: 0 <= i < |built| ==> built[i].Valid(words) && 0 < |built[i].Live()|
  }

  lemma BuiltCount(words: nat, built: seq<Image>, entries: seq<Entry>, x: Entry)
    requires BuiltFrom(words, built, entries)
    ensures Count(BuiltState(words, built).pages, x) == Occurrences(entries, x)
  {
    var pages := [Data([], false)] + built;
    FlattenCount(pages, x);
    FlattenMeta(built);
  }

  /** The metapage adds nothing. */
  lemma {:induction false} FlattenMeta(built: seq<Image>)
    ensures Flatten([Data([], false)] + built) == Flatten(built)
  {
    var pages := [Data([], false)] + built;
    if built == [] {
      assert pages[..0] == [];
    } else {
      var n := |built| - 1;
      FlattenMeta(built[..n]);
      assert pages[..n + 1] == [Data([], false)] + built[..n];
    }
  }

  /**
   From a built index every run of insertions, bulk deletions, cleanups and scans
   keeps the invariant and accounts for every entry: what is there now and what
   was removed is what was built and what was added.
   */
  lemma RunFromBuild(words: nat, built: seq<Image>, entries: seq<Entry>, steps: seq<Step>, x: Entry)
    requires BuiltFrom(words, built, entries) && Executable(BuiltState(words, built), steps)
    ensures var s := BuiltState(words, built);
            && Inv(Run(s, steps))
            && Count(Run(s, steps).pages, x) + TotalGone(s, steps, x) ==
                Occurrences(entries, x) + TotalAdded(s, steps, x)
  {
    var s := BuiltState(words, built);
    BuiltIndexOk(words, built);
    RunKeepsInv(s, steps);
    RunConserves(s, steps, x);
    BuiltCount(words, built, entries, x);
  }

  /** The page loop of a scan: the pointers of the covered entries, in order. */
  method ScanPage(query: seq<Word>, page: Image) returns (hits: seq<Tid>, ntids: nat)
    requires forall e | e in page.Live() :: |e.sign| == |query|
    ensures hits == Tids(Filter(Matcher(query), page.Live()))
    ensures ntids == |hits|
  {
    hits, ntids := [], 0;
    if !page.Reusable() {
      var maxOffset := |page.entries|;
      for offset := 0 to maxOffset
        invariant hits == Tids(Filter(Matcher(query), page.entries[..offset])) && ntids == |hits|
      {
        var e := page.entries[offset];
        assert page.entries[..offset + 1][..offset] == page.entries[..offset];
        var res := Covers(e.sign, query);
        if res {
          hits := hits + [e.tid];
          ntids := ntids + 1;
        }
      }
      assert page.entries[..maxOffset] == page.entries;
    }
  }
}
