/**
 What every run of the index guarantees, whatever the interleaving: entries
 are conserved, an insertion adds its entry exactly once, a bulk deletion
 leaves nothing its callback accepts, and a scan misses no entry.
 */
module BloomRuns {
  import opened Prelude
  import opened BloomSignature
  import opened BloomPage
  import opened BloomIndex

  // ----- runs

  ghost predicate Executable(s: State, steps: seq<Step>)
    decreases |steps|, 0
  {
    steps == [] ||
    (var n := |steps| - 1;
     Executable(s, steps[..n]) && Enabled(Run(s, steps[..n]), steps[n]))
  }

  ghost function Run(s: State, steps: seq<Step>): State
    requires Executable(s, steps)
    decreases |steps|, 1
  {
    if steps == [] then s
    else
      var n := |steps| - 1;
      Apply(Run(s, steps[..n]), steps[n])
  }

  lemma {:induction false} RunKeepsInv(s: State, steps: seq<Step>)
    requires Inv(s) && Executable(s, steps)
    ensures Inv(Run(s, steps))
  {
    if steps != [] {
      var n := |steps| - 1;
      RunKeepsInv(s, steps[..n]);
      StepKeepsInv(Run(s, steps[..n]), steps[n]);
    }
  }

  // ----- the index as a bag of entries

  /** How often the index holds `x`, counting whatever is stored on any page. */
  ghost function Count(pages: seq<Image>, x: Entry): nat {
    if pages == [] then 0
    else Count(pages[..|pages| - 1], x) + Occurrences(pages[|pages| - 1].Stored(), x)
  }

  lemma {:induction false} CountUpdate(pages: seq<Image>, b: Block, image: Image, x: Entry)
    requires b < |pages|
    ensures Count(pages[b := image], x) + Occurrences(pages[b].Stored(), x)
         == Count(pages, x) + Occurrences(image.Stored(), x)
  {
    var n := |pages| - 1;
    CountLast(pages, x);
    CountLast(pages[b := image], x);
    if b == n {
      assert pages[b := image][..n] == pages[..n];
    } else {
      CountUpdate(pages[..n], b, image, x);
      assert pages[b := image][..n] == pages[..n][b := image];
    }
  }

  lemma CountLast(pages: seq<Image>, x: Entry)
    requires pages != []
    ensures Count(pages, x) == Count(pages[..|pages| - 1], x) + Occurrences(pages[|pages| - 1].Stored(), x)
  {
  }

  /** What a step does to the bag, read off the stepping backend. */
  datatype Event =
    | Silent
    | Inserted(p: Pid, e: Entry)
    | Removed(p: Pid, callback: Tid -> bool, visited: seq<Entry>)

  ghost function EventOf(s: State, step: Step): Event
    requires Enabled(s, step)
  {
    match step
    case TryFirst(p) => InsertEvent(Apply(s, step), p)
    case TryNext(p) => InsertEvent(Apply(s, step), p)
    case Finish(p) => InsertEvent(Apply(s, step), p)
    case VacuumPage(p) => Removed(p, s.procs[p].callback, s.pages[s.procs[p].next].Live())
    case _ => Silent
  }

  /** Did the backend's insertion complete? */
  ghost function InsertEvent(after: State, p: Pid): Event {
    if p in after.procs && after.procs[p].InsertDone? then Inserted(p, after.procs[p].e) else Silent
  }

  ghost function Added(event: Event, x: Entry): nat {
    if event.Inserted? && event.e == x then 1 else 0
  }

  ghost function Gone(event: Event, x: Entry): nat {
    if event.Removed? && event.callback(x.tid) then Occurrences(event.visited, x) else 0
  }

  /**
   Every step refines the bag: a completing insertion adds its one entry, a
   page visit of a bulk deletion removes exactly the accepted entries of that
   page, and nothing else changes anything.
   */
  lemma StepRefinesBag(s: State, step: Step, x: Entry)
    requires Inv(s) && Enabled(s, step)
    ensures Count(Apply(s, step).pages, x) + Gone(EventOf(s, step), x)
         == Count(s.pages, x) + Added(EventOf(s, step), x)
  {
    match step
    case TryFirst(p) => InsertIntoPage(s, s.procs[p].blk, s.procs[p].e, x);
    case TryNext(p) => InsertIntoPage(s, s.meta.notFull[s.procs[p].n], s.procs[p].e, x);
    case Extend(p) => assert (s.pages + [New])[..|s.pages|] == s.pages;
    case Finish(p) => FinishInserts(s, p, x);
    case VacuumPage(p) => VacuumPageRemoves(s, p, x);
    case _ =>
  }

  lemma FinishInserts(s: State, p: Pid, x: Entry)
    requires Inv(s) && Enabled(s, Finish(p))
    ensures Count(Apply(s, Finish(p)).pages, x) + Gone(EventOf(s, Finish(p)), x)
         == Count(s.pages, x) + Added(EventOf(s, Finish(p)), x)
  {
    CountUpdate(s.pages, s.procs[p].blk, Data([s.procs[p].e], false), x);
    assert [s.procs[p].e][..0] == [];
  }

  lemma InsertIntoPage(s: State, b: Block, e: Entry, x: Entry)
    requires Inv(s) && b < |s.pages|
    ensures match Insert(s.words, s.pages[b], e)
            case Some(image) => Count(s.pages[b := image], x) == Count(s.pages, x) + if x == e then 1 else 0
            case None => true
  {
    var live := s.pages[b].Live();
    match Insert(s.words, s.pages[b], e)
    case Some(image) =>
      assert live == s.pages[b].Stored();
      assert (live + [e])[..|live|] == live;
      CountUpdate(s.pages, b, image, x);
    case None =>
  }

  lemma VacuumPageRemoves(s: State, p: Pid, x: Entry)
    requires Inv(s) && Enabled(s, VacuumPage(p))
    ensures Count(Apply(s, VacuumPage(p)).pages, x) + Gone(EventOf(s, VacuumPage(p)), x) == Count(s.pages, x)
  {
    var callback, b := s.procs[p].callback, s.procs[p].next;
    var image := Vacuum(callback, s.pages[b]);
    CountUpdate(s.pages, b, image, x);
    FilterOccurrences(Survives(callback), s.pages[b].Live(), x);
    assert s.pages[b].Live() == s.pages[b].Stored();
    assert image.Stored() == image.Live();
  }

  ghost function TotalAdded(s: State, steps: seq<Step>, x: Entry): nat
    requires Executable(s, steps)
  {
    if steps == [] then 0
    else
      var n := |steps| - 1;
      TotalAdded(s, steps[..n], x) + Added(EventOf(Run(s, steps[..n]), steps[n]), x)
  }

  ghost function TotalGone(s: State, steps: seq<Step>, x: Entry): nat
    requires Executable(s, steps)
  {
    if steps == [] then 0
    else
      var n := |steps| - 1;
      TotalGone(s, steps[..n], x) + Gone(EventOf(Run(s, steps[..n]), steps[n]), x)
  }

  /** Conservation: over any run, nothing is lost and nothing appears from nowhere. */
  lemma {:induction false} RunConserves(s: State, steps: seq<Step>, x: Entry)
    requires Inv(s) && Executable(s, steps)
    ensures Count(Run(s, steps).pages, x) + TotalGone(s, steps, x) == Count(s.pages, x) + TotalAdded(s, steps, x)
  {
    if steps != [] {
      var n := |steps| - 1;
      RunConserves(s, steps[..n], x);
      RunKeepsInv(s, steps[..n]);
      StepRefinesBag(Run(s, steps[..n]), steps[n], x);
    }
  }

  // ----- one insertion

  ghost predicate Inserting(proc: Proc, e: Entry) {
    || proc == InsertBegin(e)
    || (proc.InsertFirst? && proc.e == e)
    || (proc.InsertWait? && proc.e == e)
    || (proc.InsertSearch? && proc.e == e)
    || proc == InsertAlloc(e)
    || (proc.InsertHold? && proc.e == e)
    || proc == InsertDone(e)
  }

  /** The entries that backend `p` has added so far. */
  ghost function InsertedBy(s: State, steps: seq<Step>, p: Pid): seq<Entry>
    requires Executable(s, steps)
  {
    if steps == [] then []
    else
      var n := |steps| - 1;
      InsertedBy(s, steps[..n], p) +
      match EventOf(Run(s, steps[..n]), steps[n]) {
        case Inserted(q, e) => if q == p then [e] else []
        case _ => []
      }
  }

  /**
   An insertion adds its entry exactly once, and has added it exactly when it
   is done, however often it had to retry and whatever ran in between.
   */
  lemma {:induction false} InsertExactlyOnce(s: State, steps: seq<Step>, p: Pid, e: Entry)
    requires Executable(s, steps)
    requires steps != [] && steps[0] == BeginInsert(p, e)
    ensures var after := Run(s, steps).procs;
            && p in after && Inserting(after[p], e)
            && InsertedBy(s, steps, p) == if after[p].InsertDone? then [e] else []
  {
    var n := |steps| - 1;
    if n == 0 {
      assert steps[..n] == [];
    } else {
      InsertExactlyOnce(s, steps[..n], p, e);
      InsertProgress(Run(s, steps[..n]), steps[n], p, e);
    }
  }

  lemma InsertProgress(s: State, step: Step, p: Pid, e: Entry)
    requires Enabled(s, step)
    requires p in s.procs && Inserting(s.procs[p], e)
    ensures var after := Apply(s, step).procs;
            && p in after && Inserting(after[p], e)
            && (s.procs[p].InsertDone? ==> after[p].InsertDone?)
            && (after[p].InsertDone? && !s.procs[p].InsertDone? <==> EventOf(s, step) == Inserted(p, e))
            && (EventOf(s, step).Inserted? && EventOf(s, step).p == p ==> EventOf(s, step) == Inserted(p, e))
  {
    hide Insert, Vacuum, NotFull;
    if step.DriftFsm? || step.p != p {
      OthersUnchanged(s, step, p);
    }
  }

  // ----- entries stay where they are

  /** Does the step remove `e` from page `b`? */
  ghost predicate Removes(s: State, step: Step, b: Block, e: Entry)
    requires Enabled(s, step)
  {
    step.VacuumPage? && s.procs[step.p].next == b && s.procs[step.p].callback(e.tid)
  }

  /** An entry stays on its page until a bulk deletion accepts it there. */
  lemma EntryStays(s: State, step: Step, b: Block, e: Entry)
    requires Inv(s) && Enabled(s, step)
    requires b < |s.pages| && e in s.pages[b].Live()
    requires !Removes(s, step, b, e)
    ensures b < |Apply(s, step).pages| && e in Apply(s, step).pages[b].Live()
  {
    if step.VacuumPage? {
      FilterMember(Survives(s.procs[step.p].callback), s.pages[s.procs[step.p].next].Live(), e);
    }
  }

  /** An entry appears on a page only by a completing insertion. */
  lemma EntryAppears(s: State, step: Step, b: Block, e: Entry)
    requires Inv(s) && Enabled(s, step)
    requires b < |Apply(s, step).pages| && e in Apply(s, step).pages[b].Live()
    ensures (b < |s.pages| && e in s.pages[b].Live()) || (EventOf(s, step).Inserted? && EventOf(s, step).e == e)
  {
    if step.VacuumPage? {
      FilterMember(Survives(s.procs[step.p].callback), s.pages[s.procs[step.p].next].Live(), e);
    }
  }

  // ----- one bulk deletion

  /** No page outside [lo, hi) holds an entry the callback accepts. */
  ghost predicate CleanOutside(s: State, callback: Tid -> bool, lo: nat, hi: nat) {
    forall b, e | 0 <= b < |s.pages| && (b < lo || hi <= b) && e in s.pages[b].Live() :: !callback(e.tid)
  }

  /** How far a bulk deletion has come. */
  ghost predicate VacuumProgress(s: State, p: Pid, callback: Tid -> bool) {
    p in s.procs &&
    match s.procs[p] {
      case VacuumAt(cb, next, npages, _) => cb == callback && CleanOutside(s, callback, next, npages)
      case VacuumDone => CleanOutside(s, callback, 0, 0)
      case _ => false
    }
  }

  /** No step of the run completes an insertion that the callback accepts. */
  ghost predicate InsertsNone(s: State, steps: seq<Step>, callback: Tid -> bool)
    requires Executable(s, steps)
  {
    steps == [] ||
    (var n := |steps| - 1;
     && InsertsNone(s, steps[..n], callback)
     && var event := EventOf(Run(s, steps[..n]), steps[n]);
        event.Inserted? ==> !callback(event.e.tid))
  }

  /** Only its own steps change a backend. */
  lemma OthersUnchanged(s: State, step: Step, q: Pid)
    requires Enabled(s, step) && q in s.procs
    requires step.DriftFsm? || step.p != q
    ensures q in Apply(s, step).procs && Apply(s, step).procs[q] == s.procs[q]
  {
  }

  lemma VacuumStep(s: State, step: Step, p: Pid, callback: Tid -> bool)
    requires Inv(s) && Enabled(s, step)
    requires VacuumProgress(s, p, callback)
    requires EventOf(s, step).Inserted? ==> !callback(EventOf(s, step).e.tid)
    ensures VacuumProgress(Apply(s, step), p, callback)
  {
    var lo := if s.procs[p].VacuumAt? then s.procs[p].next else 0;
    var hi := if s.procs[p].VacuumAt? then s.procs[p].npages else 0;
    StaysClean(s, step, callback, lo, hi);
    if step.DriftFsm? || step.p != p {
      OthersUnchanged(s, step, p);
    } else if step.VacuumPage? {
      VisitCleans(s, p);
    }
  }

  lemma StaysClean(s: State, step: Step, callback: Tid -> bool, lo: nat, hi: nat)
    requires Inv(s) && Enabled(s, step)
    requires CleanOutside(s, callback, lo, hi)
    requires EventOf(s, step).Inserted? ==> !callback(EventOf(s, step).e.tid)
    ensures CleanOutside(Apply(s, step), callback, lo, hi)
  {
    var s' := Apply(s, step);
    forall b, e | 0 <= b < |s'.pages| && (b < lo || hi <= b) && e in s'.pages[b].Live()
      ensures !callback(e.tid)
    {
      EntryAppears(s, step, b, e);
    }
  }

  lemma VisitCleans(s: State, p: Pid)
    requires Inv(s) && Enabled(s, VacuumPage(p))
    ensures var b, callback := s.procs[p].next, s.procs[p].callback;
            forall e | e in Apply(s, VacuumPage(p)).pages[b].Live() :: !callback(e.tid)
  {
    var b, callback := s.procs[p].next, s.procs[p].callback;
    forall e | e in Apply(s, VacuumPage(p)).pages[b].Live()
      ensures !callback(e.tid)
    {
      FilterMember(Survives(callback), s.pages[b].Live(), e);
    }
  }

  /**
   A bulk deletion need not look at concurrently added pages: when it is done,
   no page of the whole index holds an entry its callback accepts, provided no
   insertion completed meanwhile added one.
   */
  lemma {:induction false} VacuumComplete(s: State, steps: seq<Step>, p: Pid, callback: Tid -> bool)
    requires Inv(s) && Executable(s, steps)
    requires steps != [] && steps[0] == BeginVacuum(p, callback)
    requires InsertsNone(s, steps, callback)
    ensures VacuumProgress(Run(s, steps), p, callback)
  {
    var n := |steps| - 1;
    if n == 0 {
      assert steps[..n] == [];
    } else {
      VacuumComplete(s, steps[..n], p, callback);
      RunKeepsInv(s, steps[..n]);
      VacuumStep(Run(s, steps[..n]), steps[n], p, callback);
    }
  }

  /** A page joins the rebuilt list exactly when its visit left it partly filled. */
  lemma NotFullListed(s: State, p: Pid)
    requires Inv(s) && Enabled(s, VacuumPage(p))
    ensures var before, after := s.procs[p], Apply(s, VacuumPage(p)).procs[p];
            var kept := Filter(Survives(before.callback), s.pages[before.next].Live());
            && after.found == (if 0 < |kept| < Capacity(s.words) && |before.found| < META_BLOCKS
                               then before.found + [before.next] else before.found)
            && GoodList(after.found, after.next)
  {
    VacuumPageKeepsInv(s, p);
  }

  // ----- one scan

  /** A scan either still has to visit the entry's page or has found it. */
  ghost predicate ScanProgress(s: State, p: Pid, query: seq<Word>, b: Block, e: Entry) {
    p in s.procs &&
    match s.procs[p] {
      case ScanAt(q, next, npages, hits) => q == query && b < npages && (next <= b || e.tid in hits)
      case ScanDone(hits) => e.tid in hits
      case _ => false
    }
  }

  /** The entry is not bulk-deleted from page `b` at any step of the run. */
  ghost predicate NeverRemoved(s: State, steps: seq<Step>, b: Block, e: Entry)
    requires Executable(s, steps)
  {
    steps == [] ||
    (var n := |steps| - 1;
     NeverRemoved(s, steps[..n], b, e) && !Removes(Run(s, steps[..n]), steps[n], b, e))
  }

  lemma ScanStep(s: State, step: Step, p: Pid, query: seq<Word>, b: Block, e: Entry)
    requires Inv(s) && Enabled(s, step)
    requires b < |s.pages| && e in s.pages[b].Live() && Covered(query, e)
    requires ScanProgress(s, p, query, b, e)
    ensures ScanProgress(Apply(s, step), p, query, b, e)
  {
    if step.DriftFsm? || step.p != p {
      OthersUnchanged(s, step, p);
    } else if step.ScanPage? && s.procs[p].next == b {
      var found := Filter(Matcher(query), s.pages[b].Live());
      FilterMember(Matcher(query), s.pages[b].Live(), e);
      var i :| 0 <= i < |found| && found[i] == e;
      assert Tids(found)[i] == e.tid;
    }
  }

  /** A scan returns every covered entry that was there when it began and stayed. */
  lemma {:induction false} ScanFindsEntry(
      s: State, steps: seq<Step>, p: Pid, query: seq<Word>, b: Block, e: Entry)
    requires Inv(s) && Executable(s, steps)
    requires steps != [] && steps[0] == BeginScan(p, query)
    requires b < |s.pages| && e in s.pages[b].Live() && Covered(query, e)
    requires NeverRemoved(s, steps, b, e)
    ensures var after := Run(s, steps);
            b < |after.pages| && e in after.pages[b].Live() && ScanProgress(after, p, query, b, e)
  {
    var n := |steps| - 1;
    var before := Run(s, steps[..n]);
    RunKeepsInv(s, steps[..n]);
    if n == 0 {
      assert steps[..n] == [];
      assert b != 0;
    } else {
      ScanFindsEntry(s, steps[..n], p, query, b, e);
      ScanStep(before, steps[n], p, query, b, e);
    }
    EntryStays(before, steps[n], b, e);
  }

  /**
   No false negatives, end to end: a row indexed before the scan begins and not
   bulk-deleted during it is returned if, in every scan-key column, it has a
   value hashing like the key.
   */
  lemma NoFalseNegatives(
      s: State, steps: seq<Step>, p: Pid, b: Block, e: Entry,
      o: Options, row: Row, keys: seq<ScanKey>, query: seq<Word>)
    requires Inv(s) && Executable(s, steps)
    requires o.Valid() && |row| <= MAX_KEYS && ValidKeys(keys)
    requires Bits(e.sign) == RowBits(o, row) && Bits(query) == KeyBits(o, keys)
    requires RowSatisfies(row, keys)
    requires steps != [] && steps[0] == BeginScan(p, query)
    requires b < |s.pages| && e in s.pages[b].Live()
    requires NeverRemoved(s, steps, b, e)
    ensures p in Run(s, steps).procs
    ensures Run(s, steps).procs[p].ScanDone? ==> e.tid in Run(s, steps).procs[p].hits
  {
    KeyBitsCovered(o, row, keys);
    ScanFindsEntry(s, steps, p, query, b, e);
  }

  /** Conversely, each visit adds the pointers of exactly the covered entries, in page order. */
  lemma ScanVisitSound(s: State, p: Pid, tid: Tid)
    requires Inv(s) && Enabled(s, ScanPage(p))
    ensures var before, after := s.procs[p], Apply(s, ScanPage(p)).procs[p];
            && before.hits <= after.hits
            && (tid in after.hits[|before.hits|..] <==>
                exists e :: e in s.pages[before.next].Live() && e.tid == tid && Covered(before.query, e))
  {
    var before, after := s.procs[p], Apply(s, ScanPage(p)).procs[p];
    var live := s.pages[before.next].Live();
    var found := Filter(Matcher(before.query), live);
    assert after.hits[|before.hits|..] == Tids(found);
    if tid in Tids(found) {
      var i :| 0 <= i < |found| && Tids(found)[i] == tid;
      FilterMember(Matcher(before.query), live, found[i]);
    }
    forall e | e in live && e.tid == tid && Covered(before.query, e)
      ensures tid in Tids(found)
    {
      FilterMember(Matcher(before.query), live, e);
      var i :| 0 <= i < |found| && found[i] == e;
      assert Tids(found)[i] == tid;
    }
  }

  /** After some `k` steps of the run, a covered entry with this pointer was on some page. */
  ghost predicate SeenAt(s: State, steps: seq<Step>, query: seq<Word>, tid: Tid, k: nat, b: Block, e: Entry) {
    k <= |steps| && Executable(s, steps[..k]) &&
    var pages := Run(s, steps[..k]).pages;
    b < |pages| && e in pages[b].Live() && e.tid == tid && Covered(query, e)
  }

  ghost predicate Seen(s: State, steps: seq<Step>, query: seq<Word>, tid: Tid) {
    exists k: nat, b: Block, e: Entry :: SeenAt(s, steps, query, tid, k, b, e)
  }

  ghost predicate ScanHits(s: State, p: Pid, query: seq<Word>, tid: Tid) {
    p in s.procs &&
    match s.procs[p] {
      case ScanAt(q, _, _, hits) => q == query && tid in hits
      case ScanDone(hits) => tid in hits
      case _ => false
    }
  }

  ghost predicate Scanning(s: State, p: Pid, query: seq<Word>) {
    p in s.procs && (s.procs[p].ScanDone? || (s.procs[p].ScanAt? && s.procs[p].query == query))
  }

  lemma SeenLater(s: State, steps: seq<Step>, query: seq<Word>, tid: Tid)
    requires steps != [] && Seen(s, steps[..|steps| - 1], query, tid)
    ensures Seen(s, steps, query, tid)
  {
    var n := |steps| - 1;
    var k: nat, b: Block, e: Entry :| SeenAt(s, steps[..n], query, tid, k, b, e);
    assert steps[..n][..k] == steps[..k];
    assert SeenAt(s, steps, query, tid, k, b, e);
  }

  /** A step that adds a pointer to the hits has seen its entry. */
  lemma HitSeen(s: State, step: Step, p: Pid, query: seq<Word>, tid: Tid) returns (b: Block, e: Entry)
    requires Inv(s) && Enabled(s, step) && Scanning(s, p, query)
    requires !ScanHits(s, p, query, tid) && ScanHits(Apply(s, step), p, query, tid)
    ensures b < |s.pages| && e in s.pages[b].Live() && e.tid == tid && Covered(query, e)
  {
    if step.DriftFsm? || step.p != p {
      OthersUnchanged(s, step, p);
    }
    b := s.procs[p].next;
    ScanVisitSound(s, p, tid);
    var before, after := s.procs[p], Apply(s, step).procs[p];
    assert after.hits == before.hits + after.hits[|before.hits|..];
    e :| e in s.pages[b].Live() && e.tid == tid && Covered(query, e);
  }

  lemma ScanningOn(s: State, step: Step, p: Pid, query: seq<Word>)
    requires Inv(s) && Enabled(s, step) && Scanning(s, p, query)
    ensures Scanning(Apply(s, step), p, query)
  {
    if step.DriftFsm? || step.p != p {
      OthersUnchanged(s, step, p);
    }
  }

  /** Every pointer a scan returns was that of a covered entry on some page at some step of the run. */
  lemma {:induction false} ScanSound(s: State, steps: seq<Step>, p: Pid, query: seq<Word>, tid: Tid)
    requires Inv(s) && Executable(s, steps)
    requires steps != [] && steps[0] == BeginScan(p, query)
    ensures Scanning(Run(s, steps), p, query)
    ensures ScanHits(Run(s, steps), p, query, tid) ==> Seen(s, steps, query, tid)
  {
    var n := |steps| - 1;
    var before := Run(s, steps[..n]);
    if n == 0 {
      assert steps[..n] == [];
    } else {
      RunKeepsInv(s, steps[..n]);
      ScanSound(s, steps[..n], p, query, tid);
      ScanningOn(before, steps[n], p, query);
      if ScanHits(before, p, query, tid) {
        SeenLater(s, steps, query, tid);
      } else if ScanHits(Run(s, steps), p, query, tid) {
        var b, e := HitSeen(before, steps[n], p, query, tid);
        assert SeenAt(s, steps, query, tid, n, b, e);
      }
    }
  }
}
