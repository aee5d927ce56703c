/**
 The whole index as shared state, changed by concurrent backends in steps at
 buffer-lock granularity: whatever a backend does to a page between locking
 and unlocking it is one step, and other backends may run between any two
 steps.  The list of not-full pages and the free-space map are hints; the
 map may change arbitrarily at any time.
 */
module BloomIndex {
  import opened Prelude
  import opened BloomSignature
  import opened BloomPage

  type Block = nat
  type Pid = nat

  /** Block numbers that fit on the metapage after its other fields. */
  const META_BLOCKS := (BLCKSZ - HEADER - SPECIAL - 144) / 4

  datatype Meta = Meta(nStart: nat, nEnd: nat, notFull: seq<Block>)

  /** A backend, by what it has learnt and which locks it holds. */
  datatype Proc =
    | InsertBegin(e: Entry)                       // entry formed, nothing read yet
    | InsertFirst(e: Entry, blk: Block)           // read a candidate, dropped the metapage lock
    | InsertWait(e: Entry, tried: Option<Block>)  // about to lock the metapage exclusively
    | InsertSearch(e: Entry, n: nat)              // holds the metapage, at list position n
    | InsertAlloc(e: Entry)                       // holds the metapage, looking for a free page
    | InsertHold(e: Entry, blk: Block)            // holds the metapage and a page to reuse
    | InsertDone(e: Entry)
    | VacuumAt(callback: Tid -> bool, next: Block, npages: nat, found: seq<Block>)
    | VacuumDone
    | CleanupAt(next: Block, npages: nat, free: nat, tuples: nat)
    | CleanupDone(free: nat, tuples: nat)
    | ScanAt(query: seq<Word>, next: Block, npages: nat, hits: seq<Tid>)
    | ScanDone(hits: seq<Tid>)

  datatype State = State(
    words: nat,
    pages: seq<Image>,
    meta: Meta,
    metaOwner: Option<Pid>,
    locks: map<Block, Pid>,
    fsm: set<Block>,
    procs: map<Pid, Proc>)

  datatype Step =
    | BeginInsert(p: Pid, e: Entry)
    | BeginVacuum(p: Pid, callback: Tid -> bool)
    | BeginCleanup(p: Pid)
    | BeginScan(p: Pid, query: seq<Word>)
    | ReadMeta(p: Pid)
    | TryFirst(p: Pid)
    | LockMeta(p: Pid)
    | TryNext(p: Pid)
    | StartAlloc(p: Pid)
    | GetFree(p: Pid, b: Block)
    | Extend(p: Pid)
    | Finish(p: Pid)
    | VacuumPage(p: Pid)
    | VacuumMeta(p: Pid)
    | CleanupPage(p: Pid)
    | CleanupEnd(p: Pid)
    | ScanPage(p: Pid)
    | ScanEnd(p: Pid)
    | DriftFsm(fsm: set<Block>)

  predicate Covered(query: seq<Word>, e: Entry) {
    Bits(query) <= Bits(e.sign)
  }

  function Matcher(query: seq<Word>): Entry -> bool {
    (e: Entry) => Covered(query, e)
  }

  function Tids(entries: seq<Entry>): (tids: seq<Tid>)
    ensures |tids| == |entries|
    ensures forall i :: 0 <= i < |entries| ==> tids[i] == entries[i].tid
  {
    seq(|entries|, i requires 0 <= i < |entries| => entries[i].tid)
  }

  ghost predicate Enabled(s: State, step: Step) {
    match step
    case BeginInsert(p, _) => p !in s.procs
    case BeginVacuum(p, _) => p !in s.procs
    case BeginCleanup(p) => p !in s.procs
    case BeginScan(p, _) => p !in s.procs
    case ReadMeta(p) => p in s.procs && s.procs[p].InsertBegin? && s.metaOwner.None?
    case TryFirst(p) =>
      p in s.procs && s.procs[p].InsertFirst? && s.procs[p].blk < |s.pages| && s.procs[p].blk !in s.locks
    case LockMeta(p) => p in s.procs && s.procs[p].InsertWait? && s.metaOwner.None?
    case TryNext(p) =>
      && p in s.procs && s.procs[p].InsertSearch? && s.procs[p].n < s.meta.nEnd <= |s.meta.notFull|
      && s.meta.notFull[s.procs[p].n] < |s.pages| && s.meta.notFull[s.procs[p].n] !in s.locks
    case StartAlloc(p) => p in s.procs && s.procs[p].InsertSearch? && s.meta.nEnd <= s.procs[p].n
    case GetFree(p, b) => p in s.procs && s.procs[p].InsertAlloc? && b in s.fsm && b < |s.pages|
    case Extend(p) => p in s.procs && s.procs[p].InsertAlloc?
    case Finish(p) => p in s.procs && s.procs[p].InsertHold? && s.procs[p].blk < |s.pages| && 0 < |s.meta.notFull|
    case VacuumPage(p) =>
      && p in s.procs && s.procs[p].VacuumAt? && s.procs[p].next < s.procs[p].npages <= |s.pages|
      && s.procs[p].next !in s.locks
    case VacuumMeta(p) =>
      && p in s.procs && s.procs[p].VacuumAt? && s.procs[p].npages <= s.procs[p].next && s.metaOwner.None?
      && |s.procs[p].found| <= |s.meta.notFull|
    case CleanupPage(p) =>
      && p in s.procs && s.procs[p].CleanupAt? && s.procs[p].next < s.procs[p].npages <= |s.pages|
      && s.procs[p].next !in s.locks
    case CleanupEnd(p) => p in s.procs && s.procs[p].CleanupAt? && s.procs[p].npages <= s.procs[p].next
    case ScanPage(p) =>
      && p in s.procs && s.procs[p].ScanAt? && s.procs[p].next < s.procs[p].npages <= |s.pages|
      && s.procs[p].next !in s.locks
    case ScanEnd(p) => p in s.procs && s.procs[p].ScanAt? && s.procs[p].npages <= s.procs[p].next
    case DriftFsm(_) => true
  }

  ghost function Apply(s: State, step: Step): State
    requires Enabled(s, step)
  {
    match step
    case BeginInsert(p, e) => s.(procs := s.procs[p := InsertBegin(e)])
    case BeginVacuum(p, callback) => s.(procs := s.procs[p := VacuumAt(callback, 1, |s.pages|, [])])
    case BeginCleanup(p) => s.(procs := s.procs[p := CleanupAt(1, |s.pages|, 0, 0)])
    case BeginScan(p, query) => s.(procs := s.procs[p := ScanAt(query, 1, |s.pages|, [])])
    case ReadMeta(p) => DoReadMeta(s, p, s.procs[p].e)
    case TryFirst(p) => DoTryFirst(s, p, s.procs[p].e, s.procs[p].blk)
    case LockMeta(p) => DoLockMeta(s, p, s.procs[p].e, s.procs[p].tried)
    case TryNext(p) => DoTryNext(s, p, s.procs[p].e, s.procs[p].n)
    case StartAlloc(p) => s.(procs := s.procs[p := InsertAlloc(s.procs[p].e)])
    case GetFree(p, b) => DoGetFree(s, p, s.procs[p].e, b)
    case Extend(p) =>
      s.(pages := s.pages + [New], locks := s.locks[|s.pages| := p],
         procs := s.procs[p := InsertHold(s.procs[p].e, |s.pages|)])
    case Finish(p) => DoFinish(s, p, s.procs[p].e, s.procs[p].blk)
    case VacuumPage(p) => DoVacuumPage(s, p, s.procs[p])
    case VacuumMeta(p) =>
      var found := s.procs[p].found;
      s.(meta := Meta(0, |found|, found + s.meta.notFull[|found|..]), procs := s.procs[p := VacuumDone])
    case CleanupPage(p) => DoCleanupPage(s, p, s.procs[p])
    case CleanupEnd(p) => s.(procs := s.procs[p := CleanupDone(s.procs[p].free, s.procs[p].tuples)])
    case ScanPage(p) =>
      var proc := s.procs[p];
      var found := Tids(Filter(Matcher(proc.query), s.pages[proc.next].Live()));
      s.(procs := s.procs[p := proc.(next := proc.next + 1, hits := proc.hits + found)])
    case ScanEnd(p) => s.(procs := s.procs[p := ScanDone(s.procs[p].hits)])
    case DriftFsm(fsm) => s.(fsm := fsm)
  }

  /** Under a shared metapage lock: take the first listed page, if any. */
  ghost function DoReadMeta(s: State, p: Pid, e: Entry): State {
    if s.meta.nStart < s.meta.nEnd <= |s.meta.notFull| then
      s.(procs := s.procs[p := InsertFirst(e, s.meta.notFull[s.meta.nStart])])
    else
      s.(procs := s.procs[p := InsertWait(e, None)])
  }

  /** Without the metapage lock: insert into the remembered page if it fits. */
  ghost function DoTryFirst(s: State, p: Pid, e: Entry, blk: Block): State
    requires blk < |s.pages|
  {
    match Insert(s.words, s.pages[blk], e)
    case Some(image) => s.(pages := s.pages[blk := image], procs := s.procs[p := InsertDone(e)])
    case None => s.(procs := s.procs[p := InsertWait(e, Some(blk))])
  }

  /** Lock the metapage exclusively and skip the page already tried. */
  ghost function DoLockMeta(s: State, p: Pid, e: Entry, tried: Option<Block>): State {
    var n := s.meta.nStart;
    var skip := n < s.meta.nEnd <= |s.meta.notFull| && tried == Some(s.meta.notFull[n]);
    s.(metaOwner := Some(p), procs := s.procs[p := InsertSearch(e, if skip then n + 1 else n)])
  }

  /** Holding the metapage: try the next listed page. */
  ghost function DoTryNext(s: State, p: Pid, e: Entry, n: nat): State
    requires n < |s.meta.notFull| && s.meta.notFull[n] < |s.pages|
  {
    var blk := s.meta.notFull[n];
    match Insert(s.words, s.pages[blk], e)
    case Some(image) =>
      s.(pages := s.pages[blk := image], meta := s.meta.(nStart := n), metaOwner := None,
         procs := s.procs[p := InsertDone(e)])
    case None => s.(procs := s.procs[p := InsertSearch(e, n + 1)])
  }

  /**
   Take a block from the free-space map.  It is used only if its lock is free
   and the page turns out new or deleted; block 0 is locked by the inserter.
   */
  ghost function DoGetFree(s: State, p: Pid, e: Entry, b: Block): State
    requires b < |s.pages|
  {
    if b != 0 && b !in s.locks && s.pages[b].Reusable() then
      s.(fsm := s.fsm - {b}, locks := s.locks[b := p], procs := s.procs[p := InsertHold(e, b)])
    else
      s.(fsm := s.fsm - {b})
  }

  /** Reinitialise the held page, whatever is on it, and list it alone. */
  ghost function DoFinish(s: State, p: Pid, e: Entry, b: Block): State
    requires b < |s.pages| && 0 < |s.meta.notFull|
  {
    s.(pages := s.pages[b := Data([e], false)], meta := Meta(0, 1, s.meta.notFull[0 := b]), metaOwner := None,
       locks := s.locks - {b}, procs := s.procs[p := InsertDone(e)])
  }

  ghost function DoVacuumPage(s: State, p: Pid, proc: Proc): State
    requires proc.VacuumAt? && proc.next < |s.pages|
  {
    var image := Vacuum(proc.callback, s.pages[proc.next]);
    var listed := NotFull(s.words, image) && |proc.found| < META_BLOCKS;
    s.(pages := s.pages[proc.next := image],
       procs := s.procs[p := proc.(next := proc.next + 1,
                                   found := if listed then proc.found + [proc.next] else proc.found)])
  }

  ghost function DoCleanupPage(s: State, p: Pid, proc: Proc): State
    requires proc.CleanupAt? && proc.next < |s.pages|
  {
    var page := s.pages[proc.next];
    if page.Reusable() then
      s.(fsm := s.fsm + {proc.next}, procs := s.procs[p := proc.(next := proc.next + 1, free := proc.free + 1)])
    else
      s.(procs := s.procs[p := proc.(next := proc.next + 1, tuples := proc.tuples + |page.entries|)])
  }

  // ----- invariant

  ghost predicate OwnsMeta(proc: Proc) {
    proc.InsertSearch? || proc.InsertAlloc? || proc.InsertHold?
  }

  ghost predicate ProcOk(s: State, p: Pid, proc: Proc) {
    && (OwnsMeta(proc) ==> s.metaOwner == Some(p))
    && match proc {
      case InsertFirst(_, blk) => 1 <= blk < |s.pages|
      case InsertSearch(_, n) => n <= s.meta.nEnd
      case InsertHold(_, b) => 1 <= b < |s.pages| && b in s.locks && s.locks[b] == p && s.pages[b].Reusable()
      case VacuumAt(_, next, npages, found) =>
        1 <= next <= npages <= |s.pages| && GoodList(found, next)
      case CleanupAt(next, npages, _, _) => 1 <= next <= npages <= |s.pages|
      case ScanAt(_, next, npages, _) => 1 <= next <= npages <= |s.pages|
      case _ => true
    }
  }

  /** Strictly increasing data blocks below `bound`, fitting on the metapage. */
  ghost predicate GoodList(found: seq<Block>, bound: nat) {
    && |found| <= META_BLOCKS
    && StrictlyIncreasing(found)
    && forall i :: 0 <= i < |found| ==> 1 <= found[i] < bound
  }

  ghost predicate PagesOk(s: State) {
    && 1 <= s.words <= MAX_WORDS
    && 1 <= |s.pages|
    && s.pages[0] == Data([], false)
    && forall b :: 0 <= b < |s.pages| ==> s.pages[b].Valid(s.words)
  }

  ghost predicate MetaOk(s: State) {
    && |s.meta.notFull| == META_BLOCKS
    && s.meta.nStart <= s.meta.nEnd <= META_BLOCKS
    && forall i :: 0 <= i < s.meta.nEnd ==> 1 <= s.meta.notFull[i] < |s.pages|
  }

  ghost predicate LocksOk(s: State) {
    && (s.metaOwner.Some? ==> s.metaOwner.value in s.procs && OwnsMeta(s.procs[s.metaOwner.value]))
    && forall b | b in s.locks ::
         s.locks[b] in s.procs && s.procs[s.locks[b]].InsertHold? && s.procs[s.locks[b]].blk == b
  }

  ghost predicate Inv(s: State) {
    && PagesOk(s)
    && MetaOk(s)
    && LocksOk(s)
    && forall p | p in s.procs :: ProcOk(s, p, s.procs[p])
  }

  /** A freshly built index satisfies the invariant. */
  lemma BuiltIndexOk(words: nat, built: seq<Image>)
    requires 1 <= words <= MAX_WORDS
    requires forall i :: 0 <= i < |built| ==> built[i].Valid(words)
    ensures Inv(State(words, [Data([], false)] + built, Meta(0, 0, seq(META_BLOCKS, _ => 0)), None, map[], {}, map[]))
  {
  }

  /** Every step of every backend keeps the invariant. */
  lemma StepKeepsInv(s: State, step: Step)
    requires Inv(s) && Enabled(s, step)
    ensures Inv(Apply(s, step))
  {
    match step
    case TryFirst(p) => TryFirstKeepsInv(s, p);
    case TryNext(p) => TryNextKeepsInv(s, p);
    case LockMeta(p) => LockMetaKeepsInv(s, p);
    case Finish(p) => FinishKeepsInv(s, p);
    case Extend(p) => ExtendKeepsInv(s, p);
    case VacuumPage(p) => VacuumPageKeepsInv(s, p);
    case VacuumMeta(p) => VacuumMetaKeepsInv(s, p);
    case GetFree(p, b) => GetFreeKeepsInv(s, p, b);
    case ReadMeta(p) => ReadMetaKeepsInv(s, p);
    case BeginInsert(_, _) => BeginKeepsInv(s, step);
    case BeginVacuum(_, _) => BeginKeepsInv(s, step);
    case BeginCleanup(_) => BeginKeepsInv(s, step);
    case BeginScan(_, _) => BeginKeepsInv(s, step);
    case CleanupPage(_) => CleanupKeepsInv(s, step);
    case CleanupEnd(_) => CleanupKeepsInv(s, step);
    case _ => LocalStepKeepsInv(s, step);
  }

  /** A step that changes only the stepping backend and the free-space map, and neither takes nor drops a lock. */
  lemma ProcStepKeepsInv(s: State, s': State, p: Pid, proc: Proc)
    requires Inv(s) && s' == s.(procs := s.procs[p := proc], fsm := s'.fsm)
    requires ProcOk(s, p, proc)
    requires p in s.procs ==> !s.procs[p].InsertHold? && (OwnsMeta(s.procs[p]) ==> OwnsMeta(proc))
    ensures Inv(s')
  {
    forall q | q in s'.procs ensures ProcOk(s', q, s'.procs[q]) {
      assert q != p ==> ProcOk(s, q, s.procs[q]);
    }
  }

  lemma BeginKeepsInv(s: State, step: Step)
    requires Inv(s) && Enabled(s, step)
    requires step.BeginInsert? || step.BeginVacuum? || step.BeginCleanup? || step.BeginScan?
    ensures Inv(Apply(s, step))
  {
    assert ProcOk(s, step.p, Apply(s, step).procs[step.p]);
    hide Inv, ProcOk;
    ProcStepKeepsInv(s, Apply(s, step), step.p, Apply(s, step).procs[step.p]);
  }

  /** Steps that change only the stepping backend or the free-space map. */
  lemma LocalStepKeepsInv(s: State, step: Step)
    requires Inv(s) && Enabled(s, step)
    requires step.StartAlloc? || step.ScanPage? || step.ScanEnd? || step.DriftFsm?
    ensures Inv(Apply(s, step))
  {
    if step.DriftFsm? {
      DriftKeepsInv(s, step);
    } else {
      assert ProcOk(s, step.p, s.procs[step.p]);
      assert ProcOk(s, step.p, Apply(s, step).procs[step.p]);
      hide Inv, ProcOk;
      ProcStepKeepsInv(s, Apply(s, step), step.p, Apply(s, step).procs[step.p]);
    }
  }

  lemma DriftKeepsInv(s: State, step: Step)
    requires Inv(s) && step.DriftFsm?
    ensures Inv(Apply(s, step))
  {
    forall q | q in s.procs ensures ProcOk(Apply(s, step), q, s.procs[q]) {
      assert ProcOk(s, q, s.procs[q]);
    }
  }

  lemma CleanupKeepsInv(s: State, step: Step)
    requires Inv(s) && Enabled(s, step)
    requires step.CleanupPage? || step.CleanupEnd?
    ensures Inv(Apply(s, step))
  {
    assert ProcOk(s, step.p, s.procs[step.p]);
    assert ProcOk(s, step.p, Apply(s, step).procs[step.p]);
    hide Inv, ProcOk;
    ProcStepKeepsInv(s, Apply(s, step), step.p, Apply(s, step).procs[step.p]);
  }

  lemma GetFreeKeepsInv(s: State, p: Pid, b: Block)
    requires Inv(s) && Enabled(s, GetFree(p, b))
    ensures Inv(Apply(s, GetFree(p, b)))
  {
  }

  lemma ReadMetaKeepsInv(s: State, p: Pid)
    requires Inv(s) && Enabled(s, ReadMeta(p))
    ensures Inv(Apply(s, ReadMeta(p)))
  {
  }

  lemma TryFirstKeepsInv(s: State, p: Pid)
    requires Inv(s) && Enabled(s, TryFirst(p))
    ensures Inv(Apply(s, TryFirst(p)))
  {
  }

  lemma TryNextKeepsInv(s: State, p: Pid)
    requires Inv(s) && Enabled(s, TryNext(p))
    ensures Inv(Apply(s, TryNext(p)))
  {
  }

  lemma LockMetaKeepsInv(s: State, p: Pid)
    requires Inv(s) && Enabled(s, LockMeta(p))
    ensures Inv(Apply(s, LockMeta(p)))
  {
  }

  lemma FinishKeepsInv(s: State, p: Pid)
    requires Inv(s) && Enabled(s, Finish(p))
    ensures Inv(Apply(s, Finish(p)))
  {
    CapacityPositive(s.words);
  }

  lemma ExtendKeepsInv(s: State, p: Pid)
    requires Inv(s) && Enabled(s, Extend(p))
    ensures Inv(Apply(s, Extend(p)))
  {
  }

  lemma VacuumPageKeepsInv(s: State, p: Pid)
    requires Inv(s) && Enabled(s, VacuumPage(p))
    ensures Inv(Apply(s, VacuumPage(p)))
  {
  }

  lemma VacuumMetaKeepsInv(s: State, p: Pid)
    requires Inv(s) && Enabled(s, VacuumMeta(p))
    ensures Inv(Apply(s, VacuumMeta(p)))
  {
  }
}
