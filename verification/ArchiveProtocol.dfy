/**
 Archiving one file: copy to a temporary name, sync, rename, sync the
 directory.  The file system keeps what programs see apart from what a crash
 would leave behind: an unsynced file may come back with any contents, and a
 directory entry changed since the directory was last synced may come back as
 any value it has had since then.  The process may crash between any two
 steps, and any system call may fail.
 */
module ArchiveProtocol {
  import opened Prelude
  import opened ArchiveCompare

  type Ino = nat
  datatype Name = Destination | Temporary(id: nat)
  datatype File = File(data: seq<byte>, synced: bool)

  /** The archiver's position in its protocol. */
  datatype Phase =
    | Idle
    | Stat                          // about to look for the destination
    | Compare                       // destination exists
    | SyncArchived                  // identical: sync it ...
    | SyncArchivedDirectory         // ... and the directory, then succeed
    | Create                        // about to create the temporary file
    | Copy(temp: Name, ino: Ino, done: nat)
    | SyncTemp(temp: Name, ino: Ino)
    | Rename(temp: Name, ino: Ino)
    | SyncRenamed(ino: Ino)
    | SyncDirectory(ino: Ino)
    | Succeeded
    | Failed

  /**
   `dir` is the directory as programs see it, `disk` the entries each name may
   have after a crash; a name missing from `disk` is certainly absent.
   */
  datatype State = State(
    files: map<Ino, File>,
    dir: map<Name, Ino>,
    disk: map<Name, set<Option<Ino>>>,
    phase: Phase)

  datatype Step =
    | Begin
    | StatMissing
    | StatFound
    | CompareSame
    | CompareDifferent
    | SyncArchivedFile
    | SyncArchivedDir
    | CreateTemp(temp: Name, ino: Ino)
    | CopyChunk(n: nat)
    | CopyEnd
    | SyncTempFile
    | RenameTemp
    | SyncNewFile
    | SyncNewDir
    | Fail(partial: seq<byte>)
    | Crash(dir': map<Name, Ino>, contents: Ino -> seq<byte>)

  function Possible(s: State, name: Name): set<Option<Ino>> {
    if name in s.disk then s.disk[name] else {None}
  }

  function Entry(dir: map<Name, Ino>, name: Name): Option<Ino> {
    if name in dir then Some(dir[name]) else None
  }

  /** Change one directory entry; the new value may now survive a crash too. */
  function SetEntry(s: State, name: Name, entry: Option<Ino>): State {
    s.(dir := if entry.Some? then s.dir[name := entry.value] else s.dir - {name},
       disk := s.disk[name := Possible(s, name) + {entry}])
  }

  function SyncFile(s: State, ino: Ino): State
    requires ino in s.files
  {
    s.(files := s.files[ino := s.files[ino].(synced := true)])
  }

  /** After a directory sync every entry is certain. */
  function SyncDir(s: State): State {
    s.(disk := map name | name in s.dir :: {Some(s.dir[name])})
  }

  predicate Running(phase: Phase) {
    !phase.Idle? && !phase.Succeeded? && !phase.Failed?
  }

  ghost predicate Enabled(src: seq<byte>, s: State, step: Step) {
    match step
    case Begin => !Running(s.phase)
    case StatMissing => s.phase.Stat? && Destination !in s.dir
    case StatFound => s.phase.Stat? && Destination in s.dir
    case CompareSame => s.phase.Compare? && DestinationHolds(s, src)
    case CompareDifferent => s.phase.Compare? && !DestinationHolds(s, src)
    case SyncArchivedFile => s.phase.SyncArchived? && Destination in s.dir && s.dir[Destination] in s.files
    case SyncArchivedDir => s.phase.SyncArchivedDirectory?
    case CreateTemp(temp, ino) => s.phase.Create? && temp.Temporary? && temp !in s.dir && ino !in s.files
    case CopyChunk(n) => s.phase.Copy? && s.phase.ino in s.files && 1 <= n <= |src| - s.phase.done
    case CopyEnd => s.phase.Copy? && s.phase.done == |src|
    case SyncTempFile => s.phase.SyncTemp? && s.phase.ino in s.files
    case RenameTemp => s.phase.Rename?
    case SyncNewFile => s.phase.SyncRenamed? && s.phase.ino in s.files
    case SyncNewDir => s.phase.SyncDirectory?
    case Fail(_) => Running(s.phase)
    case Crash(dir', _) => forall name :: Entry(dir', name) in Possible(s, name)
  }

  /** The destination exists and its contents, as a reader sees them, are `data`. */
  ghost predicate DestinationHolds(s: State, data: seq<byte>) {
    Destination in s.dir && s.dir[Destination] in s.files && s.files[s.dir[Destination]].data == data
  }

  ghost function Apply(src: seq<byte>, s: State, step: Step): State
    requires Enabled(src, s, step)
  {
    match step
    case Begin => s.(phase := Stat)
    case StatMissing => s.(phase := Create)
    case StatFound => s.(phase := Compare)
    case CompareSame => s.(phase := SyncArchived)
    case CompareDifferent => s.(phase := Failed)
    case SyncArchivedFile => SyncFile(s, s.dir[Destination]).(phase := SyncArchivedDirectory)
    case SyncArchivedDir => SyncDir(s).(phase := Succeeded)
    case CreateTemp(temp, ino) =>
      SetEntry(s, temp, Some(ino)).(files := s.files[ino := File([], false)], phase := Copy(temp, ino, 0))
    case CopyChunk(n) =>
      var done := s.phase.done;
      s.(files := s.files[s.phase.ino := File(s.files[s.phase.ino].data + src[done..done + n], false)],
         phase := s.phase.(done := done + n))
    case CopyEnd => s.(phase := SyncTemp(s.phase.temp, s.phase.ino))
    case SyncTempFile => SyncFile(s, s.phase.ino).(phase := Rename(s.phase.temp, s.phase.ino))
    case RenameTemp =>
      SetEntry(SetEntry(s, s.phase.temp, None), Destination, Some(s.phase.ino)).(phase := SyncRenamed(s.phase.ino))
    case SyncNewFile => SyncFile(s, s.phase.ino).(phase := SyncDirectory(s.phase.ino))
    case SyncNewDir => SyncDir(s).(phase := Succeeded)
    case Fail(partial) =>
      if s.phase.Copy? && s.phase.ino in s.files then
        // a short write may have reached the temporary file
        s.(files := s.files[s.phase.ino := File(s.files[s.phase.ino].data + partial, false)], phase := Failed)
      else s.(phase := Failed)
    case Crash(dir', contents) =>
      State(map ino | ino in s.files :: if s.files[ino].synced then s.files[ino] else File(contents(ino), true),
            dir', map name | name in dir' :: {Some(dir'[name])}, Idle)
  }

  // ----- invariant

  /**
   An inode that may stand at the destination: the one found there at the
   start, in whatever state, or a synced copy of the source.
   */
  ghost predicate Archived(src: seq<byte>, found: Option<Ino>, s: State, ino: Ino) {
    ino in s.files && (found == Some(ino) || s.files[ino] == File(src, true))
  }

  /** The inode is the attempt's own, not reachable through the destination. */
  ghost predicate Private(found: Option<Ino>, s: State, ino: Ino) {
    ino in s.files && found != Some(ino) && Destination !in s.dir
  }

  ghost predicate PhaseOk(src: seq<byte>, found: Option<Ino>, s: State) {
    match s.phase
    case SyncArchived => DestinationHolds(s, src)
    case SyncArchivedDirectory => DestinationHolds(s, src) && s.files[s.dir[Destination]].synced
    case Create => Destination !in s.dir
    case Copy(temp, ino, done) =>
      temp.Temporary? && Private(found, s, ino) && 0 <= done <= |src| && s.files[ino].data == src[..done]
    case SyncTemp(temp, ino) => temp.Temporary? && Private(found, s, ino) && s.files[ino].data == src
    case Rename(temp, ino) => temp.Temporary? && Private(found, s, ino) && s.files[ino] == File(src, true)
    case SyncRenamed(ino) => Entry(s.dir, Destination) == Some(ino) && DestinationHolds(s, src)
    case SyncDirectory(ino) => DestinationHolds(s, src) && s.files[s.dir[Destination]].synced
    case Succeeded => Durable(src, s)
    case _ => true
  }

  ghost predicate Inv(src: seq<byte>, found: Option<Ino>, s: State) {
    && (forall name :: Entry(s.dir, name) in Possible(s, name))
    && (forall ino | Some(ino) in Possible(s, Destination) :: Archived(src, found, s, ino))
    && (Destination !in s.dir ==> Possible(s, Destination) == {None})
    && (found.Some? ==> found.value in s.files)
    && PhaseOk(src, found, s)
  }

  /** The copy is in place and no crash can take it away. */
  ghost predicate Durable(src: seq<byte>, s: State) {
    && DestinationHolds(s, src)
    && s.files[s.dir[Destination]].synced
    && Possible(s, Destination) == {Some(s.dir[Destination])}
  }

  /**
   Nothing in progress.  A destination may exist already, possibly unsynced and
   under a directory entry that a crash could still lose.
   */
  ghost predicate Initial(s: State) {
    && s.phase.Idle?
    && (forall name :: Entry(s.dir, name) in Possible(s, name))
    && (if Destination in s.dir
        then s.dir[Destination] in s.files && Possible(s, Destination) <= {None, Some(s.dir[Destination])}
        else Possible(s, Destination) == {None})
  }

  lemma InitialInv(src: seq<byte>, s: State)
    requires Initial(s)
    ensures Inv(src, Entry(s.dir, Destination), s)
  {
  }

  /** Every step, system-call failure and crash keeps the invariant. */
  lemma StepKeepsInv(src: seq<byte>, found: Option<Ino>, s: State, step: Step)
    requires Inv(src, found, s) && Enabled(src, s, step)
    ensures Inv(src, found, Apply(src, s, step))
  {
    match step
    case Crash(_, _) => CrashKeepsInv(src, found, s, step);
    case CreateTemp(_, _) => NamingKeepsInv(src, found, s, step);
    case RenameTemp => NamingKeepsInv(src, found, s, step);
    case SyncArchivedDir => SyncDirKeepsInv(src, found, s, step);
    case SyncNewDir => SyncDirKeepsInv(src, found, s, step);
    case _ =>
  }

  lemma CrashKeepsInv(src: seq<byte>, found: Option<Ino>, s: State, step: Step)
    requires Inv(src, found, s) && Enabled(src, s, step) && step.Crash?
    ensures Inv(src, found, Apply(src, s, step))
  {
    var s' := Apply(src, s, step);
    assert Entry(step.dir', Destination) in Possible(s, Destination);
    assert Possible(s', Destination) == {Entry(s'.dir, Destination)};
  }

  lemma NamingKeepsInv(src: seq<byte>, found: Option<Ino>, s: State, step: Step)
    requires Inv(src, found, s) && Enabled(src, s, step) && (step.CreateTemp? || step.RenameTemp?)
    ensures Inv(src, found, Apply(src, s, step))
  {
    var s' := Apply(src, s, step);
    forall name
      ensures Entry(s'.dir, name) in Possible(s', name)
    {
      assert Entry(s.dir, name) in Possible(s, name);
    }
  }

  lemma SyncDirKeepsInv(src: seq<byte>, found: Option<Ino>, s: State, step: Step)
    requires Inv(src, found, s) && Enabled(src, s, step) && (step.SyncArchivedDir? || step.SyncNewDir?)
    ensures Inv(src, found, Apply(src, s, step))
  {
    assert Entry(s.dir, Destination) in Possible(s, Destination);
  }

  /** Short of a crash, an existing destination is never replaced or written to. */
  lemma DestinationUntouched(src: seq<byte>, found: Option<Ino>, s: State, step: Step)
    requires Inv(src, found, s) && Enabled(src, s, step) && !step.Crash?
    requires Destination in s.dir
    ensures var s' := Apply(src, s, step);
            && Entry(s'.dir, Destination) == Entry(s.dir, Destination)
            && s'.files[s'.dir[Destination]].data == s.files[s.dir[Destination]].data
  {
  }

  /** A durable copy stays durable, crashes included. */
  lemma DurableForever(src: seq<byte>, found: Option<Ino>, s: State, step: Step)
    requires Inv(src, found, s) && Enabled(src, s, step)
    requires Durable(src, s)
    ensures Durable(src, Apply(src, s, step))
  {
    var s' := Apply(src, s, step);
    if step.Crash? {
      assert Entry(step.dir', Destination) in Possible(s, Destination);
    }
  }

  // ----- runs

  ghost predicate Executable(src: seq<byte>, s: State, steps: seq<Step>)
    decreases |steps|, 0
  {
    steps == [] ||
    (var n := |steps| - 1;
     Executable(src, s, steps[..n]) && Enabled(src, Run(src, s, steps[..n]), steps[n]))
  }

  ghost function Run(src: seq<byte>, s: State, steps: seq<Step>): State
    requires Executable(src, s, steps)
    decreases |steps|, 1
  {
    if steps == [] then s
    else
      var n := |steps| - 1;
      Apply(src, Run(src, s, steps[..n]), steps[n])
  }

  lemma {:induction false} RunKeepsInv(src: seq<byte>, found: Option<Ino>, s: State, steps: seq<Step>)
    requires Inv(src, found, s) && Executable(src, s, steps)
    ensures Inv(src, found, Run(src, s, steps))
  {
    if steps != [] {
      var n := |steps| - 1;
      RunKeepsInv(src, found, s, steps[..n]);
      StepKeepsInv(src, found, Run(src, s, steps[..n]), steps[n]);
    }
  }

  /**
   Over every run with any crashes, failures and retries, a destination that
   was absent at the start is absent or byte-identical to the source, and
   success means that a durable identical copy is in place.
   */
  lemma AbsentOrIdentical(src: seq<byte>, s: State, steps: seq<Step>)
    requires Initial(s) && Executable(src, s, steps)
    ensures var after := Run(src, s, steps);
            && (Destination !in s.dir ==> Destination !in after.dir || DestinationHolds(after, src))
            && (after.phase.Succeeded? ==> Durable(src, after))
  {
    InitialInv(src, s);
    RunKeepsInv(src, Entry(s.dir, Destination), s, steps);
    var after := Run(src, s, steps);
    if Destination in after.dir {
      assert Entry(after.dir, Destination) in Possible(after, Destination);
    }
  }

  // ----- retries

  ghost predicate CrashFree(steps: seq<Step>) {
    forall i :: 0 <= i < |steps| ==> !steps[i].Crash?
  }

  ghost predicate Reaches(src: seq<byte>, s: State, steps: seq<Step>, after: State) {
    Executable(src, s, steps) && CrashFree(steps) && Run(src, s, steps) == after
  }

  ghost predicate CanSucceed(src: seq<byte>, s: State) {
    exists steps: seq<Step> ::
      Executable(src, s, steps) && CrashFree(steps) && Run(src, s, steps).phase.Succeeded?
  }

  /** Extend a run by one step. */
  lemma Then(src: seq<byte>, s: State, steps: seq<Step>, now: State, step: Step)
      returns (longer: seq<Step>, next: State)
    requires Reaches(src, s, steps, now) && Enabled(src, now, step) && !step.Crash?
    ensures next == Apply(src, now, step) && Reaches(src, s, longer, next)
  {
    longer := steps + [step];
    next := Apply(src, now, step);
    assert longer[..|longer| - 1] == steps;
  }

  lemma {:induction false} UpperBound(numbers: set<nat>) returns (bound: nat)
    ensures forall x | x in numbers :: x < bound
  {
    if numbers == {} {
      bound := 0;
    } else {
      var x :| x in numbers;
      var rest := UpperBound(numbers - {x});
      assert forall y | y in numbers :: y == x || y in numbers - {x};
      bound := if x < rest then rest else x + 1;
    }
  }

  lemma FreshNames(s: State) returns (temp: Name, ino: Ino)
    ensures temp.Temporary? && temp !in s.dir && ino !in s.files
  {
    var ids := set name | name in s.dir && name.Temporary? :: name.id;
    var id := UpperBound(ids);
    temp := Temporary(id);
    assert temp in s.dir ==> id in ids;
    ino := UpperBound(s.files.Keys);
  }

  /** With nothing at the destination, an attempt can get as far as the rename. */
  lemma CopyReachesRename(src: seq<byte>, found: Option<Ino>, s: State) returns (steps: seq<Step>, now: State)
    requires Inv(src, found, s) && !Running(s.phase)
    requires Destination !in s.dir
    ensures Reaches(src, s, steps, now) && now.phase.Rename?
  {
    var temp, ino := FreshNames(s);
    steps, now := Then(src, s, [], s, Begin);
    steps, now := Then(src, s, steps, now, StatMissing);
    steps, now := Then(src, s, steps, now, CreateTemp(temp, ino));
    if src != [] {
      steps, now := Then(src, s, steps, now, CopyChunk(|src|));
    }
    steps, now := Then(src, s, steps, now, CopyEnd);
    steps, now := Then(src, s, steps, now, SyncTempFile);
  }

  /** A retry with nothing at the destination succeeds if no call fails. */
  lemma CopySucceeds(src: seq<byte>, found: Option<Ino>, s: State)
    requires Inv(src, found, s) && !Running(s.phase)
    requires Destination !in s.dir
    ensures CanSucceed(src, s)
  {
    var steps, now := CopyReachesRename(src, found, s);
    RunKeepsInv(src, found, s, steps);
    steps, now := Then(src, s, steps, now, RenameTemp);
    steps, now := Then(src, s, steps, now, SyncNewFile);
    steps, now := Then(src, s, steps, now, SyncNewDir);
  }

  /** A retry that finds an identical file succeeds if no call fails. */
  lemma IdenticalSucceeds(src: seq<byte>, found: Option<Ino>, s: State)
    requires Inv(src, found, s) && !Running(s.phase)
    requires DestinationHolds(s, src)
    ensures CanSucceed(src, s)
  {
    var steps, now := Then(src, s, [], s, Begin);
    steps, now := Then(src, s, steps, now, StatFound);
    steps, now := Then(src, s, steps, now, CompareSame);
    steps, now := Then(src, s, steps, now, SyncArchivedFile);
    steps, now := Then(src, s, steps, now, SyncArchivedDir);
  }

  lemma {:induction false} UntouchedByRun(src: seq<byte>, found: Option<Ino>, s: State, steps: seq<Step>)
    requires Inv(src, found, s) && Executable(src, s, steps) && CrashFree(steps)
    requires Destination in s.dir
    ensures var after := Run(src, s, steps);
            && Entry(after.dir, Destination) == Entry(s.dir, Destination)
            && s.dir[Destination] in s.files && s.dir[Destination] in after.files
            && after.files[s.dir[Destination]].data == s.files[s.dir[Destination]].data
  {
    assert Entry(s.dir, Destination) in Possible(s, Destination);
    if steps != [] {
      var n := |steps| - 1;
      UntouchedByRun(src, found, s, steps[..n]);
      RunKeepsInv(src, found, s, steps[..n]);
      DestinationUntouched(src, found, Run(src, s, steps[..n]), steps[n]);
    }
  }

  /**
   After any crash or failure a retry can succeed if and only if the
   destination is absent or already identical; a different file there is never
   overwritten and blocks archiving for good.
   */
  lemma RetrySucceedsIff(src: seq<byte>, found: Option<Ino>, s: State)
    requires Inv(src, found, s) && !Running(s.phase)
    ensures CanSucceed(src, s) <==> Destination !in s.dir || DestinationHolds(s, src)
  {
    if Destination !in s.dir {
      CopySucceeds(src, found, s);
    } else if DestinationHolds(s, src) {
      IdenticalSucceeds(src, found, s);
    } else {
      forall steps: seq<Step> | Executable(src, s, steps) && CrashFree(steps)
        ensures !Run(src, s, steps).phase.Succeeded?
      {
        UntouchedByRun(src, found, s, steps);
        RunKeepsInv(src, found, s, steps);
      }
    }
  }
}
