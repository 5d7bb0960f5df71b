/**
 The state file: Save replaces it through a temporary file, one system call at a time, and Load
 reads it back. Between any two system calls the process may die or the machine may lose power.
 */
module Store {
  import opened Wrappers
  import opened Snapshots

  /** What a file holds: one complete snapshot, or something that does not parse. */
  datatype Contents = Whole(snap: Snapshot) | Torn

  /** A file is synced once its contents would survive a power loss. */
  datatype File = File(data: Contents, synced: bool)

  /** The directory itself: not there, made but not yet durable in its parent, or there for good. */
  datatype Home = Missing | Unsynced | Settled

  /**
   The directory of the state file. `target` is the entry at the state path, `temps` the temporary
   files. A change inside the directory is not durable until the directory is synced, so a power loss
   may bring back any of `survivors` at the state path. No call of Save syncs the parent directory.
   */
  datatype Directory = Directory(
    target: Option<File>, temps: map<string, File>, survivors: set<Option<File>>, home: Home)

  /** How far a Save has come: the next system call to make, or the result. */
  datatype Stage =
    | MakeDir
    | Marshal
    | CreateTemp
    | Write(tmp: string)
    | Sync(tmp: string)
    | Close(tmp: string)
    | Rename(tmp: string)
    | SyncDir(tmp: string)
    | Remove(tmp: string, ok: bool)
    | Returned(ok: bool)

  datatype Job = Job(snap: Snapshot, stage: Stage)

  function NewFile(snap: Snapshot): Option<File> {
    Some(File(Whole(snap), true))
  }

  /** The temporary file the current stage works on is the one Save created. */
  predicate CanStep(dir: Directory, job: Job, ok: bool, unused: string) {
    match job.stage
    case CreateTemp => ok ==> unused !in dir.temps
    case Returned(_) => false
    case _ => true
  }

  /**
   One system call of Save, which succeeds or fails; `unused` is the name CreateTemp picks. A failed
   write leaves an incomplete file. The result of Remove is ignored, and so is that of the directory
   sync.
   */
  function SaveStep(dir: Directory, job: Job, ok: bool, unused: string): (Directory, Job) {
    match job.stage
    case MakeDir =>
      (if ok && dir.home.Missing? then dir.(home := Unsynced) else dir,
       job.(stage := if ok then Marshal else Returned(false)))
    case Marshal => (dir, job.(stage := if ok then CreateTemp else Returned(false)))
    case CreateTemp =>
      if ok then
        (dir.(temps := dir.temps[unused := File(Torn, false)]), job.(stage := Write(unused)))
      else
        (dir, job.(stage := Returned(false)))
    case Write(tmp) =>
      if ok then
        (dir.(temps := dir.temps[tmp := File(Whole(job.snap), false)]), job.(stage := Sync(tmp)))
      else
        (dir, job.(stage := Remove(tmp, false)))
    case Sync(tmp) =>
      if ok && tmp in dir.temps then
        (dir.(temps := dir.temps[tmp := dir.temps[tmp].(synced := true)]), job.(stage := Close(tmp)))
      else
        (dir, job.(stage := Remove(tmp, false)))
    case Close(tmp) => (dir, job.(stage := if ok then Rename(tmp) else Remove(tmp, false)))
    case Rename(tmp) =>
      if ok && tmp in dir.temps then
        var moved := Some(dir.temps[tmp]);
        (Directory(moved, dir.temps - {tmp}, dir.survivors + {moved}, dir.home), job.(stage := SyncDir(tmp)))
      else
        (dir, job.(stage := Remove(tmp, false)))
    case SyncDir(tmp) =>
      (if ok then dir.(survivors := {dir.target}) else dir, job.(stage := Remove(tmp, true)))
    case Remove(tmp, result) =>
      (if ok then dir.(temps := dir.temps - {tmp}) else dir, job.(stage := Returned(result)))
    case Returned(_) => (dir, job)
  }

  /** What a power loss may leave at the state path; if the directory is not durable, nothing. */
  predicate Survives(dir: Directory, kept: Option<File>) {
    kept in dir.survivors || (!dir.home.Settled? && kept == None)
  }

  /** A dying process leaves all it wrote, the temporary file included. A power loss is worse. */
  function AfterPowerLoss(dir: Directory, kept: Option<File>): Directory {
    var entry := if kept.Some? && !kept.value.synced then Some(File(Torn, true)) else kept;
    Directory(entry, map[], {entry}, if dir.home.Settled? || entry.Some? then Settled else Missing)
  }

  /** A missing file is a first run; anything present must be a readable snapshot of this schema. */
  function Load(target: Option<File>): Result<Snapshot> {
    match target
    case None => Success(EMPTY_SNAPSHOT)
    case Some(File(Torn, _)) => Failure
    case Some(File(Whole(s), _)) => if s.schemaVersion != SCHEMA_VERSION then Failure else Success(s)
  }

  /**
   Load succeeds exactly when there is no file, which means no locks and no floors, or a complete one of
   this schema, which it returns. A torn file never passes for an empty one.
   */
  lemma LoadSucceedsIff(target: Option<File>)
    ensures Load(target).Success?
       <==> target.None? || (target.value.data.Whole? && target.value.data.snap.schemaVersion == SCHEMA_VERSION)
    ensures Load(target).Success? && target.Some? ==> target.value.data == Whole(Load(target).value)
    ensures target.None? ==> Load(target) == Success(Snapshot(SCHEMA_VERSION, map[]))
  {
  }

  // What holds at every point of a Save

  ghost predicate Sound(dir: Directory) {
    dir.target in dir.survivors
  }

  /** What is at the state path, and what may be there after a power loss, once a Save has come to `stage`. */
  ghost predicate Progress(before: Directory, snap: Snapshot, dir: Directory, stage: Stage) {
    && (dir.home.Settled? <==> before.home.Settled?)
    && if stage.SyncDir? || (stage.Remove? && stage.ok) || (stage.Returned? && stage.ok) then
      && dir.target == NewFile(snap)
      && {dir.target} <= dir.survivors <= before.survivors + {dir.target}
    else
      dir.target == before.target && dir.survivors == before.survivors
  }

  predicate OnlyTemp(before: Directory, dir: Directory, tmp: string) {
    tmp !in before.temps && tmp in dir.temps && dir.temps - {tmp} == before.temps
  }

  /** No temporary file is new except the one being worked on, and that one is as complete as it should be. */
  ghost predicate TempsInHand(before: Directory, snap: Snapshot, dir: Directory, stage: Stage) {
    match stage
    case MakeDir => dir.temps == before.temps
    case Marshal => dir.temps == before.temps
    case CreateTemp => dir.temps == before.temps
    case Write(tmp) => OnlyTemp(before, dir, tmp)
    case Sync(tmp) => OnlyTemp(before, dir, tmp) && dir.temps[tmp].data == Whole(snap)
    case Close(tmp) => OnlyTemp(before, dir, tmp) && Some(dir.temps[tmp]) == NewFile(snap)
    case Rename(tmp) => OnlyTemp(before, dir, tmp) && Some(dir.temps[tmp]) == NewFile(snap)
    case SyncDir(tmp) => tmp !in before.temps && dir.temps == before.temps
    case Remove(tmp, ok) =>
      tmp !in before.temps && dir.temps - {tmp} == before.temps && (tmp in dir.temps <==> !ok)
    case Returned(ok) => ok ==> dir.temps == before.temps
  }

  lemma SaveBegins(dir: Directory, snap: Snapshot)
    requires Sound(dir)
    ensures Progress(dir, snap, dir, MakeDir) && TempsInHand(dir, snap, dir, MakeDir)
  {
  }

  /** Every system call of a Save, successful or not, keeps both. */
  lemma SaveStepProgress(before: Directory, dir: Directory, job: Job, ok: bool, unused: string)
    requires Sound(before) && CanStep(dir, job, ok, unused)
    requires Progress(before, job.snap, dir, job.stage) && TempsInHand(before, job.snap, dir, job.stage)
    ensures var (dir', job') := SaveStep(dir, job, ok, unused);
            && job'.snap == job.snap
            && Progress(before, job.snap, dir', job'.stage) && TempsInHand(before, job.snap, dir', job'.stage)
            && Sound(dir')
  {
  }

  // A whole Save

  /** The outcome of each system call of a Save, and the temporary name picked. */
  datatype Faults = Faults(
    tmp: string, mkdir: bool, marshal: bool, create: bool, write: bool, sync: bool,
    close: bool, rename: bool, syncDir: bool, remove: bool)

  predicate OutcomeAt(stage: Stage, f: Faults) {
    match stage
    case MakeDir => f.mkdir
    case Marshal => f.marshal
    case CreateTemp => f.create
    case Write(_) => f.write
    case Sync(_) => f.sync
    case Close(_) => f.close
    case Rename(_) => f.rename
    case SyncDir(_) => f.syncDir
    case Remove(_, _) => f.remove
    case Returned(_) => true
  }

  function CallsLeft(stage: Stage): nat {
    match stage
    case MakeDir => 9
    case Marshal => 8
    case CreateTemp => 7
    case Write(_) => 6
    case Sync(_) => 5
    case Close(_) => 4
    case Rename(_) => 3
    case SyncDir(_) => 2
    case Remove(_, _) => 1
    case Returned(_) => 0
  }

  /** The states of the directory after each system call, up to the return. */
  function Trail(dir: Directory, job: Job, f: Faults): (trail: seq<(Directory, Job)>)
    ensures !job.stage.Returned? ==> trail != []
    decreases CallsLeft(job.stage)
  {
    if job.stage.Returned? then []
    else
      var (dir', job') := SaveStep(dir, job, OutcomeAt(job.stage, f), f.tmp);
      [(dir', job')] + Trail(dir', job', f)
  }

  /** The state a Save that has come to `job` leaves behind, and what it returns. */
  function Final(dir: Directory, job: Job, f: Faults): (Directory, bool) {
    if job.stage.Returned? then (dir, job.stage.ok)
    else
      var trail := Trail(dir, job, f);
      var (last, end) := trail[|trail| - 1];
      (last, end.stage.Returned? && end.stage.ok)
  }

  function Saved(dir: Directory, snap: Snapshot, f: Faults): (Directory, bool) {
    Final(dir, Job(snap, MakeDir), f)
  }

  /** Every call from `stage` up to the rename succeeds. */
  predicate Succeeds(stage: Stage, f: Faults) {
    match stage
    case Remove(_, ok) => ok
    case Returned(ok) => ok
    case _ =>
      var left := CallsLeft(stage);
      && (left >= 9 ==> f.mkdir) && (left >= 8 ==> f.marshal) && (left >= 7 ==> f.create)
      && (left >= 6 ==> f.write) && (left >= 5 ==> f.sync) && (left >= 4 ==> f.close) && (left >= 3 ==> f.rename)
  }

  /** The temporary file was created, was not renamed, and could not be removed. */
  predicate LeavesTemp(f: Faults, ok: bool) {
    f.mkdir && f.marshal && f.create && !ok && !f.remove
  }

  predicate Done(stage: Stage) {
    (stage.Remove? && stage.ok) || (stage.Returned? && stage.ok)
  }

  /** What the outcomes of its calls say about a Save that has come to `stage`. */
  ghost predicate Foresees(before: Directory, f: Faults, dir: Directory, stage: Stage) {
    && (Succeeds(stage, f) <==> Succeeds(MakeDir, f))
    && (stage.SyncDir? ==> dir.survivors == before.survivors + {dir.target})
    && (Done(stage) ==> dir.survivors == if f.syncDir then {dir.target} else before.survivors + {dir.target})
  }

  /** The calls that lead to the temporary file have succeeded, and it is left behind only as LeavesTemp says. */
  ghost predicate Tidies(before: Directory, f: Faults, dir: Directory, stage: Stage) {
    var left := CallsLeft(stage);
    && (1 <= left <= 8 ==> f.mkdir) && (1 <= left <= 7 ==> f.marshal) && (1 <= left <= 6 ==> f.create)
    && (stage.Returned? ==> (dir.temps != before.temps <==> LeavesTemp(f, stage.ok)))
  }

  lemma StepTidies(before: Directory, f: Faults, dir: Directory, job: Job)
    requires !job.stage.Returned? && TempsInHand(before, job.snap, dir, job.stage) && Tidies(before, f, dir, job.stage)
    ensures var (dir', job') := SaveStep(dir, job, OutcomeAt(job.stage, f), f.tmp);
            Tidies(before, f, dir', job'.stage)
  {
  }

  lemma StepForesees(before: Directory, f: Faults, dir: Directory, job: Job)
    requires !job.stage.Returned? && CanStep(dir, job, OutcomeAt(job.stage, f), f.tmp)
    requires Progress(before, job.snap, dir, job.stage) && TempsInHand(before, job.snap, dir, job.stage)
    requires Foresees(before, f, dir, job.stage)
    ensures var (dir', job') := SaveStep(dir, job, OutcomeAt(job.stage, f), f.tmp);
            && CallsLeft(job'.stage) < CallsLeft(job.stage)
            && (CallsLeft(job'.stage) >= 7 ==> dir'.temps == dir.temps)
            && Foresees(before, f, dir', job'.stage)
  {
    match job.stage {
      case Rename(tmp) =>
      case SyncDir(tmp) =>
      case Remove(tmp, ok) =>
      case _ =>
    }
  }

  ghost predicate Passes(before: Directory, snap: Snapshot, f: Faults, dir: Directory, stage: Stage) {
    && Sound(dir) && Progress(before, snap, dir, stage) && TempsInHand(before, snap, dir, stage)
    && Foresees(before, f, dir, stage) && Tidies(before, f, dir, stage)
  }

  lemma StepPasses(before: Directory, f: Faults, dir: Directory, job: Job)
    requires Sound(before) && !job.stage.Returned? && (CallsLeft(job.stage) >= 7 ==> f.tmp !in dir.temps)
    requires Passes(before, job.snap, f, dir, job.stage)
    ensures var (dir', job') := SaveStep(dir, job, OutcomeAt(job.stage, f), f.tmp);
            && job'.snap == job.snap && CallsLeft(job'.stage) < CallsLeft(job.stage)
            && (CallsLeft(job'.stage) >= 7 ==> dir'.temps == dir.temps)
            && Passes(before, job.snap, f, dir', job'.stage)
  {
    SaveStepProgress(before, dir, job, OutcomeAt(job.stage, f), f.tmp);
    StepForesees(before, f, dir, job);
    StepTidies(before, f, dir, job);
  }

  lemma {:induction false} TrailPasses(before: Directory, f: Faults, dir: Directory, job: Job)
    requires Sound(before) && !job.stage.Returned? && (CallsLeft(job.stage) >= 7 ==> f.tmp !in dir.temps)
    requires Passes(before, job.snap, f, dir, job.stage)
    ensures var trail := Trail(dir, job, f);
            && trail != [] && trail[|trail| - 1].1.stage.Returned?
            && forall k | 0 <= k < |trail| :: Passes(before, job.snap, f, trail[k].0, trail[k].1.stage)
    decreases CallsLeft(job.stage)
  {
    StepPasses(before, f, dir, job);
    var (dir', job') := SaveStep(dir, job, OutcomeAt(job.stage, f), f.tmp);
    if !job'.stage.Returned? {
      TrailPasses(before, f, dir', job');
    }
  }

  /**
   Save is crash-atomic. At every point of it, whichever calls fail, the state path holds what it
   held before or the complete new snapshot, and a power loss can only bring back something that was
   possible before, or the complete new snapshot. An error return leaves the old file in place, a nil
   return the new one. A temporary file stays behind exactly when a Save that had created it failed
   and could not remove it.
   */
  lemma SaveIsCrashAtomic(dir: Directory, snap: Snapshot, f: Faults)
    requires Sound(dir) && f.tmp !in dir.temps
    ensures forall k | 0 <= k < |Trail(dir, Job(snap, MakeDir), f)| ::
              var d := Trail(dir, Job(snap, MakeDir), f)[k].0;
              && (d.target == dir.target || d.target == NewFile(snap))
              && d.target in d.survivors && d.survivors <= dir.survivors + {NewFile(snap)}
    ensures var (d, ok) := Saved(dir, snap, f);
            && (if ok then d.target == NewFile(snap) else d.target == dir.target && d.survivors == dir.survivors)
            && (d.temps != dir.temps <==> f.mkdir && f.marshal && f.create && !ok && !f.remove)
  {
    SaveBegins(dir, snap);
    TrailPasses(dir, f, dir, Job(snap, MakeDir));
    var trail := Trail(dir, Job(snap, MakeDir), f);
    forall k | 0 <= k < |trail|
      ensures trail[k].0.target == dir.target || trail[k].0.target == NewFile(snap)
      ensures trail[k].0.target in trail[k].0.survivors && trail[k].0.survivors <= dir.survivors + {NewFile(snap)}
    {
      assert Passes(dir, snap, f, trail[k].0, trail[k].1.stage);
    }
  }

  /**
   Save returns nil exactly when every call up to the rename succeeds. A nil return is then proof
   against power loss exactly when two things Save does not see to are given: the directory sync
   succeeded (or nothing but this very snapshot could have come back anyway), and the directory was
   durable in its parent before, since one that Save has just made can vanish as a whole.
   */
  lemma NilIsDurableIff(dir: Directory, snap: Snapshot, f: Faults)
    requires Sound(dir) && f.tmp !in dir.temps
    ensures var (d, ok) := Saved(dir, snap, f);
            && (ok <==> Succeeds(MakeDir, f))
            && (ok ==> ((forall kept | Survives(d, kept) :: AfterPowerLoss(d, kept).target == NewFile(snap))
                        <==> (f.syncDir || dir.survivors <= {NewFile(snap)}) && dir.home.Settled?))
  {
    SaveBegins(dir, snap);
    TrailPasses(dir, f, dir, Job(snap, MakeDir));
    var (d, ok) := Saved(dir, snap, f);
    assert Passes(dir, snap, f, d, Returned(ok));
    if ok && !dir.home.Settled? {
      assert Survives(d, None) && AfterPowerLoss(d, None).target != NewFile(snap);
    } else if ok && !f.syncDir && !(dir.survivors <= {NewFile(snap)}) {
      var other :| other in dir.survivors && other != NewFile(snap);
      assert Survives(d, other) && AfterPowerLoss(d, other).target != NewFile(snap);
    }
  }
}
