/**
 What holds between memory, disk and the grants ever returned, in every reachable state of the
 system: after any labels, with any clock readings, failing hooks, crashes and restarts.
 */
module SystemInvariant {
  import opened Wrappers
  import opened Leases
  import opened LockState
  import opened Snapshots
  import opened TableSpec
  import opened Store
  import opened Fence
  import opened System

  // The parts of the invariant

  ghost predicate GoodTable(m: Locks, steps: nat) {
    && Legal(m) && TokensAreFloors(m)
    && forall n :: Floor(m, n) <= steps
  }

  ghost predicate Readable(image: Option<File>) {
    image.Some? ==> image.value.data.Whole? && image.value.synced && Written(image.value.data.snap)
  }

  /** The file can be loaded, and its floors cover every grant ever returned. */
  ghost predicate GoodImage(image: Option<File>, grants: seq<Grant>, steps: nat) {
    && Readable(image)
    && (forall n :: DiskFloor(image, n) <= steps)
    && (forall i | 0 <= i < |grants| :: grants[i].token <= DiskFloor(image, grants[i].name))
  }

  /** A lease that is just being granted is not on disk yet. */
  predicate Excused(p: Option<Pending>, name: string) {
    p.Some? && p.value.Granting? && p.value.lease.name == name
  }

  /** The file in place is never ahead of memory, and agrees with it on who owns what. */
  ghost predicate Agrees(m: Locks, image: Option<File>, p: Option<Pending>) {
    && (forall n :: DiskFloor(image, n) <= Floor(m, n))
    && (forall n | HasLease(m, n) && !Excused(p, n) :: OnDisk(LeaseOf(m, n), image, n))
  }

  predicate OnDisk(l: Lease, image: Option<File>, name: string) {
    && name in SnapIn(image).locks
    && SnapIn(image).locks[name].holder == l.holder
    && SnapIn(image).locks[name].token == l.token
  }

  ghost predicate GoodImages(c: Setting, dir: Directory, grants: seq<Grant>, steps: nat) {
    forall image | Recoverable(c, dir, image) :: GoodImage(image, grants, steps)
  }

  /** Nothing a power loss could bring back is ahead of the file in place. */
  ghost predicate Newest(c: Setting, dir: Directory) {
    forall image, n | Recoverable(c, dir, image) :: DiskFloor(image, n) <= DiskFloor(dir.target, n)
  }

  /** Each grant is strictly above all earlier grants of its lock. */
  ghost predicate GrantsIncrease(grants: seq<Grant>) {
    forall i, j | 0 <= i < j < |grants| && grants[i].name == grants[j].name :: grants[i].token < grants[j].token
  }

  /** The token being granted is the lock's floor and above all its grants. */
  ghost predicate FreshGrant(p: Pending, m: Locks, grants: seq<Grant>) {
    p.Granting? ==>
      && p.lease.name in m && Floor(m, p.lease.name) == p.lease.token
      && (HasLease(m, p.lease.name) ==> LeaseOf(m, p.lease.name) == p.lease)
      && forall i | 0 <= i < |grants| && grants[i].name == p.lease.name :: grants[i].token < p.lease.token
  }

  /** How far a persist has come, and what it started from. */
  ghost predicate GoodSave(c: Setting, dir: Directory, m: Locks, job: Job, before: Directory) {
    && Sound(before) && job.snap == Encode(m)
    && Progress(before, job.snap, dir, job.stage) && TempsInHand(before, job.snap, dir, job.stage)
    && (c.power && Done(job.stage) ==> dir.survivors == {dir.target})
  }

  /** The fence of a lock is the token of its last accepted write, and they never went down. */
  ghost predicate GoodFence(fence: map<string, Token>, writes: seq<nat>, grants: seq<Grant>, steps: nat) {
    && (forall k | 0 <= k < |writes| ::
          writes[k] < |grants| && grants[writes[k]].name in fence
          && grants[writes[k]].token <= fence[grants[writes[k]].name])
    && (forall k, l | 0 <= k < l < |writes| && grants[writes[k]].name == grants[writes[l]].name ::
          grants[writes[k]].token <= grants[writes[l]].token)
    && (forall n | n in fence :: fence[n] <= steps && FencedBy(fence[n], n, writes, grants))
  }

  ghost predicate FencedBy(token: Token, name: string, writes: seq<nat>, grants: seq<Grant>) {
    exists k :: 0 <= k < |writes| && writes[k] < |grants|
                && grants[writes[k]].name == name && grants[writes[k]].token == token
  }

  /** Between memory, disk and grants. */
  ghost predicate Durable(c: Setting, w: World) {
    && Sound(w.dir) && (c.power ==> w.dir.home.Settled?)
    && GrantsIncrease(w.grants)
    && match w.phase
       case Down => GoodImages(c, w.dir, w.grants, w.steps) && Newest(c, w.dir)
       case Idle(m) =>
         && GoodImages(c, w.dir, w.grants, w.steps) && Newest(c, w.dir)
         && GoodTable(m, w.steps) && Agrees(m, w.dir.target, None)
       case Saving(m, job, p, before) =>
         && GoodTable(m, w.steps) && GoodSave(c, w.dir, m, job, before) && FreshGrant(p, m, w.grants)
         && GoodImages(c, before, w.grants, w.steps) && Newest(c, before) && Agrees(m, before.target, Some(p))
  }

  /** Between grants and the fenced resource. */
  ghost predicate Fenced(w: World) {
    GoodFence(w.fence, w.writes, w.grants, w.steps)
  }

  // The file being written

  lemma NewImageIsGood(m: Locks, previous: Option<File>, grants: seq<Grant>, steps: nat, p: Option<Pending>)
    requires GoodTable(m, steps) && GoodImage(previous, grants, steps) && Agrees(m, previous, p)
    ensures GoodImage(NewFile(Encode(m)), grants, steps) && Agrees(m, NewFile(Encode(m)), None)
  {
    var image := NewFile(Encode(m));
    EncodeIsWritten(m);
    forall n
      ensures DiskFloor(image, n) == Floor(m, n)
    {
      EncodeKeepsFloor(m, n);
    }
    forall i | 0 <= i < |grants|
      ensures grants[i].token <= DiskFloor(image, grants[i].name)
    {
      assert DiskFloor(previous, grants[i].name) <= Floor(m, grants[i].name);
    }
    forall n | HasLease(m, n)
      ensures OnDisk(LeaseOf(m, n), image, n)
    {
      HolderMarksLease(m, n);
    }
  }

  /** During a persist, whatever a restart might find is an old image or the complete new one. */
  lemma ImagesDuringSave(c: Setting, w: World, image: Option<File>)
    requires Durable(c, w) && w.phase.Saving? && Recoverable(c, w.dir, image)
    ensures Recoverable(c, w.phase.before, image) || image == NewFile(w.phase.job.snap)
    ensures Done(w.phase.job.stage) ==> image == NewFile(w.phase.job.snap)
    ensures GoodImage(image, w.grants, w.steps)
    ensures forall n :: DiskFloor(image, n) <= DiskFloor(w.dir.target, n) <= Floor(w.phase.locks, n)
  {
    var (before, m) := (w.phase.before, w.phase.locks);
    assert Recoverable(c, before, before.target);
    NewImageIsGood(m, before.target, w.grants, w.steps, Some(w.phase.pending));
    forall n
      ensures DiskFloor(NewFile(w.phase.job.snap), n) == Floor(m, n)
    {
      EncodeKeepsFloor(m, n);
    }
  }

  /** In every phase, whatever a restart might find is good. */
  lemma ImagesAreGood(c: Setting, w: World)
    requires Durable(c, w)
    ensures GoodImages(c, w.dir, w.grants, w.steps) && Newest(c, w.dir)
  {
    if w.phase.Saving? {
      forall image | Recoverable(c, w.dir, image)
        ensures GoodImage(image, w.grants, w.steps) && forall n :: DiskFloor(image, n) <= DiskFloor(w.dir.target, n)
      {
        ImagesDuringSave(c, w, image);
      }
    }
  }

  // Each label keeps the invariant

  lemma GoodTableHasRoom(m: Locks, steps: nat)
    requires GoodTable(m, steps) && steps < MAX_INT64
    ensures RoomToGrow(m)
  {
    forall n | n in m ensures m[n].lastToken < MAX_TOKEN { assert Floor(m, n) <= steps; }
  }

  lemma StepsGrow(c: Setting, w: World)
    requires Durable(c, w)
    ensures Durable(c, w.(steps := w.steps + 1))
  {}

  /** A decision that changes nothing on disk: floors stay, leases stay, lose their holder or move their deadline. */
  lemma AnswerAt(b: Bounds, m: Locks, req: TableSpec.Request, now: Time, n: string)
    requires Decide(b, m, req, now).Answer?
    ensures var m' := Decide(b, m, req, now).locks;
            && Floor(m', n) == Floor(m, n)
            && (HasLease(m', n) ==> HasLease(m, n) && LeaseOf(m', n) == LeaseOf(m, n))
  {
  }

  /** A decision to be persisted: the same, except for the lock being granted. */
  lemma CommitAt(b: Bounds, m: Locks, req: TableSpec.Request, now: Time, n: string)
    requires Decide(b, m, req, now).Commit?
    ensures var d := Decide(b, m, req, now);
            if Excused(Some(d.pending), n) then
              && n in d.locks && d.locks[n] == Entry(NextToken(Floor(m, n)), Some(d.pending.lease))
              && d.pending.lease.token == NextToken(Floor(m, n))
            else
              && Floor(d.locks, n) == Floor(m, n)
              && (HasLease(d.locks, n) ==> HasLease(m, n) && SameGrant(LeaseOf(d.locks, n), LeaseOf(m, n)))
  {
  }

  lemma AnswerKeepsAgreement(b: Bounds, m: Locks, req: TableSpec.Request, now: Time, image: Option<File>)
    requires Decide(b, m, req, now).Answer? && Agrees(m, image, None)
    ensures Agrees(Decide(b, m, req, now).locks, image, None)
  {
    var m' := Decide(b, m, req, now).locks;
    forall n
      ensures DiskFloor(image, n) <= Floor(m', n)
      ensures HasLease(m', n) ==> OnDisk(LeaseOf(m', n), image, n)
    {
      AnswerAt(b, m, req, now, n);
    }
  }

  lemma CommitKeepsAgreement(b: Bounds, m: Locks, req: TableSpec.Request, now: Time, hookNow: Time, image: Option<File>)
    requires Decide(b, m, req, now).Commit? && Agrees(m, image, None) && RoomToGrow(m)
    ensures var d := Decide(b, m, req, now);
            Agrees(PruneAll(d.locks, hookNow), image, Some(d.pending))
  {
    var d := Decide(b, m, req, now);
    var m' := PruneAll(d.locks, hookNow);
    forall n
      ensures DiskFloor(image, n) <= Floor(m', n)
      ensures HasLease(m', n) && !Excused(Some(d.pending), n) ==> OnDisk(LeaseOf(m', n), image, n)
    {
      CommitAt(b, m, req, now, n);
    }
  }

  lemma DecideKeepsGoodTable(b: Bounds, m: Locks, req: TableSpec.Request, now: Time, hookNow: Time, steps: nat)
    requires GoodTable(m, steps) && steps < MAX_INT64
    ensures GoodTable(Decide(b, m, req, now).locks, steps + 1)
    ensures GoodTable(PruneAll(Decide(b, m, req, now).locks, hookNow), steps + 1)
  {
    GoodTableHasRoom(m, steps);
    DecideKeeps(b, m, req, now);
    PruneAllKeeps(Decide(b, m, req, now).locks, hookNow);
  }

  lemma CommitIsFresh(
    b: Bounds, m: Locks, req: TableSpec.Request, now: Time, hookNow: Time, image: Option<File>, grants: seq<Grant>,
    steps: nat)
    requires Decide(b, m, req, now).Commit? && RoomToGrow(m)
    requires GoodImage(image, grants, steps) && Agrees(m, image, None)
    ensures var d := Decide(b, m, req, now);
            FreshGrant(d.pending, PruneAll(d.locks, hookNow), grants)
  {
    var d := Decide(b, m, req, now);
    if d.pending.Granting? {
      var name := d.pending.lease.name;
      CommitAt(b, m, req, now, name);
      forall i | 0 <= i < |grants| && grants[i].name == name
        ensures grants[i].token < d.pending.lease.token
      {
        assert grants[i].token <= DiskFloor(image, name) <= Floor(m, name);
      }
    }
  }

  lemma RequestKeeps(c: Setting, w: World, l: Label)
    requires Durable(c, w) && l.Request? && Enabled(c, w, l) && w.steps < MAX_INT64
    ensures Durable(c, Apply(c, w, l))
  {
    StepsGrow(c, w);
    var m, s := w.phase.locks, w.steps + 1;
    DecideKeepsGoodTable(c.bounds, m, l.req, l.now, l.hookNow, w.steps);
    var d := Decide(c.bounds, m, l.req, l.now);
    if d.Answer? {
      AnswerKeepsAgreement(c.bounds, m, l.req, l.now, w.dir.target);
    } else {
      GoodTableHasRoom(m, w.steps);
      var m' := PruneAll(d.locks, l.hookNow);
      assert Recoverable(c, w.dir, w.dir.target);
      CommitIsFresh(c.bounds, m, l.req, l.now, l.hookNow, w.dir.target, w.grants, w.steps);
      SaveBegins(w.dir, Encode(m'));
      CommitKeepsAgreement(c.bounds, m, l.req, l.now, l.hookNow, w.dir.target);
    }
  }

  lemma SystemCallKeeps(c: Setting, w: World, l: Label)
    requires Durable(c, w) && l.SystemCall? && Enabled(c, w, l)
    ensures Durable(c, Apply(c, w, l))
  {
    StepsGrow(c, w);
    SaveStepProgress(w.phase.before, w.dir, w.phase.job, l.ok, l.unused);
    DurableOnceDone(c, w, l);
  }

  lemma DurableOnceDone(c: Setting, w: World, l: Label)
    requires Durable(c, w) && l.SystemCall? && Enabled(c, w, l)
    ensures var (dir, job) := SaveStep(w.dir, w.phase.job, l.ok, l.unused);
            c.power && Done(job.stage) ==> dir.survivors == {dir.target}
  {
  }

  /** Burning a token, or leaving the table alone, keeps every agreement with the old file. */
  lemma FinishKeepsAgreement(m: Locks, p: Pending, saved: bool, image: Option<File>)
    requires Agrees(m, image, Some(p)) && (p.Granting? ==> !saved)
    ensures Agrees(Finish(m, p, saved).0, image, None)
  {
    var m' := Finish(m, p, saved).0;
    forall n
      ensures DiskFloor(image, n) <= Floor(m', n)
      ensures HasLease(m', n) ==> OnDisk(LeaseOf(m', n), image, n)
    {
      assert HasLease(m', n) ==> HasLease(m, n) && !Excused(Some(p), n) && LeaseOf(m', n) == LeaseOf(m, n);
    }
  }

  /** A persist that failed left the old files in place; memory still agrees with the one that counts. */
  lemma ReturnFailureKeeps(c: Setting, w: World, l: Label)
    requires Durable(c, w) && l.Return? && Enabled(c, w, l) && !w.phase.job.stage.ok
    ensures Durable(c, Apply(c, w, l))
  {
    StepsGrow(c, w);
    var (m, p) := (w.phase.locks, w.phase.pending);
    FinishKeeps(m, p, false);
    FinishKeepsAgreement(m, p, false, w.dir.target);
    assert forall image | Recoverable(c, w.dir, image) :: Recoverable(c, w.phase.before, image);
  }

  /** The grants after a call has returned, if its persist succeeded. */
  function GrantsAfter(grants: seq<Grant>, p: Pending): seq<Grant> {
    match p
    case Granting(l) => grants + [Grant(l.name, l.holder, l.token)]
    case _ => grants
  }

  lemma NewGrantIsGood(m: Locks, p: Pending, grants: seq<Grant>, steps: nat)
    requires GoodTable(m, steps) && GoodImage(NewFile(Encode(m)), grants, steps)
    requires GrantsIncrease(grants) && FreshGrant(p, m, grants)
    ensures GrantsIncrease(GrantsAfter(grants, p)) && GoodImage(NewFile(Encode(m)), GrantsAfter(grants, p), steps)
  {
    if p.Granting? {
      EncodeKeepsFloor(m, p.lease.name);
    }
  }

  lemma OnlyNewImage(c: Setting, w: World)
    requires Durable(c, w) && w.phase.Saving? && w.phase.job.stage == Returned(true)
    ensures w.dir.target == NewFile(Encode(w.phase.locks))
    ensures forall image | Recoverable(c, w.dir, image) :: image == w.dir.target
    ensures GoodImage(w.dir.target, w.grants, w.steps) && Agrees(w.phase.locks, w.dir.target, None)
  {
    assert Recoverable(c, w.phase.before, w.phase.before.target);
    NewImageIsGood(w.phase.locks, w.phase.before.target, w.grants, w.steps, Some(w.phase.pending));
  }

  /** A persist that succeeded: the only file a restart can find is the snapshot of the whole table. */
  lemma ReturnSuccessKeeps(c: Setting, w: World, l: Label)
    requires Durable(c, w) && l.Return? && Enabled(c, w, l) && w.phase.job.stage.ok
    ensures Durable(c, Apply(c, w, l))
  {
    StepsGrow(c, w);
    var w1 := w.(steps := w.steps + 1);
    OnlyNewImage(c, w1);
    NewGrantIsGood(w.phase.locks, w.phase.pending, w.grants, w1.steps);
    var w' := Apply(c, w, l);
    assert w'.phase == Idle(w.phase.locks) && w'.grants == GrantsAfter(w.grants, w.phase.pending);
  }

  lemma FenceIgnoresLaterGrants(fence: map<string, Token>, writes: seq<nat>, grants: seq<Grant>, p: Pending, steps: nat)
    requires GoodFence(fence, writes, grants, steps)
    ensures GoodFence(fence, writes, GrantsAfter(grants, p), steps)
  {
    var more := GrantsAfter(grants, p);
    assert forall i | 0 <= i < |grants| :: more[i] == grants[i];
    assert forall k | 0 <= k < |writes| :: more[writes[k]] == grants[writes[k]];
    forall n | n in fence
      ensures FencedBy(fence[n], n, writes, more)
    {
      var k :| 0 <= k < |writes| && writes[k] < |grants|
               && grants[writes[k]].name == n && grants[writes[k]].token == fence[n];
      assert more[writes[k]] == grants[writes[k]];
    }
  }

  lemma CrashKeeps(c: Setting, w: World, l: Label)
    requires Durable(c, w) && (l.Crash? || l.PowerLoss?) && Enabled(c, w, l)
    ensures Durable(c, Apply(c, w, l))
  {
    StepsGrow(c, w);
    ImagesAreGood(c, w.(steps := w.steps + 1));
    if l.PowerLoss? {
      assert Recoverable(c, w.dir, l.kept);
      assert GoodImage(l.kept, w.grants, w.steps + 1);
    }
  }

  /** A good image always boots, into a good table that agrees with it. */
  lemma GoodImageBoots(image: Option<File>, grants: seq<Grant>, steps: nat)
    requires GoodImage(image, grants, steps)
    ensures Boot(image).Success?
    ensures GoodTable(Boot(image).value, steps) && Agrees(Boot(image).value, image, None)
    ensures forall n :: Floor(Boot(image).value, n) == DiskFloor(image, n)
  {
    var s := SnapIn(image);
    WrittenIsRestorable(s);
    var m := RestoredLocks(s);
    assert Boot(image) == Success(m);
    forall n
      ensures Floor(m, n) <= steps
    {
      assert DiskFloor(image, n) <= steps;
    }
  }

  lemma RestartKeeps(c: Setting, w: World, l: Label)
    requires Durable(c, w) && l.Restart? && Enabled(c, w, l)
    ensures Durable(c, Apply(c, w, l))
  {
    StepsGrow(c, w);
    assert Recoverable(c, w.dir, w.dir.target);
    GoodImageBoots(w.dir.target, w.grants, w.steps + 1);
  }

  /** Every grant ever returned is at or below the floor on disk, and that is at most the number of steps. */
  lemma GrantIsOnDisk(c: Setting, w: World, g: nat)
    requires Durable(c, w) && g < |w.grants|
    ensures w.grants[g].token <= DiskFloor(w.dir.target, w.grants[g].name) <= w.steps
  {
    ImagesAreGood(c, w);
    assert Recoverable(c, w.dir, w.dir.target);
  }

  lemma AcceptKeepsFence(fence: map<string, Token>, writes: seq<nat>, grants: seq<Grant>, steps: nat, g: nat)
    requires GoodFence(fence, writes, grants, steps) && g < |grants| && grants[g].token <= steps
    requires grants[g].name in fence ==> fence[grants[g].name] <= grants[g].token
    ensures GoodFence(fence[grants[g].name := grants[g].token], writes + [g], grants, steps)
  {
    var (name, token) := (grants[g].name, grants[g].token);
    var (fence', writes') := (fence[name := token], writes + [g]);
    assert writes'[|writes|] == g;
    forall n | n in fence'
      ensures FencedBy(fence'[n], n, writes', grants)
    {
      if n != name {
        var k :| 0 <= k < |writes| && writes[k] < |grants|
                 && grants[writes[k]].name == n && grants[writes[k]].token == fence[n];
        assert writes'[k] == writes[k];
      }
    }
  }

  lemma PassiveKeeps(c: Setting, w: World, l: Label)
    requires Durable(c, w) && (l.Stop? || l.Write? || l.Tick?) && Enabled(c, w, l)
    ensures Durable(c, Apply(c, w, l))
  {
    StepsGrow(c, w);
    var w' := Apply(c, w, l);
    assert w'.phase == w.phase && w'.dir == w.dir && w'.grants == w.grants && w'.steps == w.steps + 1;
  }

  lemma LabelKeepsDurable(c: Setting, w: World, l: Label)
    requires Durable(c, w) && Enabled(c, w, l) && w.steps < MAX_INT64
    ensures Durable(c, Apply(c, w, l))
  {
    match l
    case Request(_, _, _) => RequestKeeps(c, w, l);
    case SystemCall(_, _) => SystemCallKeeps(c, w, l);
    case Return =>
      if w.phase.job.stage.ok { ReturnSuccessKeeps(c, w, l); } else { ReturnFailureKeeps(c, w, l); }
    case Crash => CrashKeeps(c, w, l);
    case PowerLoss(_) => CrashKeeps(c, w, l);
    case Restart => RestartKeeps(c, w, l);
    case _ => PassiveKeeps(c, w, l);
  }

  predicate Accepts(w: World, g: nat) {
    g < |w.grants| && !ScriptRejects(w.grants[g].token, FenceOf(w, w.grants[g].name))
  }

  /** What a label may do to the grants and the resource. */
  ghost predicate ResourceStep(w: World, l: Label, w': World) {
    && w'.steps == w.steps + 1
    && (w'.grants == w.grants || exists p :: w'.grants == GrantsAfter(w.grants, p))
    && (if l.Write? && Accepts(w, l.grant) then
          && w'.fence == w.fence[w.grants[l.grant].name := w.grants[l.grant].token]
          && w'.writes == w.writes + [l.grant] && w'.grants == w.grants
        else
          w'.fence == w.fence && w'.writes == w.writes)
  }

  lemma ApplyToResource(c: Setting, w: World, l: Label)
    requires Enabled(c, w, l)
    ensures ResourceStep(w, l, Apply(c, w, l))
  {
    if l.Return? {
      assert Apply(c, w, l).grants == w.grants || Apply(c, w, l).grants == GrantsAfter(w.grants, w.phase.pending);
    }
  }

  lemma LabelKeepsFenced(c: Setting, w: World, l: Label, w': World)
    requires Durable(c, w) && Fenced(w) && ResourceStep(w, l, w') && w.steps < MAX_INT64
    ensures Fenced(w')
  {
    FenceWithMoreSteps(w.fence, w.writes, w.grants, w.steps);
    if l.Write? && Accepts(w, l.grant) {
      WriteKeepsFenced(c, w, l.grant);
    } else if w'.grants != w.grants {
      var p :| w'.grants == GrantsAfter(w.grants, p);
      FenceIgnoresLaterGrants(w.fence, w.writes, w.grants, p, w.steps + 1);
    }
  }

  lemma WriteKeepsFenced(c: Setting, w: World, g: nat)
    requires Durable(c, w) && Fenced(w) && Accepts(w, g) && w.steps < MAX_INT64
    ensures GoodFence(w.fence[w.grants[g].name := w.grants[g].token], w.writes + [g], w.grants, w.steps + 1)
  {
    GrantIsOnDisk(c, w, g);
    FenceWithMoreSteps(w.fence, w.writes, w.grants, w.steps);
    AcceptKeepsFence(w.fence, w.writes, w.grants, w.steps + 1, g);
  }

  lemma FenceWithMoreSteps(fence: map<string, Token>, writes: seq<nat>, grants: seq<Grant>, steps: nat)
    requires GoodFence(fence, writes, grants, steps)
    ensures GoodFence(fence, writes, grants, steps + 1)
  {
  }

  lemma RunUnfolds(c: Setting, labels: seq<Label>)
    requires labels != [] && Run(c, labels).Some?
    ensures var (before, l) := (Run(c, labels[..|labels| - 1]), labels[|labels| - 1]);
            before.Some? && Enabled(c, before.value, l) && Run(c, labels) == Some(Apply(c, before.value, l))
  {
  }

  /** Every state a run can reach, as long as the run has fewer than 2^63 labels, satisfies the invariant. */
  lemma {:induction false} RunKeeps(c: Setting, labels: seq<Label>, w: World)
    requires Run(c, labels) == Some(w) && |labels| <= MAX_INT64
    ensures Durable(c, w) && Fenced(w) && w.steps == |labels|
    decreases |labels|
  {
    if labels != [] {
      RunUnfolds(c, labels);
      var (before, l) := (Run(c, labels[..|labels| - 1]).value, labels[|labels| - 1]);
      RunKeeps(c, labels[..|labels| - 1], before);
      LabelKeepsDurable(c, before, l);
      ApplyToResource(c, before, l);
      LabelKeepsFenced(c, before, l, w);
    }
  }
}
