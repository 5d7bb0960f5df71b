/**
 What a restart forgets. A burned number and a failed release exist only in memory, so both can be
 undone by a crash; whether they are depends on the file the restart finds, and on nothing else.
 */
module Restarts {
  import opened Wrappers
  import opened Leases
  import opened LockState
  import opened Snapshots
  import opened TableSpec
  import opened Store
  import opened Fence
  import opened System
  import opened SystemInvariant
  import opened Safety

  /** A call that has to be persisted, and comes to the point where it returns that it could not be. */
  ghost predicate FailedCall(
    c: Setting, w: World, req: TableSpec.Request, now: Time, hookNow: Time, between: seq<Label>, last: World)
  {
    && w.phase.Idle?
    && (forall l | l in between :: DuringCall(l))
    && Apply(c, w, Label.Request(req, now, hookNow)).phase.Saving?
    && After(c, Apply(c, w, Label.Request(req, now, hookNow)), between) == Some(last)
    && Enabled(c, last, Return) && !last.phase.job.stage.ok
  }

  /** It leaves the file alone, and in memory what the specification says. */
  lemma FailedCallKeepsFile(
    c: Setting, w: World, req: TableSpec.Request, now: Time, hookNow: Time, between: seq<Label>, last: World)
    requires FailedCall(c, w, req, now, hookNow, between, last) && Sound(w.dir)
    ensures var w' := Apply(c, last, Return);
            && w'.phase == Idle(Call(c.bounds, true, w.phase.locks, req, Env(now, hookNow, false)).locks)
            && w'.dir.target == w.dir.target
    ensures Call(c.bounds, true, w.phase.locks, req, Env(now, hookNow, false)).reply.NotDurable?
  {
    SystemCallsAreTableCalls(c, w, req, now, hookNow, between, last);
  }

  // Files that cannot be used

  /** A complete file of this schema whose names and holders are all legal; or no file at all. */
  ghost predicate Usable(image: Option<File>) {
    image.Some? ==>
      && image.value.data.Whole? && image.value.data.snap.schemaVersion == SCHEMA_VERSION
      && forall n | n in image.value.data.snap.locks ::
           var r := image.value.data.snap.locks[n];
           ValidName(n) && (r.holder == "" || ValidHolder(r.holder))
  }

  /** A server comes up exactly from a usable file; only without any file does it start with no floors. */
  lemma BootSucceedsIff(image: Option<File>)
    ensures Boot(image).Success? <==> Usable(image)
    ensures image.None? ==> Boot(image) == Success(map[])
    ensures Boot(image).Success? && image.Some? ==>
              && Boot(image).value.Keys == image.value.data.snap.locks.Keys
              && forall n | n in image.value.data.snap.locks ::
                   RestoredFrom(Boot(image).value[n], n, image.value.data.snap.locks[n])
  {
    LoadSucceedsIff(image);
    RestoreAcceptsIff(Some(SnapIn(image)));
  }

  /** With an unusable file at the state path the service stays down, and grants and promises nothing more. */
  lemma {:induction false} UnusableFileStopsService(c: Setting, w: World, more: seq<Label>, w': World)
    requires w.phase.Down? && !Usable(w.dir.target)
    requires After(c, w, more) == Some(w') && forall l | l in more :: !l.PowerLoss?
    ensures w'.phase.Down? && w'.dir == w.dir && w'.grants == w.grants && w'.promises == w.promises
    decreases |more|
  {
    if more != [] {
      BootSucceedsIff(w.dir.target);
      UnusableFileStopsService(c, Apply(c, w, more[0]), more[1..], w');
    }
  }

  // Numbers that were burned

  /** After these calls, too few for the counter to wrap, this request is granted `name` under `k`. */
  ghost predicate EndsInGrant(
    b: Bounds, m: Locks, calls: seq<(TableSpec.Request, Env)>, req: TableSpec.Request, env: Env, name: string, k: Token)
  {
    && Floor(m, name) + |calls| < MAX_TOKEN
    && req.Acquire? && req.name == name
    && var reply := Call(b, true, Replay(b, true, m, calls), req, env).reply;
       reply.Granted? && reply.lease.token == k
  }

  /** A server that starts with the table `m` may come to grant `name` under `k`. */
  ghost predicate MayGrant(b: Bounds, m: Locks, name: string, k: Token) {
    exists calls, req, env :: EndsInGrant(b, m, calls, req, env, name, k)
  }

  lemma MayGrantAboveFloor(b: Bounds, m: Locks, name: string, k: Token, holder: string, ttl: Duration)
    requires ValidName(name) && ValidHolder(holder) && ValidTTL(b, ttl) && Floor(m, name) < k
    ensures MayGrant(b, m, name, k)
  {
    var now := if HasLease(m, name) then LeaseOf(m, name).expiresAt else 0;
    var n := k - Floor(m, name) - 1;
    BurnsRaiseFloor(b, m, name, holder, ttl, now, n);
    assert EndsInGrant(
        b, m, Burns(name, holder, ttl, now, n), Acquire(name, holder, ttl), Env(now, now, true), name, k);
  }

  lemma MayGrantIffAboveFloor(b: Bounds, m: Locks, name: string, k: Token, holder: string, ttl: Duration)
    requires ValidName(name) && ValidHolder(holder) && ValidTTL(b, ttl)
    ensures MayGrant(b, m, name, k) <==> Floor(m, name) < k
  {
    if Floor(m, name) < k {
      MayGrantAboveFloor(b, m, name, k, holder, ttl);
    }
    forall calls, req, env | EndsInGrant(b, m, calls, req, env, name, k)
      ensures Floor(m, name) < k
    {
      ReplayRaisesFloor(b, true, m, calls, name);
      GrantTakesNext(b, Replay(b, true, m, calls), req, env);
    }
  }

  /**
   Whatever file a restart finds after whatever run, the new server may grant exactly the numbers above
   the floor in that file: a number burned before comes back if and only if it is above that floor.
   */
  lemma BurnedReturnsIff(
    c: Setting, labels: seq<Label>, w: World, image: Option<File>, name: string, k: Token, holder: string,
    ttl: Duration)
    requires Run(c, labels) == Some(w) && |labels| <= MAX_INT64 && Recoverable(c, w.dir, image)
    requires ValidName(name) && ValidHolder(holder) && ValidTTL(c.bounds, ttl)
    ensures Boot(image).Success?
    ensures MayGrant(c.bounds, Boot(image).value, name, k) <==> DiskFloor(image, name) < k
  {
    ServerCanAlwaysRestart(c, labels, w, image);
    MayGrantIffAboveFloor(c.bounds, Boot(image).value, name, k, holder, ttl);
  }

  /** A number just burned always comes back: no file that a crash may leave has a floor that high. */
  lemma BurnedReturnsAtOnce(
    c: Setting, labels: seq<Label>, w: World, now: Time, hookNow: Time, name: string, holder: string, ttl: Duration,
    between: seq<Label>, last: World, refused: World, image: Option<File>)
    requires Run(c, labels) == Some(w) && |labels| < MAX_INT64
    requires FailedCall(c, w, Acquire(name, holder, ttl), now, hookNow, between, last)
    requires refused == Apply(c, last, Return)
    requires image == refused.dir.target
    ensures refused.phase.Idle? && Floor(refused.phase.locks, name) == Floor(w.phase.locks, name) + 1
    ensures Boot(image).Success?
    ensures MayGrant(c.bounds, Boot(image).value, name, Floor(refused.phase.locks, name))
  {
    RunKeeps(c, labels, w);
    GoodTableHasRoom(w.phase.locks, w.steps);
    FailedCallKeepsFile(c, w, Acquire(name, holder, ttl), now, hookNow, between, last);
    BurnKeepsNumber(c.bounds, w.phase.locks, Acquire(name, holder, ttl), Env(now, hookNow, false));
    assert Recoverable(c, w.dir, w.dir.target);
    BurnedReturnsIff(c, labels, w, image, name, Floor(refused.phase.locks, name), holder, ttl);
  }

  /** Once any later call has been saved, a burned number never comes back. */
  lemma BurnLastsOnceSaved(
    c: Setting, labels: seq<Label>, w: World, image: Option<File>, name: string, k: Token, holder: string,
    ttl: Duration)
    requires Run(c, labels) == Some(w) && |labels| <= MAX_INT64 && Recoverable(c, w.dir, image)
    requires w.phase.Saving? && w.phase.job.stage == Returned(true) && k <= Floor(w.phase.locks, name)
    requires ValidName(name) && ValidHolder(holder) && ValidTTL(c.bounds, ttl)
    ensures Boot(image).Success? && !MayGrant(c.bounds, Boot(image).value, name, k)
  {
    RunKeeps(c, labels, w);
    OnlyNewImage(c, w);
    EncodeKeepsFloor(w.phase.locks, name);
    BurnedReturnsIff(c, labels, w, image, name, k, holder, ttl);
  }

  // Leases that were released

  predicate HoldsAt(m: Locks, name: string, holder: string, token: Token, t: Time) {
    Owns(m, name, holder, token) && HeldAt(m, name, t)
  }

  /** The file has a lease on `name` for these credentials that lasts beyond `t`. */
  predicate Records(image: Option<File>, name: string, holder: string, token: Token, t: Time) {
    && name in SnapIn(image).locks
    && SnapIn(image).locks[name].holder == holder && SnapIn(image).locks[name].token == token
    && t < SnapIn(image).locks[name].expiresAtMS * MILLISECOND
  }

  /**
   Whatever file a restart finds after whatever run, these credentials hold the lock at `t` in the new
   lifetime if and only if that file has a lease of theirs whose deadline, in whole milliseconds, is
   later. Whether they were released, refused as gone or superseded before makes no difference.
   */
  lemma LeaseReturnsIff(
    c: Setting, labels: seq<Label>, w: World, image: Option<File>, name: string, holder: string, token: Token, t: Time)
    requires Run(c, labels) == Some(w) && |labels| <= MAX_INT64 && Recoverable(c, w.dir, image)
    requires ValidHolder(holder)
    ensures Boot(image).Success?
    ensures HoldsAt(Boot(image).value, name, holder, token, t) <==> Records(image, name, holder, token, t)
  {
    ServerCanAlwaysRestart(c, labels, w, image);
    RunKeeps(c, labels, w);
    ImagesAreGood(c, w);
    assert GoodImage(image, w.grants, w.steps);
    if name in SnapIn(image).locks {
      assert WrittenRecord(name, SnapIn(image).locks[name]);
      assert Boot(image).value[name] == RestoredEntry(name, SnapIn(image).locks[name]);
    }
  }

  lemma ReleaseClears(b: Bounds, m: Locks, name: string, holder: string, token: Token, env: Env)
    requires HoldsAt(m, name, holder, token, env.now) && ValidName(name) && ValidHolder(holder)
    ensures !HasLease(Call(b, true, m, Release(name, holder, token), env).locks, name)
  {
  }

  /**
   A release whose hook failed is always undone by a crash: after the restart the released lease is
   back, under the same holder and token, until the deadline in the file and no longer.
   */
  lemma FailedReleaseReturnsUntil(
    c: Setting, labels: seq<Label>, w: World, now: Time, hookNow: Time, name: string, holder: string, token: Token,
    between: seq<Label>, last: World, released: World, t: Time)
    requires Run(c, labels) == Some(w) && |labels| <= MAX_INT64 && w.phase.Idle?
    requires HoldsAt(w.phase.locks, name, holder, token, now)
    requires FailedCall(c, w, Release(name, holder, token), now, hookNow, between, last)
    requires released == Apply(c, last, Return)
    ensures released.phase.Idle? && !HasLease(released.phase.locks, name)
    ensures Boot(released.dir.target).Success? && name in SnapIn(released.dir.target).locks
    ensures HoldsAt(Boot(released.dir.target).value, name, holder, token, t)
       <==> t < SnapIn(released.dir.target).locks[name].expiresAtMS * MILLISECOND
  {
    RunKeeps(c, labels, w);
    FailedCallKeepsFile(c, w, Release(name, holder, token), now, hookNow, between, last);
    ReleaseClears(c.bounds, w.phase.locks, name, holder, token, Env(now, hookNow, false));
    MemoryAndDiskAgree(c, labels, w, name);
    assert Recoverable(c, w.dir, w.dir.target);
    assert LegalEntry(name, w.phase.locks[name]);
    LeaseReturnsIff(c, labels, w, w.dir.target, name, holder, token, t);
  }
}
