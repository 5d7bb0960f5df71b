/**
 Mutual exclusion of belief: with one monotone clock, renewals that never shorten a deadline and
 releases sent only by clients that have stopped, no two grants of a lock are believed in at once.
 */
module Exclusion {
  import opened Wrappers
  import opened Leases
  import opened LockState
  import opened Snapshots
  import opened TableSpec
  import opened Store
  import opened Fence
  import opened System
  import opened SystemInvariant

  /** The clock does not run backwards, a client stops before it releases, and a renewal does not shorten. */
  predicate Timely(w: World, l: Label) {
    match l
    case Request(req, now, hookNow) =>
      && w.clock <= now <= hookNow
      && (req.Release? && w.phase.Idle? && Owns(w.phase.locks, req.name, req.holder, req.token) ==>
            (req.name, req.token) in w.stopped)
      && (req.Renew? && w.phase.Idle? && Owns(w.phase.locks, req.name, req.holder, req.token) ==>
            LeaseOf(w.phase.locks, req.name).expiresAt <= now + req.ttl)
    case Tick(now) => w.clock <= now
    case _ => true
  }

  predicate AllTimely(c: Setting, labels: seq<Label>) {
    labels == [] ||
    (var last := |labels| - 1;
     && AllTimely(c, labels[..last])
     && (Run(c, labels[..last]).Some? ==> Timely(Run(c, labels[..last]).value, labels[last])))
  }

  /** The client has not given up, and a deadline it has been sent is still in the future. */
  predicate Live(stopped: set<(string, Token)>, clock: Time, p: Promise) {
    (p.name, p.token) !in stopped && clock < p.expiresAtMS * MILLISECOND
  }

  predicate BackedInMemory(m: Locks, p: Promise) {
    && HasLease(m, p.name)
    && LeaseOf(m, p.name).token == p.token
    && p.expiresAtMS * MILLISECOND <= LeaseOf(m, p.name).expiresAt
  }

  predicate BackedOnDisk(image: Option<File>, p: Promise) {
    && p.name in SnapIn(image).locks
    && SnapIn(image).locks[p.name].holder != ""
    && SnapIn(image).locks[p.name].token == p.token
    && p.expiresAtMS <= SnapIn(image).locks[p.name].expiresAtMS
  }

  ghost predicate MemoryBacks(m: Locks, promises: seq<Promise>, stopped: set<(string, Token)>, clock: Time) {
    forall i | 0 <= i < |promises| && Live(stopped, clock, promises[i]) :: BackedInMemory(m, promises[i])
  }

  ghost predicate ImageBacks(image: Option<File>, promises: seq<Promise>, stopped: set<(string, Token)>, clock: Time) {
    forall i | 0 <= i < |promises| && Live(stopped, clock, promises[i]) :: BackedOnDisk(image, promises[i])
  }

  ghost predicate DiskBacks(
    c: Setting, dir: Directory, promises: seq<Promise>, stopped: set<(string, Token)>, clock: Time)
  {
    forall image | Recoverable(c, dir, image) :: ImageBacks(image, promises, stopped, clock)
  }

  /** The lease about to be told to the client is the one in memory, and a new one has no rival. */
  ghost predicate PendingHeld(
    p: Pending, m: Locks, promises: seq<Promise>, stopped: set<(string, Token)>, clock: Time)
  {
    && ((p.Granting? || p.Renewing?) && clock < p.lease.expiresAt ==>
          HasLease(m, p.lease.name) && LeaseOf(m, p.lease.name) == p.lease)
    && (p.Granting? ==>
          forall i | 0 <= i < |promises| && Live(stopped, clock, promises[i]) :: promises[i].name != p.lease.name)
  }

  ghost predicate Backed(c: Setting, w: World) {
    match w.phase
    case Down => DiskBacks(c, w.dir, w.promises, w.stopped, w.clock)
    case Idle(m) =>
      && DiskBacks(c, w.dir, w.promises, w.stopped, w.clock)
      && MemoryBacks(m, w.promises, w.stopped, w.clock)
    case Saving(m, job, p, before) =>
      && DiskBacks(c, before, w.promises, w.stopped, w.clock)
      && MemoryBacks(m, w.promises, w.stopped, w.clock)
      && PendingHeld(p, m, w.promises, w.stopped, w.clock)
  }

  /** A snapshot of memory backs whatever memory backs. */
  lemma NewImageBacks(m: Locks, promises: seq<Promise>, stopped: set<(string, Token)>, clock: Time)
    requires Legal(m) && TokensAreFloors(m) && MemoryBacks(m, promises, stopped, clock)
    ensures ImageBacks(NewFile(Encode(m)), promises, stopped, clock)
  {}

  lemma ImagesBackDuringSave(c: Setting, w: World, image: Option<File>)
    requires Durable(c, w) && Backed(c, w) && w.phase.Saving? && Recoverable(c, w.dir, image)
    ensures ImageBacks(image, w.promises, w.stopped, w.clock)
  {
    ImagesDuringSave(c, w, image);
    NewImageBacks(w.phase.locks, w.promises, w.stopped, w.clock);
  }

  lemma DiskAlwaysBacks(c: Setting, w: World)
    requires Durable(c, w) && Backed(c, w)
    ensures DiskBacks(c, w.dir, w.promises, w.stopped, w.clock)
  {
    if w.phase.Saving? {
      forall image | Recoverable(c, w.dir, image)
        ensures ImageBacks(image, w.promises, w.stopped, w.clock)
      {
        ImagesBackDuringSave(c, w, image);
      }
    }
  }

  // Fewer promises are live as the clock advances and clients stop

  lemma BackedLater(c: Setting, w: World, stopped: set<(string, Token)>, clock: Time)
    requires Backed(c, w) && w.stopped <= stopped && w.clock <= clock
    ensures Backed(c, w.(stopped := stopped, clock := clock))
  {}

  /** Deciding leaves every live promise backed, and grants only a lock nobody is promised. */
  lemma DecideBacks(b: Bounds, m: Locks, req: TableSpec.Request, now: Time, p: Promise, stopped: set<(string, Token)>)
    requires BackedInMemory(m, p) && Live(stopped, now, p)
    requires req.Release? && Owns(m, req.name, req.holder, req.token) ==> (req.name, req.token) in stopped
    requires req.Renew? && Owns(m, req.name, req.holder, req.token) ==>
               LeaseOf(m, req.name).expiresAt <= now + req.ttl
    ensures var d := Decide(b, m, req, now);
            BackedInMemory(d.locks, p) && (d.Commit? && d.pending.Granting? ==> d.pending.lease.name != p.name)
  {
  }

  lemma CommitHolds(b: Bounds, m: Locks, req: TableSpec.Request, now: Time, hookNow: Time)
    requires Legal(m) && Decide(b, m, req, now).Commit?
    ensures var d := Decide(b, m, req, now);
            var m' := PruneAll(d.locks, hookNow);
            (d.pending.Granting? || d.pending.Renewing?) && hookNow < d.pending.lease.expiresAt ==>
              HasLease(m', d.pending.lease.name) && LeaseOf(m', d.pending.lease.name) == d.pending.lease
  {
    assert HasLease(m, req.name) ==> LegalEntry(req.name, m[req.name]);
  }

  lemma RequestBacks(c: Setting, w: World, l: Label)
    requires Durable(c, w) && Backed(c, w) && l.Request? && Enabled(c, w, l) && Timely(w, l)
    ensures Backed(c, Apply(c, w, l))
  {
    var w' := Apply(c, w, l);
    var m, d := w.phase.locks, Decide(c.bounds, w.phase.locks, l.req, l.now);
    BackedLater(c, w, w.stopped, w'.clock);
    forall i | 0 <= i < |w.promises| && Live(w.stopped, w'.clock, w.promises[i])
      ensures BackedInMemory(w'.phase.locks, w.promises[i])
      ensures d.Commit? && d.pending.Granting? ==> d.pending.lease.name != w.promises[i].name
    {
      assert Live(w.stopped, w.clock, w.promises[i]) && Live(w.stopped, l.now, w.promises[i]);
      DecideBacks(c.bounds, m, l.req, l.now, w.promises[i], w.stopped);
    }
    if d.Commit? {
      CommitHolds(c.bounds, m, l.req, l.now, l.hookNow);
    }
  }

  lemma ReturnBacks(c: Setting, w: World, l: Label)
    requires Durable(c, w) && Backed(c, w) && l.Return? && Enabled(c, w, l)
    ensures Backed(c, Apply(c, w, l))
  {
    var (m, p, saved) := (w.phase.locks, w.phase.pending, w.phase.job.stage.ok);
    var w' := Apply(c, w, l);
    if saved {
      OnlyNewImage(c, w);
      NewPromiseBacked(m, p, w.promises, w.stopped, w.clock);
      assert w'.phase == Idle(m) && w'.promises == PromisesAfter(w.promises, p);
      NewImageBacks(m, w'.promises, w.stopped, w.clock);
    } else {
      assert w'.phase == Idle(Finish(m, p, false).0) && w'.promises == w.promises;
      BurnBacks(m, p, w.promises, w.stopped, w.clock);
      assert forall image | Recoverable(c, w.dir, image) :: Recoverable(c, w.phase.before, image);
    }
  }

  function PromisesAfter(promises: seq<Promise>, p: Pending): seq<Promise> {
    match p
    case Granting(l) => promises + [PromiseOf(l)]
    case Renewing(l) => promises + [PromiseOf(l)]
    case Releasing(_) => promises
  }

  lemma NewPromiseBacked(m: Locks, p: Pending, promises: seq<Promise>, stopped: set<(string, Token)>, clock: Time)
    requires MemoryBacks(m, promises, stopped, clock) && PendingHeld(p, m, promises, stopped, clock)
    ensures MemoryBacks(m, PromisesAfter(promises, p), stopped, clock)
  {}

  lemma BurnBacks(m: Locks, p: Pending, promises: seq<Promise>, stopped: set<(string, Token)>, clock: Time)
    requires MemoryBacks(m, promises, stopped, clock) && PendingHeld(p, m, promises, stopped, clock)
    ensures MemoryBacks(Finish(m, p, false).0, promises, stopped, clock)
  {
  }

  /** A restored lease keeps its deadline to the millisecond. */
  lemma BootBacks(
    image: Option<File>, grants: seq<Grant>, steps: nat, promises: seq<Promise>, stopped: set<(string, Token)>,
    clock: Time)
    requires GoodImage(image, grants, steps) && ImageBacks(image, promises, stopped, clock)
    ensures Boot(image).Success? && MemoryBacks(Boot(image).value, promises, stopped, clock)
  {}

  lemma CrashBacks(c: Setting, w: World, l: Label)
    requires Durable(c, w) && Backed(c, w) && (l.Crash? || l.PowerLoss?) && Enabled(c, w, l)
    ensures Backed(c, Apply(c, w, l))
  {
    DiskAlwaysBacks(c, w);
    if l.PowerLoss? {
      ImagesAreGood(c, w);
      assert Recoverable(c, w.dir, l.kept);
      assert GoodImage(l.kept, w.grants, w.steps);
      assert ImageBacks(l.kept, w.promises, w.stopped, w.clock);
    }
  }

  lemma RestartBacks(c: Setting, w: World, l: Label)
    requires Durable(c, w) && Backed(c, w) && l.Restart? && Enabled(c, w, l)
    ensures Backed(c, Apply(c, w, l))
  {
    assert Recoverable(c, w.dir, w.dir.target);
    BootBacks(w.dir.target, w.grants, w.steps, w.promises, w.stopped, w.clock);
  }

  lemma LabelBacks(c: Setting, w: World, l: Label)
    requires Durable(c, w) && Backed(c, w) && Enabled(c, w, l) && Timely(w, l)
    ensures Backed(c, Apply(c, w, l))
  {
    match l
    case Request(_, _, _) => RequestBacks(c, w, l);
    case Return => ReturnBacks(c, w, l);
    case Crash => CrashBacks(c, w, l);
    case PowerLoss(_) => CrashBacks(c, w, l);
    case Restart => RestartBacks(c, w, l);
    case Stop(name, token) => BackedLater(c, w, w.stopped + {(name, token)}, w.clock);
    case Tick(now) => BackedLater(c, w, w.stopped, now);
    case SystemCall(_, _) =>
    case Write(_) =>
  }

  lemma {:induction false} RunBacks(c: Setting, labels: seq<Label>, w: World)
    requires Run(c, labels) == Some(w) && |labels| <= MAX_INT64 && AllTimely(c, labels)
    ensures Backed(c, w)
    decreases |labels|
  {
    if labels != [] {
      RunUnfolds(c, labels);
      var before := Run(c, labels[..|labels| - 1]).value;
      RunKeeps(c, labels[..|labels| - 1], before);
      RunBacks(c, labels[..|labels| - 1], before);
      LabelBacks(c, before, labels[|labels| - 1]);
    }
  }

  /**
   Mutual exclusion of belief. At no time have two different grants of a lock both been promised,
   to clients that have not stopped, deadlines that are still in the future: whatever persists fail,
   whichever replies are lost, delayed or reordered, and however often the server crashes.
   */
  lemma MutualExclusion(c: Setting, labels: seq<Label>, w: World, i: nat, j: nat, g: nat, h: nat)
    requires Run(c, labels) == Some(w) && |labels| <= MAX_INT64 && AllTimely(c, labels)
    requires i < |w.promises| && Live(w.stopped, w.clock, w.promises[i])
    requires j < |w.promises| && Live(w.stopped, w.clock, w.promises[j])
    requires w.promises[i].name == w.promises[j].name
    requires g < |w.grants| && w.grants[g].name == w.promises[i].name && w.grants[g].token == w.promises[i].token
    requires h < |w.grants| && w.grants[h].name == w.promises[j].name && w.grants[h].token == w.promises[j].token
    ensures g == h
  {
    RunKeeps(c, labels, w);
    RunBacks(c, labels, w);
    DiskAlwaysBacks(c, w);
    assert Recoverable(c, w.dir, w.dir.target);
    assert ImageBacks(w.dir.target, w.promises, w.stopped, w.clock);
    assert BackedOnDisk(w.dir.target, w.promises[i]) && BackedOnDisk(w.dir.target, w.promises[j]);
    assert w.grants[g].token == w.grants[h].token;
  }

  // What the renewal hypothesis is for

  /**
   A Renew that its caller hears nothing good of, because the hook failed or the reply was lost,
   leaves the caller believing the old deadline. Whatever the hook said, that is safe exactly when the
   renewal did not shorten: only then is the lock kept for this caller until the old deadline.
   */
  lemma UnheardRenewIsSafeIff(
    b: Bounds, m: Locks, name: string, holder: string, token: Token, ttl: Duration, now: Time, hookNow: Time,
    saved: bool, o: Outcome)
    requires ValidName(name) && ValidHolder(holder) && ValidTTL(b, ttl)
    requires Owns(m, name, holder, token) && now <= hookNow < LeaseOf(m, name).expiresAt
    requires o == Call(b, true, m, Renew(name, holder, token, ttl), Env(now, hookNow, saved))
    ensures if saved then o.reply.Renewed? else o.reply == NotDurable
    ensures (forall t :: hookNow <= t < LeaseOf(m, name).expiresAt ==>
               HeldAt(o.locks, name, t) && Owns(o.locks, name, holder, token))
       <==> LeaseOf(m, name).expiresAt <= now + ttl
  {
    RenewLeaves(b, m, name, holder, token, ttl, now, hookNow, saved, o);
    if now + ttl < LeaseOf(m, name).expiresAt {
      assert !HeldAt(o.locks, name, LeaseOf(m, name).expiresAt - 1);
    }
  }

  lemma RenewLeaves(
    b: Bounds, m: Locks, name: string, holder: string, token: Token, ttl: Duration, now: Time, hookNow: Time,
    saved: bool, o: Outcome)
    requires ValidName(name) && ValidHolder(holder) && ValidTTL(b, ttl)
    requires Owns(m, name, holder, token) && now <= hookNow < LeaseOf(m, name).expiresAt
    requires o == Call(b, true, m, Renew(name, holder, token, ttl), Env(now, hookNow, saved))
    ensures if saved then o.reply.Renewed? else o.reply == NotDurable
    ensures HasLease(o.locks, name) <==> hookNow < now + ttl
    ensures HasLease(o.locks, name) ==>
              Owns(o.locks, name, holder, token) && LeaseOf(o.locks, name).expiresAt == now + ttl
  {
  }

  /**
   A shorter renewal that fails, or whose reply is lost, makes two clients believe they hold the lock
   at the same time: the first one still believes in the deadline of its grant.
   */
  lemma ShorterRenewalBreaksExclusion(
    b: Bounds, name: string, first: string, second: string, ttl: Duration, short: Duration, now: Time, saved: bool)
    returns (grant: Outcome, renewal: Outcome, rival: Outcome)
    requires ValidName(name) && ValidHolder(first) && ValidHolder(second)
    requires ValidTTL(b, ttl) && ValidTTL(b, short) && 0 < short < ttl
    ensures grant == Call(b, true, map[], Acquire(name, first, ttl), Env(now, now, true))
    ensures renewal == Call(b, true, grant.locks, Renew(name, first, 1, short), Env(now, now, saved))
    ensures rival == Call(b, true, renewal.locks, Acquire(name, second, ttl), Env(now + short, now + short, true))
    ensures grant.reply.Granted? && rival.reply.Granted?
    ensures if saved then renewal.reply.Renewed? else renewal.reply == NotDurable
    ensures !grant.reply.lease.Expired(now + short) && !rival.reply.lease.Expired(now + short)
    ensures grant.reply.lease.token != rival.reply.lease.token
  {
    var l := Lease(name, first, 1, ttl, now, now + ttl);
    grant := Call(b, true, map[], Acquire(name, first, ttl), Env(now, now, true));
    assert grant.locks == map[name := Entry(1, Some(l))];
    renewal := Call(b, true, grant.locks, Renew(name, first, 1, short), Env(now, now, saved));
    assert renewal.locks == map[name := Entry(1, Some(l.(ttl := short, expiresAt := now + short)))];
    rival := Call(b, true, renewal.locks, Acquire(name, second, ttl), Env(now + short, now + short, true));
  }
}
