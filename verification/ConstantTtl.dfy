/**
 Why withlock's renewals never shorten a deadline: it renews with the TTL it acquired with, in whole
 milliseconds, and under a monotone clock a lease never outlasts now plus its TTL, not even through
 a crash and a restart.
 */
module ConstantTtl {
  import opened Wrappers
  import opened Leases
  import opened LockState
  import opened Snapshots
  import opened TableSpec
  import opened Store
  import opened Fence
  import opened System
  import opened SystemInvariant
  import opened Exclusion

  predicate WholeMilliseconds(ttl: Duration) {
    ttl % MILLISECOND == 0
  }

  /** Every lease is renewed with the TTL it has; a client stops before it releases. */
  predicate Constant(w: World, l: Label) {
    match l
    case Request(req, now, hookNow) =>
      && w.clock <= now <= hookNow
      && (req.Acquire? ==> WholeMilliseconds(req.ttl))
      && (req.Renew? && w.phase.Idle? && Owns(w.phase.locks, req.name, req.holder, req.token) ==>
            req.ttl == LeaseOf(w.phase.locks, req.name).ttl)
      && (req.Release? && w.phase.Idle? && Owns(w.phase.locks, req.name, req.holder, req.token) ==>
            (req.name, req.token) in w.stopped)
    case Tick(now) => w.clock <= now
    case _ => true
  }

  predicate AllConstant(c: Setting, labels: seq<Label>) {
    labels == [] ||
    (var last := |labels| - 1;
     && AllConstant(c, labels[..last])
     && (Run(c, labels[..last]).Some? ==> Constant(Run(c, labels[..last]).value, labels[last])))
  }

  ghost predicate TableWithin(m: Locks, clock: Time) {
    forall n | HasLease(m, n) ::
      WholeMilliseconds(LeaseOf(m, n).ttl) && LeaseOf(m, n).expiresAt <= clock + LeaseOf(m, n).ttl
  }

  predicate RecordWithin(r: LockRecord, clock: Time) {
    r.holder != "" ==> r.expiresAtMS * MILLISECOND <= clock + r.ttlMS * MILLISECOND
  }

  ghost predicate ImageWithin(image: Option<File>, clock: Time) {
    forall n | n in SnapIn(image).locks :: RecordWithin(SnapIn(image).locks[n], clock)
  }

  ghost predicate DiskWithin(c: Setting, dir: Directory, clock: Time) {
    forall image | Recoverable(c, dir, image) :: ImageWithin(image, clock)
  }

  ghost predicate Within(c: Setting, w: World) {
    match w.phase
    case Down => DiskWithin(c, w.dir, w.clock)
    case Idle(m) => DiskWithin(c, w.dir, w.clock) && TableWithin(m, w.clock)
    case Saving(m, job, p, before) => DiskWithin(c, before, w.clock) && TableWithin(m, w.clock)
  }

  lemma NewImageWithin(m: Locks, clock: Time)
    requires TableWithin(m, clock)
    ensures ImageWithin(NewFile(Encode(m)), clock)
  {
    forall n | n in Encode(m).locks
      ensures RecordWithin(Encode(m).locks[n], clock)
    {
      if HasLease(m, n) {
        var l := LeaseOf(m, n);
        MillisecondsExact(l.ttl / MILLISECOND);
        MilliOrder(l.expiresAt, 0);
      }
    }
  }

  lemma DiskAlwaysWithin(c: Setting, w: World)
    requires Durable(c, w) && Within(c, w)
    ensures DiskWithin(c, w.dir, w.clock)
  {
    if w.phase.Saving? {
      NewImageWithin(w.phase.locks, w.clock);
      forall image | Recoverable(c, w.dir, image)
        ensures ImageWithin(image, w.clock)
      {
        ImagesDuringSave(c, w, image);
      }
    }
  }

  lemma WithinLater(c: Setting, w: World, clock: Time)
    requires Within(c, w) && w.clock <= clock
    ensures Within(c, w.(clock := clock))
  {}

  lemma DecideWithin(b: Bounds, m: Locks, req: TableSpec.Request, now: Time, clock: Time)
    requires TableWithin(m, clock) && clock <= now
    requires req.Acquire? ==> WholeMilliseconds(req.ttl)
    requires req.Renew? && Owns(m, req.name, req.holder, req.token) ==> req.ttl == LeaseOf(m, req.name).ttl
    ensures TableWithin(Decide(b, m, req, now).locks, now)
  {
    var m' := Decide(b, m, req, now).locks;
    forall n | HasLease(m', n)
      ensures WholeMilliseconds(LeaseOf(m', n).ttl) && LeaseOf(m', n).expiresAt <= now + LeaseOf(m', n).ttl
    {
      if HasLease(m, n) {
        assert WholeMilliseconds(LeaseOf(m, n).ttl) && LeaseOf(m, n).expiresAt <= clock + LeaseOf(m, n).ttl;
      }
    }
  }

  /** In a reachable state a renewal with an unchanged TTL does not shorten. */
  lemma ConstantIsTimely(c: Setting, w: World, l: Label)
    requires Within(c, w) && Constant(w, l)
    ensures Timely(w, l)
  {}

  lemma RequestWithin(c: Setting, w: World, l: Label)
    requires Within(c, w) && l.Request? && Enabled(c, w, l) && Constant(w, l)
    ensures Within(c, Apply(c, w, l))
  {
    var w' := Apply(c, w, l);
    WithinLater(c, w, w'.clock);
    DecideWithin(c.bounds, w.phase.locks, l.req, l.now, w.clock);
    var d := Decide(c.bounds, w.phase.locks, l.req, l.now).locks;
    forall n | HasLease(PruneAll(d, l.hookNow), n)
      ensures HasLease(d, n) && LeaseOf(PruneAll(d, l.hookNow), n) == LeaseOf(d, n)
    {
    }
  }

  lemma ReturnWithin(c: Setting, w: World, l: Label)
    requires Durable(c, w) && Within(c, w) && l.Return? && Enabled(c, w, l)
    ensures Within(c, Apply(c, w, l))
  {
    DiskAlwaysWithin(c, w);
    var (m, p, saved) := (w.phase.locks, w.phase.pending, w.phase.job.stage.ok);
    var m' := Finish(m, p, saved).0;
    assert Apply(c, w, l).phase == Idle(m');
    assert forall n | HasLease(m', n) :: HasLease(m, n) && LeaseOf(m', n) == LeaseOf(m, n);
  }

  lemma BootWithin(image: Option<File>, grants: seq<Grant>, steps: nat, clock: Time)
    requires GoodImage(image, grants, steps) && ImageWithin(image, clock)
    ensures Boot(image).Success? && TableWithin(Boot(image).value, clock)
  {
    GoodImageBoots(image, grants, steps);
    var m := Boot(image).value;
    forall n | HasLease(m, n)
      ensures WholeMilliseconds(LeaseOf(m, n).ttl) && LeaseOf(m, n).expiresAt <= clock + LeaseOf(m, n).ttl
    {
      assert RecordWithin(SnapIn(image).locks[n], clock);
    }
  }

  lemma CrashOrRestartWithin(c: Setting, w: World, l: Label)
    requires Durable(c, w) && Within(c, w) && (l.Crash? || l.PowerLoss? || l.Restart?) && Enabled(c, w, l)
    ensures Within(c, Apply(c, w, l))
  {
    DiskAlwaysWithin(c, w);
    ImagesAreGood(c, w);
    if l.PowerLoss? {
      assert Recoverable(c, w.dir, l.kept);
      assert GoodImage(l.kept, w.grants, w.steps);
    } else if l.Restart? {
      assert Recoverable(c, w.dir, w.dir.target);
      BootWithin(w.dir.target, w.grants, w.steps, w.clock);
    }
  }

  lemma LabelWithin(c: Setting, w: World, l: Label)
    requires Durable(c, w) && Within(c, w) && Enabled(c, w, l) && Constant(w, l)
    ensures Within(c, Apply(c, w, l))
  {
    match l
    case Request(_, _, _) => RequestWithin(c, w, l);
    case Return => ReturnWithin(c, w, l);
    case Crash => CrashOrRestartWithin(c, w, l);
    case PowerLoss(_) => CrashOrRestartWithin(c, w, l);
    case Restart => CrashOrRestartWithin(c, w, l);
    case Tick(now) => WithinLater(c, w, now);
    case SystemCall(_, _) =>
    case Stop(_, _) =>
    case Write(_) =>
  }

  /** With constant TTLs every run is timely, so Exclusion.MutualExclusion applies to it. */
  lemma {:induction false} ConstantRunIsTimely(c: Setting, labels: seq<Label>, w: World)
    requires Run(c, labels) == Some(w) && |labels| <= MAX_INT64 && AllConstant(c, labels)
    ensures AllTimely(c, labels) && Within(c, w)
    decreases |labels|
  {
    if labels != [] {
      RunUnfolds(c, labels);
      var before := Run(c, labels[..|labels| - 1]).value;
      RunKeeps(c, labels[..|labels| - 1], before);
      ConstantRunIsTimely(c, labels[..|labels| - 1], before);
      ConstantIsTimely(c, before, labels[|labels| - 1]);
      LabelWithin(c, before, labels[|labels| - 1]);
    }
  }
}
