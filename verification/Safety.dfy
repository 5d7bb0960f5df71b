/** What the service promises over whole runs, whatever the clock does. */
module Safety {
  import opened Wrappers
  import opened Leases
  import opened LockState
  import opened Snapshots
  import opened TableSpec
  import opened Store
  import opened Fence
  import opened System
  import opened SystemInvariant

  /**
   Fencing end to end. In every run of fewer than 2^63 labels the accepted writes of a lock carry
   non-decreasing tokens, writes under one token come from one grant, and once a later grant's write
   has been accepted no earlier grant's write ever is.
   */
  lemma FencingEndToEnd(c: Setting, labels: seq<Label>, w: World, k: nat, l: nat)
    requires Run(c, labels) == Some(w) && |labels| <= MAX_INT64
    requires k < l < |w.writes|
    ensures w.writes[k] < |w.grants| && w.writes[l] < |w.grants|
    ensures var (first, second) := (w.grants[w.writes[k]], w.grants[w.writes[l]]);
            first.name == second.name ==>
              && first.token <= second.token
              && w.writes[k] <= w.writes[l]
              && (first.token == second.token ==> w.writes[k] == w.writes[l])
  {
    RunKeeps(c, labels, w);
    if w.grants[w.writes[k]].name == w.grants[w.writes[l]].name {
      GrantOrderIsTokenOrder(w.grants, w.writes[k], w.writes[l]);
      GrantOrderIsTokenOrder(w.grants, w.writes[l], w.writes[k]);
    }
  }

  lemma GrantOrderIsTokenOrder(grants: seq<Grant>, i: nat, j: nat)
    requires GrantsIncrease(grants) && i < |grants| && j < |grants| && grants[i].name == grants[j].name
    ensures i <= j <==> grants[i].token <= grants[j].token
  {
  }

  /** The resource refuses exactly the writers that have been superseded by an accepted write. */
  lemma WriteAcceptedIff(c: Setting, labels: seq<Label>, w: World, g: nat)
    requires Run(c, labels) == Some(w) && |labels| <= MAX_INT64
    requires g < |w.grants|
    ensures Accepts(w, g)
       <==> forall k | 0 <= k < |w.writes| && w.writes[k] < |w.grants| ::
              w.grants[w.writes[k]].name == w.grants[g].name ==> w.writes[k] <= g
  {
    RunKeeps(c, labels, w);
    GrantIsOnDisk(c, w, g);
    FenceRefusesIff(w.fence, w.writes, w.grants, w.steps, g);
  }

  lemma FenceRefusesIff(fence: map<string, Token>, writes: seq<nat>, grants: seq<Grant>, steps: nat, g: nat)
    requires GoodFence(fence, writes, grants, steps) && GrantsIncrease(grants) && g < |grants|
    ensures (grants[g].name !in fence || fence[grants[g].name] <= grants[g].token)
       <==> forall k | 0 <= k < |writes| && writes[k] < |grants| ::
              grants[writes[k]].name == grants[g].name ==> writes[k] <= g
  {}

  /**
   Durable before visible. Every token ever returned to a caller, in any lifetime, is at most the
   floor of every file a restart might find; the floor of the file in place is at most the floor in
   memory; and each grant is strictly above all earlier grants of its lock.
   */
  lemma DurableBeforeVisible(c: Setting, labels: seq<Label>, w: World, image: Option<File>, i: nat, j: nat)
    requires Run(c, labels) == Some(w) && |labels| <= MAX_INT64
    requires Recoverable(c, w.dir, image) && j < |w.grants|
    ensures w.grants[j].token <= DiskFloor(image, w.grants[j].name)
    ensures !w.phase.Down? ==>
              DiskFloor(w.dir.target, w.grants[j].name) <= Floor(w.phase.locks, w.grants[j].name)
    ensures i < j && w.grants[i].name == w.grants[j].name ==> w.grants[i].token < w.grants[j].token
  {
    RunKeeps(c, labels, w);
    ImagesAreGood(c, w);
    assert GoodImage(image, w.grants, w.steps);
    if w.phase.Saving? {
      assert Recoverable(c, w.dir, w.dir.target);
      ImagesDuringSave(c, w, w.dir.target);
    }
  }

  /**
   Memory and disk agree on ownership: between calls a lease in memory has the same holder and token
   in its disk record.
   */
  lemma MemoryAndDiskAgree(c: Setting, labels: seq<Label>, w: World, name: string)
    requires Run(c, labels) == Some(w) && |labels| <= MAX_INT64
    requires w.phase.Idle? && HasLease(w.phase.locks, name)
    ensures OnDisk(LeaseOf(w.phase.locks, name), w.dir.target, name)
    ensures LeaseOf(w.phase.locks, name).token == Floor(w.phase.locks, name)
  {
    RunKeeps(c, labels, w);
  }

  /**
   After a call whose hook succeeded the file is the whole table's snapshot, so that what earlier
   calls changed only in memory, on any lock, has become durable with it.
   */
  lemma SuccessfulCallSavesEverything(c: Setting, labels: seq<Label>, w: World)
    requires Run(c, labels) == Some(w) && |labels| <= MAX_INT64
    requires w.phase.Saving? && w.phase.job.stage == Returned(true)
    ensures Enabled(c, w, Return)
    ensures var w' := Apply(c, w, Return);
            && w'.phase.Idle? && w'.dir.target == NewFile(Encode(w'.phase.locks))
            && forall image :: Recoverable(c, w'.dir, image) ==> image == w'.dir.target
  {
    RunKeeps(c, labels, w);
    OnlyNewImage(c, w);
  }

  /**
   The server can always restart: whatever a crash or power loss leaves at the state path is a
   complete file of this code's making, which Load and Restore accept, with its floors intact.
   */
  lemma ServerCanAlwaysRestart(c: Setting, labels: seq<Label>, w: World, image: Option<File>)
    requires Run(c, labels) == Some(w) && |labels| <= MAX_INT64
    requires Recoverable(c, w.dir, image)
    ensures Boot(image).Success?
    ensures Legal(Boot(image).value) && TokensAreFloors(Boot(image).value)
    ensures forall n :: Floor(Boot(image).value, n) == DiskFloor(image, n)
    ensures w.phase.Down? ==> Enabled(c, w, Restart)
  {
    RunKeeps(c, labels, w);
    ImagesAreGood(c, w);
    assert GoodImage(image, w.grants, w.steps);
    GoodImageBoots(image, w.grants, w.steps);
    if w.phase.Down? {
      assert Recoverable(c, w.dir, w.dir.target);
      assert GoodImage(w.dir.target, w.grants, w.steps);
      GoodImageBoots(w.dir.target, w.grants, w.steps);
    }
  }

  /** The world after more labels, from the first on. */
  function After(c: Setting, w: World, more: seq<Label>): Option<World>
    decreases |more|
  {
    if more == [] then Some(w)
    else if Enabled(c, w, more[0]) then After(c, Apply(c, w, more[0]), more[1..])
    else None
  }

  /** What may happen between a request and its return, as long as the server lives. */
  predicate DuringCall(l: Label) {
    l.SystemCall? || l.Stop? || l.Write? || l.Tick?
  }

  /** A persist of `m` that began in `start`: nothing but the directory has changed. */
  ghost predicate Underway(start: World, m: Locks, p: Pending, w: World) {
    && w.phase.Saving? && w.phase.locks == m && w.phase.pending == p && w.phase.job.snap == Encode(m)
    && w.grants == start.grants && w.promises == start.promises
    && Progress(start.dir, Encode(m), w.dir, w.phase.job.stage)
    && TempsInHand(start.dir, Encode(m), w.dir, w.phase.job.stage)
  }

  lemma StepStaysUnderway(c: Setting, start: World, m: Locks, p: Pending, w: World, l: Label)
    requires Sound(start.dir) && Underway(start, m, p, w) && DuringCall(l) && Enabled(c, w, l)
    ensures Underway(start, m, p, Apply(c, w, l))
  {
    if l.SystemCall? {
      SaveStepProgress(start.dir, w.dir, w.phase.job, l.ok, l.unused);
    }
  }

  lemma {:induction false} StaysUnderway(
    c: Setting, start: World, m: Locks, p: Pending, w: World, between: seq<Label>, last: World)
    requires Sound(start.dir) && Underway(start, m, p, w)
    requires (forall l | l in between :: DuringCall(l)) && After(c, w, between) == Some(last)
    ensures Underway(start, m, p, last)
    decreases |between|
  {
    if between != [] {
      StepStaysUnderway(c, start, m, p, w, between[0]);
      StaysUnderway(c, start, m, p, Apply(c, w, between[0]), between[1..], last);
    }
  }

  /** The grants and promises that sending this reply adds. */
  function GrantIn(reply: TableSpec.Reply): seq<Grant> {
    if reply.Granted? then [Grant(reply.lease.name, reply.lease.holder, reply.lease.token)] else []
  }

  function PromiseIn(reply: TableSpec.Reply): seq<Promise> {
    if reply.Granted? || reply.Renewed? then [PromiseOf(reply.lease)] else []
  }

  /** The system has gone from `w` to `w'` by one call of the table, on memory, disk and what was told to clients. */
  ghost predicate TableCall(
    c: Setting, w: World, req: TableSpec.Request, now: Time, hookNow: Time, saved: bool, w': World)
    requires w.phase.Idle?
  {
    var o := Call(c.bounds, true, w.phase.locks, req, Env(now, hookNow, saved));
    && w'.phase == Idle(o.locks)
    && w'.dir.target == (if o.offered.Some? && saved then NewFile(o.offered.value) else w.dir.target)
    && w'.grants == w.grants + GrantIn(o.reply) && w'.promises == w.promises + PromiseIn(o.reply)
  }

  /**
   The system's calls are the table's. A request, all the system calls of its persist, whatever clients
   and the clock do in between, and the return together are one call of the table, with the result of
   Save as the hook's verdict. A call that need not be persisted ends with the request.
   */
  lemma SystemCallsAreTableCalls(
    c: Setting, w: World, req: TableSpec.Request, now: Time, hookNow: Time, between: seq<Label>, last: World)
    requires w.phase.Idle? && Sound(w.dir)
    requires forall l | l in between :: DuringCall(l)
    requires After(c, Apply(c, w, Label.Request(req, now, hookNow)), between) == Some(last)
    ensures var asked := Apply(c, w, Label.Request(req, now, hookNow));
            if asked.phase.Idle? then
              forall saved :: TableCall(c, w, req, now, hookNow, saved, asked)
            else
              Enabled(c, last, Return) ==>
                TableCall(c, w, req, now, hookNow, last.phase.job.stage.ok, Apply(c, last, Return))
  {
    var asked := Apply(c, w, Label.Request(req, now, hookNow));
    if asked.phase.Saving? {
      SaveBegins(w.dir, asked.phase.job.snap);
      StaysUnderway(c, w, asked.phase.locks, asked.phase.pending, asked, between, last);
      if Enabled(c, last, Return) {
        ReturnEndsCall(c, w, req, now, hookNow, last);
      }
    }
  }

  lemma ReturnEndsCall(c: Setting, w: World, req: TableSpec.Request, now: Time, hookNow: Time, last: World)
    requires w.phase.Idle? && Enabled(c, last, Return) && Decide(c.bounds, w.phase.locks, req, now).Commit?
    requires var d := Decide(c.bounds, w.phase.locks, req, now);
             Underway(w, PruneAll(d.locks, hookNow), d.pending, last)
    ensures TableCall(c, w, req, now, hookNow, last.phase.job.stage.ok, Apply(c, last, Return))
  {
  }

  lemma PersistLeavesTableAlone(c: Setting, w: World, l: Label)
    requires l.SystemCall? && Enabled(c, w, l)
    ensures var w' := Apply(c, w, l);
            && w'.phase.Saving? && w'.phase.locks == w.phase.locks && w'.phase.pending == w.phase.pending
            && w'.phase.job.snap == w.phase.job.snap
  {
  }

  // The runs these results speak about do get somewhere

  lemma {:induction false} RunThenAfter(c: Setting, labels: seq<Label>, w: World, more: seq<Label>)
    requires Run(c, labels) == Some(w) && After(c, w, more).Some?
    ensures Run(c, labels + more) == After(c, w, more)
    decreases |more|
  {
    if more == [] {
      assert labels + more == labels;
    } else {
      RunThenLabel(c, labels, w, more[0]);
      assert (labels + [more[0]]) + more[1..] == labels + more;
      RunThenAfter(c, labels + [more[0]], Apply(c, w, more[0]), more[1..]);
    }
  }

  lemma RunThenLabel(c: Setting, labels: seq<Label>, w: World, l: Label)
    requires Run(c, labels) == Some(w) && Enabled(c, w, l)
    ensures Run(c, labels + [l]) == Some(Apply(c, w, l))
  {
    assert (labels + [l])[..|labels|] == labels;
  }

  lemma AfterOne(c: Setting, w: World, l: Label, more: seq<Label>)
    requires Enabled(c, w, l)
    ensures After(c, w, [l] + more) == After(c, Apply(c, w, l), more)
  {
    assert ([l] + more)[1..] == more;
  }

  /** Nothing stands in the way of a call whose system calls all succeed. */
  lemma {:induction false} SmoothCallReturns(c: Setting, w: World, tmp: string) returns (more: seq<Label>, w': World)
    requires Durable(c, w) && OnSmoothPath(w, tmp) && w.steps + CallsLeft(w.phase.job.stage) <= MAX_INT64
    ensures After(c, w, more) == Some(w') && w'.grants == GrantsAfter(w.grants, w.phase.pending)
    decreases CallsLeft(w.phase.job.stage)
  {
    if w.phase.job.stage.Returned? {
      w' := Apply(c, w, Return);
      AfterOne(c, w, Return, []);
      more := [Return] + [];
    } else {
      var l, next := SmoothStep(c, w, tmp);
      more, w' := SmoothCallReturns(c, next, tmp);
      AfterOne(c, w, l, more);
      more := [l] + more;
    }
  }

  /** A persist in which no system call has failed. */
  ghost predicate OnSmoothPath(w: World, tmp: string) {
    && w.phase.Saving?
    && (CallsLeft(w.phase.job.stage) >= 7 ==> tmp !in w.dir.temps)
    && Succeeds(w.phase.job.stage, Faults(tmp, true, true, true, true, true, true, true, true, true))
  }

  lemma SmoothStep(c: Setting, w: World, tmp: string) returns (l: Label, w': World)
    requires Durable(c, w) && w.steps < MAX_INT64 && OnSmoothPath(w, tmp) && !w.phase.job.stage.Returned?
    ensures Enabled(c, w, l) && w' == Apply(c, w, l)
    ensures Durable(c, w') && OnSmoothPath(w', tmp)
    ensures w'.phase.pending == w.phase.pending && w'.grants == w.grants && w'.steps == w.steps + 1
    ensures CallsLeft(w'.phase.job.stage) == CallsLeft(w.phase.job.stage) - 1
  {
    l := SystemCall(true, tmp);
    w' := Apply(c, w, l);
    LabelKeepsDurable(c, w, l);
  }

  /**
   The service is not safe by doing nothing: from every reachable state between calls, a lock nobody
   holds at `now` can be granted, under the token one above its floor.
   */
  lemma FreeLockCanBeGranted(
    c: Setting, labels: seq<Label>, w: World, name: string, holder: string, ttl: Duration, now: Time, tmp: string)
    returns (more: seq<Label>, w': World)
    requires Run(c, labels) == Some(w) && |labels| + 11 <= MAX_INT64
    requires w.phase.Idle? && !HeldAt(w.phase.locks, name, now) && tmp !in w.dir.temps
    requires ValidName(name) && ValidHolder(holder) && c.bounds.minTTL <= ttl <= c.bounds.maxTTL
    ensures Run(c, labels + more) == Some(w')
    ensures w'.grants == w.grants + [Grant(name, holder, NextToken(Floor(w.phase.locks, name)))]
    ensures NextToken(Floor(w.phase.locks, name)) == Floor(w.phase.locks, name) + 1
  {
    RunKeeps(c, labels, w);
    var l, asked := AskedToGrant(c, w, name, holder, ttl, now, tmp);
    more, w' := SmoothCallReturns(c, asked, tmp);
    AfterOne(c, w, l, more);
    more := [l] + more;
    RunThenAfter(c, labels, w, more);
  }

  lemma AskedToGrant(c: Setting, w: World, name: string, holder: string, ttl: Duration, now: Time, tmp: string)
    returns (l: Label, w': World)
    requires Durable(c, w) && w.steps < MAX_INT64
    requires w.phase.Idle? && !HeldAt(w.phase.locks, name, now) && tmp !in w.dir.temps
    requires ValidName(name) && ValidHolder(holder) && ValidTTL(c.bounds, ttl)
    ensures Enabled(c, w, l) && w' == Apply(c, w, l) && Durable(c, w') && w'.steps == w.steps + 1
    ensures OnSmoothPath(w', tmp) && w'.phase.job.stage == MakeDir
    ensures GrantsAfter(w'.grants, w'.phase.pending)
            == w.grants + [Grant(name, holder, NextToken(Floor(w.phase.locks, name)))]
    ensures NextToken(Floor(w.phase.locks, name)) == Floor(w.phase.locks, name) + 1
  {
    l := Label.Request(Acquire(name, holder, ttl), now, now);
    w' := Apply(c, w, l);
    GoodTableHasRoom(w.phase.locks, w.steps);
    AcquireDecides(c.bounds, w.phase.locks, name, holder, ttl, now);
    LabelKeepsDurable(c, w, l);
  }

  lemma AcquireDecides(b: Bounds, m: Locks, name: string, holder: string, ttl: Duration, now: Time)
    requires !HeldAt(m, name, now) && RoomToGrow(m)
    requires ValidName(name) && ValidHolder(holder) && ValidTTL(b, ttl)
    ensures var d := Decide(b, m, Acquire(name, holder, ttl), now);
            && d.Commit? && d.pending.Granting?
            && var l := d.pending.lease;
               l.name == name && l.holder == holder && l.token == NextToken(Floor(m, name)) == Floor(m, name) + 1
  {
  }
}
