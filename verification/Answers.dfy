/**
 What each call answers and what it does, read off the lock's state, the clock, the TTL bounds and the
 hook alone. None of this mentions how a call is decided or finished.
 */
module Answers {
  import opened Wrappers
  import opened Leases
  import opened LockState
  import opened Snapshots
  import opened TableSpec

  /** There is a lease on `name` whose deadline is still to come. */
  predicate Taken(m: Locks, name: string, now: Time) {
    name in m && m[name].lease.Some? && now < m[name].lease.value.expiresAt
  }

  predicate TakenBy(m: Locks, name: string, holder: string, token: Token, now: Time) {
    Taken(m, name, now) && m[name].lease.value.holder == holder && m[name].lease.value.token == token
  }

  /** The hook had its say and said no. */
  predicate Refused(hooked: bool, env: Env) {
    hooked && !env.saved
  }

  // What the caller is told

  lemma AcquireAnswers(b: Bounds, hooked: bool, m: Locks, name: string, holder: string, ttl: Duration, env: Env)
    ensures var reply := Call(b, hooked, m, Acquire(name, holder, ttl), env).reply;
            var legal := ValidName(name) && ValidHolder(holder) && b.minTTL <= ttl <= b.maxTTL;
            && (reply.Invalid? <==> !legal)
            && (reply.Held? <==> legal && Taken(m, name, env.now))
            && (reply.Granted? <==> legal && !Taken(m, name, env.now) && !Refused(hooked, env))
            && (reply.NotDurable? <==> legal && !Taken(m, name, env.now) && Refused(hooked, env))
            && (reply.Held? ==>
                  reply.holder == m[name].lease.value.holder && reply.expiresAt == m[name].lease.value.expiresAt)
            && (reply.Granted? ==>
                  && reply.lease.name == name && reply.lease.holder == holder
                  && reply.lease.token == (if Floor(m, name) == MAX_TOKEN then 0 else Floor(m, name) + 1)
                  && reply.lease.ttl == ttl
                  && reply.lease.acquiredAt == env.now && reply.lease.expiresAt == env.now + ttl)
  {
  }

  lemma RenewAnswers(
    b: Bounds, hooked: bool, m: Locks, name: string, holder: string, token: Token, ttl: Duration, env: Env)
    requires Legal(m)
    ensures var reply := Call(b, hooked, m, Renew(name, holder, token, ttl), env).reply;
            var legal := ValidName(name) && ValidHolder(holder) && b.minTTL <= ttl <= b.maxTTL;
            && (reply.Invalid? <==> !legal)
            && (reply.Gone? <==> legal && !TakenBy(m, name, holder, token, env.now))
            && (reply.Renewed? <==> legal && TakenBy(m, name, holder, token, env.now) && !Refused(hooked, env))
            && (reply.NotDurable? <==> legal && TakenBy(m, name, holder, token, env.now) && Refused(hooked, env))
            && (reply.Renewed? ==>
                  && reply.lease.name == name && reply.lease.holder == holder && reply.lease.token == token
                  && reply.lease.ttl == ttl
                  && reply.lease.acquiredAt == m[name].lease.value.acquiredAt
                  && reply.lease.expiresAt == env.now + ttl)
  {
    assert name in m ==> LegalEntry(name, m[name]);
  }

  lemma ReleaseAnswers(b: Bounds, hooked: bool, m: Locks, name: string, holder: string, token: Token, env: Env)
    ensures var reply := Call(b, hooked, m, Release(name, holder, token), env).reply;
            var legal := ValidName(name) && ValidHolder(holder);
            && (reply.Invalid? <==> !legal)
            && (reply.Gone? <==> legal && !TakenBy(m, name, holder, token, env.now))
            && (reply.Released? <==> legal && TakenBy(m, name, holder, token, env.now) && !Refused(hooked, env))
            && (reply.NotDurable? <==> legal && TakenBy(m, name, holder, token, env.now) && Refused(hooked, env))
  {
  }

  /** What is read: the floor, and the lease while its deadline is to come. */
  lemma ReadersAnswer(b: Bounds, hooked: bool, m: Locks, name: string, env: Env)
    ensures var reply := Call(b, hooked, m, Get(name), env).reply;
            if !ValidName(name) then reply == Invalid
            else
              && reply.Reported? && reply.status.name == name
              && reply.status.lastToken == (if name in m then m[name].lastToken else 0)
              && reply.status.lease == if Taken(m, name, env.now) then m[name].lease else None
    ensures var reply := Call(b, hooked, m, List, env).reply;
            && reply.Listed?
            && (name in reply.held <==> Taken(m, name, env.now))
            && (name in reply.held ==> reply.held[name] == Status(name, m[name].lastToken, m[name].lease))
            && Call(b, hooked, m, HeldCount, env).reply == Counted(|reply.held|)
  {
  }

  // What becomes of the table

  /** Both clock readings of the call are past, so that nothing it pruned could be alive. */
  predicate AfterCall(env: Env, t: Time) {
    env.now <= t && env.hookNow <= t
  }

  /** Whoever asks later cannot tell the two tables apart as far as this lock is concerned. */
  ghost predicate SameLater(m: Locks, m': Locks, n: string, env: Env) {
    && Floor(m', n) == Floor(m, n)
    && forall t | AfterCall(env, t) ::
         (Taken(m', n, t) <==> Taken(m, n, t)) && (Taken(m', n, t) ==> m'[n].lease == m[n].lease)
  }

  /** A call leaves all locks but its own as they are, whatever it prunes and whatever it answers. */
  lemma OthersUntouched(b: Bounds, hooked: bool, m: Locks, req: Request, env: Env, n: string)
    requires req.Acquire? || req.Renew? || req.Release? ==> req.name != n
    ensures SameLater(m, Call(b, hooked, m, req, env).locks, n, env)
  {
  }

  /** An unsuccessful call that never came to the hook leaves its own lock as it is, too. */
  lemma RefusalsChangeNothing(b: Bounds, hooked: bool, m: Locks, req: Request, env: Env, n: string)
    requires var reply := Call(b, hooked, m, req, env).reply; reply.Invalid? || reply.Held? || reply.Gone?
    ensures SameLater(m, Call(b, hooked, m, req, env).locks, n, env)
  {
  }

  /** A grant holds the lock exactly until its deadline; a burned one leaves it free, with the number used up. */
  lemma AcquireEffect(
    b: Bounds, hooked: bool, m: Locks, name: string, holder: string, ttl: Duration, env: Env, t: Time)
    requires AfterCall(env, t)
    ensures var o := Call(b, hooked, m, Acquire(name, holder, ttl), env);
            o.reply.Granted? || o.reply.NotDurable? ==>
              && Floor(o.locks, name) == (if Floor(m, name) == MAX_TOKEN then 0 else Floor(m, name) + 1)
              && (Taken(o.locks, name, t) <==> o.reply.Granted? && t < env.now + ttl)
              && (Taken(o.locks, name, t) ==> o.locks[name].lease.value == o.reply.lease)
              && (o.reply.NotDurable? ==> o.locks[name].lease == None)
  {
  }

  /** A renewal moves the deadline and nothing else, whether it could be saved or not. */
  lemma RenewEffect(
    b: Bounds, hooked: bool, m: Locks, name: string, holder: string, token: Token, ttl: Duration, env: Env, t: Time)
    requires AfterCall(env, t)
    ensures var o := Call(b, hooked, m, Renew(name, holder, token, ttl), env);
            o.reply.Renewed? || o.reply.NotDurable? ==>
              && Floor(o.locks, name) == Floor(m, name)
              && (Taken(o.locks, name, t) <==> t < env.now + ttl)
              && (Taken(o.locks, name, t) ==>
                    o.locks[name].lease.value == m[name].lease.value.(ttl := ttl, expiresAt := env.now + ttl))
  {
  }

  /** A release frees the lock and keeps its floor, whether it could be saved or not. */
  lemma ReleaseEffect(b: Bounds, hooked: bool, m: Locks, name: string, holder: string, token: Token, env: Env)
    ensures var o := Call(b, hooked, m, Release(name, holder, token), env);
            o.reply.Released? || o.reply.NotDurable? ==>
              name in o.locks && o.locks[name] == Entry(Floor(m, name), None)
  {
  }

  /** The snapshot shows a lock's floor, and its lease if the deadline is later than `now`, to the millisecond. */
  predicate Shows(s: Snapshot, m: Locks, n: string, now: Time) {
    && SnapshotFloor(s, n) == Floor(m, n)
    && (n in s.locks && s.locks[n].holder != "" <==> Taken(m, n, now))
    && (Taken(m, n, now) ==> Describes(s.locks[n], m[n].lease.value))
  }

  lemma SnapshotShows(m: Locks, n: string, now: Time)
    requires Legal(m) && TokensAreFloors(m)
    ensures Shows(SnapshotAt(m, now), PruneAll(m, now), n, now)
  {
    var p := PruneAll(m, now);
    PruneAllKeeps(m, now);
    EncodeKeepsFloor(p, n);
    HolderMarksLease(p, n);
    if HasLease(p, n) {
      RecordDescribes(p[n]);
    }
  }

  /**
   The hook is called for changes only, and is given every lock of the table as the call leaves it if all
   goes well. A grant it refuses is the one thing it has seen that is then withdrawn.
   */
  lemma HookIsGiven(b: Bounds, hooked: bool, m: Locks, req: Request, env: Env, n: string)
    requires Legal(m) && TokensAreFloors(m) && RoomToGrow(m)
    ensures var o := Call(b, hooked, m, req, env);
            o.offered.Some?
            <==> hooked && (o.reply.Granted? || o.reply.Renewed? || o.reply.Released? || o.reply.NotDurable?)
    ensures var o := Call(b, hooked, m, req, env);
            var burned := req.Acquire? && req.name == n && o.reply.NotDurable?;
            o.offered.Some? ==>
              && SnapshotFloor(o.offered.value, n) == Floor(o.locks, n)
              && (!burned ==> Shows(o.offered.value, o.locks, n, env.hookNow))
  {
    var d := Decide(b, m, req, env.now);
    if d.Commit? && hooked {
      DecideKeeps(b, m, req, env.now);
      SnapshotShows(d.locks, n, env.hookNow);
    }
  }
}
