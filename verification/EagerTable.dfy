/**
 The table the documentation describes: a lease is gone the moment its deadline comes, and no
 operation ever looks at a deadline. The real table, which prunes lazily and whenever it happens to
 touch a lock, cannot be told apart from it.
 */
module EagerTable {
  import opened Wrappers
  import opened Leases
  import opened LockState
  import opened Snapshots
  import opened TableSpec

  /** Time passes: every lease whose deadline has come disappears. */
  function Advance(m: Locks, now: Time): Locks {
    map n | n in m ::
      if m[n].lease.Some? && m[n].lease.value.expiresAt <= now then Entry(m[n].lastToken, None) else m[n]
  }

  /** A call on a table that holds no dead lease. */
  function Decide(b: Bounds, m: Locks, req: Request, now: Time): Decision {
    match req
    case Acquire(name, holder, ttl) =>
      if !ValidName(name) || !ValidHolder(holder) || !ValidTTL(b, ttl) then
        Answer(m, Invalid)
      else if HasLease(m, name) then
        Answer(m, Held(LeaseOf(m, name).holder, LeaseOf(m, name).expiresAt))
      else
        var l := Lease(name, holder, NextToken(Floor(m, name)), ttl, now, now + ttl);
        Commit(m[name := Entry(l.token, Some(l))], Granting(l))
    case Renew(name, holder, token, ttl) =>
      if !ValidName(name) || !ValidHolder(holder) || !ValidTTL(b, ttl) then
        Answer(m, Invalid)
      else if !Owns(m, name, holder, token) then
        Answer(m, Gone)
      else
        var l := LeaseOf(m, name).(ttl := ttl, expiresAt := now + ttl);
        Commit(m[name := Entry(m[name].lastToken, Some(l))], Renewing(l))
    case Release(name, holder, token) =>
      if !ValidName(name) || !ValidHolder(holder) then
        Answer(m, Invalid)
      else if !Owns(m, name, holder, token) then
        Answer(m, Gone)
      else
        Commit(m[name := Entry(m[name].lastToken, None)], Releasing(name))
    case Get(name) =>
      if !ValidName(name) then
        Answer(m, Invalid)
      else
        Answer(m, Reported(Status(name, Floor(m, name), if name in m then m[name].lease else None)))
    case List => Answer(m, Listed(HeldStatuses(m)))
    case HeldCount => Answer(m, Counted(|HeldStatuses(m)|))
  }

  /** A call as it happens in time: at `now`, with the hook's snapshot taken at `hookNow`. */
  function Call(b: Bounds, hooked: bool, m: Locks, req: Request, env: Env): Outcome {
    match Decide(b, Advance(m, env.now), req, env.now)
    case Answer(m', reply) => Outcome(m', reply, None)
    case Commit(m', p) =>
      if hooked then
        var later := Advance(m', env.hookNow);
        var (final, reply) := Finish(later, p, env.saved);
        Outcome(final, reply, Some(Encode(later)))
      else
        var (final, reply) := Finish(m', p, true);
        Outcome(final, reply, None)
  }

  /** What a client and the hook can observe of a call. */
  datatype Observation = Observation(reply: Reply, offered: Option<Snapshot>)

  function Observations(b: Bounds, hooked: bool, m: Locks, calls: seq<(Request, Env)>): seq<Observation>
    decreases |calls|
  {
    if calls == [] then []
    else
      var o := Call(b, hooked, m, calls[0].0, calls[0].1);
      [Observation(o.reply, o.offered)] + Observations(b, hooked, o.locks, calls[1..])
  }

  function LazyObservations(b: Bounds, hooked: bool, m: Locks, calls: seq<(Request, Env)>): seq<Observation>
    decreases |calls|
  {
    if calls == [] then []
    else
      var o := TableSpec.Call(b, hooked, m, calls[0].0, calls[0].1);
      [Observation(o.reply, o.offered)] + LazyObservations(b, hooked, o.locks, calls[1..])
  }

  /** One clock that never runs backwards, not even between the two readings of a call. */
  ghost predicate Monotone(start: Time, calls: seq<(Request, Env)>)
    decreases |calls|
  {
    calls != [] ==>
      && start <= calls[0].1.now <= calls[0].1.hookNow
      && Monotone(calls[0].1.hookNow, calls[1..])
  }

  lemma AdvanceIsPruneAll(m: Locks, now: Time)
    ensures Advance(m, now) == PruneAll(m, now)
  {
  }

  /** From `since` on, nobody can tell the two tables apart. */
  ghost predicate Alike(m: Locks, e: Locks, since: Time) {
    forall t | since <= t :: PruneAll(m, t) == PruneAll(e, t)
  }

  lemma PrunedIsAlike(m: Locks, name: string, now: Time)
    ensures Alike(m, PruneAll(m, now), now)
    ensures Alike(PruneAt(m, name, now), PruneAll(m, now), now)
    ensures HasLease(PruneAt(m, name, now), name) == HasLease(PruneAll(m, now), name)
    ensures name in m ==> PruneAt(m, name, now)[name] == PruneAll(m, now)[name]
  {
    var p, q := PruneAt(m, name, now), PruneAll(m, now);
    forall t | now <= t
      ensures PruneAll(m, t) == PruneAll(q, t)
    {
      PruneAllTwice(m, now, t);
    }
    forall t | now <= t
      ensures PruneAll(p, t) == PruneAll(q, t)
    {
      PruneAllTwice(m, now, t);
      PruneAtThenAll(m, name, now, t);
    }
  }

  lemma AlikeUpdate(m: Locks, e: Locks, since: Time, name: string, entry: Entry)
    requires Alike(m, e, since)
    ensures Alike(m[name := entry], e[name := entry], since)
  {
    var m', e' := m[name := entry], e[name := entry];
    forall t | since <= t
      ensures PruneAll(m', t) == PruneAll(e', t)
    {
      PruneAllUpdate(m, name, entry, t);
      PruneAllUpdate(e, name, entry, t);
    }
  }

  lemma PruneAllUpdate(m: Locks, name: string, entry: Entry, t: Time)
    ensures PruneAll(m[name := entry], t) == PruneAll(m, t)[name := Prune(entry, t)]
  {
  }

  /** Deciding on a fully pruned table answers the same, and the tables stay alike. */
  lemma DecideSimulates(b: Bounds, m: Locks, req: Request, now: Time)
    ensures var lazy := TableSpec.Decide(b, m, req, now);
            var eager := Decide(b, PruneAll(m, now), req, now);
            && lazy.Answer? == eager.Answer?
            && (lazy.Answer? ==> lazy.reply == eager.reply)
            && (lazy.Commit? ==> lazy.pending == eager.pending)
            && Alike(lazy.locks, eager.locks, now)
  {
    var e := PruneAll(m, now);
    var lazy := TableSpec.Decide(b, m, req, now);
    if req.List? || req.HeldCount? {
      PrunedIsAlike(m, "", now);
    } else {
      var name := req.name;
      PrunedIsAlike(m, name, now);
      var p := PruneAt(m, name, now);
      if lazy.Commit? {
        var entry := lazy.locks[name];
        assert lazy.locks == p[name := entry];
        AlikeUpdate(p, e, now, name, entry);
        assert Decide(b, e, req, now).locks == e[name := entry];
      }
    }
  }

  /** One call: same reply, same snapshot to the hook, and the tables stay alike. */
  lemma CallSimulates(b: Bounds, hooked: bool, m: Locks, e: Locks, since: Time, req: Request, env: Env)
    requires Alike(m, e, since) && since <= env.now <= env.hookNow
    ensures var lazy := TableSpec.Call(b, hooked, m, req, env);
            var eager := Call(b, hooked, e, req, env);
            && lazy.reply == eager.reply && lazy.offered == eager.offered
            && Alike(lazy.locks, eager.locks, env.hookNow)
  {
    AdvanceIsPruneAll(e, env.now);
    assert PruneAll(m, env.now) == PruneAll(e, env.now);
    DecideSimulates(b, m, req, env.now);
    var lazy := TableSpec.Decide(b, m, req, env.now);
    var eager := Decide(b, PruneAll(m, env.now), req, env.now);
    if lazy.Commit? {
      if hooked {
        AdvanceIsPruneAll(eager.locks, env.hookNow);
        assert PruneAll(lazy.locks, env.hookNow) == PruneAll(eager.locks, env.hookNow);
      }
    }
  }

  /**
   Lazy expiry refines eager expiry: under a monotone clock every sequence of calls gives the same
   replies and offers the hook the same snapshots, so pruning by List, Get, HeldCount or another
   lock's persist is never observable.
   */
  lemma {:induction false} LazyRefinesEager(
    b: Bounds, hooked: bool, m: Locks, e: Locks, since: Time, calls: seq<(Request, Env)>)
    requires Alike(m, e, since) && Monotone(since, calls)
    ensures LazyObservations(b, hooked, m, calls) == Observations(b, hooked, e, calls)
    decreases |calls|
  {
    if calls != [] {
      var (req, env) := calls[0];
      CallSimulates(b, hooked, m, e, since, req, env);
      LazyRefinesEager(b, hooked,
        TableSpec.Call(b, hooked, m, req, env).locks, Call(b, hooked, e, req, env).locks, env.hookNow, calls[1..]);
    }
  }
}
