/**
 How many heartbeats may fail before a lease is lost, when renewals come on schedule with no delay:
 the interval withlock picks from the TTL it was given, against the whole milliseconds of it that
 reach the lock table, with other callers busy on the same table and, perhaps, a server that crashes
 and restarts in between.
 */
module Heartbeat {
  import opened Wrappers
  import opened Leases
  import opened LockState
  import opened Snapshots
  import opened TableSpec
  import opened Wire
  import opened WithLock

  /** A server: its table, and the snapshot in its state file. */
  datatype Server = Server(locks: Locks, disk: Snapshot)

  /** What else may happen to it: somebody else's call, or a crash and a restart. */
  datatype Incident = Other(req: Request, env: Env) | CrashAndRestart

  /** What becomes of a heartbeat: answered, refused by the disk, or lost on the way there or back. */
  datatype Beat = Answered | NotSaved | ReplyLost | RequestLost

  /** One interval: what happens in the meantime, and then the heartbeat. */
  datatype Round = Round(meanwhile: seq<Incident>, beat: Beat)

  function AfterCall(b: Bounds, s: Server, req: Request, env: Env): Server {
    var o := Call(b, true, s.locks, req, env);
    Server(o.locks, if o.offered.Some? && env.saved then o.offered.value else s.disk)
  }

  /** A file that Restore refused would leave no server, which holds nothing. */
  function Restarted(s: Server): Server {
    var m := Restored(Some(s.disk));
    s.(locks := if m.Success? then m.value else map[])
  }

  function AfterIncident(b: Bounds, s: Server, i: Incident): Server {
    match i
    case Other(req, env) => AfterCall(b, s, req, env)
    case CrashAndRestart => Restarted(s)
  }

  function AfterIncidents(b: Bounds, s: Server, meanwhile: seq<Incident>): Server
    decreases |meanwhile|
  {
    if meanwhile == [] then s else AfterIncidents(b, AfterIncident(b, s, meanwhile[0]), meanwhile[1..])
  }

  /** The server after a heartbeat at `t`; a request that got lost never reached it. */
  function AfterBeat(b: Bounds, s: Server, creds: Credentials, ttl: Duration, t: Time, beat: Beat): Server {
    if beat.RequestLost? then s
    else AfterCall(b, s, Renew(creds.name, creds.holder, creds.token, ttl), Env(t, t, !beat.NotSaved?))
  }

  function AfterRound(b: Bounds, s: Server, creds: Credentials, ttl: Duration, t: Time, round: Round): Server {
    AfterBeat(b, AfterIncidents(b, s, round.meanwhile), creds, ttl, t, round.beat)
  }

  /** The server after all the rounds, one interval apart, the first heartbeat at `t`. */
  function AfterRounds(
    b: Bounds, s: Server, creds: Credentials, ttl: Duration, t: Time, every: Duration, rounds: seq<Round>): Server
    decreases |rounds|
  {
    if rounds == [] then s
    else AfterRounds(b, AfterRound(b, s, creds, ttl, t, rounds[0]), creds, ttl, t + every, every, rounds[1..])
  }

  /** The holder still owns the lock at `t`. */
  predicate Keeps(m: Locks, creds: Credentials, t: Time) {
    Owns(m, creds.name, creds.holder, creds.token) && HeldAt(m, creds.name, t)
  }

  /** A call that does not use the holder's credentials, made no later than `t`; a restart, if there may be any. */
  predicate Foreign(i: Incident, creds: Credentials, t: Time, restarts: bool) {
    match i
    case Other(req, env) =>
      !Presents(req, creds.name, creds.holder, creds.token) && env.now <= t && env.hookNow <= t
    case CrashAndRestart => restarts
  }

  ghost predicate AllForeign(meanwhile: seq<Incident>, creds: Credentials, t: Time, restarts: bool) {
    forall i | i in meanwhile :: Foreign(i, creds, t, restarts)
  }

  /** Only foreign incidents, and no run of failures longer than `most`, `sofar` having just failed. */
  ghost predicate Schedule(
    rounds: seq<Round>, creds: Credentials, t: Time, every: Duration, sofar: nat, most: nat, restarts: bool)
    decreases |rounds|
  {
    && sofar <= most
    && (rounds != [] ==>
          && AllForeign(rounds[0].meanwhile, creds, t, restarts)
          && Schedule(
               rounds[1..], creds, t + every, every, if rounds[0].beat.Answered? then 0 else sofar + 1, most, restarts))
  }

  predicate Possible(b: Bounds, creds: Credentials, ttl: Duration) {
    ValidName(creds.name) && ValidHolder(creds.holder) && ValidTTL(b, ttl)
  }

  // How long a lease is safe

  /** What is left of a deadline when there may be restarts: its whole milliseconds. */
  function Until(deadline: Time, restarts: bool): Time {
    if restarts then UnixMilli(deadline) * MILLISECOND else deadline
  }

  /** The most a restart can take away. */
  function Slack(restarts: bool): Duration {
    if restarts then MILLISECOND - 1 else 0
  }

  /** The file can be restored, and has this lease in it up to `deadline` at least. */
  ghost predicate FileKeeps(disk: Snapshot, creds: Credentials, deadline: Time) {
    && disk.schemaVersion == SCHEMA_VERSION
    && (forall n | n in disk.locks :: Restorable(n, disk.locks[n]))
    && creds.name in disk.locks
    && disk.locks[creds.name].holder == creds.holder && disk.locks[creds.name].token == creds.token
    && deadline <= disk.locks[creds.name].expiresAtMS * MILLISECOND
  }

  /** The lease lasts up to `deadline` at least, through restarts if there may be any. */
  ghost predicate SafeUntil(s: Server, creds: Credentials, deadline: Time, restarts: bool) {
    && Legal(s.locks)
    && Owns(s.locks, creds.name, creds.holder, creds.token)
    && deadline <= Until(LeaseOf(s.locks, creds.name).expiresAt, restarts)
    && (restarts ==> FileKeeps(s.disk, creds, deadline))
  }

  lemma SnapshotKeeps(m: Locks, creds: Credentials, deadline: Time)
    requires Legal(m) && Owns(m, creds.name, creds.holder, creds.token)
    requires deadline <= UnixMilli(LeaseOf(m, creds.name).expiresAt) * MILLISECOND
    ensures FileKeeps(Encode(m), creds, deadline)
  {
    forall n | n in Encode(m).locks
      ensures Restorable(n, Encode(m).locks[n])
    {
      assert LegalEntry(n, m[n]);
    }
  }

  lemma RestartKeeps(s: Server, creds: Credentials, deadline: Time)
    requires SafeUntil(s, creds, deadline, true) && ValidHolder(creds.holder)
    ensures SafeUntil(Restarted(s), creds, deadline, true)
  {
    RestoreSelfHeals(s.disk);
    MilliOrder(0, s.disk.locks[creds.name].expiresAtMS);
  }

  /** Nobody else's call touches a lease before its deadline. */
  lemma ForeignCallKeepsLease(b: Bounds, m: Locks, req: Request, env: Env, creds: Credentials, t: Time)
    requires Keeps(m, creds, t) && Foreign(Other(req, env), creds, t, false)
    ensures var m' := Call(b, true, m, req, env).locks;
            Owns(m', creds.name, creds.holder, creds.token) && LeaseOf(m', creds.name) == LeaseOf(m, creds.name)
    ensures var o := Call(b, true, m, req, env);
            o.offered.Some? ==>
              exists p: Locks :: o.offered == Some(Encode(p)) && (Legal(m) ==> Legal(p))
                                 && HasLease(p, creds.name) && LeaseOf(p, creds.name) == LeaseOf(m, creds.name)
  {
    var d := Decide(b, m, req, env.now);
    assert Owns(d.locks, creds.name, creds.holder, creds.token);
    assert LeaseOf(d.locks, creds.name) == LeaseOf(m, creds.name);
    if d.Commit? {
      var p := PruneAll(d.locks, env.hookNow);
      assert HasLease(p, creds.name) && LeaseOf(p, creds.name) == LeaseOf(m, creds.name);
      assert d.pending.Granting? ==> d.pending.lease.name != creds.name;
      DecideKeeps(b, m, req, env.now);
      PruneAllKeeps(d.locks, env.hookNow);
    }
  }

  lemma IncidentKeeps(b: Bounds, s: Server, i: Incident, creds: Credentials, t: Time, deadline: Time, restarts: bool)
    requires SafeUntil(s, creds, deadline, restarts) && t < deadline && ValidHolder(creds.holder)
    requires Foreign(i, creds, t, restarts)
    ensures SafeUntil(AfterIncident(b, s, i), creds, deadline, restarts)
  {
    match i
    case Other(req, env) =>
      ForeignCallKeepsLease(b, s.locks, req, env, creds, t);
      CallKeeps(b, true, s.locks, req, env);
      var o := Call(b, true, s.locks, req, env);
      if restarts && o.offered.Some? {
        var p: Locks :| o.offered == Some(Encode(p)) && (Legal(s.locks) ==> Legal(p))
                        && HasLease(p, creds.name) && LeaseOf(p, creds.name) == LeaseOf(s.locks, creds.name);
        SnapshotKeeps(p, creds, deadline);
      }
    case CrashAndRestart => RestartKeeps(s, creds, deadline);
  }

  lemma {:induction false} IncidentsKeep(
    b: Bounds, s: Server, meanwhile: seq<Incident>, creds: Credentials, t: Time, deadline: Time, restarts: bool)
    requires SafeUntil(s, creds, deadline, restarts) && t < deadline && ValidHolder(creds.holder)
    requires AllForeign(meanwhile, creds, t, restarts)
    ensures SafeUntil(AfterIncidents(b, s, meanwhile), creds, deadline, restarts)
    decreases |meanwhile|
  {
    if meanwhile != [] {
      IncidentKeeps(b, s, meanwhile[0], creds, t, deadline, restarts);
      IncidentsKeep(b, AfterIncident(b, s, meanwhile[0]), meanwhile[1..], creds, t, deadline, restarts);
    }
  }

  /** A heartbeat in time gives the lease a full TTL, in memory at least; one that is answered, on disk too. */
  lemma BeatKeeps(
    b: Bounds, s: Server, creds: Credentials, ttl: Duration, t: Time, beat: Beat, deadline: Time, restarts: bool)
    requires Possible(b, creds, ttl) && SafeUntil(s, creds, deadline, restarts)
    requires t < deadline <= t + ttl - Slack(restarts)
    ensures SafeUntil(AfterBeat(b, s, creds, ttl, t, beat), creds,
                      if beat.Answered? then t + ttl - Slack(restarts) else deadline, restarts)
  {
    if !beat.RequestLost? {
      var req, env := Renew(creds.name, creds.holder, creds.token, ttl), Env(t, t, !beat.NotSaved?);
      var o := Call(b, true, s.locks, req, env);
      CallKeeps(b, true, s.locks, req, env);
      var l := LeaseOf(s.locks, creds.name).(ttl := ttl, expiresAt := t + ttl);
      assert HasLease(o.locks, creds.name) && LeaseOf(o.locks, creds.name) == l && o.offered == Some(Encode(o.locks));
      MilliOrder(t + ttl, 0);
      if restarts {
        SnapshotKeeps(o.locks, creds, t + ttl - Slack(restarts));
      }
    }
  }

  /** The length of `n` intervals. */
  function Span(n: nat, every: Duration): Duration {
    if n == 0 then 0 else every + Span(n - 1, every)
  }

  /** One interval, as long as the deadline has not come. */
  lemma RoundKeeps(
    b: Bounds, s: Server, creds: Credentials, ttl: Duration, t: Time, round: Round, deadline: Time, restarts: bool)
    requires Possible(b, creds, ttl) && SafeUntil(s, creds, deadline, restarts)
    requires AllForeign(round.meanwhile, creds, t, restarts)
    requires t < deadline <= t + ttl - Slack(restarts)
    ensures SafeUntil(AfterRound(b, s, creds, ttl, t, round), creds,
                      if round.beat.Answered? then t + ttl - Slack(restarts) else deadline, restarts)
  {
    IncidentsKeep(b, s, round.meanwhile, creds, t, deadline, restarts);
    BeatKeeps(b, AfterIncidents(b, s, round.meanwhile), creds, ttl, t, round.beat, deadline, restarts);
  }

  lemma SafeMeansKept(s: Server, creds: Credentials, t: Time, deadline: Time, restarts: bool)
    requires SafeUntil(s, creds, deadline, restarts) && t < deadline
    ensures Keeps(s.locks, creds, t)
  {
    MilliOrder(LeaseOf(s.locks, creds.name).expiresAt, 0);
  }

  lemma {:induction false} LeaseSurvives(
    b: Bounds, s: Server, creds: Credentials, ttl: Duration, t: Time, every: Duration, rounds: seq<Round>,
    sofar: nat, most: nat, restarts: bool, deadline: Time)
    requires Possible(b, creds, ttl) && 0 < every && sofar <= most
    requires every + Span(most, every) < ttl - Slack(restarts)
    requires t + Span(most - sofar, every) < deadline <= t + ttl - Slack(restarts)
    requires Schedule(rounds, creds, t, every, sofar, most, restarts) && SafeUntil(s, creds, deadline, restarts)
    ensures Keeps(AfterRounds(b, s, creds, ttl, t, every, rounds).locks, creds, t + Span(|rounds|, every))
    decreases |rounds|
  {
    SpanIsPositive(most - sofar, every);
    if rounds == [] {
      SafeMeansKept(s, creds, t, deadline, restarts);
    } else {
      RoundKeeps(b, s, creds, ttl, t, rounds[0], deadline, restarts);
      var s' := AfterRound(b, s, creds, ttl, t, rounds[0]);
      var answered := rounds[0].beat.Answered?;
      LeaseSurvives(b, s', creds, ttl, t + every, every, rounds[1..], if answered then 0 else sofar + 1, most, restarts,
                    if answered then t + ttl - Slack(restarts) else deadline);
    }
  }

  lemma {:induction false} SpanIsProduct(n: nat, every: Duration)
    ensures Span(n, every) == n * every
  {
    if n > 0 {
      SpanIsProduct(n - 1, every);
      assert n * every == (n - 1) * every + every;
    }
  }

  lemma {:induction false} SpanIsPositive(n: nat, every: Duration)
    requires 0 < every
    ensures Span(n, every) >= 0
  {
    if n > 0 {
      SpanIsPositive(n - 1, every);
    }
  }

  // How a lease is lost

  /** So many requests lost, and then a heartbeat that gets through, just after a restart if there may be one. */
  function TooLate(n: nat, restarts: bool): seq<Round> {
    if n == 0 then [Round(if restarts then [CrashAndRestart] else [], Answered)]
    else [Round([], RequestLost)] + TooLate(n - 1, restarts)
  }

  lemma {:induction false} TooLateIsScheduled(
    n: nat, creds: Credentials, t: Time, every: Duration, sofar: nat, most: nat, restarts: bool)
    requires sofar + n <= most
    ensures Schedule(TooLate(n, restarts), creds, t, every, sofar, most, restarts)
    decreases n
  {
    if n > 0 {
      assert TooLate(n, restarts)[1..] == TooLate(n - 1, restarts);
      TooLateIsScheduled(n - 1, creds, t + every, every, sofar + 1, most, restarts);
    }
  }

  lemma {:induction false} TooLateLoses(
    b: Bounds, s: Server, creds: Credentials, ttl: Duration, t: Time, every: Duration, n: nat, restarts: bool)
    requires Possible(b, creds, ttl) && Owns(s.locks, creds.name, creds.holder, creds.token)
    requires s.disk == Encode(s.locks)
    requires Until(LeaseOf(s.locks, creds.name).expiresAt, restarts) <= t + Span(n, every)
    ensures !HasLease(AfterRounds(b, s, creds, ttl, t, every, TooLate(n, restarts)).locks, creds.name)
    decreases n
  {
    var rounds := TooLate(n, restarts);
    if n > 0 {
      assert rounds[1..] == TooLate(n - 1, restarts);
      TooLateLoses(b, s, creds, ttl, t + every, every, n - 1, restarts);
    } else {
      var before := AfterIncidents(b, s, rounds[0].meanwhile);
      if restarts {
        assert rounds[0].meanwhile == [CrashAndRestart] && rounds[0].meanwhile[1..] == [];
        assert before == AfterIncidents(b, AfterIncident(b, s, CrashAndRestart), []);
      }
      assert HasLease(before.locks, creds.name) ==>
          LeaseOf(before.locks, creds.name).expiresAt == Until(LeaseOf(s.locks, creds.name).expiresAt, restarts);
      assert !HasLease(AfterBeat(b, before, creds, ttl, t, Answered).locks, creds.name);
    }
  }

  // How many failures are tolerated

  /** The lease has just been granted and saved at `t0`. */
  ghost predicate JustGranted(s: Server, creds: Credentials, ttl: Duration, t0: Time) {
    && Legal(s.locks) && s.disk == Encode(s.locks)
    && Owns(s.locks, creds.name, creds.holder, creds.token) && LeaseOf(s.locks, creds.name).expiresAt == t0 + ttl
  }

  ghost predicate Scheduled(
    rounds: seq<Round>, creds: Credentials, t0: Time, every: Duration, most: nat, restarts: bool)
  {
    Schedule(rounds, creds, t0 + every, every, 0, most, restarts)
  }

  /** After the rounds, when the next heartbeat is due, the lease is still there. */
  predicate Survives(
    b: Bounds, s: Server, creds: Credentials, ttl: Duration, t0: Time, every: Duration, rounds: seq<Round>)
  {
    var end := AfterRounds(b, s, creds, ttl, t0 + every, every, rounds);
    Keeps(end.locks, creds, t0 + every + Span(|rounds|, every))
  }

  /** Whenever it was granted, the lease survives all schedules with at most `most` failures in a row. */
  ghost predicate Tolerates(
    b: Bounds, creds: Credentials, ttl: Duration, every: Duration, most: nat, restarts: bool)
  {
    forall s, t0, rounds | JustGranted(s, creds, ttl, t0) && Scheduled(rounds, creds, t0, every, most, restarts) ::
      Survives(b, s, creds, ttl, t0, every, rounds)
  }

  lemma GrantSurvives(
    b: Bounds, s: Server, creds: Credentials, ttl: Duration, t0: Time, every: Duration, rounds: seq<Round>,
    most: nat, restarts: bool)
    requires Possible(b, creds, ttl) && 0 < every && (most + 1) * every < ttl - Slack(restarts)
    requires JustGranted(s, creds, ttl, t0) && Scheduled(rounds, creds, t0, every, most, restarts)
    ensures Survives(b, s, creds, ttl, t0, every, rounds)
  {
    SpanIsProduct(most, every);
    assert (most + 1) * every == most * every + every;
    MilliOrder(t0 + ttl, 0);
    if restarts {
      SnapshotKeeps(s.locks, creds, t0 + ttl - Slack(restarts));
    }
    LeaseSurvives(b, s, creds, ttl, t0 + every, every, rounds, 0, most, restarts, t0 + ttl - Slack(restarts));
  }

  /**
   A lease of `ttl` renewed every `every` survives any number of heartbeats with at most `most` failures
   in a row exactly when `most + 1` intervals are strictly shorter than its TTL; and if the server may
   restart, shorter by a whole millisecond, since a restart rounds the deadline down.
   */
  lemma ToleranceIff(b: Bounds, creds: Credentials, ttl: Duration, every: Duration, most: nat, restarts: bool)
    requires Possible(b, creds, ttl) && 0 < every
    ensures Tolerates(b, creds, ttl, every, most, restarts) <==> (most + 1) * every < ttl - Slack(restarts)
  {
    if (most + 1) * every < ttl - Slack(restarts) {
      forall s, t0, rounds | JustGranted(s, creds, ttl, t0) && Scheduled(rounds, creds, t0, every, most, restarts)
        ensures Survives(b, s, creds, ttl, t0, every, rounds)
      {
        GrantSurvives(b, s, creds, ttl, t0, every, rounds, most, restarts);
      }
    } else {
      var t0 := Slack(restarts) - ttl;
      var l := Lease(creds.name, creds.holder, creds.token, ttl, t0, t0 + ttl);
      var m := map[creds.name := Entry(creds.token, Some(l))];
      LateIsLost(b, Server(m, Encode(m)), creds, ttl, t0, every, most, restarts);
    }
  }

  /** Otherwise there is a schedule that loses it, if only the deadline is the end of a millisecond. */
  lemma LateIsLost(
    b: Bounds, s: Server, creds: Credentials, ttl: Duration, t0: Time, every: Duration, most: nat, restarts: bool)
    requires Possible(b, creds, ttl) && JustGranted(s, creds, ttl, t0)
    requires (most + 1) * every >= ttl - Slack(restarts)
    requires restarts ==> (t0 + ttl) % MILLISECOND == MILLISECOND - 1
    ensures Scheduled(TooLate(most, restarts), creds, t0, every, most, restarts)
    ensures !Survives(b, s, creds, ttl, t0, every, TooLate(most, restarts))
  {
    SpanIsProduct(most, every);
    assert (most + 1) * every == most * every + every;
    TooLateIsScheduled(most, creds, t0 + every, every, 0, most, restarts);
    TooLateLoses(b, s, creds, ttl, t0 + every, every, most, restarts);
  }

  /**
   With withlock's default interval, one failure between successes is survived exactly when the TTL is
   at least 201 ms, restarts or not. Two are survived only without restarts, and only if the TTL is at
   least 300 ms and what it loses by being sent in milliseconds is less than what a third of it loses by
   being rounded; a TTL of whole milliseconds must not be divisible by 3. At the default of 30 seconds
   the third heartbeat falls on the deadline, at which the lease is gone. Three are never survived.
   */
  lemma DefaultIntervalTolerates(b: Bounds, creds: Credentials, ttl: Duration, restarts: bool)
    requires Possible(b, creds, SentTTL(ttl))
    ensures var every := RenewInterval(0, ttl);
            && (Tolerates(b, creds, SentTTL(ttl), every, 1, restarts) <==> ttl >= 201 * MILLISECOND)
            && (Tolerates(b, creds, SentTTL(ttl), every, 2, restarts)
                <==> !restarts && ttl >= 300 * MILLISECOND && ttl % MILLISECOND < ttl % 3)
            && !Tolerates(b, creds, SentTTL(ttl), every, 3, restarts)
  {
    var every := RenewInterval(0, ttl);
    ToleranceIff(b, creds, SentTTL(ttl), every, 1, restarts);
    ToleranceIff(b, creds, SentTTL(ttl), every, 2, restarts);
    ToleranceIff(b, creds, SentTTL(ttl), every, 3, restarts);
    IntervalArithmetic(ttl);
  }

  lemma IntervalArithmetic(ttl: Duration)
    ensures var (every, sent) := (RenewInterval(0, ttl), SentTTL(ttl));
            && 0 < every
            && (2 * every < sent <==> ttl >= 201 * MILLISECOND)
            && (2 * every < sent - (MILLISECOND - 1) <==> ttl >= 201 * MILLISECOND)
            && (3 * every < sent <==> ttl >= 300 * MILLISECOND && ttl % MILLISECOND < ttl % 3)
            && !(3 * every < sent - (MILLISECOND - 1))
            && !(4 * every < sent)
  {
  }

  /**
   Heartbeat keeps the lease for ever: acquired at `t0` with a TTL of at least 201 ms and renewed at the
   default interval, it never expires as long as no two successive heartbeats fail, whatever others do
   on the same table and however often the server crashes and restarts.
   */
  lemma HeartbeatKeepsLease(
    b: Bounds, m: Locks, creds: Credentials, ttl: Duration, t0: Time, granted: Outcome, rounds: seq<Round>)
    requires granted == Call(b, true, m, Acquire(creds.name, creds.holder, SentTTL(ttl)), Env(t0, t0, true))
    requires Legal(m) && granted.reply.Granted? && granted.reply.lease.token == creds.token
    requires ttl >= 201 * MILLISECOND
    requires Scheduled(rounds, creds, t0, RenewInterval(0, ttl), 1, true)
    ensures granted.offered.Some?
    ensures var s := Server(granted.locks, granted.offered.value);
            Survives(b, s, creds, SentTTL(ttl), t0, RenewInterval(0, ttl), rounds)
  {
    var s := Server(granted.locks, granted.offered.value);
    GrantIsSaved(b, m, creds, SentTTL(ttl), t0, granted);
    DefaultIntervalTolerates(b, creds, ttl, true);
    assert JustGranted(s, creds, SentTTL(ttl), t0);
  }

  lemma GrantIsSaved(b: Bounds, m: Locks, creds: Credentials, ttl: Duration, t0: Time, granted: Outcome)
    requires granted == Call(b, true, m, Acquire(creds.name, creds.holder, ttl), Env(t0, t0, true))
    requires Legal(m) && granted.reply.Granted? && granted.reply.lease.token == creds.token && ttl > 0
    ensures Possible(b, creds, ttl) && granted.offered.Some?
    ensures JustGranted(Server(granted.locks, granted.offered.value), creds, ttl, t0)
  {
    CallKeeps(b, true, m, Acquire(creds.name, creds.holder, ttl), Env(t0, t0, true));
  }
}
