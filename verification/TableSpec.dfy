/**
 The lock table as a pure transition system. A call runs under the table's mutex, so one call is
 one step; it decides on the state, and if it changed anything the hook gets a snapshot of the
 whole table (for which the clock is read a second time) and may fail.
 */
module TableSpec {
  import opened Wrappers
  import opened Leases
  import opened LockState
  import opened Snapshots

  /** The accepted TTL range. */
  datatype Bounds = Bounds(minTTL: Duration, maxTTL: Duration)

  datatype Request =
    | Acquire(name: string, holder: string, ttl: Duration)
    | Renew(name: string, holder: string, token: Token, ttl: Duration)
    | Release(name: string, holder: string, token: Token)
    | Get(name: string)
    | List
    | HeldCount

  /** What is reported about one lock: free when there is no lease. */
  datatype Status = Status(name: string, lastToken: Token, lease: Option<Lease>)

  datatype Reply =
    | Granted(lease: Lease)
    | Renewed(lease: Lease)
    | Released
    | Held(holder: string, expiresAt: Time)
    | Gone
    | Invalid
    | NotDurable
    | Reported(status: Status)
    | Listed(held: map<string, Status>)
    | Counted(count: nat)

  /** A change made in memory that still has to be persisted. */
  datatype Pending =
    | Granting(lease: Lease)
    | Renewing(lease: Lease)
    | Releasing(name: string)

  datatype Decision =
    | Answer(locks: Locks, reply: Reply)
    | Commit(locks: Locks, pending: Pending)

  predicate ValidTTL(b: Bounds, ttl: Duration) {
    b.minTTL <= ttl <= b.maxTTL
  }

  /** The live lease on `name` is exactly this holder's, under this token. */
  predicate Owns(m: Locks, name: string, holder: string, token: Token) {
    HasLease(m, name) && LeaseOf(m, name).holder == holder && LeaseOf(m, name).token == token
  }

  function HeldStatuses(m: Locks): map<string, Status> {
    map n | n in m && m[n].lease.Some? :: Status(n, m[n].lastToken, m[n].lease)
  }

  /** What a call does up to the persist hook. */
  function Decide(b: Bounds, m: Locks, req: Request, now: Time): Decision {
    match req
    case Acquire(name, holder, ttl) =>
      if !ValidName(name) || !ValidHolder(holder) || !ValidTTL(b, ttl) then
        Answer(m, Invalid)
      else
        var m := PruneAt(if name in m then m else m[name := Entry(0, None)], name, now);
        if HasLease(m, name) then
          Answer(m, Held(LeaseOf(m, name).holder, LeaseOf(m, name).expiresAt))
        else
          var token := NextToken(m[name].lastToken);
          var l := Lease(name, holder, token, ttl, now, now + ttl);
          Commit(m[name := Entry(token, Some(l))], Granting(l))
    case Renew(name, holder, token, ttl) =>
      if !ValidName(name) || !ValidHolder(holder) || !ValidTTL(b, ttl) then
        Answer(m, Invalid)
      else
        var m := PruneAt(m, name, now);
        if !Owns(m, name, holder, token) then
          Answer(m, Gone)
        else
          var l := LeaseOf(m, name).(ttl := ttl, expiresAt := now + ttl);
          Commit(m[name := m[name].(lease := Some(l))], Renewing(l))
    case Release(name, holder, token) =>
      if !ValidName(name) || !ValidHolder(holder) then
        Answer(m, Invalid)
      else
        var m := PruneAt(m, name, now);
        if !Owns(m, name, holder, token) then
          Answer(m, Gone)
        else
          Commit(Cleared(m, name), Releasing(name))
    case Get(name) =>
      if !ValidName(name) then
        Answer(m, Invalid)
      else
        var m := PruneAt(m, name, now);
        Answer(m, Reported(if name in m then Status(name, m[name].lastToken, m[name].lease) else Status(name, 0, None)))
    case List =>
      var m := PruneAll(m, now);
      Answer(m, Listed(HeldStatuses(m)))
    case HeldCount =>
      var m := PruneAll(m, now);
      Answer(m, Counted(|HeldStatuses(m)|))
  }

  /** What a call does after the persist hook: a grant that is not durable is withdrawn, its token burned. */
  function Finish(m: Locks, p: Pending, saved: bool): (Locks, Reply) {
    match p
    case Granting(l) => if saved then (m, Granted(l)) else (Cleared(m, l.name), NotDurable)
    case Renewing(l) => (m, if saved then Renewed(l) else NotDurable)
    case Releasing(name) => (m, if saved then Released else NotDurable)
  }

  /** What the outside world supplies to a call: two clock readings and the hook's verdict. */
  datatype Env = Env(now: Time, hookNow: Time, saved: bool)

  datatype Outcome = Outcome(locks: Locks, reply: Reply, offered: Option<Snapshot>)

  /** The second half of a call; without a hook every change counts as saved. */
  function Persist(hooked: bool, m: Locks, p: Pending, env: Env): Outcome {
    if hooked then
      var pruned := PruneAll(m, env.hookNow);
      var (final, reply) := Finish(pruned, p, env.saved);
      Outcome(final, reply, Some(Encode(pruned)))
    else
      var (final, reply) := Finish(m, p, true);
      Outcome(final, reply, None)
  }

  /** A whole call. */
  function Call(b: Bounds, hooked: bool, m: Locks, req: Request, env: Env): Outcome {
    match Decide(b, m, req, env.now)
    case Answer(m', reply) => Outcome(m', reply, None)
    case Commit(m', p) => Persist(hooked, m', p, env)
  }

  /** The table after a sequence of calls within one process lifetime. */
  function Replay(b: Bounds, hooked: bool, m: Locks, calls: seq<(Request, Env)>): Locks
    decreases |calls|
  {
    if calls == [] then m
    else Replay(b, hooked, Call(b, hooked, m, calls[0].0, calls[0].1).locks, calls[1..])
  }

  // What every call keeps

  /** No lock's counter is about to wrap. */
  ghost predicate RoomToGrow(m: Locks) {
    forall n | n in m :: m[n].lastToken < MAX_TOKEN
  }

  lemma PruneAllKeeps(m: Locks, now: Time)
    ensures Legal(m) ==> Legal(PruneAll(m, now))
    ensures TokensAtMostFloor(m) ==> TokensAtMostFloor(PruneAll(m, now))
    ensures TokensAreFloors(m) ==> TokensAreFloors(PruneAll(m, now))
    ensures forall n :: Floor(PruneAll(m, now), n) == Floor(m, n)
  {}

  predicate SameGrant(l: Lease, k: Lease) {
    l.name == k.name && l.holder == k.holder && l.token == k.token
  }

  /**
   One lock keeps its floor and at most loses its lease or has its deadline moved, or it is granted
   under the next token.
   */
  ghost predicate Stepped(m: Locks, m': Locks, n: string) {
    && (n in m' ==> n in m || ValidName(n))
    && (|| (Floor(m', n) == Floor(m, n)
            && (HasLease(m', n) ==> HasLease(m, n) && SameGrant(LeaseOf(m', n), LeaseOf(m, n))))
        || (Floor(m', n) == NextToken(Floor(m, n))
            && HasLease(m', n) && LeaseOf(m', n).token == Floor(m', n)
            && LeaseOf(m', n).name == n && ValidName(n) && ValidHolder(LeaseOf(m', n).holder)))
  }

  lemma DecideAt(b: Bounds, m: Locks, req: Request, now: Time, n: string)
    ensures Stepped(m, Decide(b, m, req, now).locks, n)
  {
  }

  /** The floors only ever move up, and one step at a time, as long as no counter wraps. */
  lemma DecideKeeps(b: Bounds, m: Locks, req: Request, now: Time)
    ensures var m' := Decide(b, m, req, now).locks;
            && (Legal(m) ==> Legal(m'))
            && (TokensAtMostFloor(m) ==> TokensAtMostFloor(m'))
            && (TokensAreFloors(m) && RoomToGrow(m) ==> TokensAreFloors(m'))
            && (RoomToGrow(m) ==> forall n :: Floor(m, n) <= Floor(m', n) <= Floor(m, n) + 1)
  {
    var m' := Decide(b, m, req, now).locks;
    forall n {
      DecideAt(b, m, req, now, n);
    }
    StepKeeps(m, m');
  }

  lemma StepKeeps(m: Locks, m': Locks)
    requires forall n :: Stepped(m, m', n)
    ensures Legal(m) ==> Legal(m')
    ensures TokensAtMostFloor(m) ==> TokensAtMostFloor(m')
    ensures TokensAreFloors(m) && RoomToGrow(m) ==> TokensAreFloors(m')
    ensures RoomToGrow(m) ==> forall n :: Floor(m, n) <= Floor(m', n) <= Floor(m, n) + 1
  {
    forall n
      ensures Legal(m) && n in m' ==> LegalEntry(n, m'[n])
      ensures TokensAtMostFloor(m) && HasLease(m', n) ==> LeaseOf(m', n).token <= m'[n].lastToken
      ensures TokensAreFloors(m) && RoomToGrow(m) && HasLease(m', n) ==> LeaseOf(m', n).token == m'[n].lastToken > 0
      ensures RoomToGrow(m) ==> Floor(m, n) <= Floor(m', n) <= Floor(m, n) + 1
    {
      assert Stepped(m, m', n);
      if Legal(m) && n in m {
        assert LegalEntry(n, m[n]);
      }
      if HasLease(m, n) && HasLease(m', n) {
        assert TokensAtMostFloor(m) ==> LeaseOf(m, n).token <= m[n].lastToken;
        assert TokensAreFloors(m) ==> LeaseOf(m, n).token == m[n].lastToken > 0;
      }
    }
  }

  lemma FinishKeeps(m: Locks, p: Pending, saved: bool)
    ensures var m' := Finish(m, p, saved).0;
            && (Legal(m) ==> Legal(m'))
            && (TokensAtMostFloor(m) ==> TokensAtMostFloor(m'))
            && (TokensAreFloors(m) ==> TokensAreFloors(m'))
            && forall n :: Floor(m', n) == Floor(m, n)
  {}

  /** The live token is the floor, or after a doubtful file at most the floor; every call keeps either. */
  lemma CallKeeps(b: Bounds, hooked: bool, m: Locks, req: Request, env: Env)
    ensures var m' := Call(b, hooked, m, req, env).locks;
            && (Legal(m) ==> Legal(m'))
            && (TokensAtMostFloor(m) ==> TokensAtMostFloor(m'))
            && (TokensAreFloors(m) && RoomToGrow(m) ==> TokensAreFloors(m'))
            && (RoomToGrow(m) ==> forall n :: Floor(m, n) <= Floor(m', n) <= Floor(m, n) + 1)
  {
    DecideKeeps(b, m, req, env.now);
    var d := Decide(b, m, req, env.now);
    if d.Commit? {
      PruneAllKeeps(d.locks, env.hookNow);
      FinishKeeps(PruneAll(d.locks, env.hookNow), d.pending, env.saved);
      FinishKeeps(d.locks, d.pending, true);
    }
  }

  /** A reachable table can always be restarted from the snapshot it offers the hook. */
  lemma OffersRestorable(b: Bounds, m: Locks, req: Request, env: Env, offered: Option<Snapshot>)
    requires Legal(m) && TokensAreFloors(m) && RoomToGrow(m)
    requires offered == Call(b, true, m, req, env).offered && offered.Some?
    ensures Written(offered.value) && Restored(offered).Success?
  {
    DecideKeeps(b, m, req, env.now);
    var d := Decide(b, m, req, env.now);
    PruneAllKeeps(d.locks, env.hookNow);
    EncodeIsWritten(PruneAll(d.locks, env.hookNow));
    WrittenIsRestorable(Encode(PruneAll(d.locks, env.hookNow)));
  }

  /** Durable before visible: the snapshot saved before a grant is returned already carries its token as the floor. */
  lemma GrantIsOffered(b: Bounds, m: Locks, req: Request, env: Env, o: Outcome)
    requires TokensAreFloors(m) && RoomToGrow(m)
    requires o == Call(b, true, m, req, env) && o.reply.Granted?
    ensures o.offered.Some? && env.saved
    ensures o.reply.lease.token == Floor(m, req.name) + 1
    ensures SnapshotFloor(o.offered.value, req.name) == o.reply.lease.token == Floor(o.locks, req.name)
  {
    DecideKeeps(b, m, req, env.now);
    var d := Decide(b, m, req, env.now);
    PruneAllKeeps(d.locks, env.hookNow);
    EncodeKeepsFloor(PruneAll(d.locks, env.hookNow), req.name);
  }

  // The counter

  /** A grant's token is above every earlier one of its lock exactly when the uint64 counter does not wrap. */
  lemma GrantRaisesFloorIffNoWrap(b: Bounds, hooked: bool, m: Locks, req: Request, env: Env)
    requires Call(b, hooked, m, req, env).reply.Granted?
    ensures var l := Call(b, hooked, m, req, env).reply.lease;
            l.token > Floor(m, req.name) <==> Floor(m, req.name) != MAX_TOKEN
  {
  }

  /** A refused grant burns its number: the next grant in this lifetime is above it. */
  lemma BurnedInThisLifetime(
    b: Bounds, m: Locks, req: Request, env: Env, burned: Outcome,
    between: seq<(Request, Env)>, m': Locks, again: Request, env': Env, granted: Outcome)
    requires req.Acquire? && burned == Call(b, true, m, req, env) && burned.reply.NotDurable?
    requires m' == Replay(b, true, burned.locks, between)
    requires again.Acquire? && granted == Call(b, true, m', again, env') && granted.reply.Granted?
    requires again.name == req.name && Floor(m, req.name) + 2 + |between| <= MAX_TOKEN
    ensures granted.reply.lease.token > Floor(m, req.name) + 1
  {
    BurnKeepsNumber(b, m, req, env);
    ReplayRaisesFloor(b, true, burned.locks, between, req.name);
    GrantTakesNext(b, m', again, env');
  }

  lemma BurnKeepsNumber(b: Bounds, m: Locks, req: Request, env: Env)
    requires req.Acquire? && Call(b, true, m, req, env).reply.NotDurable?
    ensures Floor(Call(b, true, m, req, env).locks, req.name) == NextToken(Floor(m, req.name))
  {
  }

  lemma GrantTakesNext(b: Bounds, m: Locks, req: Request, env: Env)
    requires req.Acquire? && Call(b, true, m, req, env).reply.Granted?
    ensures Call(b, true, m, req, env).reply.lease.token == NextToken(Floor(m, req.name))
  {
  }

  lemma {:induction false} ReplayRaisesFloor(
    b: Bounds, hooked: bool, m: Locks, calls: seq<(Request, Env)>, name: string)
    requires Floor(m, name) + |calls| <= MAX_TOKEN
    ensures Floor(m, name) <= Floor(Replay(b, hooked, m, calls), name) <= Floor(m, name) + |calls|
    decreases |calls|
  {
    if calls != [] {
      var m' := Call(b, hooked, m, calls[0].0, calls[0].1).locks;
      CallFloor(b, hooked, m, calls[0].0, calls[0].1, name);
      ReplayRaisesFloor(b, hooked, m', calls[1..], name);
    }
  }

  /** The part of a call after deciding: floors stay, and leases stay or go. */
  lemma PersistAt(m: Locks, now: Time, p: Pending, saved: bool, n: string)
    ensures var m' := Finish(PruneAll(m, now), p, saved).0;
            && Floor(m', n) == Floor(m, n) && (HasLease(m', n) ==> HasLease(m, n) && LeaseOf(m', n) == LeaseOf(m, n))
  {
  }

  /** One lock over a whole call. */
  lemma CallAt(b: Bounds, hooked: bool, m: Locks, req: Request, env: Env, n: string)
    ensures var d := Decide(b, m, req, env.now).locks;
            var m' := Call(b, hooked, m, req, env).locks;
            && Stepped(m, d, n)
            && Floor(m', n) == Floor(d, n)
            && (HasLease(m', n) ==> HasLease(d, n) && LeaseOf(m', n) == LeaseOf(d, n))
  {
    DecideAt(b, m, req, env.now, n);
    var d := Decide(b, m, req, env.now);
    if d.Commit? {
      PersistAt(d.locks, env.hookNow, d.pending, env.saved, n);
    }
  }

  lemma CallFloor(b: Bounds, hooked: bool, m: Locks, req: Request, env: Env, name: string)
    requires Floor(m, name) < MAX_TOKEN
    ensures Floor(m, name) <= Floor(Call(b, hooked, m, req, env).locks, name) <= Floor(m, name) + 1
  {
    CallAt(b, hooked, m, req, env, name);
  }

  // Gone is permanent within one lifetime

  /** These credentials are at or below the floor but do not own the lock. */
  predicate Dead(m: Locks, name: string, holder: string, token: Token) {
    token <= Floor(m, name) && !Owns(m, name, holder, token)
  }

  lemma DeadStaysDead(
    b: Bounds, hooked: bool, m: Locks, req: Request, env: Env, name: string, holder: string, token: Token)
    requires Dead(m, name, holder, token) && Floor(m, name) < MAX_TOKEN
    ensures Dead(Call(b, hooked, m, req, env).locks, name, holder, token)
  {
    CallAt(b, hooked, m, req, env, name);
  }

  lemma {:induction false} DeadStaysDeadForever(
    b: Bounds, hooked: bool, m: Locks, calls: seq<(Request, Env)>, name: string, holder: string, token: Token)
    requires Dead(m, name, holder, token) && Floor(m, name) + |calls| <= MAX_TOKEN
    ensures Dead(Replay(b, hooked, m, calls), name, holder, token)
    decreases |calls|
  {
    if calls != [] {
      var m' := Call(b, hooked, m, calls[0].0, calls[0].1).locks;
      DeadStaysDead(b, hooked, m, calls[0].0, calls[0].1, name, holder, token);
      CallFloor(b, hooked, m, calls[0].0, calls[0].1, name);
      DeadStaysDeadForever(b, hooked, m', calls[1..], name, holder, token);
    }
  }

  /** A Renew or Release with these credentials. */
  predicate Presents(req: Request, name: string, holder: string, token: Token) {
    || (req.Renew? && req.name == name && req.holder == holder && req.token == token)
    || (req.Release? && req.name == name && req.holder == holder && req.token == token)
  }

  /**
   Once Renew or Release has answered Gone for a token at or below the floor, every later Renew or
   Release with the same credentials answers Gone (a Renew whose TTL is out of range answers Invalid),
   whatever calls come between, whether their hooks fail or not, and however the clock moves.
   */
  lemma GoneIsPermanent(
    b: Bounds, hooked: bool, m: Locks, req: Request, env: Env, first: Outcome,
    between: seq<(Request, Env)>, m': Locks, again: Request, env': Env,
    name: string, holder: string, token: Token)
    requires Presents(req, name, holder, token) && Presents(again, name, holder, token)
    requires first == Call(b, hooked, m, req, env) && first.reply.Gone?
    requires token <= Floor(m, name) && Floor(m, name) + |between| <= MAX_TOKEN
    requires m' == Replay(b, hooked, first.locks, between)
    ensures Call(b, hooked, m', again, env').reply
         == if again.Renew? && !ValidTTL(b, again.ttl) then Invalid else Gone
  {
    GoneMeansDead(b, hooked, m, req, env, name, holder, token);
    DeadStaysDeadForever(b, hooked, first.locks, between, name, holder, token);
    DeadGetsGone(b, hooked, m', again, env', name, holder, token);
  }

  lemma GoneMeansDead(
    b: Bounds, hooked: bool, m: Locks, req: Request, env: Env, name: string, holder: string, token: Token)
    requires Presents(req, name, holder, token) && Call(b, hooked, m, req, env).reply.Gone?
    requires token <= Floor(m, name)
    ensures Dead(Call(b, hooked, m, req, env).locks, name, holder, token)
    ensures Floor(Call(b, hooked, m, req, env).locks, name) == Floor(m, name)
    ensures ValidName(name) && ValidHolder(holder)
  {
  }

  lemma DeadGetsGone(
    b: Bounds, hooked: bool, m: Locks, req: Request, env: Env, name: string, holder: string, token: Token)
    requires Presents(req, name, holder, token) && !Owns(m, name, holder, token)
    requires ValidName(name) && ValidHolder(holder)
    ensures Call(b, hooked, m, req, env).reply
         == if req.Renew? && !ValidTTL(b, req.ttl) then Invalid else Gone
  {
  }

  /** So many refused grants of `name`. */
  function Burns(name: string, holder: string, ttl: Duration, now: Time, n: nat): seq<(Request, Env)> {
    if n == 0 then [] else [(Acquire(name, holder, ttl), Env(now, now, false))] + Burns(name, holder, ttl, now, n - 1)
  }

  lemma {:induction false} BurnsRaiseFloor(
    b: Bounds, m: Locks, name: string, holder: string, ttl: Duration, now: Time, n: nat)
    requires ValidName(name) && ValidHolder(holder) && ValidTTL(b, ttl)
    requires !HeldAt(m, name, now) && Floor(m, name) + n <= MAX_TOKEN
    ensures var calls := Burns(name, holder, ttl, now, n);
            var m' := Replay(b, true, m, calls);
            |calls| == n && Floor(m', name) == Floor(m, name) + n && !HeldAt(m', name, now)
    decreases n
  {
    if n > 0 {
      var calls := Burns(name, holder, ttl, now, n);
      assert calls[1..] == Burns(name, holder, ttl, now, n - 1);
      var m' := Call(b, true, m, calls[0].0, calls[0].1).locks;
      assert !HasLease(m', name) && Floor(m', name) == Floor(m, name) + 1;
      BurnsRaiseFloor(b, m', name, holder, ttl, now, n - 1);
    }
  }

  lemma {:induction false} ReplayThen(b: Bounds, m: Locks, calls: seq<(Request, Env)>, req: Request, env: Env)
    ensures Replay(b, true, m, calls + [(req, env)]) == Call(b, true, Replay(b, true, m, calls), req, env).locks
    decreases |calls|
  {
    var all := calls + [(req, env)];
    if calls == [] {
      assert all[1..] == [];
    } else {
      assert all[1..] == calls[1..] + [(req, env)];
      ReplayThen(b, Call(b, true, m, calls[0].0, calls[0].1).locks, calls[1..], req, env);
    }
  }

  /**
   Above the floor Gone is not permanent: the token has simply not been granted yet, and some sequence
   of calls makes these very credentials own the lock.
   */
  lemma GoneAboveFloorCanReturn(
    b: Bounds, m: Locks, name: string, holder: string, token: Token, ttl: Duration, now: Time)
    requires ValidName(name) && ValidHolder(holder) && ValidTTL(b, ttl) && ttl > 0
    requires token > Floor(m, name) && !HeldAt(m, name, now)
    ensures var calls := Burns(name, holder, ttl, now, token - Floor(m, name) - 1)
                         + [(Acquire(name, holder, ttl), Env(now, now, true))];
            Owns(Replay(b, true, m, calls), name, holder, token)
  {
    var burns := token - Floor(m, name) - 1;
    BurnsRaiseFloor(b, m, name, holder, ttl, now, burns);
    ReplayThen(b, m, Burns(name, holder, ttl, now, burns), Acquire(name, holder, ttl), Env(now, now, true));
  }

  /** Some calls, too few for the counter to wrap, make these credentials own the lock. */
  ghost predicate MayOwn(b: Bounds, m: Locks, name: string, holder: string, token: Token) {
    exists calls :: EndsInOwning(b, m, calls, name, holder, token)
  }

  predicate EndsInOwning(b: Bounds, m: Locks, calls: seq<(Request, Env)>, name: string, holder: string, token: Token) {
    Floor(m, name) + |calls| <= MAX_TOKEN && Owns(Replay(b, true, m, calls), name, holder, token)
  }

  /** Credentials that do not own the lock may come to own it in this lifetime exactly above the floor. */
  lemma GoneReturnsIff(b: Bounds, m: Locks, name: string, holder: string, token: Token, ttl: Duration)
    requires ValidName(name) && ValidHolder(holder) && ValidTTL(b, ttl) && ttl > 0
    requires !Owns(m, name, holder, token)
    ensures MayOwn(b, m, name, holder, token) <==> Floor(m, name) < token
  {
    if Floor(m, name) < token {
      var now := if HasLease(m, name) then LeaseOf(m, name).expiresAt else 0;
      var burns := token - Floor(m, name) - 1;
      GoneAboveFloorCanReturn(b, m, name, holder, token, ttl, now);
      BurnsRaiseFloor(b, m, name, holder, ttl, now, burns);
      var calls := Burns(name, holder, ttl, now, burns) + [(Acquire(name, holder, ttl), Env(now, now, true))];
      assert EndsInOwning(b, m, calls, name, holder, token);
    } else {
      forall calls | EndsInOwning(b, m, calls, name, holder, token)
        ensures false
      {
        DeadStaysDeadForever(b, true, m, calls, name, holder, token);
      }
    }
  }

  // What does not survive a crash

  /** A burned number is not burned for ever: an example (Restarts.BurnedReturnsIff says when). */
  lemma BurnedTokenGrantedAfterCrash(b: Bounds, name: string, holder: string, ttl: Duration, now: Time)
    requires ValidName(name) && ValidHolder(holder) && ValidTTL(b, ttl) && ttl > 0
    ensures var burned := Call(b, true, map[], Acquire(name, holder, ttl), Env(now, now, false));
            var restarted := Restored(Some(EMPTY_SNAPSHOT));
            && burned.reply == NotDurable && Floor(burned.locks, name) == 1
            && restarted.Success?
            && var grant := Call(b, true, restarted.value, Acquire(name, holder, ttl), Env(now, now, true));
               grant.reply.Granted? && grant.reply.lease.token == 1
  {
  }

  /** A Release whose hook failed can be undone by a restart: an example (Restarts.LeaseReturnsIff says when). */
  lemma FailedReleaseReturnsAfterCrash(b: Bounds, name: string, holder: string, ttl: Duration, now: Time)
    requires ValidName(name) && ValidHolder(holder) && ValidTTL(b, ttl) && ttl >= MILLISECOND
    ensures var grant := Call(b, true, map[], Acquire(name, holder, ttl), Env(now, now, true));
            var release := Call(b, true, grant.locks, Release(name, holder, 1), Env(now, now, false));
            && grant.offered.Some? && release.reply == NotDurable && !HasLease(release.locks, name)
            && var restarted := Restored(grant.offered);
               restarted.Success? && HeldAt(restarted.value, name, now) && Owns(restarted.value, name, holder, 1)
  {
    var m := map[name := Entry(1, Some(Lease(name, holder, 1, ttl, now, now + ttl)))];
    var grant := Call(b, true, map[], Acquire(name, holder, ttl), Env(now, now, true));
    assert grant.locks == m && PruneAll(m, now) == m;
    RestartRefines(m, now, now, name);
    assert UnixMilli(now) < UnixMilli(now + ttl);
  }
}
