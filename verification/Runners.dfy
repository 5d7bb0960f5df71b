/**
 Runners in the system: withlock's event loop and the state machine of server, disk and clock meet at
 the replies. What a runner believes is a promise the server made in the run, so mutual exclusion of
 promises is mutual exclusion of runners.
 */
module Runners {
  import opened Wrappers
  import opened Leases
  import opened TableSpec
  import opened Fence
  import opened Wire
  import opened WithLock
  import opened System
  import opened Exclusion

  /** A runner that was granted a lease: the result of its acquire, and the events it has answered so far. */
  datatype Party = Party(creds: Credentials, acquired: ClientResult, script: seq<Event>)

  /** The acquire succeeded by the reply to a grant of this run. */
  ghost predicate Acquired(w: World, p: Party) {
    exists l: Lease ::
      && PromiseOf(l) in w.promises && Grant(l.name, l.holder, l.token) in w.grants
      && p.acquired == Receive(Some(Respond(Granted(l)))) && p.creds == Credentials(l.name, l.holder, l.token)
  }

  /** A renewal failed, or succeeded by a reply sent in this run, however late or out of order it came. */
  ghost predicate Heard(w: World, creds: Credentials, r: ClientResult) {
    r.Ok? ==>
      exists l: Lease ::
        && PromiseOf(l) in w.promises && l.name == creds.name && l.token == creds.token
        && r == Receive(Some(Respond(Renewed(l))))
  }

  ghost predicate PartOf(w: World, p: Party) {
    Acquired(w, p) && forall k | 0 <= k < |p.script| && p.script[k].Tick? :: Heard(w, p.creds, p.script[k].renewal)
  }

  /** The runner has not given up its lease, and the clock has not reached the deadline it believes in. */
  predicate Confident(w: World, p: Party) {
    && p.acquired.Ok?
    && (p.creds.name, p.creds.token) !in w.stopped
    && w.clock < Believed(p.script, |p.script|, DeadlineOf(p.acquired))
  }

  /** This deadline was told to the holder of these credentials in the run. */
  ghost predicate Promised(w: World, creds: Credentials, deadline: Time) {
    exists i ::
      && 0 <= i < |w.promises| && w.promises[i].name == creds.name && w.promises[i].token == creds.token
      && w.promises[i].expiresAtMS * MILLISECOND == deadline
  }

  lemma HeardMeansPromised(w: World, creds: Credentials, l: Lease)
    requires PromiseOf(l) in w.promises && l.name == creds.name && l.token == creds.token
    ensures Receive(Some(Respond(Renewed(l)))) == Receive(Some(Respond(Granted(l))))
    ensures Promised(w, creds, DeadlineOf(Receive(Some(Respond(Renewed(l))))))
  {
    var i :| 0 <= i < |w.promises| && w.promises[i] == PromiseOf(l);
    assert w.promises[i].name == creds.name;
  }

  /** The deadline a runner believes in is always one the server promised it. */
  lemma {:induction false} BelievedWasPromised(w: World, p: Party, n: nat)
    requires PartOf(w, p) && p.acquired.Ok? && n <= |p.script|
    ensures Promised(w, p.creds, Believed(p.script, n, DeadlineOf(p.acquired)))
    decreases n
  {
    if n == 0 {
      var l: Lease :| PromiseOf(l) in w.promises && Grant(l.name, l.holder, l.token) in w.grants
                      && p.acquired == Receive(Some(Respond(Granted(l))))
                      && p.creds == Credentials(l.name, l.holder, l.token);
      HeardMeansPromised(w, p.creds, l);
    } else if p.script[n - 1].Tick? && p.script[n - 1].renewal.Ok? {
      var r := p.script[n - 1].renewal;
      assert Heard(w, p.creds, r);
      var l: Lease :| PromiseOf(l) in w.promises && l.name == p.creds.name && l.token == p.creds.token
                      && r == Receive(Some(Respond(Renewed(l))));
      HeardMeansPromised(w, p.creds, l);
    } else {
      BelievedWasPromised(w, p, n - 1);
    }
  }

  /** A runner that is confident holds a live promise. */
  lemma ConfidentMeansLive(w: World, p: Party) returns (i: nat)
    requires PartOf(w, p) && Confident(w, p)
    ensures i < |w.promises| && Live(w.stopped, w.clock, w.promises[i])
    ensures w.promises[i].name == p.creds.name && w.promises[i].token == p.creds.token
  {
    BelievedWasPromised(w, p, |p.script|);
    i :| 0 <= i < |w.promises| && w.promises[i].name == p.creds.name && w.promises[i].token == p.creds.token
         && w.promises[i].expiresAtMS * MILLISECOND == Believed(p.script, |p.script|, DeadlineOf(p.acquired));
  }

  /** Whose grant a runner works under. */
  lemma GrantOf(w: World, p: Party) returns (g: nat)
    requires PartOf(w, p)
    ensures p.acquired.Ok? && g < |w.grants| && w.grants[g] == Grant(p.creds.name, p.creds.holder, p.creds.token)
  {
    var l: Lease :| PromiseOf(l) in w.promises && Grant(l.name, l.holder, l.token) in w.grants
                    && p.acquired == Receive(Some(Respond(Granted(l))))
                    && p.creds == Credentials(l.name, l.holder, l.token);
    g :| 0 <= g < |w.grants| && w.grants[g] == Grant(l.name, l.holder, l.token);
  }

  /**
   Runners exclude each other: in every timely run, with any hook failures, lost and late replies, crashes
   and restarts, two runners that have the same lock and are both still before the deadline they believe
   in work under one and the same grant.
   */
  lemma RunnersExclude(c: Setting, labels: seq<Label>, w: World, p: Party, q: Party)
    requires Run(c, labels) == Some(w) && |labels| <= MAX_INT64 && AllTimely(c, labels)
    ensures PartOf(w, p) && Confident(w, p) && PartOf(w, q) && Confident(w, q) && p.creds.name == q.creds.name ==>
              p.creds == q.creds
  {
    if PartOf(w, p) && Confident(w, p) && PartOf(w, q) && Confident(w, q) && p.creds.name == q.creds.name {
      var i := ConfidentMeansLive(w, p);
      var j := ConfidentMeansLive(w, q);
      var g := GrantOf(w, p);
      var h := GrantOf(w, q);
      MutualExclusion(c, labels, w, i, j, g, h);
    }
  }

  /**
   After a failed heartbeat the event loop carries on only as a confident runner: if it does not end
   there, the runner it is at that moment is before its deadline, as long as it has not given up.
   */
  lemma CarriesOnOnlyConfident(
    w: World, p: Party, script: seq<Event>, d: nat, ttl: Duration, log: seq<Action>, code: int, i: nat)
    requires p.acquired.Ok? && EndsAt(script, d, DeadlineOf(p.acquired), p.creds, ttl, log, code)
    requires i <= d && script[i].Tick? && !script[i].renewal.Ok?
    requires p.script == script[..i] && w.clock == script[i].clock && (p.creds.name, p.creds.token) !in w.stopped
    ensures Confident(w, p) && script[i].renewal.OtherError? <==> i < d
  {
    LossDecision(script, d, DeadlineOf(p.acquired), p.creds, ttl, log, code, i);
    BelievedSoFar(script, i, i, DeadlineOf(p.acquired));
  }

  lemma {:induction false} BelievedSoFar(script: seq<Event>, n: nat, i: nat, first: Time)
    requires i <= n <= |script|
    ensures Believed(script[..n], i, first) == Believed(script, i, first)
  {
    if i > 0 {
      BelievedSoFar(script, n, i - 1, first);
    }
  }
}
