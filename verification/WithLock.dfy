/**
 Running a command under a lease: internal/cli/withlock.go. The event loop answers whichever channel
 is ready first, so the world is a script of events in the order they become ready; the child is an
 actor that puts exactly one value in `done`, sooner or later.
 */
module WithLock {
  import opened Leases
  import opened Wire
  import opened WaitLoop

  const EXIT_OK := 0
  const EXIT_RUNTIME := 3
  const EXIT_BUSY := 10
  const EXIT_LOST := 11

  /** What waiting for the child reports. */
  datatype WaitStatus = Success | Exited(code: nat) | Signaled(signal: nat) | WaitFailed

  datatype Event =
    | ChildExit(status: WaitStatus)
    | Tick(renewal: ClientResult, clock: Time)
    | Signal(signal: nat)
    | GraceElapsed

  datatype Credentials = Credentials(name: string, holder: string, token: Token)

  /** What the runner does to the server and to the child. */
  datatype Action =
    | CallRenew(creds: Credentials, ttl: Duration)
    | CallRelease(creds: Credentials)
    | Forward(signal: nat)
    | Terminate
    | Kill
    | ReceiveDone

  /** The shell's view of the child's end: its own code, or 128 plus the signal that killed it. */
  function ExitCodeFromWait(status: WaitStatus): int {
    match status
    case Success => EXIT_OK
    case Exited(code) => code
    case Signaled(signal) => 128 + signal
    case WaitFailed => EXIT_RUNTIME
  }

  /** The heartbeat period. */
  function RenewInterval(renewEvery: Duration, ttl: Duration): Duration {
    if renewEvery > 0 then renewEvery
    else
      var third := if ttl < 0 then -(-ttl / 3) else ttl / 3;
      if third < 100 * MILLISECOND then 100 * MILLISECOND else third
  }

  /** The deadline a successful renewal reports; a reply without a lease reads as the zero lease. */
  function DeadlineOf(r: ClientResult): Time
    requires r.Ok?
  {
    match r.lease
    case Some(l) => l.expiresAt
    case None => 0
  }

  /** The child's one value is in the script, and only once. */
  ghost predicate ExitsOnce(script: seq<Event>) {
    exists i ::
      0 <= i < |script| && script[i].ChildExit? && forall k | 0 <= k < |script| && script[k].ChildExit? :: k == i
  }

  predicate HasExit(script: seq<Event>) {
    exists i :: 0 <= i < |script| && script[i].ChildExit?
  }

  /** Where a receive on `done`, or on `done` and the grace timer, is answered. */
  function Await(script: seq<Event>, grace: bool): (i: nat)
    requires HasExit(script)
    ensures i < |script| && (script[i].ChildExit? || (grace && script[i].GraceElapsed?))
    ensures forall k | 0 <= k < i :: !script[k].ChildExit? && !(grace && script[k].GraceElapsed?)
  {
    if script[0].ChildExit? || (grace && script[0].GraceElapsed?) then 0
    else
      assert HasExit(script[1..]) by {
        var j :| 0 <= j < |script| && script[j].ChildExit?;
        assert script[1..][j - 1] == script[j];
      }
      1 + Await(script[1..], grace)
  }

  // The protocol, in terms of the script

  /** The deadline the runner believes in when event `i` comes: the one in the last successful reply. */
  function Believed(script: seq<Event>, i: nat, first: Time): Time
    requires i <= |script|
  {
    if i == 0 then first
    else if script[i - 1].Tick? && script[i - 1].renewal.Ok? then DeadlineOf(script[i - 1].renewal)
    else Believed(script, i - 1, first)
  }

  /** A heartbeat that costs the lease: refused as gone or busy, or failed when the deadline has come. */
  predicate Fatal(script: seq<Event>, i: nat, first: Time)
    requires i < |script|
  {
    && script[i].Tick? && !script[i].renewal.Ok?
    && (script[i].renewal.GoneError? || script[i].renewal.Busy? || Believed(script, i, first) <= script[i].clock)
  }

  predicate Decisive(script: seq<Event>, i: nat, first: Time)
    requires i < |script|
  {
    script[i].ChildExit? || Fatal(script, i, first)
  }

  /** What the runner does at an event that does not end the run, or at the heartbeat that does. */
  function Reaction(e: Event, creds: Credentials, ttl: Duration): seq<Action> {
    match e
    case Tick(_, _) => [CallRenew(creds, ttl)]
    case Signal(s) => [Forward(s)]
    case _ => []
  }

  function Reactions(script: seq<Event>, n: nat, creds: Credentials, ttl: Duration): seq<Action>
    requires n <= |script|
  {
    if n == 0 then [] else Reactions(script, n - 1, creds, ttl) + Reaction(script[n - 1], creds, ttl)
  }

  /** The stop protocol: terminate, a grace period, then kill; the child is reaped either way. */
  function StopActions(script: seq<Event>): seq<Action>
    requires HasExit(script)
  {
    if script[Await(script, true)].ChildExit? then [Terminate, ReceiveDone] else [Terminate, Kill, ReceiveDone]
  }

  /** The run that ends at event `d`, its first decisive one. */
  ghost predicate EndsAt(
    script: seq<Event>, d: nat, first: Time, creds: Credentials, ttl: Duration, log: seq<Action>, code: int)
  {
    && d < |script| && Decisive(script, d, first)
    && (forall k | 0 <= k < d :: !Decisive(script, k, first))
    && (match script[d]
        case ChildExit(status) =>
          && code == ExitCodeFromWait(status)
          && log == Reactions(script, d, creds, ttl) + [ReceiveDone, CallRelease(creds)]
        case _ =>
          && code == EXIT_LOST && HasExit(script[d + 1..])
          && log == Reactions(script, d + 1, creds, ttl) + StopActions(script[d + 1..]))
  }

  class Runner {
    const name: string
    const holder: string
    const ttl: Duration
    const wait: Duration
    const poll: Duration
    const renewEvery: Duration
    /** The believed deadline. */
    var expiresAt: Time
    /** The period the heartbeat ticker was started with. */
    var ticking: Duration
    /** Everything done to the server after the acquire, and to the child. */
    ghost var log: seq<Action>

    constructor (name: string, holder: string, ttl: Duration, wait: Duration, poll: Duration, renewEvery: Duration)
      requires poll > 0
      ensures this.name == name && this.holder == holder && this.ttl == ttl && this.wait == wait && this.poll == poll
      ensures this.renewEvery == renewEvery && log == []
    {
      this.name, this.holder, this.ttl, this.wait, this.poll := name, holder, ttl, wait, poll;
      this.renewEvery, ticking := renewEvery, 0;
      expiresAt, log := 0, [];
    }

    /**
     The whole lifecycle. `tries` tells what each acquire would bring, `started` whether the command
     can be started. Without a lease nothing is run and nothing released; a command that cannot be
     started costs exactly one release; otherwise the run ends at its first decisive event.
     */
    method Run(start: Time, tries: nat -> Attempt, started: bool, script: seq<Event>)
      returns (code: int, ghost acquired: ClientResult, ghost end: nat, ghost actions: seq<Action>)
      requires poll > 0 && Paced(tries, start, poll) && (started ==> ExitsOnce(script))
      requires forall i: nat :: tries(i).result.Ok? ==> tries(i).result.lease.Some?
      modifies this
      ensures exists i: nat :: acquired == tries(i).result && forall k: nat | k < i :: tries(k).result.Busy?
      ensures log == old(log) + actions
      ensures !acquired.Ok? ==> actions == [] && code == if acquired.Busy? then 10 else 3
      ensures acquired.Ok? ==>
                var l := acquired.lease.value;
                var creds := Credentials(l.name, l.holder, l.token);
                if started then
                  && EndsAt(script, end, l.expiresAt, creds, ttl, actions, code)
                  && expiresAt == Believed(script, end, l.expiresAt)
                  && ticking == RenewInterval(renewEvery, ttl)
                else
                  actions == [CallRelease(creds)] && code == 3
    {
      var result, attempts := WaitLoop.WaitLoop(wait, poll, start, tries);
      acquired, end, actions := result, 0, [];
      if !result.Ok? {
        code := if result.Busy? then EXIT_BUSY else EXIT_RUNTIME;
        return;
      }
      var l := result.lease.value;
      var creds := Credentials(l.name, l.holder, l.token);
      if !started {
        log := log + [CallRelease(creds)];
        return EXIT_RUNTIME, acquired, end, [CallRelease(creds)];
      }
      ticking := RenewInterval(renewEvery, ttl);
      code, end, actions := Supervise(creds, l.expiresAt, script);
    }

    /** The event loop, and what it does at the event that ends it. */
    method Supervise(creds: Credentials, deadline: Time, script: seq<Event>)
      returns (code: int, ghost end: nat, ghost actions: seq<Action>)
      requires ExitsOnce(script)
      modifies this`log, this`expiresAt
      ensures log == old(log) + actions && EndsAt(script, end, deadline, creds, ttl, actions, code)
      ensures expiresAt == Believed(script, end, deadline)
    {
      expiresAt := deadline;
      var i, lost := Loop(creds, deadline, script);
      end := i;
      if lost {
        StopChild(script[i + 1..]);
        actions := Reactions(script, i + 1, creds, ttl) + StopActions(script[i + 1..]);
        return EXIT_LOST, end, actions;
      }
      log := log + [ReceiveDone, CallRelease(creds)];
      actions := Reactions(script, i, creds, ttl) + [ReceiveDone, CallRelease(creds)];
      return ExitCodeFromWait(script[i].status), end, actions;
    }

    /** Answers every event up to the first decisive one: the child's exit, or a heartbeat that loses the lease. */
    method Loop(creds: Credentials, deadline: Time, script: seq<Event>) returns (i: nat, lost: bool)
      requires ExitsOnce(script) && expiresAt == deadline
      modifies this`log, this`expiresAt
      ensures i < |script| && Decisive(script, i, deadline) && forall k | 0 <= k < i :: !Decisive(script, k, deadline)
      ensures lost == !script[i].ChildExit? && (lost ==> HasExit(script[i + 1..]))
      ensures log == old(log) + Reactions(script, if lost then i + 1 else i, creds, ttl)
      ensures expiresAt == Believed(script, i, deadline)
    {
      ghost var exit: nat :| exit < |script| && script[exit].ChildExit?;
      i, lost := 0, false;
      while !script[i].ChildExit?
        invariant i <= exit
        invariant forall k | 0 <= k < i :: !Decisive(script, k, deadline)
        invariant expiresAt == Believed(script, i, deadline)
        invariant log == old(log) + Reactions(script, i, creds, ttl)
        decreases exit - i
      {
        lost := Answer(creds, script[i]);
        if lost {
          assert script[i + 1..][exit - i - 1] == script[exit];
          return;
        }
        i := i + 1;
      }
    }

    /** The other channels: a heartbeat, which may lose the lease, or a signal to pass on. */
    method Answer(creds: Credentials, e: Event) returns (lost: bool)
      requires !e.ChildExit?
      modifies this`log, this`expiresAt
      ensures log == old(log) + Reaction(e, creds, ttl)
      ensures expiresAt == if e.Tick? && e.renewal.Ok? then DeadlineOf(e.renewal) else old(expiresAt)
      ensures lost <==> e.Tick? && !e.renewal.Ok?
                        && (e.renewal.GoneError? || e.renewal.Busy? || old(expiresAt) <= e.clock)
    {
      lost := false;
      match e {
        case Tick(renewal, clock) =>
          lost := Heartbeat(creds, renewal, clock);
        case Signal(signal) =>
          log := log + [Forward(signal)];
        case GraceElapsed =>
          // nobody is listening to a timer that was never started
      }
    }

    /** Renews, and decides whether the lease is lost. */
    method Heartbeat(creds: Credentials, renewal: ClientResult, clock: Time) returns (lost: bool)
      modifies this`log, this`expiresAt
      ensures log == old(log) + [CallRenew(creds, ttl)]
      ensures expiresAt == if renewal.Ok? then DeadlineOf(renewal) else old(expiresAt)
      ensures lost <==> !renewal.Ok? && (renewal.GoneError? || renewal.Busy? || old(expiresAt) <= clock)
    {
      log := log + [CallRenew(creds, ttl)];
      if renewal.Ok? {
        expiresAt := DeadlineOf(renewal);
        return false;
      }
      return renewal.GoneError? || renewal.Busy? || !(clock < expiresAt);
    }

    /** Carries out the stop protocol; the last thing done is to receive the child's exit. */
    method StopChild(script: seq<Event>)
      requires HasExit(script)
      modifies this`log
      ensures log == old(log) + StopActions(script)
    {
      log := log + [Terminate];
      var i := Await(script, true);
      if script[i].ChildExit? {
        log := log + [ReceiveDone];
        return;
      }
      log := log + [Kill];
      log := log + [ReceiveDone];
    }
  }

  // What the protocol promises

  lemma {:induction false} ReactionsAreHarmless(script: seq<Event>, n: nat, creds: Credentials, ttl: Duration)
    requires n <= |script|
    ensures Harmless(Reactions(script, n, creds, ttl), creds, ttl)
  {
    if n > 0 {
      ReactionsAreHarmless(script, n - 1, creds, ttl);
    }
  }

  /** `done` received once, these credentials on every call, and that many releases. */
  ghost predicate Orderly(log: seq<Action>, creds: Credentials, ttl: Duration, releases: nat) {
    && multiset(log)[ReceiveDone] == 1
    && multiset(log)[CallRelease(creds)] == releases
    && (forall a | a in log :: a.CallRelease? ==> a.creds == creds)
    && (forall a | a in log :: a.CallRenew? ==> a.creds == creds && a.ttl == ttl)
  }

  ghost predicate Harmless(log: seq<Action>, creds: Credentials, ttl: Duration) {
    forall a | a in log :: a.Forward? || a == CallRenew(creds, ttl)
  }

  lemma ExitIsOrderly(before: seq<Action>, creds: Credentials, ttl: Duration)
    requires Harmless(before, creds, ttl)
    ensures Orderly(before + [ReceiveDone, CallRelease(creds)], creds, ttl, 1)
    ensures Terminate !in before + [ReceiveDone, CallRelease(creds)]
    ensures Kill !in before + [ReceiveDone, CallRelease(creds)]
  {
    assert ReceiveDone !in before && CallRelease(creds) !in before;
    assert multiset(before)[ReceiveDone] == 0 && multiset(before)[CallRelease(creds)] == 0;
  }

  lemma LossIsOrderly(before: seq<Action>, after: seq<Action>, creds: Credentials, ttl: Duration)
    requires Harmless(before, creds, ttl)
    requires after == [Terminate, ReceiveDone] || after == [Terminate, Kill, ReceiveDone]
    ensures Orderly(before + after, creds, ttl, 0)
    ensures var log := before + after; log[|before|] == Terminate && log[|log| - 1] == ReceiveDone
  {
    assert ReceiveDone !in before && CallRelease(creds) !in before;
    assert multiset(before)[ReceiveDone] == 0 && multiset(before)[CallRelease(creds)] == 0;
  }

  /**
   However child exit, heartbeats, signals and renewals interleave, `done` is received exactly once,
   Release is called exactly once when the child ended first and never when the lease was lost, every
   call carries the acquired credentials, and a lost lease ends with the child reaped.
   */
  lemma RunProtocol(
    script: seq<Event>, d: nat, first: Time, creds: Credentials, ttl: Duration, log: seq<Action>, code: int)
    requires EndsAt(script, d, first, creds, ttl, log, code)
    ensures Orderly(log, creds, ttl, if script[d].ChildExit? then 1 else 0)
    ensures script[d].ChildExit? ==> Terminate !in log && Kill !in log
    ensures !script[d].ChildExit? ==> code == EXIT_LOST && Terminate in log && log[|log| - 1] == ReceiveDone
  {
    if script[d].ChildExit? {
      ReactionsAreHarmless(script, d, creds, ttl);
      ExitIsOrderly(Reactions(script, d, creds, ttl), creds, ttl);
    } else {
      ReactionsAreHarmless(script, d + 1, creds, ttl);
      LossIsOrderly(Reactions(script, d + 1, creds, ttl), StopActions(script[d + 1..]), creds, ttl);
    }
  }

  /** A success without a lease is believed to end at the epoch, so the next transient failure after it is fatal. */
  lemma EmptySuccessIsNotTrusted(script: seq<Event>, i: nat, first: Time)
    requires 0 < i < |script| && script[i - 1].Tick? && script[i - 1].renewal.Ok? && script[i - 1].renewal.lease.None?
    requires script[i].Tick? && script[i].renewal.OtherError?
    ensures Fatal(script, i, first) <==> 0 <= script[i].clock
  {
  }

  /** The exit code when the child's own end decides: told apart by how it ended, and 0 only for success. */
  lemma ExitCodes(
    script: seq<Event>, d: nat, first: Time, creds: Credentials, ttl: Duration, log: seq<Action>, code: int)
    requires EndsAt(script, d, first, creds, ttl, log, code)
    ensures !script[d].ChildExit? ==> code == 11
    ensures script[d].ChildExit? ==>
              match script[d].status
              case Success => code == 0
              case Exited(n) => code == n
              case Signaled(signal) => code - 128 == signal
              case WaitFailed => code == 3
    ensures code == 0 <==> script[d].ChildExit? && (script[d].status.Success? || script[d].status == Exited(0))
  {
  }

  /** After event `d`, the grace period runs out before the child's exit. */
  ghost predicate Outlives(script: seq<Event>, d: nat) {
    exists i :: d < i < |script| && script[i].GraceElapsed? && forall k | d < k < i :: !script[k].ChildExit?
  }

  /**
   A lost lease ends with the child told to terminate, killed exactly if it outlives the grace period, and
   then reaped, each once and in this order; a run that keeps its lease does neither of the first two.
   */
  lemma KillProtocol(
    script: seq<Event>, d: nat, first: Time, creds: Credentials, ttl: Duration, log: seq<Action>, code: int)
    requires EndsAt(script, d, first, creds, ttl, log, code)
    ensures Kill in log <==> !script[d].ChildExit? && Outlives(script, d)
    ensures !script[d].ChildExit? ==>
              var n := |log| - if Kill in log then 3 else 2;
              && n >= 0
              && log[n..] == (if Kill in log then [Terminate, Kill, ReceiveDone] else [Terminate, ReceiveDone])
              && Terminate !in log[..n] && Kill !in log[..n] && ReceiveDone !in log[..n]
  {
    if script[d].ChildExit? {
      ReactionsAreHarmless(script, d, creds, ttl);
    } else {
      var (before, rest) := (Reactions(script, d + 1, creds, ttl), script[d + 1..]);
      ReactionsAreHarmless(script, d + 1, creds, ttl);
      var i := Await(rest, true);
      assert rest[i] == script[d + 1 + i];
      if !rest[i].ChildExit? {
        forall k | d < k < d + 1 + i
          ensures !script[k].ChildExit?
        {
          assert rest[k - d - 1] == script[k];
        }
      }
      assert log == before + StopActions(rest) && log[..|before|] == before;
    }
  }

  /** The signals among the first `n` events, and those passed on; the heartbeats, and the renewals. */
  function SignalsIn(script: seq<Event>, n: nat): seq<nat>
    requires n <= |script|
  {
    if n == 0 then []
    else SignalsIn(script, n - 1) + if script[n - 1].Signal? then [script[n - 1].signal] else []
  }

  function ForwardsIn(log: seq<Action>): seq<nat> {
    if log == [] then []
    else
      var last := |log| - 1;
      ForwardsIn(log[..last]) + if log[last].Forward? then [log[last].signal] else []
  }

  function TicksIn(script: seq<Event>, n: nat): nat
    requires n <= |script|
  {
    if n == 0 then 0 else TicksIn(script, n - 1) + if script[n - 1].Tick? then 1 else 0
  }

  function RenewsIn(log: seq<Action>): nat {
    if log == [] then 0
    else
      var last := |log| - 1;
      RenewsIn(log[..last]) + if log[last].CallRenew? then 1 else 0
  }

  lemma LogThen(log: seq<Action>, a: Action)
    ensures ForwardsIn(log + [a]) == ForwardsIn(log) + if a.Forward? then [a.signal] else []
    ensures RenewsIn(log + [a]) == RenewsIn(log) + if a.CallRenew? then 1 else 0
  {
    assert (log + [a])[..|log|] == log;
  }

  lemma {:induction false} ReactionsAnswerEvents(script: seq<Event>, n: nat, creds: Credentials, ttl: Duration)
    requires n <= |script|
    ensures ForwardsIn(Reactions(script, n, creds, ttl)) == SignalsIn(script, n)
    ensures RenewsIn(Reactions(script, n, creds, ttl)) == TicksIn(script, n)
  {
    if n > 0 {
      ReactionsAnswerEvents(script, n - 1, creds, ttl);
      ReactionThen(Reactions(script, n - 1, creds, ttl), script[n - 1], creds, ttl);
    }
  }

  lemma ReactionThen(before: seq<Action>, e: Event, creds: Credentials, ttl: Duration)
    ensures ForwardsIn(before + Reaction(e, creds, ttl)) == ForwardsIn(before) + if e.Signal? then [e.signal] else []
    ensures RenewsIn(before + Reaction(e, creds, ttl)) == RenewsIn(before) + if e.Tick? then 1 else 0
  {
    match e
    case Tick(_, _) => LogThen(before, CallRenew(creds, ttl));
    case Signal(s) => LogThen(before, Forward(s));
    case _ => assert before + [] == before;
  }

  /**
   Every signal that comes before the end is passed on, once and in order, and no other is sent; every
   heartbeat up to the end, the fatal one included, renews once.
   */
  lemma EventsAreAnswered(
    script: seq<Event>, d: nat, first: Time, creds: Credentials, ttl: Duration, log: seq<Action>, code: int)
    requires EndsAt(script, d, first, creds, ttl, log, code)
    ensures ForwardsIn(log) == SignalsIn(script, d)
    ensures RenewsIn(log) == TicksIn(script, d + 1)
  {
    var n := if script[d].ChildExit? then d else d + 1;
    var end := if script[d].ChildExit? then [ReceiveDone, CallRelease(creds)] else StopActions(script[d + 1..]);
    assert log == Reactions(script, n, creds, ttl) + end;
    ReactionsAnswerEvents(script, n, creds, ttl);
    EndAnswersNothing(Reactions(script, n, creds, ttl), end);
  }

  lemma {:induction false} EndAnswersNothing(log: seq<Action>, end: seq<Action>)
    requires forall a | a in end :: !a.Forward? && !a.CallRenew?
    ensures ForwardsIn(log + end) == ForwardsIn(log) && RenewsIn(log + end) == RenewsIn(log)
    decreases |end|
  {
    if end == [] {
      assert log + end == log;
    } else {
      var last := |end| - 1;
      EndAnswersNothing(log, end[..last]);
      LogThen(log + end[..last], end[last]);
      assert log + end == log + end[..last] + [end[last]];
    }
  }

  /** The operator's interval if there is one; otherwise a third of the TTL, but at least 100 ms. */
  lemma IntervalIs(renewEvery: Duration, ttl: Duration)
    ensures renewEvery > 0 ==> RenewInterval(renewEvery, ttl) == renewEvery
    ensures renewEvery <= 0 ==>
              var every := RenewInterval(renewEvery, ttl);
              if ttl < 300 * MILLISECOND then every == 100 * MILLISECOND else 3 * every <= ttl < 3 * every + 3
  {
  }

  /** The event at `j` is the last successful renewal before event `i`. */
  ghost predicate LastSuccess(script: seq<Event>, j: nat, i: nat)
    requires i <= |script|
  {
    && j < i && script[j].Tick? && script[j].renewal.Ok?
    && forall k | j < k < i :: !(script[k].Tick? && script[k].renewal.Ok?)
  }

  /** The believed deadline is always that of the last successful reply. */
  lemma {:induction false} BelievedIsLastSuccess(script: seq<Event>, i: nat, first: Time)
    requires i <= |script|
    ensures || (&& Believed(script, i, first) == first
                && forall k | 0 <= k < i :: !(script[k].Tick? && script[k].renewal.Ok?))
            || exists j: nat :: LastSuccess(script, j, i) && Believed(script, i, first) == DeadlineOf(script[j].renewal)
  {
    if i > 0 {
      if script[i - 1].Tick? && script[i - 1].renewal.Ok? {
        assert LastSuccess(script, i - 1, i);
      } else {
        BelievedIsLastSuccess(script, i - 1, first);
        if j: nat :| LastSuccess(script, j, i - 1) && Believed(script, i - 1, first) == DeadlineOf(script[j].renewal) {
          assert LastSuccess(script, j, i);
        }
      }
    }
  }

  /**
   Loss decision: a failed heartbeat keeps the child running exactly when its error is neither gone
   nor busy and the clock is still before the believed deadline; otherwise the run ends there, lost.
   */
  lemma LossDecision(
    script: seq<Event>, d: nat, first: Time, creds: Credentials, ttl: Duration, log: seq<Action>, code: int, i: nat)
    requires EndsAt(script, d, first, creds, ttl, log, code)
    requires i <= d && script[i].Tick? && !script[i].renewal.Ok?
    ensures i < d <==> script[i].renewal.OtherError? && script[i].clock < Believed(script, i, first)
    ensures i == d ==> code == EXIT_LOST
  {
    assert i < d ==> !Decisive(script, i, first);
  }
}
