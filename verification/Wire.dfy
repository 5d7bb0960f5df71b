/** How a table reply reaches a client: the server's status codes and wire lease, and what the client makes of them. */
module Wire {
  import opened Wrappers
  import opened Leases
  import opened LockState
  import opened TableSpec

  /** A lease on the wire: whole milliseconds, rounded down. */
  datatype WireLease = WireLease(
    name: string, holder: string, token: Token, ttlMS: int, acquiredAtMS: int, expiresAtMS: int)

  function ToWire(l: Lease): WireLease {
    WireLease(l.name, l.holder, l.token, Milliseconds(l.ttl), UnixMilli(l.acquiredAt), UnixMilli(l.expiresAt))
  }

  /** The client's copy of a lease. */
  function FromWire(w: WireLease): Lease {
    Lease(w.name, w.holder, w.token, w.ttlMS * MILLISECOND, w.acquiredAtMS * MILLISECOND, w.expiresAtMS * MILLISECOND)
  }

  const STATUS_OK := 200
  const STATUS_BAD_REQUEST := 400
  const STATUS_CONFLICT := 409
  const STATUS_GONE := 410
  const STATUS_INTERNAL := 500

  /** A lock's status on the wire; a lock is reported held by giving its lease. */
  datatype WireStatus = WireStatus(name: string, lastToken: Token, lease: Option<WireLease>)

  function ToWireStatus(s: Status): WireStatus {
    WireStatus(s.name, s.lastToken, match s.lease case None => None case Some(l) => Some(ToWire(l)))
  }

  /** The client's copy of a status. */
  function FromWireStatus(w: WireStatus): Status {
    Status(w.name, w.lastToken, match w.lease case None => None case Some(l) => Some(FromWire(l)))
  }

  /** The body of a response, as far as a client looks at it. */
  datatype Body =
    | NoBody
    | LeaseBody(lease: WireLease)
    | StatusBody(lock: WireStatus)
    | ListBody(locks: map<string, WireStatus>)

  datatype Response = Response(status: int, body: Body)

  /** Every reply of the table but the count, which no request asks for. */
  function Respond(reply: Reply): Response
    requires !reply.Counted?
  {
    match reply
    case Granted(l) => Response(STATUS_OK, LeaseBody(ToWire(l)))
    case Renewed(l) => Response(STATUS_OK, LeaseBody(ToWire(l)))
    case Released => Response(STATUS_OK, NoBody)
    case Reported(s) => Response(STATUS_OK, StatusBody(ToWireStatus(s)))
    case Listed(held) => Response(STATUS_OK, ListBody(map n | n in held :: ToWireStatus(held[n])))
    case Held(_, _) => Response(STATUS_CONFLICT, NoBody)
    case Gone => Response(STATUS_GONE, NoBody)
    case NotDurable => Response(STATUS_INTERNAL, NoBody)
    case Invalid => Response(STATUS_BAD_REQUEST, NoBody)
  }

  /** The status code tells apart success, bad requests, busy locks, lost leases and failing disks. */
  lemma StatusCodes(reply: Reply)
    requires !reply.Counted?
    ensures var status := Respond(reply).status;
            && (status == 400 <==> reply.Invalid?)
            && (status == 409 <==> reply.Held?)
            && (status == 410 <==> reply.Gone?)
            && (status == 500 <==> reply.NotDurable?)
            && (status == 200 <==>
                  reply.Granted? || reply.Renewed? || reply.Released? || reply.Reported? || reply.Listed?)
  {
  }

  /** What acquire, renew or release returns to a client: success, "retry later", "stop now", or anything else. */
  datatype ClientResult = Ok(lease: Option<Lease>) | Busy | GoneError | OtherError

  /** A response may be lost, or be unreadable: None. */
  function Receive(r: Option<Response>): ClientResult {
    match r
    case None => OtherError
    case Some(Response(status, body)) =>
      if status == STATUS_OK then Ok(if body.LeaseBody? then Some(FromWire(body.lease)) else None)
      else if status == STATUS_CONFLICT then Busy
      else if status == STATUS_GONE then GoneError
      else OtherError
  }

  /**
   A client stops on GoneError only if the table said so, retries on Busy only if the lock is held,
   and holds a lease only if the table granted or renewed it: the same lease, under the same token,
   with a deadline at most a millisecond early and never late.
   */
  lemma ClientLearnsWhatTheTableSaid(reply: Reply, delivered: bool)
    requires !reply.Reported? && !reply.Listed? && !reply.Counted?
    ensures var result := Receive(if delivered then Some(Respond(reply)) else None);
            && (result.GoneError? <==> delivered && reply.Gone?)
            && (result.Busy? <==> delivered && reply.Held?)
            && (result.Ok? <==> delivered && (reply.Granted? || reply.Renewed? || reply.Released?))
            && (result.Ok? && !reply.Released? ==>
                  && result.lease.Some?
                  && var (mine, theirs) := (result.lease.value, reply.lease);
                     && mine.name == theirs.name && mine.holder == theirs.holder && mine.token == theirs.token
                     && theirs.expiresAt - MILLISECOND < mine.expiresAt <= theirs.expiresAt
                     && theirs.acquiredAt - MILLISECOND < mine.acquiredAt <= theirs.acquiredAt
                     && (theirs.ttl % MILLISECOND == 0 ==> mine.ttl == theirs.ttl))
  {}

  /**
   Tokens do not go to their holders alone: whoever asks for the status of a lock, or for the list,
   is told the live token and its holder exactly when the lock is held at that reading of the clock.
   */
  lemma StatusCarriesLiveToken(b: Bounds, hooked: bool, m: Locks, name: string, env: Env)
    requires ValidName(name)
    ensures var r := Respond(Call(b, hooked, m, Get(name), env).reply);
            && r.status == STATUS_OK && r.body.StatusBody?
            && Tells(FromWireStatus(r.body.lock), m, name, env.now)
    ensures var r := Respond(Call(b, hooked, m, List, env).reply);
            && r.status == STATUS_OK && r.body.ListBody?
            && (name in r.body.locks <==> HeldAt(m, name, env.now))
            && (name in r.body.locks ==> Tells(FromWireStatus(r.body.locks[name]), m, name, env.now))
  {
    var held := Call(b, hooked, m, List, env).reply.held;
    assert name in held <==> HeldAt(m, name, env.now);
  }

  /** A status reports the lease on `name` if it is live, with its holder and token, its times less than 1 ms early. */
  predicate Tells(s: Status, m: Locks, name: string, now: Time) {
    && s.name == name && s.lastToken == Floor(m, name)
    && (s.lease.Some? <==> HeldAt(m, name, now))
    && (s.lease.Some? ==>
          var (told, live) := (s.lease.value, LeaseOf(m, name));
          && told.token == live.token && told.holder == live.holder
          && live.expiresAt - MILLISECOND < told.expiresAt <= live.expiresAt
          && live.acquiredAt - MILLISECOND < told.acquiredAt <= live.acquiredAt)
  }

  /** A client's lease expires no later than the server's own: belief is never longer than the truth. */
  lemma BeliefIsNeverLonger(l: Lease, now: Time)
    ensures l.Expired(now) ==> FromWire(ToWire(l)).Expired(now)
  {}

  /** The TTL the table receives when a client asks for `ttl`: sent in milliseconds, multiplied back by the handler. */
  function SentTTL(ttl: Duration): Duration {
    Milliseconds(ttl) * MILLISECOND
  }

  const MIN_DURATION: int := -0x8000_0000_0000_0000
  const MAX_DURATION: int := 0x7FFF_FFFF_FFFF_FFFF

  /** Every TTL a client sends arrives as whole milliseconds, never lengthened, and never overflows. */
  lemma SentTtlIsWhole(ttl: Duration)
    requires MIN_DURATION <= ttl <= MAX_DURATION
    ensures SentTTL(ttl) % MILLISECOND == 0 && MIN_DURATION <= SentTTL(ttl) <= MAX_DURATION
    ensures ttl >= 0 ==> ttl - MILLISECOND < SentTTL(ttl) <= ttl
    ensures ttl <= 0 ==> ttl <= SentTTL(ttl) < ttl + MILLISECOND
    ensures SentTTL(ttl) == ttl <==> ttl % MILLISECOND == 0
  {}
}
