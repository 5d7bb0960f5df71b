/** The value of a lock table: a token floor and an optional lease for each lock name. */
module LockState {
  import opened Wrappers
  import opened Leases

  /** `lastToken` outlives any lease; the lease may be stale until it is pruned. */
  datatype Entry = Entry(lastToken: Token, lease: Option<Lease>)

  type Locks = map<string, Entry>

  function Prune(e: Entry, now: Time): Entry {
    if e.lease.Some? && e.lease.value.Expired(now) then e.(lease := None) else e
  }

  function PruneAt(m: Locks, name: string, now: Time): Locks {
    if name in m then m[name := Prune(m[name], now)] else m
  }

  function PruneAll(m: Locks, now: Time): Locks {
    map n | n in m :: Prune(m[n], now)
  }

  /** The table with the lease on `name` removed, its floor kept. */
  function Cleared(m: Locks, name: string): Locks {
    if name in m then m[name := m[name].(lease := None)] else m
  }

  function Floor(m: Locks, name: string): Token {
    if name in m then m[name].lastToken else 0
  }

  predicate HasLease(m: Locks, name: string) {
    name in m && m[name].lease.Some?
  }

  function LeaseOf(m: Locks, name: string): Lease
    requires HasLease(m, name)
  {
    m[name].lease.value
  }

  /** Somebody's lease on the lock has not run out at `now`. */
  predicate HeldAt(m: Locks, name: string, now: Time) {
    HasLease(m, name) && !LeaseOf(m, name).Expired(now)
  }

  /** What a table must satisfy for its snapshot to be restorable: legal names and holders. */
  predicate LegalEntry(name: string, e: Entry) {
    ValidName(name) && (e.lease.Some? ==> e.lease.value.name == name && ValidHolder(e.lease.value.holder))
  }

  ghost predicate Legal(m: Locks) {
    forall n | n in m :: LegalEntry(n, m[n])
  }

  /** A live lease never carries a token above its lock's floor. */
  ghost predicate TokensAtMostFloor(m: Locks) {
    forall n | HasLease(m, n) :: LeaseOf(m, n).token <= m[n].lastToken
  }

  /** A live lease carries exactly its lock's floor, which is then not zero. */
  ghost predicate TokensAreFloors(m: Locks) {
    forall n | HasLease(m, n) :: LeaseOf(m, n).token == m[n].lastToken > 0
  }

  lemma PruneAllTwice(m: Locks, s: Time, t: Time)
    requires s <= t
    ensures PruneAll(PruneAll(m, s), t) == PruneAll(m, t)
  {
  }

  /** Pruning one lock, then all of them later, is the same as pruning all of them later. */
  lemma PruneAtThenAll(m: Locks, name: string, s: Time, t: Time)
    requires s <= t
    ensures PruneAll(PruneAt(m, name, s), t) == PruneAll(m, t)
  {
  }
}
