/** The serializable view of a lock table, and what a restart makes of it. */
module Snapshots {
  import opened Wrappers
  import opened Leases
  import opened LockState

  const SCHEMA_VERSION := 1

  /** The lease fields are meaningful only when `holder` is not empty. */
  datatype LockRecord = LockRecord(
    lastToken: Token,
    holder: string,
    token: Token,
    ttlMS: int,
    acquiredAtMS: int,
    expiresAtMS: int)

  datatype Snapshot = Snapshot(schemaVersion: int, locks: map<string, LockRecord>)

  const EMPTY_SNAPSHOT := Snapshot(SCHEMA_VERSION, map[])

  function FloorRecord(lastToken: Token): LockRecord {
    LockRecord(lastToken, "", 0, 0, 0, 0)
  }

  function RecordOf(e: Entry): LockRecord {
    match e.lease
    case None => FloorRecord(e.lastToken)
    case Some(l) =>
      LockRecord(e.lastToken, l.holder, l.token, Milliseconds(l.ttl), UnixMilli(l.acquiredAt), UnixMilli(l.expiresAt))
  }

  /** A lock never granted is not worth persisting. */
  predicate Recorded(e: Entry) {
    !(e.lastToken == 0 && e.lease.None?)
  }

  /** The records of a table that has just been pruned. */
  function Encode(m: Locks): Snapshot {
    Snapshot(SCHEMA_VERSION, map n | n in m && Recorded(m[n]) :: RecordOf(m[n]))
  }

  function SnapshotAt(m: Locks, now: Time): Snapshot {
    Encode(PruneAll(m, now))
  }

  /** The token floor a snapshot preserves for a lock. */
  function SnapshotFloor(s: Snapshot, name: string): Token {
    if name in s.locks then s.locks[name].lastToken else 0
  }

  function RestoredEntry(name: string, r: LockRecord): Entry {
    if r.holder == "" then
      Entry(r.lastToken, None)
    else
      Entry(
        if r.token > r.lastToken then r.token else r.lastToken,
        Some(Lease(name, r.holder, r.token, r.ttlMS * MILLISECOND,
                   r.acquiredAtMS * MILLISECOND, r.expiresAtMS * MILLISECOND)))
  }

  predicate Restorable(name: string, r: LockRecord) {
    ValidName(name) && (r.holder != "" ==> ValidHolder(r.holder))
  }

  /** The contents of a new table restored from `snap`; None stands for a nil snapshot. */
  function Restored(snap: Option<Snapshot>): Result<Locks> {
    if snap.None? then
      Failure
    else if snap.value.schemaVersion != SCHEMA_VERSION then
      Failure
    else if exists n | n in snap.value.locks :: !Restorable(n, snap.value.locks[n]) then
      Failure
    else
      Success(RestoredLocks(snap.value))
  }

  function RestoredLocks(snap: Snapshot): Locks {
    map n | n in snap.locks :: RestoredEntry(n, snap.locks[n])
  }

  /** The snapshots this code writes: a live record's token is its floor, which is not zero. */
  predicate WrittenRecord(name: string, r: LockRecord) {
    && Restorable(name, r)
    && r.lastToken > 0
    && (if r.holder == "" then r == FloorRecord(r.lastToken) else r.token == r.lastToken)
  }

  ghost predicate Written(s: Snapshot) {
    s.schemaVersion == SCHEMA_VERSION && forall n | n in s.locks :: WrittenRecord(n, s.locks[n])
  }

  // Which snapshots a table writes, and what they keep

  lemma EncodeIsWritten(m: Locks)
    requires Legal(m) && TokensAreFloors(m)
    ensures Written(Encode(m))
  {}

  lemma EncodeKeepsFloor(m: Locks, name: string)
    requires TokensAreFloors(m)
    ensures SnapshotFloor(Encode(m), name) == Floor(m, name)
  {}

  /** The `holder != ""` test recovers exactly the leases that were present. */
  lemma HolderMarksLease(m: Locks, name: string)
    requires Legal(m) && TokensAreFloors(m)
    ensures HasLease(m, name) <==> name in Encode(m).locks && Encode(m).locks[name].holder != ""
    ensures HasLease(m, name) ==> Encode(m).locks[name] == RecordOf(m[name])
  {}

  /** A server can always restart from a file it wrote. */
  lemma WrittenIsRestorable(s: Snapshot)
    requires Written(s)
    ensures Restored(Some(s)) == Success(RestoredLocks(s))
    ensures Legal(RestoredLocks(s)) && TokensAreFloors(RestoredLocks(s))
    ensures forall n :: Floor(RestoredLocks(s), n) == SnapshotFloor(s, n)
  {}

  /** Self-healing: whatever file Restore accepts, no lease ends up above its floor and no floor is lowered. */
  lemma RestoreSelfHeals(s: Snapshot)
    requires Restored(Some(s)).Success?
    ensures var m := Restored(Some(s)).value;
            && Legal(m) && TokensAtMostFloor(m) && m.Keys == s.locks.Keys
            && forall n | n in m :: s.locks[n].lastToken <= m[n].lastToken
  {}

  /** The record of a lease: the same holder and token, and its times in whole milliseconds, rounded down. */
  predicate Describes(r: LockRecord, l: Lease) {
    && r.holder == l.holder && r.token == l.token
    && (l.ttl >= 0 ==> r.ttlMS * MILLISECOND <= l.ttl < (r.ttlMS + 1) * MILLISECOND)
    && r.acquiredAtMS * MILLISECOND <= l.acquiredAt < (r.acquiredAtMS + 1) * MILLISECOND
    && r.expiresAtMS * MILLISECOND <= l.expiresAt < (r.expiresAtMS + 1) * MILLISECOND
  }

  lemma RecordDescribes(e: Entry)
    ensures RecordOf(e).lastToken == e.lastToken
    ensures e.lease.Some? ==> Describes(RecordOf(e), e.lease.value)
    ensures e.lease.None? ==> RecordOf(e) == LockRecord(e.lastToken, "", 0, 0, 0, 0)
  {
  }

  /**
   Restore refuses a missing snapshot, a foreign schema version, an illegal name and an illegal holder,
   and nothing else. Otherwise every record becomes a lock whose floor is the larger of its own floor and
   the token of its lease, and which has a lease exactly if the record has a holder.
   */
  lemma RestoreAcceptsIff(snap: Option<Snapshot>)
    ensures Restored(snap).Success?
       <==> && snap.Some? && snap.value.schemaVersion == SCHEMA_VERSION
            && forall n | n in snap.value.locks ::
                 ValidName(n) && (snap.value.locks[n].holder == "" || ValidHolder(snap.value.locks[n].holder))
    ensures Restored(snap).Success? ==>
              && Restored(snap).value.Keys == snap.value.locks.Keys
              && forall n | n in snap.value.locks :: RestoredFrom(Restored(snap).value[n], n, snap.value.locks[n])
  {
    if snap.Some? {
      assert forall n | n in snap.value.locks ::
          Restorable(n, snap.value.locks[n])
          <==> ValidName(n) && (snap.value.locks[n].holder == "" || ValidHolder(snap.value.locks[n].holder));
    }
  }

  predicate RestoredFrom(e: Entry, name: string, r: LockRecord) {
    if r.holder == "" then
      e.lastToken == r.lastToken && e.lease.None?
    else
      && r.lastToken <= e.lastToken && r.token <= e.lastToken && (e.lastToken == r.lastToken || e.lastToken == r.token)
      && e.lease.Some?
      && var l := e.lease.value;
         && l.name == name && l.holder == r.holder && l.token == r.token
         && l.ttl == r.ttlMS * MILLISECOND
         && l.acquiredAt == r.acquiredAtMS * MILLISECOND && l.expiresAt == r.expiresAtMS * MILLISECOND
  }

  // Truncation to milliseconds

  lemma MilliOrder(t: Time, k: int)
    ensures t < k * MILLISECOND <==> UnixMilli(t) < k
    ensures UnixMilli(k * MILLISECOND) == k
    ensures UnixMilli(t) * MILLISECOND <= t < UnixMilli(t) * MILLISECOND + MILLISECOND
  {
  }

  lemma MillisecondsExact(k: int)
    ensures Milliseconds(k * MILLISECOND) == k
  {}

  // Restart

  /**
   Restart never adds authority, and takes away less than a millisecond of it: a table restored
   from the snapshot taken at `taken` has the same floors, and at any later time holds a lock exactly
   when the original still held it in an earlier whole millisecond than its deadline's, for the same
   holder under the same token.
   */
  lemma RestartRefines(m: Locks, taken: Time, later: Time, name: string)
    requires Legal(m) && TokensAreFloors(m) && taken <= later
    ensures var r := Restored(Some(SnapshotAt(m, taken)));
            && r.Success?
            && Floor(r.value, name) == Floor(m, name)
            && (HeldAt(r.value, name, later)
                <==> HasLease(m, name) && UnixMilli(later) < UnixMilli(LeaseOf(m, name).expiresAt))
            && (HeldAt(r.value, name, later) ==>
                  && HeldAt(m, name, later)
                  && LeaseOf(r.value, name).holder == LeaseOf(m, name).holder
                  && LeaseOf(r.value, name).token == LeaseOf(m, name).token)
            && (HeldAt(m, name, later + MILLISECOND) ==> HeldAt(r.value, name, later))
  {
    var p := PruneAll(m, taken);
    assert Legal(p) by {
      forall n | n in p ensures LegalEntry(n, p[n]) { assert LegalEntry(n, m[n]); }
    }
    assert TokensAreFloors(p) by {
      forall n | HasLease(p, n) ensures LeaseOf(p, n).token == p[n].lastToken > 0 { assert HasLease(m, n); }
    }
    EncodeIsWritten(p);
    WrittenIsRestorable(Encode(p));
    EncodeKeepsFloor(p, name);
    HolderMarksLease(p, name);
    if HasLease(m, name) {
      var e := LeaseOf(m, name).expiresAt;
      MilliOrder(later, UnixMilli(e));
      MilliOrder(taken, UnixMilli(e));
      MilliOrder(e, UnixMilli(e));
      MilliOrder(later + MILLISECOND, UnixMilli(e));
    }
  }

  /** A written record as a later snapshot shows it: cut to its floor once its deadline is reached. */
  function AgedRecord(r: LockRecord, now: Time): LockRecord {
    if r.holder != "" && r.expiresAtMS * MILLISECOND <= now then FloorRecord(r.lastToken) else r
  }

  function Aged(s: Snapshot, now: Time): Snapshot {
    Snapshot(s.schemaVersion, map n | n in s.locks :: AgedRecord(s.locks[n], now))
  }

  /** The snapshot of a restored table is the snapshot it came from, but for the leases that died meanwhile. */
  lemma SnapshotOfRestore(s: Snapshot, now: Time)
    requires Written(s)
    ensures SnapshotAt(RestoredLocks(s), now) == Aged(s, now)
  {
    var m := RestoredLocks(s);
    var again := SnapshotAt(m, now);
    forall n
      ensures n in again.locks <==> n in s.locks
      ensures n in s.locks ==> again.locks[n] == AgedRecord(s.locks[n], now)
    {
      if n in s.locks {
        assert WrittenRecord(n, s.locks[n]);
        AgedRestore(n, s.locks[n], now);
        assert PruneAll(m, now)[n] == Prune(RestoredEntry(n, s.locks[n]), now);
      }
    }
  }

  lemma AgedRestore(name: string, r: LockRecord, now: Time)
    requires WrittenRecord(name, r)
    ensures Recorded(Prune(RestoredEntry(name, r), now))
    ensures RecordOf(Prune(RestoredEntry(name, r), now)) == AgedRecord(r, now)
  {}

  /** A further round trip at the same time changes nothing. */
  lemma RoundTripSettles(s: Snapshot, once: Snapshot, now: Time)
    requires Written(s) && once == SnapshotAt(RestoredLocks(s), now)
    ensures Written(once) && SnapshotAt(RestoredLocks(once), now) == once
  {
    SnapshotOfRestore(s, now);
    assert once == Aged(s, now);
    forall n | n in once.locks
      ensures WrittenRecord(n, once.locks[n]) && AgedRecord(once.locks[n], now) == once.locks[n]
    {
      assert WrittenRecord(n, s.locks[n]);
    }
    SnapshotOfRestore(once, now);
    assert Aged(once, now).locks == once.locks;
  }
}
