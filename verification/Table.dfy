/**
 The lock table as the program has it in memory: a mutable map from names to mutable records,
 changed in place under one mutex. Every method is proved to be one step of TableSpec.

 The clock and the persist hook belong to the outside world: their results are arguments
 (`now` and `hookNow` are the two clock readings of a call, `saved` the hook's verdict).
 */
module Table {
  import opened Wrappers
  import opened Leases
  import opened LockState
  import opened Snapshots
  import opened TableSpec
  import opened Listings

  /** The table halfway through a loop that prunes the locks it visits, `todo` being left. */
  function PruneSome(m: Locks, todo: set<string>, now: Time): Locks {
    map n | n in m :: if n in todo then m[n] else Prune(m[n], now)
  }

  lemma WalkOne(m: Locks, todo: set<string>, name: string, now: Time)
    requires name in m && name in todo
    ensures PruneSome(m, todo, now)[name := Prune(m[name], now)] == PruneSome(m, todo - {name}, now)
  {
  }

  lemma WalkAll(m: Locks, now: Time)
    ensures PruneSome(m, m.Keys, now) == m
    ensures PruneSome(m, {}, now) == PruneAll(m, now)
  {
  }

  /** `records` are the ones a snapshot of `m` has. */
  ghost predicate RecordsOf(records: map<string, LockRecord>, m: Locks, now: Time) {
    && (forall n | n in m :: n in records <==> Recorded(Prune(m[n], now)))
    && (forall n | n in records :: n in m && records[n] == RecordOf(Prune(m[n], now)))
  }

  lemma TheRecords(m: Locks, now: Time) returns (records: map<string, LockRecord>)
    ensures RecordsOf(records, m, now)
  {
    records := SnapshotAt(m, now).locks;
  }

  lemma RecordsAreSnapshot(records: map<string, LockRecord>, m: Locks, now: Time)
    requires RecordsOf(records, m, now)
    ensures SnapshotAt(m, now) == Snapshot(SCHEMA_VERSION, records)
  {
  }

  /** `held` are the statuses a listing of `m` has. */
  ghost predicate StatusesOf(held: map<string, Status>, m: Locks, now: Time) {
    && (forall n | n in m :: n in held <==> Prune(m[n], now).lease.Some?)
    && (forall n | n in held :: n in m && held[n] == Status(n, m[n].lastToken, Prune(m[n], now).lease))
  }

  lemma TheStatuses(m: Locks, now: Time) returns (held: map<string, Status>)
    ensures StatusesOf(held, m, now)
  {
    held := HeldStatuses(PruneAll(m, now));
  }

  lemma StatusesAreHeld(held: map<string, Status>, m: Locks, now: Time)
    requires StatusesOf(held, m, now)
    ensures held == HeldStatuses(PruneAll(m, now))
  {
  }

  class Record {
    var lastToken: Token
    var lease: Option<Lease>

    constructor (lastToken: Token, lease: Option<Lease>)
      ensures this.lastToken == lastToken && this.lease == lease
    {
      this.lastToken, this.lease := lastToken, lease;
    }
  }

  class LockTable {
    var minTTL: Duration
    var maxTTL: Duration
    var locks: map<string, Record>
    /** Whether a persist hook is installed. */
    var hooked: bool
    /** Every snapshot the hook has been given. */
    ghost var offered: seq<Snapshot>

    /** The records the table is made of. */
    ghost var Repr: set<Record>

    /** No two names share a record. */
    ghost predicate Valid()
      reads this
    {
      && (forall n | n in locks :: locks[n] in Repr)
      && (forall n, k | n in locks && k in locks && locks[n] == locks[k] :: n == k)
    }

    ghost function View(): Locks
      requires Valid()
      reads this, Repr
    {
      map n | n in locks :: Entry(locks[n].lastToken, locks[n].lease)
    }

    ghost function Limits(): Bounds
      reads this
    {
      Bounds(minTTL, maxTTL)
    }

    constructor ()
      ensures Valid() && View() == map[] && !hooked && offered == []
      ensures Limits() == Bounds(100 * MILLISECOND, 24 * 60 * 60 * 1000 * MILLISECOND)
    {
      minTTL, maxTTL := 100 * MILLISECOND, 24 * 60 * 60 * 1000 * MILLISECOND;
      locks, hooked, offered, Repr := map[], false, [], {};
    }

    method SetTTLBounds(min: Duration, max: Duration)
      modifies this`minTTL, this`maxTTL
      ensures Limits() == Bounds(min, max)
    {
      minTTL, maxTTL := min, max;
    }

    method SetPersist(installed: bool)
      modifies this`hooked
      ensures hooked == installed
    {
      hooked := installed;
    }

    /** `m` shows every record of the table. */
    ghost predicate Shows(m: Locks)
      requires Valid()
      reads this, Repr
    {
      m.Keys == locks.Keys && forall n | n in locks :: m[n] == Entry(locks[n].lastToken, locks[n].lease)
    }

    lemma ShowsView(m: Locks)
      requires Valid() && Shows(m)
      ensures View() == m
    {
    }

    /** Changing one record changes one entry of the view: no two names share a record. */
    twostate lemma ViewUpdated(name: string)
      requires old(Valid()) && locks == old(locks) && Repr == old(Repr) && name in locks
      requires forall n | n in locks && n != name :: unchanged(locks[n])
      ensures Valid() && View() == old(View())[name := Entry(locks[name].lastToken, locks[name].lease)]
    {
    }

    /** Drops the lease of one record if its deadline has come, and changes nothing else in the view. */
    method PruneLocked(st: Record, now: Time, ghost name: string)
      requires Valid() && name in locks && locks[name] == st
      modifies st`lease
      ensures View() == old(View())[name := Prune(old(View())[name], now)]
    {
      ghost var after := View()[name := Prune(View()[name], now)];
      if st.lease.Some? && st.lease.value.Expired(now) {
        st.lease := None;
      }
      ShowsView(after);
    }

    /** Expired leases are pruned on the way, so the snapshot never revives a dead one. */
    method SnapshotLocked(now: Time) returns (snap: Snapshot)
      requires Valid()
      modifies Repr`lease
      ensures View() == PruneAll(old(View()), now)
      ensures snap == SnapshotAt(old(View()), now)
    {
      var records: map<string, LockRecord> := map[];
      var todo := locks.Keys;
      ghost var before := View();
      WalkAll(before, now);
      ghost var goal := TheRecords(before, now);
      while todo != {}
        invariant todo <= before.Keys && Valid()
        invariant View() == PruneSome(before, todo, now)
        invariant forall n | n in records :: n in goal && records[n] == goal[n]
        invariant forall n | n in goal :: n in records || n in todo
        decreases todo
      {
        var name :| name in todo;
        var st := locks[name];
        PruneLocked(st, now, name);
        WalkOne(before, todo, name, now);
        var rec := FloorRecord(st.lastToken);
        if st.lease.Some? {
          var l := st.lease.value;
          rec := LockRecord(st.lastToken, l.holder, l.token,
                            Milliseconds(l.ttl), UnixMilli(l.acquiredAt), UnixMilli(l.expiresAt));
        }
        if !(rec.lastToken == 0 && st.lease.None?) {
          records := records[name := rec];
        }
        todo := todo - {name};
      }
      assert records == goal;
      RecordsAreSnapshot(goal, before, now);
      snap := Snapshots.Snapshot(SCHEMA_VERSION, records);
    }

    method TakeSnapshot(now: Time) returns (snap: Snapshot)
      requires Valid()
      modifies Repr`lease
      ensures View() == PruneAll(old(View()), now)
      ensures snap == SnapshotAt(old(View()), now)
    {
      snap := SnapshotLocked(now);
    }

    /** Hands the hook a snapshot of the whole table; without a hook nothing happens and all is well. */
    method PersistLocked(hookNow: Time, saved: bool) returns (ok: bool)
      requires Valid()
      modifies this`offered, Repr`lease
      ensures ok == (hooked ==> saved)
      ensures View() == if hooked then PruneAll(old(View()), hookNow) else old(View())
      ensures offered == old(offered) + if hooked then [SnapshotAt(old(View()), hookNow)] else []
    {
      if !hooked {
        return true;
      }
      var snap := SnapshotLocked(hookNow);
      offered := offered + [snap];
      return saved;
    }

    /** The state after a call, and the reply, are those of the specification. */
    twostate predicate Performed(o: Outcome)
      reads this, Repr
    {
      && Valid()
      && View() == o.locks
      && offered == old(offered) + if o.offered.Some? then [o.offered.value] else []
    }

    method Acquire(name: string, holder: string, ttl: Duration, now: Time, hookNow: Time, saved: bool)
      returns (reply: Reply)
      requires Valid()
      modifies this`locks, this`offered, this`Repr, Repr
      ensures fresh(Repr - old(Repr))
      ensures var (req, env) := (TableSpec.Acquire(name, holder, ttl), Env(now, hookNow, saved));
              var o := old(Call(Limits(), hooked, View(), req, env));
              Performed(o) && reply == o.reply
    {
      var valid := ValidateName(name);
      if !valid { return Invalid; }
      valid := ValidateHolder(holder);
      if !valid { return Invalid; }
      if ttl < minTTL || ttl > maxTTL { return Invalid; }
      reply := AcquireLocked(name, holder, ttl, now, hookNow, saved);
    }

    /** A name that has no record yet gets one, with floor 0. */
    method EnsureRecord(name: string)
      requires Valid()
      modifies this`locks, this`Repr
      ensures Valid() && name in locks && fresh(Repr - old(Repr))
      ensures View() == if name in old(View()) then old(View()) else old(View())[name := Entry(0, None)]
    {
      if name !in locks {
        ghost var after := View()[name := Entry(0, None)];
        var st := new Record(0, None);
        locks, Repr := locks[name := st], Repr + {st};
        ShowsView(after);
      }
    }

    method AcquireLocked(name: string, holder: string, ttl: Duration, now: Time, hookNow: Time, saved: bool)
      returns (reply: Reply)
      requires Valid()
      modifies this`locks, this`offered, this`Repr, Repr
      ensures fresh(Repr - old(Repr))
      ensures var known := if name in old(View()) then old(View()) else old(View())[name := Entry(0, None)];
              var m := PruneAt(known, name, now);
              var token := NextToken(Floor(m, name));
              var l := Lease(name, holder, token, ttl, now, now + ttl);
              var o := if HasLease(m, name)
                       then Outcome(m, Held(LeaseOf(m, name).holder, LeaseOf(m, name).expiresAt), None)
                       else Persist(hooked, m[name := Entry(token, Some(l))], Granting(l), Env(now, hookNow, saved));
              Performed(o) && reply == o.reply
    {
      EnsureRecord(name);
      var st := locks[name];
      PruneLocked(st, now, name);
      if st.lease.Some? {
        return Held(st.lease.value.holder, st.lease.value.expiresAt);
      }
      label grant:
      st.lastToken := NextToken(st.lastToken);
      var l := Lease(name, holder, st.lastToken, ttl, now, now + ttl);
      st.lease := Some(l);
      ViewUpdated@grant(name);
      var ok := PersistLocked(hookNow, saved);
      if !ok {
        label burn:
        st.lease := None;
        ViewUpdated@burn(name);
        return NotDurable;
      }
      return Granted(l);
    }

    method Renew(name: string, holder: string, token: Token, ttl: Duration, now: Time, hookNow: Time, saved: bool)
      returns (reply: Reply)
      requires Valid()
      modifies this`offered, Repr`lease
      ensures var (req, env) := (TableSpec.Renew(name, holder, token, ttl), Env(now, hookNow, saved));
              var o := old(Call(Limits(), hooked, View(), req, env));
              Performed(o) && reply == o.reply
    {
      var valid := ValidateName(name);
      if !valid { return Invalid; }
      valid := ValidateHolder(holder);
      if !valid { return Invalid; }
      if ttl < minTTL || ttl > maxTTL { return Invalid; }
      reply := RenewLocked(name, holder, token, ttl, now, hookNow, saved);
    }

    method RenewLocked(name: string, holder: string, token: Token, ttl: Duration, now: Time, hookNow: Time, saved: bool)
      returns (reply: Reply)
      requires Valid()
      modifies this`offered, Repr`lease
      ensures var m := PruneAt(old(View()), name, now);
              var o := if Owns(m, name, holder, token) then
                         var l := LeaseOf(m, name).(ttl := ttl, expiresAt := now + ttl);
                         Persist(hooked, m[name := m[name].(lease := Some(l))], Renewing(l), Env(now, hookNow, saved))
                       else Outcome(m, Gone, None);
              Performed(o) && reply == o.reply
    {
      if name in locks {
        PruneLocked(locks[name], now, name);
      }
      if name !in locks || locks[name].lease.None? {
        return Gone;
      }
      var st := locks[name];
      if st.lease.value.holder != holder || st.lease.value.token != token {
        return Gone;
      }
      label extend:
      st.lease := Some(st.lease.value.(ttl := ttl, expiresAt := now + ttl));
      ViewUpdated@extend(name);
      var l := st.lease.value;
      var ok := PersistLocked(hookNow, saved);
      if !ok {
        return NotDurable;
      }
      return Renewed(l);
    }

    method Release(name: string, holder: string, token: Token, now: Time, hookNow: Time, saved: bool)
      returns (reply: Reply)
      requires Valid()
      modifies this`offered, Repr`lease
      ensures var (req, env) := (TableSpec.Release(name, holder, token), Env(now, hookNow, saved));
              var o := old(Call(Limits(), hooked, View(), req, env));
              Performed(o) && reply == o.reply
    {
      var valid := ValidateName(name);
      if !valid { return Invalid; }
      valid := ValidateHolder(holder);
      if !valid { return Invalid; }
      reply := ReleaseLocked(name, holder, token, now, hookNow, saved);
    }

    method ReleaseLocked(name: string, holder: string, token: Token, now: Time, hookNow: Time, saved: bool)
      returns (reply: Reply)
      requires Valid()
      modifies this`offered, Repr`lease
      ensures var m := PruneAt(old(View()), name, now);
              var o := if Owns(m, name, holder, token)
                       then Persist(hooked, Cleared(m, name), Releasing(name), Env(now, hookNow, saved))
                       else Outcome(m, Gone, None);
              Performed(o) && reply == o.reply
    {
      if name in locks {
        PruneLocked(locks[name], now, name);
      }
      if name !in locks || locks[name].lease.None? {
        return Gone;
      }
      var st := locks[name];
      if st.lease.value.holder != holder || st.lease.value.token != token {
        return Gone;
      }
      label release:
      st.lease := None;
      ViewUpdated@release(name);
      var ok := PersistLocked(hookNow, saved);
      if !ok {
        return NotDurable;
      }
      return Released;
    }

    method Get(name: string, now: Time) returns (reply: Reply)
      requires Valid()
      modifies Repr`lease
      ensures var o := old(Call(Limits(), hooked, View(), TableSpec.Get(name), Env(now, now, true)));
              Performed(o) && reply == o.reply
    {
      var valid := ValidateName(name);
      if !valid { return Invalid; }
      if name !in locks {
        return Reported(Status(name, 0, None));
      }
      var st := locks[name];
      ghost var before := View();
      PruneLocked(st, now, name);
      return Reported(Status(name, st.lastToken, st.lease));
    }

    method List(now: Time) returns (out: seq<Status>)
      requires Valid()
      modifies Repr`lease
      ensures var o := old(Call(Limits(), hooked, View(), TableSpec.List, Env(now, now, true)));
              Performed(o) && o.reply.Listed? && Lists(out, o.reply.held) && InByteOrder(out)
    {
      out := [];
      var todo := locks.Keys;
      ghost var before := View();
      WalkAll(before, now);
      ghost var held := TheStatuses(before, now);
      while todo != {}
        invariant todo <= before.Keys && Valid()
        invariant View() == PruneSome(before, todo, now)
        invariant Collects(out, held, todo)
        decreases todo
      {
        var name :| name in todo;
        var st := locks[name];
        PruneLocked(st, now, name);
        WalkOne(before, todo, name, now);
        CollectOne(out, held, todo, name);
        if st.lease.Some? {
          out := out + [Status(name, st.lastToken, st.lease)];
        }
        todo := todo - {name};
      }
      StatusesAreHeld(held, before, now);
      CollectsThenLists(out, held);
      out := SortByName(out);
      AscendingMeansInByteOrder(out);
    }

    method HeldCount(now: Time) returns (n: nat)
      requires Valid()
      modifies Repr`lease
      ensures var o := old(Call(Limits(), hooked, View(), TableSpec.HeldCount, Env(now, now, true)));
              Performed(o) && o.reply == Counted(n)
    {
      n := 0;
      var todo := locks.Keys;
      ghost var before := View();
      WalkAll(before, now);
      ghost var held := TheStatuses(before, now);
      ghost var counted: seq<Status> := [];
      while todo != {}
        invariant todo <= before.Keys && Valid()
        invariant View() == PruneSome(before, todo, now)
        invariant Collects(counted, held, todo) && n == |counted|
        decreases todo
      {
        var name :| name in todo;
        var st := locks[name];
        PruneLocked(st, now, name);
        WalkOne(before, todo, name, now);
        CollectOne(counted, held, todo, name);
        if st.lease.Some? {
          n, counted := n + 1, counted + [held[name]];
        }
        todo := todo - {name};
      }
      StatusesAreHeld(held, before, now);
      CollectsAll(counted, held);
    }

    /** Replaces the contents, or leaves them alone when the snapshot is unusable. */
    method Restore(snap: Option<Snapshot>) returns (ok: bool)
      requires Valid()
      modifies this`locks, this`Repr
      ensures Valid()
      ensures ok == Restored(snap).Success?
      ensures if ok then View() == Restored(snap).value && fresh(Repr) else locks == old(locks)
    {
      if snap.None? { return false; }
      var s := snap.value;
      if s.schemaVersion != SCHEMA_VERSION { return false; }
      ghost var records: set<Record> := {};
      var loaded: map<string, Record> := map[];
      var todo := s.locks.Keys;
      while todo != {}
        invariant locks == old(locks) && Repr == old(Repr)
        invariant todo !! loaded.Keys && todo + loaded.Keys == s.locks.Keys
        invariant fresh(records) && forall n | n in loaded :: loaded[n] in records
        invariant forall n, k | n in loaded && k in loaded && loaded[n] == loaded[k] :: n == k
        invariant forall n | n in loaded :: Restorable(n, s.locks[n])
        invariant forall n | n in loaded :: Entry(loaded[n].lastToken, loaded[n].lease) == RestoredEntry(n, s.locks[n])
        decreases todo
      {
        var name :| name in todo;
        var rec := s.locks[name];
        var valid := ValidateName(name);
        if !valid { return false; }
        var st := new Record(rec.lastToken, None);
        if rec.holder != "" {
          valid := ValidateHolder(rec.holder);
          if !valid { return false; }
          if rec.token > st.lastToken {
            st.lastToken := rec.token;
          }
          st.lease := Some(Lease(name, rec.holder, rec.token, rec.ttlMS * MILLISECOND,
                                 rec.acquiredAtMS * MILLISECOND, rec.expiresAtMS * MILLISECOND));
        }
        loaded, records := loaded[name := st], records + {st};
        todo := todo - {name};
      }
      locks, Repr := loaded, records;
      return true;
    }
  }
}
