/** The listing of held locks: ascending by name, in the byte order of Go strings. */
module Listings {
  import opened Leases
  import opened LockState
  import opened TableSpec

  /** Lexicographic order, as Go compares strings. */
  predicate Before(a: string, b: string) {
    if b == "" then false
    else if a == "" then true
    else a[0] < b[0] || (a[0] == b[0] && Before(a[1..], b[1..]))
  }

  /** `a` comes first if it is a proper beginning of `b`, or has the smaller byte where they first differ. */
  ghost predicate Precedes(a: string, b: string) {
    || (|a| < |b| && a == b[..|a|])
    || exists i :: 0 <= i < |a| && i < |b| && a[..i] == b[..i] && a[i] < b[i]
  }

  lemma {:induction false} BeforeMeansPrecedes(a: string, b: string)
    ensures Before(a, b) <==> Precedes(a, b)
  {
    if a == "" || b == "" {
      assert a == "" && b != "" ==> a == b[..|a|];
    } else {
      var (x, y) := (a[1..], b[1..]);
      BeforeMeansPrecedes(x, y);
      if Before(a, b) {
        if a[0] < b[0] {
          assert a[..0] == b[..0];
        } else if |x| < |y| && x == y[..|x|] {
          assert a == [a[0]] + x && b == [b[0]] + y;
        } else {
          var i :| 0 <= i < |x| && i < |y| && x[..i] == y[..i] && x[i] < y[i];
          assert a[..i + 1] == [a[0]] + x[..i] && b[..i + 1] == [b[0]] + y[..i];
          assert a[i + 1] < b[i + 1];
        }
      }
      if Precedes(a, b) {
        if |a| < |b| && a == b[..|a|] {
          assert a[0] == b[0] && x == y[..|x|];
        } else {
          var i :| 0 <= i < |a| && i < |b| && a[..i] == b[..i] && a[i] < b[i];
          if i > 0 {
            assert a[0] == a[..i][0] == b[..i][0] == b[0];
            assert x[..i - 1] == a[..i][1..] && y[..i - 1] == b[..i][1..];
            assert x[i - 1] < y[i - 1];
          }
        }
      }
    }
  }

  /** The statuses come in the byte order of their names. */
  ghost predicate InByteOrder(s: seq<Status>) {
    forall i, j | 0 <= i < j < |s| :: Precedes(s[i].name, s[j].name)
  }

  lemma AscendingMeansInByteOrder(s: seq<Status>)
    ensures Ascending(s) <==> InByteOrder(s)
  {
    forall i, j | 0 <= i < j < |s|
      ensures Before(s[i].name, s[j].name) <==> Precedes(s[i].name, s[j].name)
    {
      BeforeMeansPrecedes(s[i].name, s[j].name);
    }
  }

  lemma {:induction false} BeforeIsTotal(a: string, b: string)
    ensures a == b || Before(a, b) || Before(b, a)
  {
    if a != "" && b != "" && a[0] == b[0] {
      BeforeIsTotal(a[1..], b[1..]);
      assert a == [a[0]] + a[1..] && b == [b[0]] + b[1..];
    }
  }

  lemma {:induction false} BeforeIsStrict(a: string, b: string, c: string)
    ensures !Before(a, a)
    ensures Before(a, b) && Before(b, c) ==> Before(a, c)
  {
    if a != "" {
      BeforeIsStrict(a[1..], if b == "" then "" else b[1..], if c == "" then "" else c[1..]);
    }
  }

  ghost predicate Ascending(s: seq<Status>) {
    forall i, j | 0 <= i < j < |s| :: Before(s[i].name, s[j].name)
  }

  function Insert(x: Status, s: seq<Status>): seq<Status> {
    if s == [] || Before(x.name, s[0].name) then [x] + s else [s[0]] + Insert(x, s[1..])
  }

  /** Stands for the library sort by name. */
  function SortByName(s: seq<Status>): seq<Status> {
    if s == [] then [] else Insert(s[0], SortByName(s[1..]))
  }

  lemma LeastFirst(x: Status, s: seq<Status>)
    requires Ascending(s) && forall y | y in s :: Before(x.name, y.name)
    ensures Ascending([x] + s)
  {
    assert forall j | 0 <= j < |s| :: s[j] in s;
  }

  lemma {:induction false} InsertAddsOne(x: Status, s: seq<Status>)
    ensures multiset(Insert(x, s)) == multiset(s) + multiset{x}
  {
    if s != [] && !Before(x.name, s[0].name) {
      assert s == [s[0]] + s[1..];
      InsertAddsOne(x, s[1..]);
    }
  }

  lemma {:induction false} InsertKeepsOrder(x: Status, s: seq<Status>)
    requires Ascending(s) && forall y | y in s :: y.name != x.name
    ensures Ascending(Insert(x, s))
  {
    if s != [] && Before(x.name, s[0].name) {
      forall y | y in s
        ensures Before(x.name, y.name)
      {
        BeforeIsStrict(x.name, s[0].name, y.name);
      }
      LeastFirst(x, s);
    } else if s != [] {
      var rest := Insert(x, s[1..]);
      InsertKeepsOrder(x, s[1..]);
      InsertAddsOne(x, s[1..]);
      BeforeIsTotal(x.name, s[0].name);
      forall y | y in rest
        ensures Before(s[0].name, y.name)
      {
        assert y in multiset(rest) && s[0] in s;
      }
      LeastFirst(s[0], rest);
    }
  }

  predicate DistinctNames(s: seq<Status>) {
    forall i, j | 0 <= i < j < |s| :: s[i].name != s[j].name
  }

  lemma {:induction false} SortIsAscending(s: seq<Status>)
    requires DistinctNames(s)
    ensures Ascending(SortByName(s)) && multiset(SortByName(s)) == multiset(s)
  {
    if s != [] {
      assert s == [s[0]] + s[1..];
      SortIsAscending(s[1..]);
      var rest := SortByName(s[1..]);
      forall y | y in rest
        ensures y.name != s[0].name
      {
        assert y in multiset(rest) && y in s[1..];
      }
      InsertKeepsOrder(s[0], rest);
      InsertAddsOne(s[0], rest);
    }
  }

  /** `out` lists exactly the statuses in `held`, once each, ascending by name. */
  ghost predicate Lists(out: seq<Status>, held: map<string, Status>) {
    && Ascending(out)
    && (forall s | s in out :: s.name in held && held[s.name] == s)
    && (forall n | n in held :: held[n].name == n && held[n] in out)
    && |out| == |held|
  }

  /** A table has only one listing, whatever order the map was walked in. */
  lemma {:induction false} ListingIsUnique(a: seq<Status>, b: seq<Status>, held: map<string, Status>)
    requires Lists(a, held) && Lists(b, held)
    ensures a == b
  {
    if a == [] {
      assert b == [];
    } else {
      HeadsAgree(a, b, held);
      var rest := held - {a[0].name};
      assert Lists(a[1..], rest) by { TailLists(a, held); }
      assert Lists(b[1..], rest) by { TailLists(b, held); }
      ListingIsUnique(a[1..], b[1..], rest);
      SameHeadAndTail(a, b);
    }
  }

  lemma SameHeadAndTail(a: seq<Status>, b: seq<Status>)
    requires a != [] && b != [] && a[0] == b[0] && a[1..] == b[1..]
    ensures a == b
  {}

  lemma HeadsAgree(a: seq<Status>, b: seq<Status>, held: map<string, Status>)
    requires Lists(a, held) && Lists(b, held) && a != []
    ensures b != [] && a[0] == b[0]
  {
    assert |a| == |b|;
    FirstIsLeast(a, b, held);
    FirstIsLeast(b, a, held);
    BeforeIsStrict(a[0].name, b[0].name, a[0].name);
  }

  lemma FirstIsLeast(a: seq<Status>, b: seq<Status>, held: map<string, Status>)
    requires Lists(a, held) && Lists(b, held) && a != [] && b != []
    ensures a[0] == b[0] || Before(a[0].name, b[0].name)
  {}

  lemma TailLists(a: seq<Status>, held: map<string, Status>)
    requires Lists(a, held) && a != []
    ensures Lists(a[1..], held - {a[0].name})
  {
    var rest := held - {a[0].name};
    assert rest.Keys == held.Keys - {a[0].name};
    assert a[0] in a;
    assert |rest| == |held| - 1;
    forall s | s in a[1..]
      ensures s.name in rest && rest[s.name] == s
    {
      var i :| 0 < i < |a| && a[i] == s;
      assert s in a;
      BeforeIsStrict(a[0].name, s.name, a[0].name);
    }
    forall n | n in rest
      ensures rest[n] in a[1..]
    {
      assert held[n] in a;
      var i :| 0 <= i < |a| && a[i] == held[n];
      assert i != 0;
      assert a[i] == a[1..][i - 1];
    }
  }

  /** `out` holds exactly the statuses in `held` but for the names in `todo`, once each, in any order. */
  ghost predicate Collects(out: seq<Status>, held: map<string, Status>, todo: set<string>) {
    && DistinctNames(out)
    && (forall s | s in out :: s.name in held && held[s.name] == s && s.name !in todo)
    && (forall n | n in held :: held[n].name == n && (n in todo || held[n] in out))
  }

  lemma CollectOne(out: seq<Status>, held: map<string, Status>, todo: set<string>, name: string)
    requires Collects(out, held, todo) && name in todo
    ensures Collects(if name in held then out + [held[name]] else out, held, todo - {name})
  {}

  lemma {:induction false} CollectsAll(out: seq<Status>, held: map<string, Status>)
    requires Collects(out, held, {})
    ensures |out| == |held|
  {
    if out == [] {
      assert held == map[];
    } else {
      assert out[0] in out;
      CollectsTail(out, held);
      CollectsAll(out[1..], held - {out[0].name});
      OneFewer(held, out[0].name);
    }
  }

  lemma OneFewer(held: map<string, Status>, name: string)
    requires name in held
    ensures |held - {name}| == |held| - 1
  {}

  lemma CollectsTail(out: seq<Status>, held: map<string, Status>)
    requires Collects(out, held, {}) && out != []
    ensures Collects(out[1..], held - {out[0].name}, {})
  {}

  lemma CollectsThenLists(out: seq<Status>, held: map<string, Status>)
    requires Collects(out, held, {})
    ensures Lists(SortByName(out), held)
  {
    CollectsAll(out, held);
    SortIsAscending(out);
    var sorted := SortByName(out);
    SameElements(out, sorted);
  }

  lemma SameElements(a: seq<Status>, b: seq<Status>)
    requires multiset(a) == multiset(b)
    ensures |a| == |b| && forall s :: s in a <==> s in b
  {
    assert |a| == |multiset(a)| && |b| == |multiset(b)|;
    assert forall s :: s in a <==> s in multiset(a);
    assert forall s :: s in b <==> s in multiset(b);
  }

  /**
   At one clock reading List contains exactly the names Get reports held, each with the same status,
   and its length is HeldCount.
   */
  lemma ListGetAndCountAgree(b: Bounds, hooked: bool, m: Locks, now: Time, out: seq<Status>, name: string)
    requires Lists(out, HeldStatuses(PruneAll(m, now))) && ValidName(name)
    ensures var env := Env(now, now, true);
            var got := Call(b, hooked, m, Get(name), env).reply;
            && got.Reported? && got.status.name == name
            && (got.status.lease.Some? <==> HeldAt(m, name, now))
            && (got.status.lease.Some? <==> exists i :: 0 <= i < |out| && out[i].name == name)
            && (got.status.lease.Some? ==> got.status in out)
            && Call(b, hooked, m, List, env).reply == Listed(HeldStatuses(PruneAll(m, now)))
            && Call(b, hooked, m, HeldCount, env).reply == Counted(|out|)
  {
    var held := HeldStatuses(PruneAll(m, now));
    if name in held {
      assert held[name] in out;
    }
    assert forall i | 0 <= i < |out| :: out[i] in out;
  }
}
