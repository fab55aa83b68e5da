/**
 The user table of src/auth/user_metadata.c.backup: linear probing without deletion, refusing
 users at 3/4 load.  Unlike the tables that free slots, it is a set of users on every run.
 */
module UserTable {
  import opened Prelude
  import opened Probing
  import FileLocks

  type Name = seq<byte>

  function HashOf(s: Name): (h: nat)
    ensures h < TWO_32
  {
    if s == [] then 0 else (HashOf(s[..|s| - 1]) * 31 + FileLocks.SignedChar(s[|s| - 1])) % TWO_32
  }

  /** The hash in closed form: the characters as digits to the base 31, modulo 2^32. */
  lemma {:induction false} HashIsPolynomial(s: Name)
    ensures HashOf(s) == FileLocks.Polynomial(31, s) % TWO_32
    ensures forall n: nat :: n > 0 ==> Home(s, n) == FileLocks.Polynomial(31, s) % TWO_32 % n
  {
    if s != [] {
      var front, last := s[..|s| - 1], s[|s| - 1];
      HashIsPolynomial(front);
      assert s == front + [last];
      FileLocks.OneMoreCoefficient(31, front, last);
      FileLocks.ReduceFirst(FileLocks.Polynomial(31, front), 31, FileLocks.SignedChar(last));
    }
  }

  function Home(name: Name, n: nat): (i: nat)
    requires n > 0
    ensures i < n
  {
    HashOf(name) % n
  }

  datatype Table = Table(slots: seq<Option<Name>>, count: nat)

  /** `user_get`: the slot where the search finds the user. */
  function Get(t: Table, name: Name): (slot: Option<nat>)
    requires |t.slots| > 0
    ensures slot.Some? ==> slot.value < |t.slots| && t.slots[slot.value] == Some(name)
  {
    var home := Home(name, |t.slots|);
    var r := Probe(t.slots, home, Some(name), 0);
    if r < |t.slots| && t.slots[Walk(home, r, |t.slots|)].Some? then Some(Walk(home, r, |t.slots|)) else None
  }

  /** `user_database_add`; the load check `count >= capacity * 0.75` is exact in a double. */
  function Add(t: Table, name: Name): (Table, int)
    requires |t.slots| > 0
  {
    var home := Home(name, |t.slots|);
    var r := Probe(t.slots, home, None, 0);
    if 4 * t.count >= 3 * |t.slots| || r == |t.slots| then (t, -1)
    else (Table(t.slots[Walk(home, r, |t.slots|) := Some(name)], t.count + 1), 0)
  }

  class UserDatabase {
    const users: array<Option<Name>>
    var count: int

    ghost predicate Valid()
      reads this
    {
      users.Length > 0 && count >= 0
    }

    ghost function State(): Table
      requires Valid()
      reads this, users
    {
      Table(users[..], count)
    }

    /** `user_database_init` with a positive capacity. */
    constructor (capacity: nat)
      requires capacity > 0
      ensures Valid() && fresh(users) && State() == Table(seq(capacity, _ => None), 0)
    {
      users := new Option<Name>[capacity](_ => None);
      count := 0;
    }

    static method HashUsername(username: Name, capacity: nat) returns (index: nat)
      requires capacity > 0
      ensures index == Home(username, capacity)
    {
      var hash: nat := 0;
      var k := 0;
      while k < |username|
        invariant 0 <= k <= |username|
        invariant hash == HashOf(username[..k])
      {
        assert username[..k + 1][..k] == username[..k];
        hash := (hash * 31 + FileLocks.SignedChar(username[k])) % TWO_32;
        k := k + 1;
      }
      assert username[..|username|] == username;
      index := hash % capacity;
    }

    /** -1 stands for NULL. */
    method Find(username: Name) returns (slot: int)
      requires Valid()
      ensures slot == (var s := Get(State(), username); if s.Some? then s.value else -1)
    {
      var capacity := users.Length;
      ghost var t, home := users[..], Home(username, capacity);
      var index := HashUsername(username, capacity);
      var i := 0;
      while i < capacity
        invariant 0 <= i <= capacity
        invariant Probe(t, home, Some(username), 0) == Probe(t, home, Some(username), i)
      {
        var probe := (index + i) % capacity;
        WalkIsModulo(home, i, capacity);
        assert t[probe] == users[probe];
        if users[probe] == None {
          return -1;
        }
        if users[probe] == Some(username) {
          return probe;
        }
        i := i + 1;
      }
      return -1;
    }

    method AddUser(username: Name) returns (rc: int)
      requires Valid()
      modifies this`count, users
      ensures Valid() && (State(), rc) == Add(old(State()), username)
    {
      var capacity := users.Length;
      if 4 * count >= 3 * capacity {
        return -1;
      }
      ghost var t, home := users[..], Home(username, capacity);
      var index := HashUsername(username, capacity);
      var i := 0;
      while i < capacity
        invariant 0 <= i <= capacity
        invariant users[..] == t && count == old(count)
        invariant Probe(t, home, None, 0) == Probe(t, home, None, i)
      {
        var probe := (index + i) % capacity;
        WalkIsModulo(home, i, capacity);
        assert t[probe] == users[probe];
        if users[probe] == None {
          users[probe] := Some(username);
          count := count + 1;
          assert users[..] == t[probe := Some(username)];
          return 0;
        }
        i := i + 1;
      }
      return -1;
    }
  }

  /** The source's `(index + i) % capacity` is the walk from the home slot. */
  lemma WalkIsModulo(home: nat, i: nat, n: nat)
    requires home < n && i < n
    ensures (home + i) % n == Walk(home, i, n)
  {
    if home + i >= n {
      assert (home + i) % n == home + i - n;
    }
  }

  // ---------------------------------------------------------------- an insert-only map

  function Taken(slots: seq<Option<Name>>): nat
  {
    if slots == [] then 0 else Taken(slots[..|slots| - 1]) + (if slots[|slots| - 1].Some? then 1 else 0)
  }

  /** Every user can be reached from its home slot, and `count` counts the users. */
  ghost predicate Filed(t: Table)
  {
    && |t.slots| > 0
    && t.count == Taken(t.slots)
    && forall i :: 0 <= i < |t.slots| && t.slots[i].Some? ==>
         Reachable(t.slots, Home(t.slots[i].value, |t.slots|), i)
  }

  lemma {:induction false} TakenAfterAdd(slots: seq<Option<Name>>, i: nat, name: Name)
    requires i < |slots| && slots[i].None?
    ensures Taken(slots[i := Some(name)]) == Taken(slots) + 1
  {
    var n := |slots| - 1;
    if i == n {
      assert slots[i := Some(name)][..n] == slots[..n];
    } else {
      assert slots[i := Some(name)][..n] == slots[..n][i := Some(name)];
      TakenAfterAdd(slots[..n], i, name);
    }
  }

  lemma {:induction false} AllTaken(slots: seq<Option<Name>>)
    requires forall i :: 0 <= i < |slots| ==> slots[i].Some?
    ensures Taken(slots) == |slots|
  {
    if slots != [] {
      AllTaken(slots[..|slots| - 1]);
    }
  }

  /** A search finds a user if and only if it is in the table. */
  lemma GetIff(t: Table, name: Name)
    requires Filed(t)
    ensures Get(t, name).Some? <==> Some(name) in t.slots
  {
    if Some(name) in t.slots {
      var i :| 0 <= i < |t.slots| && t.slots[i] == Some(name);
      var home := Home(name, |t.slots|);
      var r, d := Probe(t.slots, home, Some(name), 0), Distance(home, i, |t.slots|);
      assert Reachable(t.slots, home, i);
      assert t.slots[Walk(home, d, |t.slots|)] == Some(name);
      assert r <= d;
    }
  }

  /** Adding succeeds exactly below the load limit: probing never fails first. */
  lemma AddSucceedsIff(t: Table, name: Name)
    requires Filed(t)
    ensures Add(t, name).1 == 0 <==> 4 * t.count < 3 * |t.slots|
  {
    var home := Home(name, |t.slots|);
    if Probe(t.slots, home, None, 0) == |t.slots| {
      forall i: nat | i < |t.slots| ensures t.slots[i].Some? {
        assert t.slots[Walk(home, Distance(home, i, |t.slots|), |t.slots|)] != None;
      }
      AllTaken(t.slots);
    }
  }

  /** An added user is in the table; every other one stays and is found in the same slot. */
  lemma AddKeepsUsers(t: Table, name: Name, other: Name)
    requires Filed(t)
    ensures var (t', rc) := Add(t, name);
            && Filed(t') && |t'.slots| == |t.slots|
            && (rc == 0 ==> Get(t', name).Some?)
            && (Get(t, other).Some? ==> Get(t', other) == Get(t, other))
            && (Get(t', other).Some? ==> Get(t, other).Some? || (rc == 0 && other == name))
  {
    var (t', rc) := Add(t, name);
    if rc == 0 {
      AddKeepsFiled(t, name);
      var j := Walk(Home(name, |t.slots|), Probe(t.slots, Home(name, |t.slots|), None, 0), |t.slots|);
      assert t'.slots[j] == Some(name);
      GetIff(t', name);
      GetIff(t', other);
      GetIff(t, other);
      if Get(t, other).Some? {
        FoundStaysFound(t, j, name, other);
      }
    }
  }

  lemma AddKeepsFiled(t: Table, name: Name)
    requires Filed(t) && Add(t, name).1 == 0
    ensures Filed(Add(t, name).0)
  {
    var t', n := Add(t, name).0, |t.slots|;
    var home := Home(name, n);
    var j := Walk(home, Probe(t.slots, home, None, 0), n);
    TakenAfterAdd(t.slots, j, name);
    InsertedIsReachable(t.slots, name, home);
    forall i | 0 <= i < n && t'.slots[i].Some? ensures Reachable(t'.slots, Home(t'.slots[i].value, n), i) {
      if i != j {
        InsertKeepsReachable(t.slots, j, name, Home(t.slots[i].value, n), i);
      }
    }
  }

  /** Filling a free slot does not change where a search that succeeded ends. */
  lemma FoundStaysFound(t: Table, j: nat, name: Name, other: Name)
    requires |t.slots| > 0 && j < |t.slots| && t.slots[j].None? && Get(t, other).Some?
    ensures Get(Table(t.slots[j := Some(name)], t.count + 1), other) == Get(t, other)
  {
    var home, slots := Home(other, |t.slots|), t.slots[j := Some(name)];
    var r, r' := Probe(t.slots, home, Some(other), 0), Probe(slots, home, Some(other), 0);
    assert slots[Walk(home, r, |slots|)] == Some(other);
    forall k: nat | k < r
      ensures slots[Walk(home, k, |slots|)] == t.slots[Walk(home, k, |t.slots|)]
    {
      assert t.slots[Walk(home, k, |t.slots|)] != None;
    }
  }

  function AddAll(t: Table, names: seq<Name>): (r: Table)
    requires |t.slots| > 0
    ensures |r.slots| == |t.slots|
    decreases |names|
  {
    if names == [] then t else AddAll(Add(t, names[0]).0, names[1..])
  }

  /** The names whose addition was accepted. */
  function Accepted(t: Table, names: seq<Name>): set<Name>
    requires |t.slots| > 0
    decreases |names|
  {
    if names == [] then {}
    else (if Add(t, names[0]).1 == 0 then {names[0]} else {}) + Accepted(Add(t, names[0]).0, names[1..])
  }

  /** Over any sequence of additions the table is the set of accepted users, and a user once found
      stays in its slot. */
  lemma {:induction false} AddAllKeepsUsers(t: Table, names: seq<Name>, who: Name)
    requires Filed(t)
    ensures Filed(AddAll(t, names))
    ensures Get(AddAll(t, names), who).Some? <==> Get(t, who).Some? || who in Accepted(t, names)
    ensures Get(t, who).Some? ==> Get(AddAll(t, names), who) == Get(t, who)
    decreases |names|
  {
    if names != [] {
      AddKeepsUsers(t, names[0], who);
      AddAllKeepsUsers(Add(t, names[0]).0, names[1..], who);
    }
  }
}
