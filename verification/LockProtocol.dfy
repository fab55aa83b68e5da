/**
 All interleavings of threads acquiring and releasing per-file locks.  Each section
 under `manager_mtx` and each slot-mutex operation is one atomic step; any number of
 threads and slots.
 */
module LockProtocol {
  import opened Prelude
  import opened Probing
  import opened FileLocks

  type Tid = nat

  /** Where a thread stands: `Waiting` from lookup to the slot mutex, `Holding` while it
      owns the mutex, `Leaving` between unlocking and giving its reference back. */
  datatype Phase =
    | Idle
    | Waiting(slot: nat, path: Path)
    | Holding(slot: nat, path: Path)
    | Leaving(slot: nat, path: Path)

  datatype Locks = Locks(table: Table, owner: seq<Option<Tid>>, phases: seq<Phase>)

  datatype Action =
    | Lookup(t: Tid, path: Path)
    | Grab(t: Tid)
    | Unlock(t: Tid)
    | Drop(t: Tid)

  function Init(slots: nat, threads: nat): Locks
    requires slots > 0
  {
    Locks(EmptyTable(slots), seq(slots, _ => None), seq(threads, _ => Idle))
  }

  predicate Enabled(s: Locks, a: Action)
  {
    && a.t < |s.phases|
    && match a
       case Lookup(t, _) => s.phases[t] == Idle
       case Grab(t) => s.phases[t].Waiting? && s.phases[t].slot < |s.owner| && s.owner[s.phases[t].slot] == None
       case Unlock(t) => s.phases[t].Holding? && s.phases[t].slot < |s.owner|
       case Drop(t) => s.phases[t].Leaving? && s.phases[t].slot < |s.table|
  }

  /** One step. A lookup in a full table changes nothing: the caller gets NULL. */
  function Apply(s: Locks, a: Action): Locks
    requires Enabled(s, a)
  {
    match a
    case Lookup(t, path) =>
      (match SlotFor(s.table, path)
       case None => s
       case Some(i) => s.(table := Claimed(s.table, i, path), phases := s.phases[t := Waiting(i, path)]))
    case Grab(t) =>
      var w := s.phases[t];
      s.(owner := s.owner[w.slot := Some(t)], phases := s.phases[t := Holding(w.slot, w.path)])
    case Unlock(t) =>
      var h := s.phases[t];
      s.(owner := s.owner[h.slot := None], phases := s.phases[t := Leaving(h.slot, h.path)])
    case Drop(t) =>
      s.(table := Dropped(s.table, s.phases[t].slot), phases := s.phases[t := Idle])
  }

  predicate Valid(s: Locks, acts: seq<Action>)
    decreases |acts|
  {
    acts == [] || (Enabled(s, acts[0]) && Valid(Apply(s, acts[0]), acts[1..]))
  }

  function Final(s: Locks, acts: seq<Action>): Locks
    requires Valid(s, acts)
    decreases |acts|
  {
    if acts == [] then s else Final(Apply(s, acts[0]), acts[1..])
  }

  // ---------------------------------------------------------------- reference counts

  predicate At(p: Phase, i: nat)
  {
    !p.Idle? && p.slot == i
  }

  /** How many threads are between lookup and release on slot `i`. */
  function Users(phases: seq<Phase>, i: nat): (count: nat)
    ensures count <= |phases|
  {
    if phases == [] then 0
    else Users(phases[..|phases| - 1], i) + (if At(phases[|phases| - 1], i) then 1 else 0)
  }

  ghost predicate SlotOk(s: Locks, i: nat)
    requires i < |s.table| == |s.owner|
  {
    && s.table[i].refCount == Users(s.phases, i)
    && (s.table[i].inUse <==> s.table[i].refCount > 0)
    && (s.owner[i].Some? ==> s.owner[i].value < |s.phases| && s.phases[s.owner[i].value].Holding?
                             && s.phases[s.owner[i].value].slot == i)
  }

  ghost predicate ThreadOk(s: Locks, t: Tid)
    requires t < |s.phases| && |s.table| == |s.owner|
  {
    var p := s.phases[t];
    !p.Idle? ==>
      && p.slot < |s.table|
      && s.table[p.slot].inUse
      && s.table[p.slot].filepath == p.path
      && (p.Holding? ==> s.owner[p.slot] == Some(t))
  }

  /** What every run keeps, whatever the paths hash to. */
  ghost predicate Inv(s: Locks)
  {
    && |s.table| == |s.owner|
    && (forall i: nat :: i < |s.table| ==> SlotOk(s, i))
    && (forall t: Tid :: t < |s.phases| ==> ThreadOk(s, t))
  }

  /** Moving one thread changes the user counts of at most two slots. */
  lemma {:induction false} UsersAfterMove(phases: seq<Phase>, t: Tid, p: Phase, i: nat)
    requires t < |phases|
    ensures Users(phases[t := p], i) ==
            Users(phases, i) - (if At(phases[t], i) then 1 else 0) + (if At(p, i) then 1 else 0)
  {
    var n := |phases| - 1;
    if t == n {
      assert phases[t := p][..n] == phases[..n];
    } else {
      assert phases[t := p][..n] == phases[..n][t := p];
      UsersAfterMove(phases[..n], t, p, i);
    }
  }

  lemma {:induction false} NoUsers(n: nat, i: nat)
    ensures Users(seq(n, _ => Idle), i) == 0
  {
    if n > 0 {
      assert seq(n, _ => Idle)[..n - 1] == seq(n - 1, _ => Idle);
      NoUsers(n - 1, i);
    }
  }

  lemma InitOk(slots: nat, threads: nat)
    requires slots > 0
    ensures Inv(Init(slots, threads)) && HomeOnly(Init(slots, threads).table)
  {
    var s := Init(slots, threads);
    forall i: nat | i < |s.table| ensures SlotOk(s, i) {
      NoUsers(threads, i);
    }
    assert forall t: Tid :: t < |s.phases| ==> ThreadOk(s, t);
  }

  /** Refcount safety of one step: counts, occupancy, keys and mutex ownership agree. */
  lemma StepKeepsInv(s: Locks, a: Action)
    requires Inv(s) && Enabled(s, a)
    ensures Inv(Apply(s, a))
  {
    var s', t := Apply(s, a), a.t;
    assert ThreadOk(s, t);
    if s' != s {
      forall i: nat | i < |s.table| ensures SlotOk(s', i) {
        assert SlotOk(s, i);
        UsersAfterMove(s.phases, t, s'.phases[t], i);
      }
      forall u: Tid | u < |s.phases| ensures ThreadOk(s', u) {
        assert ThreadOk(s, u);
        if a.Drop? && u != t && !s.phases[u].Idle? && s.phases[u].slot == s.phases[t].slot {
          OthersKeepTheSlot(s, t, u);
        }
      }
    }
  }

  /** A second user of a slot keeps its count above one. */
  lemma OthersKeepTheSlot(s: Locks, t: Tid, u: Tid)
    requires Inv(s) && t < |s.phases| && u < |s.phases| && t != u
    requires !s.phases[t].Idle? && !s.phases[u].Idle? && s.phases[u].slot == s.phases[t].slot
    ensures s.phases[t].slot < |s.table| && s.table[s.phases[t].slot].refCount >= 2
  {
    assert ThreadOk(s, t);
    var i := s.phases[t].slot;
    assert SlotOk(s, i);
    UsersAfterMove(s.phases, t, Idle, i);
    UsersAfterMove(s.phases[t := Idle], u, Idle, i);
  }

  /** Refcount safety over all runs, with no assumption on how paths hash. */
  lemma {:induction false} RunsKeepInv(s: Locks, acts: seq<Action>)
    requires Inv(s) && Valid(s, acts)
    ensures Inv(Final(s, acts))
    decreases |acts|
  {
    if acts != [] {
      StepKeepsInv(s, acts[0]);
      RunsKeepInv(Apply(s, acts[0]), acts[1..]);
    }
  }

  /** What refcounting is for: thread `t` is between lookup and release in `s`, `s'` is a next state. */
  ghost predicate SlotKept(s: Locks, s': Locks, t: Tid)
    requires t < |s.phases| && !s.phases[t].Idle?
  {
    var i := s.phases[t].slot;
    && i < |s.table| == |s'.table|
    && s.table[i].refCount == Users(s.phases, i) >= 1
    && s'.table[i].inUse
    && s'.table[i].filepath == s.table[i].filepath == s.phases[t].path
  }

  ghost predicate OneHolderPerSlot(s: Locks)
  {
    forall t: Tid, u: Tid :: t < u < |s.phases| && s.phases[t].Holding? && s.phases[u].Holding? ==>
      s.phases[t].slot != s.phases[u].slot
  }

  lemma StepKeepsSlot(s: Locks, a: Action, t: Tid)
    requires Inv(s) && Enabled(s, a)
    requires t < |s.phases| && !s.phases[t].Idle? && !(a.Drop? && a.t == t)
    ensures SlotKept(s, Apply(s, a), t)
  {
    StepKeepsInv(s, a);
    assert ThreadOk(s, t) && ThreadOk(Apply(s, a), t) && SlotOk(s, s.phases[t].slot);
  }

  lemma InvGivesOneHolder(s: Locks)
    requires Inv(s)
    ensures OneHolderPerSlot(s)
  {
    forall t: Tid, u: Tid | t < u < |s.phases| && s.phases[t].Holding? && s.phases[u].Holding?
      ensures s.phases[t].slot != s.phases[u].slot
    {
      assert ThreadOk(s, t) && ThreadOk(s, u);
    }
  }

  /** In every reachable state and for every next step, a slot some thread waits on or holds
      stays allocated and keeps its key, its count is the number of its users, and no slot
      has two holders. */
  lemma SlotNeverFreedUnderUser(slots: nat, threads: nat, acts: seq<Action>, a: Action, t: Tid)
    requires slots > 0 && Valid(Init(slots, threads), acts)
    requires Enabled(Final(Init(slots, threads), acts), a)
    requires t < |Final(Init(slots, threads), acts).phases|
    requires !Final(Init(slots, threads), acts).phases[t].Idle? && !(a.Drop? && a.t == t)
    ensures OneHolderPerSlot(Final(Init(slots, threads), acts))
    ensures SlotKept(Final(Init(slots, threads), acts), Apply(Final(Init(slots, threads), acts), a), t)
  {
    InitOk(slots, threads);
    RunsKeepInv(Init(slots, threads), acts);
    InvGivesOneHolder(Final(Init(slots, threads), acts));
    StepKeepsSlot(Final(Init(slots, threads), acts), a, t);
  }

  // ---------------------------------------------------------------- per-path exclusion

  /** No two threads hold locks for the same path. */
  ghost predicate Exclusive(s: Locks)
  {
    forall t: Tid, u: Tid :: t < u < |s.phases| && s.phases[t].Holding? && s.phases[u].Holding? ==>
      s.phases[t].path != s.phases[u].path
  }

  /** Every live path sits in its home slot, hence in exactly one slot. */
  ghost predicate HomeOnly(t: Table)
  {
    forall i: nat :: i < |t| && t[i].inUse ==> Home(t[i].filepath, |t|) == i
  }

  /** The step looks up no path whose home slot is taken by a different live path. */
  ghost predicate Separated(s: Locks, a: Action)
  {
    a.Lookup? ==> forall i: nat :: i < |s.table| && s.table[i].inUse && s.table[i].filepath != a.path ==>
      Home(s.table[i].filepath, |s.table|) != Home(a.path, |s.table|)
  }

  ghost predicate SeparatedRun(s: Locks, acts: seq<Action>)
    requires Valid(s, acts)
    decreases |acts|
  {
    acts == [] || (Separated(s, acts[0]) && SeparatedRun(Apply(s, acts[0]), acts[1..]))
  }

  lemma StepKeepsHomeOnly(s: Locks, a: Action)
    requires Enabled(s, a) && HomeOnly(s.table) && Separated(s, a)
    ensures HomeOnly(Apply(s, a).table)
    ensures a.Lookup? ==> SlotFor(s.table, a.path) == Some(Home(a.path, |s.table|))
  {
    if a.Lookup? {
      var home := Home(a.path, |s.table|);
      assert Walk(home, 0, |s.table|) == home;
      assert Probe(Keys(s.table), home, Some(a.path), 0) == 0;
    }
  }

  lemma HomeOnlyExcludes(s: Locks)
    requires Inv(s) && HomeOnly(s.table)
    ensures Exclusive(s)
  {
    forall t: Tid, u: Tid | t < u < |s.phases| && s.phases[t].Holding? && s.phases[u].Holding?
      ensures s.phases[t].path != s.phases[u].path
    {
      assert ThreadOk(s, t) && ThreadOk(s, u);
    }
  }

  /** Paths live at the same time have distinct homes: then locks exclude per path. */
  lemma {:induction false} SeparatedRunsExclude(s: Locks, acts: seq<Action>)
    requires Inv(s) && HomeOnly(s.table) && Valid(s, acts) && SeparatedRun(s, acts)
    ensures Exclusive(Final(s, acts)) && HomeOnly(Final(s, acts).table)
    decreases |acts|
  {
    if acts == [] {
      HomeOnlyExcludes(s);
    } else {
      StepKeepsInv(s, acts[0]);
      StepKeepsHomeOnly(s, acts[0]);
      SeparatedRunsExclude(Apply(s, acts[0]), acts[1..]);
    }
  }

  predicate Uses(acts: seq<Action>, paths: set<Path>)
  {
    forall k :: 0 <= k < |acts| && acts[k].Lookup? ==> acts[k].path in paths
  }

  ghost predicate DistinctHomes(paths: set<Path>, slots: nat)
    requires slots > 0
  {
    forall p, q :: p in paths && q in paths && p != q ==> Home(p, slots) != Home(q, slots)
  }

  /** Every run over `paths` keeps per-path exclusion. */
  ghost predicate AlwaysExclusive(slots: nat, threads: nat, paths: set<Path>)
    requires slots > 0
  {
    forall acts :: Valid(Init(slots, threads), acts) && Uses(acts, paths) ==>
      Exclusive(Final(Init(slots, threads), acts))
  }

  ghost predicate LiveIn(t: Table, paths: set<Path>)
  {
    forall i: nat :: i < |t| && t[i].inUse ==> t[i].filepath in paths
  }

  lemma {:induction false} DistinctHomesSeparate(s: Locks, acts: seq<Action>, paths: set<Path>)
    requires Valid(s, acts) && Uses(acts, paths) && LiveIn(s.table, paths) && DistinctHomes(paths, |s.table|)
    ensures SeparatedRun(s, acts)
    decreases |acts|
  {
    if acts != [] {
      var s' := Apply(s, acts[0]);
      assert Uses(acts[1..], paths) by {
        assert forall k :: 0 <= k < |acts| - 1 ==> acts[1..][k] == acts[k + 1];
      }
      assert Separated(s, acts[0]);
      DistinctHomesSeparate(s', acts[1..], paths);
    }
  }

  function Acquire(t: Tid, path: Path): seq<Action>
  {
    [Lookup(t, path), Grab(t)]
  }

  function Release(t: Tid): seq<Action>
  {
    [Unlock(t), Drop(t)]
  }

  lemma {:induction false} RunsCompose(s: Locks, a: seq<Action>, b: seq<Action>)
    requires Valid(s, a) && Valid(Final(s, a), b)
    ensures Valid(s, a + b) && Final(s, a + b) == Final(Final(s, a), b)
    decreases |a|
  {
    if a == [] {
      assert a + b == b;
    } else {
      assert (a + b)[1..] == a[1..] + b;
      RunsCompose(Apply(s, a[0]), a[1..], b);
    }
  }

  /** Two steps in a row. */
  lemma RunTwo(s: Locks, a: Action, b: Action)
    requires Enabled(s, a) && Enabled(Apply(s, a), b)
    ensures Valid(s, [a, b]) && Final(s, [a, b]) == Apply(Apply(s, a), b)
  {
    var s' := Apply(s, a);
    RunOne(s', b);
    assert [a, b][1..] == [b];
  }

  lemma RunOne(s: Locks, a: Action)
    requires Enabled(s, a)
    ensures Valid(s, [a]) && Final(s, [a]) == Apply(s, a)
  {
    assert [a][1..] == [];
  }

  /** Acquiring through a free slot. */
  lemma AcquireFreeSlot(s: Locks, t: Tid, path: Path, i: nat)
    requires t < |s.phases| && s.phases[t] == Idle && i < |s.table| == |s.owner|
    requires SlotFor(s.table, path) == Some(i) && !s.table[i].inUse && s.owner[i] == None
    ensures Valid(s, Acquire(t, path))
    ensures Final(s, Acquire(t, path)) ==
            Locks(s.table[i := LockSlot(path, 1, true)], s.owner[i := Some(t)], s.phases[t := Holding(i, path)])
  {
    RunTwo(s, Lookup(t, path), Grab(t));
    assert s.phases[t := Waiting(i, path)][t := Holding(i, path)] == s.phases[t := Holding(i, path)];
  }

  /** Releasing the only reference. */
  lemma ReleaseLastReference(s: Locks, t: Tid)
    requires t < |s.phases| && s.phases[t].Holding? && s.phases[t].slot < |s.table| == |s.owner|
    requires s.table[s.phases[t].slot].refCount == 1
    ensures Valid(s, Release(t))
    ensures var i := s.phases[t].slot;
            Final(s, Release(t)) ==
            Locks(s.table[i := LockSlot([], 0, false)], s.owner[i := None], s.phases[t := Idle])
  {
    RunTwo(s, Unlock(t), Drop(t));
    var i := s.phases[t].slot;
    assert s.phases[t := Leaving(i, s.phases[t].path)][t := Idle] == s.phases[t := Idle];
  }

  /** The failing trace: `q` collides with `p`, `p` is released, `q` is looked up again and
      gets a second slot while the first one is still held. */
  function TwoSlotsTrace(p: Path, q: Path): seq<Action>
  {
    Acquire(0, p) + (Acquire(1, q) + (Release(0) + Acquire(0, q)))
  }

  lemma CollisionBreaksExclusion(slots: nat, threads: nat, p: Path, q: Path)
    requires slots >= 2 && threads >= 2 && p != q && Home(p, slots) == Home(q, slots)
    ensures Valid(Init(slots, threads), TwoSlotsTrace(p, q))
    ensures var s := Final(Init(slots, threads), TwoSlotsTrace(p, q));
            && |s.phases| == threads
            && s.phases[0].Holding? && s.phases[1].Holding?
            && s.phases[0].path == s.phases[1].path == q
            && s.phases[0].slot != s.phases[1].slot
  {
    var h := Home(p, slots);
    var h' := Walk(h, 1, slots);
    var s0 := Init(slots, threads);
    TakesSlot(s0.table, p, 0);
    AcquireFreeSlot(s0, 0, p, h);
    var s1 := Final(s0, Acquire(0, p));
    TakesSlot(s1.table, q, 1);
    AcquireFreeSlot(s1, 1, q, h');
    var s2 := Final(s1, Acquire(1, q));
    ReleaseLastReference(s2, 0);
    var s3 := Final(s2, Release(0));
    TakesSlot(s3.table, q, 0);
    AcquireFreeSlot(s3, 0, q, h);
    RunsCompose(s2, Release(0), Acquire(0, q));
    RunsCompose(s1, Acquire(1, q), Release(0) + Acquire(0, q));
    RunsCompose(s0, Acquire(0, p), Acquire(1, q) + (Release(0) + Acquire(0, q)));
  }

  /** Probing for `path` stops at step `d` (0 or 1) when exactly the steps before it are
      taken by other paths. */
  lemma TakesSlot(t: Table, path: Path, d: nat)
    requires d <= 1 && d < |t|
    requires !t[Walk(Home(path, |t|), d, |t|)].inUse
    requires d == 1 ==> t[Home(path, |t|)].inUse && t[Home(path, |t|)].filepath != path
    ensures SlotFor(t, path) == Some(Walk(Home(path, |t|), d, |t|))
  {
    var home := Home(path, |t|);
    assert Walk(home, 0, |t|) == home;
    assert Probe(Keys(t), home, Some(path), 1) == 1 || d == 0;
  }

  /** Exactly when locks exclude per path: with two threads and two slots or more, every run
      over a set of paths is safe if and only if those paths have pairwise distinct homes. */
  lemma ExclusiveIffDistinctHomes(slots: nat, threads: nat, paths: set<Path>)
    requires slots >= 2 && threads >= 2
    ensures AlwaysExclusive(slots, threads, paths) <==> DistinctHomes(paths, slots)
  {
    var s0 := Init(slots, threads);
    InitOk(slots, threads);
    if DistinctHomes(paths, slots) {
      forall acts | Valid(s0, acts) && Uses(acts, paths) ensures Exclusive(Final(s0, acts)) {
        DistinctHomesSeparate(s0, acts, paths);
        SeparatedRunsExclude(s0, acts);
      }
    } else {
      var p, q :| p in paths && q in paths && p != q && Home(p, slots) == Home(q, slots);
      CollisionBreaksExclusion(slots, threads, p, q);
      var bad := TwoSlotsTrace(p, q);
      assert Valid(s0, bad) && Uses(bad, paths);
      assert !Exclusive(Final(s0, bad));
    }
  }

  /** Two file names of one user that collide in the real table: "u/aB" and "u/b!". */
  lemma RealCollision()
    ensures var p, q := LockKey([117], [97, 66]), LockKey([117], [98, 33]);
            p != q && Home(p, MAX_FILE_LOCKS) == Home(q, MAX_FILE_LOCKS)
  {
    var p, q := LockKey([117], [97, 66]), LockKey([117], [98, 33]);
    assert p == [117, SLASH, 97, 66] && q == [117, SLASH, 98, 33];
    HashOfTwoMore([117, SLASH], 97, 66);
    HashOfTwoMore([117, SLASH], 98, 33);
    assert [117, SLASH] + [97, 66] == p && [117, SLASH] + [98, 33] == q;
  }

  lemma HashOfTwoMore(s: Path, b: byte, c: byte)
    ensures HashOf(s + [b, c]) == (HashOf(s) * 1089 + SignedChar(b) * 33 + SignedChar(c)) % TWO_32
  {
    assert (s + [b, c])[..|s| + 1] == s + [b];
    assert (s + [b])[..|s|] == s;
    TwoRounds(HashOf(s), SignedChar(b), SignedChar(c));
  }

  lemma TwoRounds(h: nat, b: int, c: int)
    ensures (((h * 33 + b) % TWO_32) * 33 + c) % TWO_32 == (h * 1089 + b * 33 + c) % TWO_32
  {
  }

  // ---------------------------------------------------------------- the table never fills

  /** Enough slots for the threads: a lookup by an idle thread always gets a slot. */
  lemma LookupSucceeds(s: Locks, t: Tid, path: Path)
    requires Inv(s) && t < |s.phases| <= |s.table| && s.phases[t] == Idle
    ensures SlotFor(s.table, path).Some?
  {
    if SlotFor(s.table, path).None? {
      var home := Home(path, |s.table|);
      forall i: nat | i < |s.table| ensures s.table[i].inUse {
        var d := Distance(home, i, |s.table|);
        assert Keys(s.table)[Walk(home, d, |s.table|)] != None;
      }
      AllSlotsUsed(s, |s.table|);
      SomeoneIdle(s.phases, t, |s.table|);
    }
  }

  /** How many threads are on some slot below `k`. */
  function Busy(phases: seq<Phase>, k: nat): (count: nat)
    ensures count <= |phases|
  {
    if phases == [] then 0
    else
      var p := phases[|phases| - 1];
      Busy(phases[..|phases| - 1], k) + (if !p.Idle? && p.slot < k then 1 else 0)
  }

  lemma {:induction false} BusyBySlot(phases: seq<Phase>, k: nat)
    ensures Busy(phases, k + 1) == Busy(phases, k) + Users(phases, k)
  {
    if phases != [] {
      BusyBySlot(phases[..|phases| - 1], k);
    }
  }

  lemma {:induction false} AllSlotsUsed(s: Locks, k: nat)
    requires Inv(s) && k <= |s.table| && forall i: nat :: i < k ==> s.table[i].inUse
    ensures Busy(s.phases, k) >= k
  {
    if k > 0 {
      AllSlotsUsed(s, k - 1);
      BusyBySlot(s.phases, k - 1);
      assert SlotOk(s, k - 1);
    }
  }

  lemma {:induction false} SomeoneIdle(phases: seq<Phase>, t: Tid, k: nat)
    requires t < |phases| && phases[t] == Idle
    ensures Busy(phases, k) < |phases|
  {
    if t < |phases| - 1 {
      SomeoneIdle(phases[..|phases| - 1], t, k);
    }
  }
}
