/**
 The session table of src/session/session_manager.c: ids from a 64-bit counter, home slot
 `id % MAX_SESSIONS`, linear probing, and deletion by clearing the slot.  `SessionTable`
 gives the operations on values and proves when they behave as a map from ids to sessions;
 `SessionManager` holds the objects the source updates in place.
 */
module SessionTable {
  import opened Prelude
  import opened Probing

  datatype Entry = Entry(id: nat, fd: int, active: bool)

  datatype Manager = Manager(slots: seq<Option<Entry>>, nextId: nat, total: nat, count: nat, peak: nat)

  /** What `calloc` and the pthread initialisers may do during a creation. */
  datatype Resources = Available | NoMemory | NoPrimitives

  function EmptyManager(n: nat): Manager
  {
    Manager(seq(n, _ => None), 1, 0, 0, 0)
  }

  function Ids(slots: seq<Option<Entry>>): (ids: seq<Option<nat>>)
    ensures |ids| == |slots|
    ensures forall i :: 0 <= i < |slots| ==> ids[i] == if slots[i].Some? then Some(slots[i].value.id) else None
  {
    seq(|slots|, i requires 0 <= i < |slots| => if slots[i].Some? then Some(slots[i].value.id) else None)
  }

  /** `session_create`; id 0 reports failure. A failed creation may still consume an id. */
  function Create(m: Manager, fd: int, res: Resources): (Manager, nat)
    requires |m.slots| > 0
  {
    if fd < 0 || res.NoMemory? then (m, 0)
    else
      var id := m.nextId;
      var m' := m.(nextId := (id + 1) % TWO_64);
      var home := id % |m.slots|;
      var r := Probe(Ids(m.slots), home, None, 0);
      if r == |m.slots| || res.NoPrimitives? then (m', 0)
      else
        var count := m.count + 1;
        (m'.(slots := m.slots[Walk(home, r, |m.slots|) := Some(Entry(id, fd, true))],
             total := m.total + 1, count := count, peak := if count > m.peak then count else m.peak), id)
  }

  /** The slot where the search loop finds `id`. */
  function Find(m: Manager, id: nat): (slot: Option<nat>)
    requires |m.slots| > 0
    ensures slot.Some? ==> slot.value < |m.slots| && m.slots[slot.value].Some? && m.slots[slot.value].value.id == id
  {
    if id == 0 then None
    else
      var home := id % |m.slots|;
      var r := Probe(Ids(m.slots), home, Some(id), 0);
      if r < |m.slots| && m.slots[Walk(home, r, |m.slots|)].Some? then Some(Walk(home, r, |m.slots|)) else None
  }

  /** `session_get` hands out active sessions only. */
  function Get(m: Manager, id: nat): Option<Entry>
    requires |m.slots| > 0
  {
    var slot := Find(m, id);
    if slot.Some? && m.slots[slot.value].value.active then m.slots[slot.value] else None
  }

  function MarkInactive(m: Manager, id: nat): Manager
    requires |m.slots| > 0
  {
    var slot := Find(m, id);
    if slot.None? then m
    else m.(slots := m.slots[slot.value := Some(m.slots[slot.value].value.(active := false))])
  }

  function Destroy(m: Manager, id: nat): Manager
    requires |m.slots| > 0
  {
    var slot := Find(m, id);
    if slot.None? then m
    else m.(slots := m.slots[slot.value := None], count := if m.count > 0 then m.count - 1 else 0)
  }

  // ---------------------------------------------------------------- operation sequences

  datatype Op = CreateOp(fd: int, res: Resources) | GetOp(id: nat) | InactiveOp(id: nat) | DestroyOp(id: nat)

  datatype Reply = NewId(id: nat) | Found(entry: Option<Entry>) | Done

  function Step(m: Manager, op: Op): (Manager, Reply)
    requires |m.slots| > 0
  {
    match op
    case CreateOp(fd, res) => var (m', id) := Create(m, fd, res); (m', NewId(id))
    case GetOp(id) => (m, Found(Get(m, id)))
    case InactiveOp(id) => (MarkInactive(m, id), Done)
    case DestroyOp(id) => (Destroy(m, id), Done)
  }

  function Run(m: Manager, ops: seq<Op>): (Manager, seq<Reply>)
    requires |m.slots| > 0
    ensures |Run(m, ops).0.slots| == |m.slots|
    decreases |ops|
  {
    if ops == [] then (m, [])
    else
      var (m', reply) := Step(m, ops[0]);
      var (m'', replies) := Run(m', ops[1..]);
      (m'', [reply] + replies)
  }

  // ---------------------------------------------------------------- bookkeeping

  function Occupied(slots: seq<Option<Entry>>): nat
  {
    if slots == [] then 0
    else Occupied(slots[..|slots| - 1]) + (if slots[|slots| - 1].Some? then 1 else 0)
  }

  lemma {:induction false} OccupiedAfterUpdate(slots: seq<Option<Entry>>, i: nat, e: Option<Entry>)
    requires i < |slots|
    ensures Occupied(slots[i := e]) ==
            Occupied(slots) - (if slots[i].Some? then 1 else 0) + (if e.Some? then 1 else 0)
  {
    var n := |slots| - 1;
    if i == n {
      assert slots[i := e][..n] == slots[..n];
    } else {
      assert slots[i := e][..n] == slots[..n][i := e];
      OccupiedAfterUpdate(slots[..n], i, e);
    }
  }

  lemma {:induction false} OccupiedEmpty(n: nat)
    ensures Occupied(seq(n, _ => None)) == 0
  {
    if n > 0 {
      assert seq(n, _ => None)[..n - 1] == seq<Option<Entry>>(n - 1, _ => None);
      OccupiedEmpty(n - 1);
    }
  }

  lemma {:induction false} OccupiedAtMostLength(slots: seq<Option<Entry>>)
    ensures Occupied(slots) <= |slots|
    ensures Occupied(slots) == |slots| <==> forall i :: 0 <= i < |slots| ==> slots[i].Some?
  {
    if slots != [] {
      var front := slots[..|slots| - 1];
      OccupiedAtMostLength(front);
      assert forall i :: 0 <= i < |front| ==> slots[i] == front[i];
    }
  }

  /** Kept by every operation: ids are unique and already issued, and the statistics are right.
      Holds while the id counter has not wrapped. */
  ghost predicate Coherent(m: Manager)
  {
    && |m.slots| > 0
    && UniqueKeys(Ids(m.slots))
    && (forall i :: 0 <= i < |m.slots| && m.slots[i].Some? ==> 0 < m.slots[i].value.id < m.nextId)
    && m.count == Occupied(m.slots) <= m.peak
    && 0 < m.nextId
  }

  lemma EmptyIsCoherent(n: nat)
    requires n > 0
    ensures Coherent(EmptyManager(n)) && AllHome(EmptyManager(n))
  {
    OccupiedEmpty(n);
  }

  lemma InsertKeepsCoherent(m: Manager, j: nat, fd: int)
    requires Coherent(m) && j < |m.slots| && m.slots[j].None?
    ensures var slots := m.slots[j := Some(Entry(m.nextId, fd, true))];
            Coherent(m.(slots := slots, nextId := m.nextId + 1, count := m.count + 1,
                        peak := if m.count + 1 > m.peak then m.count + 1 else m.peak))
  {
    OccupiedAfterUpdate(m.slots, j, Some(Entry(m.nextId, fd, true)));
  }

  lemma EntryUpdateKeepsCoherent(m: Manager, j: nat, e: Entry)
    requires Coherent(m) && j < |m.slots| && m.slots[j].Some? && m.slots[j].value.id == e.id
    ensures Coherent(m.(slots := m.slots[j := Some(e)]))
  {
    OccupiedAfterUpdate(m.slots, j, Some(e));
    assert Ids(m.slots[j := Some(e)]) == Ids(m.slots);
  }

  lemma RemoveKeepsCoherent(m: Manager, j: nat)
    requires Coherent(m) && j < |m.slots| && m.slots[j].Some?
    ensures m.count > 0
    ensures Coherent(m.(slots := m.slots[j := None], count := m.count - 1))
  {
    OccupiedAfterUpdate(m.slots, j, None);
  }

  lemma CreateKeepsCoherent(m: Manager, fd: int, res: Resources)
    requires Coherent(m) && m.nextId + 1 < TWO_64
    ensures Coherent(Create(m, fd, res).0)
    ensures m.nextId <= Create(m, fd, res).0.nextId <= m.nextId + 1
  {
    var m' := Create(m, fd, res).0;
    var slot := CreateOutcomes(m, fd, res);
    if slot.Some? {
      var j := slot.value;
      InsertKeepsCoherent(m, j, fd);
      var inserted := m.(slots := m.slots[j := Some(Entry(m.nextId, fd, true))], nextId := m.nextId + 1,
                         count := m.count + 1, peak := if m.count + 1 > m.peak then m.count + 1 else m.peak);
      assert m' == inserted.(total := m.total + 1);
      SameButTotal(inserted, m');
    }
  }

  lemma SameButTotal(m: Manager, m': Manager)
    requires Coherent(m) && m' == m.(total := m'.total)
    ensures Coherent(m')
  {
  }

  /** What a creation can do: nothing, consume an id, or fill a free slot. */
  lemma CreateOutcomes(m: Manager, fd: int, res: Resources) returns (slot: Option<nat>)
    requires |m.slots| > 0 && m.nextId + 1 < TWO_64
    ensures slot.None? ==> Create(m, fd, res).0 == m || Create(m, fd, res).0 == m.(nextId := m.nextId + 1)
    ensures slot.Some? ==> slot.value < |m.slots| && m.slots[slot.value].None?
    ensures slot.Some? ==>
              Create(m, fd, res).0 ==
              m.(slots := m.slots[slot.value := Some(Entry(m.nextId, fd, true))], nextId := m.nextId + 1,
                 total := m.total + 1, count := m.count + 1,
                 peak := if m.count + 1 > m.peak then m.count + 1 else m.peak)
  {
    slot := None;
    var home := m.nextId % |m.slots|;
    var r := Probe(Ids(m.slots), home, None, 0);
    if fd >= 0 && res.Available? && r < |m.slots| {
      var j := Walk(home, r, |m.slots|);
      assert Ids(m.slots)[j] == None;
      slot := Some(j);
    }
  }

  lemma StepKeepsCoherent(m: Manager, op: Op)
    requires Coherent(m) && m.nextId + 1 < TWO_64
    ensures Coherent(Step(m, op).0)
    ensures m.nextId <= Step(m, op).0.nextId <= m.nextId + 1
  {
    match op {
      case CreateOp(fd, res) =>
        CreateKeepsCoherent(m, fd, res);
      case GetOp(_) =>
      case InactiveOp(id) =>
        var slot := Find(m, id);
        if slot.Some? {
          EntryUpdateKeepsCoherent(m, slot.value, m.slots[slot.value].value.(active := false));
        }
      case DestroyOp(id) =>
        var slot := Find(m, id);
        if slot.Some? {
          RemoveKeepsCoherent(m, slot.value);
        }
    }
  }

  /** Over any sequence of operations the ids stay unique, the active count is the number of
      occupied slots, and the peak is never below it. */
  lemma {:induction false} RunKeepsCoherent(m: Manager, ops: seq<Op>)
    requires Coherent(m) && m.nextId + |ops| < TWO_64
    ensures Coherent(Run(m, ops).0)
    ensures Run(m, ops).0.count == Occupied(Run(m, ops).0.slots) <= Run(m, ops).0.peak
    decreases |ops|
  {
    if ops != [] {
      StepKeepsCoherent(m, ops[0]);
      RunKeepsCoherent(Step(m, ops[0]).0, ops[1..]);
    }
  }

  /** Creation reports a full table exactly when every slot is occupied. */
  lemma FullIffNoFreeSlot(m: Manager, fd: int)
    requires Coherent(m) && fd >= 0
    ensures Create(m, fd, Available).1 == 0 <==> m.count == |m.slots|
  {
    OccupiedAtMostLength(m.slots);
    var home := m.nextId % |m.slots|;
    var r := Probe(Ids(m.slots), home, None, 0);
    if r == |m.slots| {
      forall i: nat | i < |m.slots| ensures m.slots[i].Some? {
        assert Ids(m.slots)[Walk(home, Distance(home, i, |m.slots|), |m.slots|)] != None;
      }
    } else {
      assert m.slots[Walk(home, r, |m.slots|)].None?;
    }
  }

  /** When a creation succeeds, and when it consumes an id: a failure behind the allocation wastes
      one. */
  lemma CreateCodes(m: Manager, fd: int, res: Resources)
    requires Coherent(m) && m.nextId < TWO_64
    ensures var (m', id) := Create(m, fd, res);
            && (id != 0 <==> fd >= 0 && res.Available? && m.count < |m.slots|)
            && (id != 0 ==> id == m.nextId)
            && m'.nextId == (if fd < 0 || res.NoMemory? then m.nextId
                             else if m.nextId == TWO_64 - 1 then 0 else m.nextId + 1)
            && m'.count == m.count + (if id != 0 then 1 else 0)
  {
    OccupiedAtMostLength(m.slots);
    if fd >= 0 {
      FullIffNoFreeSlot(m, fd);
    }
  }

  /** Successful creations among the replies. */
  function Created(replies: seq<Reply>): nat
  {
    if replies == [] then 0
    else (if replies[0].NewId? && replies[0].id != 0 then 1 else 0) + Created(replies[1..])
  }

  /** The largest number of sessions stored at any time. */
  function HighWater(m: Manager, ops: seq<Op>): nat
    requires |m.slots| > 0
    decreases |ops|
  {
    if ops == [] then m.count
    else
      var later := HighWater(Step(m, ops[0]).0, ops[1..]);
      if later > m.count then later else m.count
  }

  /** Over any operations the total counts the creations that succeeded, and the peak is the
      largest number of sessions there ever were. */
  lemma {:induction false} RunCounters(m: Manager, ops: seq<Op>)
    requires Coherent(m) && m.nextId + |ops| < TWO_64
    ensures Run(m, ops).0.total == m.total + Created(Run(m, ops).1)
    ensures Run(m, ops).0.peak == if HighWater(m, ops) > m.peak then HighWater(m, ops) else m.peak
    decreases |ops|
  {
    if ops != [] {
      StepKeepsCoherent(m, ops[0]);
      StepCounters(m, ops[0]);
      RunCounters(Step(m, ops[0]).0, ops[1..]);
      var reply, replies := Step(m, ops[0]).1, Run(Step(m, ops[0]).0, ops[1..]).1;
      assert ([reply] + replies)[1..] == replies;
    }
  }

  lemma StepCounters(m: Manager, op: Op)
    requires Coherent(m) && m.nextId + 1 < TWO_64
    ensures var (m', reply) := Step(m, op);
            && m'.total == m.total + (if reply.NewId? && reply.id != 0 then 1 else 0)
            && m'.peak == if m'.count > m.peak then m'.count else m.peak
  {
    if op.CreateOp? && op.fd >= 0 {
      CreateCodes(m, op.fd, op.res);
    }
  }

  // ---------------------------------------------------------------- exact findability

  ghost predicate Findable(m: Manager, i: nat)
    requires i < |m.slots| && m.slots[i].Some?
  {
    Reachable(Ids(m.slots), m.slots[i].value.id % |m.slots|, i)
  }

  /** A stored session is found exactly when every slot from its home to it is occupied. */
  lemma FoundIffFindable(m: Manager, i: nat)
    requires Coherent(m) && i < |m.slots| && m.slots[i].Some?
    ensures Find(m, m.slots[i].value.id) == Some(i) <==> Findable(m, i)
    ensures Find(m, m.slots[i].value.id) in {None, Some(i)}
    ensures Get(m, m.slots[i].value.id) == m.slots[i] <==> Findable(m, i) && m.slots[i].value.active
  {
    var id := m.slots[i].value.id;
    SearchFindsIffReachable(Ids(m.slots), id % |m.slots|, i);
    var slot := Find(m, id);
    if slot.Some? {
      var j := slot.value;
      assert Ids(m.slots)[j] == Ids(m.slots)[i];
      assert i == j;
    }
  }

  /** A new session is findable, and creating it hides no other. */
  lemma CreateKeepsFindable(m: Manager, fd: int, res: Resources, i: nat)
    requires Coherent(m) && i < |m.slots| && m.nextId + 1 < TWO_64
    requires Create(m, fd, res).0.slots[i].Some?
    requires m.slots[i].Some? ==> Findable(m, i)
    ensures Findable(Create(m, fd, res).0, i)
  {
    var (m', id) := Create(m, fd, res);
    if m'.slots != m.slots {
      var t, home := Ids(m.slots), m.nextId % |m.slots|;
      var j := Walk(home, Probe(t, home, None, 0), |t|);
      assert Ids(m'.slots) == t[j := Some(m.nextId)];
      if i == j {
        InsertedIsReachable(t, m.nextId, home);
      } else {
        InsertKeepsReachable(t, j, m.nextId, m.slots[i].value.id % |t|, i);
      }
    }
  }

  /** Destroying the session in slot `j` keeps a findable one in slot `i` findable exactly
      when `j` is not on the probe path of `i`. */
  lemma DestroyKeepsFindableIff(m: Manager, j: nat, i: nat)
    requires Coherent(m) && i < |m.slots| && j < |m.slots| && i != j
    requires m.slots[i].Some? && m.slots[j].Some? && Findable(m, i) && Findable(m, j)
    ensures Destroy(m, m.slots[j].value.id).slots == m.slots[j := None]
    ensures Findable(m.(slots := m.slots[j := None]), i) <==>
            var home := m.slots[i].value.id % |m.slots|;
            Distance(home, i, |m.slots|) < Distance(home, j, |m.slots|)
  {
    FoundIffFindable(m, j);
    var t, home := Ids(m.slots), m.slots[i].value.id % |m.slots|;
    assert Ids(m.slots[j := None]) == t[j := None];
    DeleteKeepsReachableIff(t, j, home, i);
    assert Walk(home, Distance(home, i, |t|), |t|) != Walk(home, Distance(home, j, |t|), |t|);
  }

  // ---------------------------------------------------------------- refinement of a map

  /** The plain map from ids to sessions, with the id counter. */
  datatype IdMap = IdMap(sessions: map<nat, Entry>, nextId: nat)

  function MapStep(a: IdMap, op: Op): (IdMap, Reply)
  {
    match op
    case CreateOp(fd, res) =>
      if fd < 0 || res.NoMemory? then (a, NewId(0))
      else if res.NoPrimitives? then (a.(nextId := a.nextId + 1), NewId(0))
      else (IdMap(a.sessions[a.nextId := Entry(a.nextId, fd, true)], a.nextId + 1), NewId(a.nextId))
    case GetOp(id) =>
      (a, Found(if id in a.sessions && a.sessions[id].active then Some(a.sessions[id]) else None))
    case InactiveOp(id) =>
      (if id in a.sessions then a.(sessions := a.sessions[id := a.sessions[id].(active := false)]) else a, Done)
    case DestroyOp(id) =>
      (a.(sessions := a.sessions - {id}), Done)
  }

  function MapRun(a: IdMap, ops: seq<Op>): (IdMap, seq<Reply>)
    decreases |ops|
  {
    if ops == [] then (a, [])
    else
      var (a', reply) := MapStep(a, ops[0]);
      var (a'', replies) := MapRun(a', ops[1..]);
      (a'', [reply] + replies)
  }

  /** The table holds exactly the sessions of the map. */
  ghost predicate Represents(m: Manager, a: IdMap)
  {
    && m.nextId == a.nextId
    && (forall i :: 0 <= i < |m.slots| && m.slots[i].Some? ==>
          m.slots[i].value.id in a.sessions && a.sessions[m.slots[i].value.id] == m.slots[i].value)
    && (forall id :: id in a.sessions ==> Some(a.sessions[id]) in m.slots && a.sessions[id].id == id)
  }

  /** Every session sits in its home slot. */
  ghost predicate AllHome(m: Manager)
  {
    forall i :: 0 <= i < |m.slots| && m.slots[i].Some? ==> m.slots[i].value.id % |m.slots| == i
  }

  /** Every live id is among the last `|slots| - 1` issued. */
  ghost predicate Recent(m: Manager)
  {
    forall i :: 0 <= i < |m.slots| && m.slots[i].Some? ==> m.slots[i].value.id > m.nextId - |m.slots|
  }

  /** At each creation the live ids are recent. */
  ghost predicate RecentRun(m: Manager, ops: seq<Op>)
    requires |m.slots| > 0
    decreases |ops|
  {
    ops == [] || ((ops[0].CreateOp? ==> Recent(m)) && RecentRun(Step(m, ops[0]).0, ops[1..]))
  }

  ghost predicate AllFindable(m: Manager)
  {
    forall i :: 0 <= i < |m.slots| && m.slots[i].Some? ==> Findable(m, i)
  }

  /** Lookups succeed for the ids of the map and no others. */
  ghost predicate AnswersAsMap(m: Manager, a: IdMap)
    requires |m.slots| > 0
  {
    forall id :: Find(m, id).Some? <==> id in a.sessions
  }

  /** Exactly when the table answers as a map: when no session is cut off from its home slot. */
  lemma AnswersAsMapIff(m: Manager, a: IdMap)
    requires Coherent(m) && Represents(m, a)
    ensures AnswersAsMap(m, a) <==> AllFindable(m)
  {
    forall i | 0 <= i < |m.slots| && m.slots[i].Some?
      ensures Find(m, m.slots[i].value.id).Some? <==> Findable(m, i)
      ensures m.slots[i].value.id in a.sessions
    {
      FoundIffFindable(m, i);
    }
    if AllFindable(m) {
      forall id ensures Find(m, id).Some? <==> id in a.sessions {
        if id in a.sessions {
          var i :| 0 <= i < |m.slots| && m.slots[i] == Some(a.sessions[id]);
          assert Findable(m, i);
        }
      }
    }
  }

  /** The table with slot `j` cleared. */
  function Cleared(m: Manager, j: nat): Manager
    requires j < |m.slots|
  {
    m.(slots := m.slots[j := None], count := if m.count > 0 then m.count - 1 else 0)
  }

  /** Slot `j` does not lie on the way from the home of the session in slot `i` to it. */
  predicate OffTheWay(m: Manager, i: nat, j: nat)
    requires i < |m.slots| && j < |m.slots| && m.slots[i].Some?
  {
    var home := m.slots[i].value.id % |m.slots|;
    Distance(home, i, |m.slots|) < Distance(home, j, |m.slots|)
  }

  lemma ClearedStaysFindableIff(m: Manager, j: nat, i: nat)
    requires Coherent(m) && AllFindable(m) && i < |m.slots| && j < |m.slots| && i != j
    requires m.slots[i].Some? && m.slots[j].Some?
    ensures Findable(Cleared(m, j), i) <==> OffTheWay(m, i, j)
  {
    DestroyKeepsFindableIff(m, j, i);
  }

  lemma DestroyClears(m: Manager, j: nat)
    requires Coherent(m) && j < |m.slots| && m.slots[j].Some? && Findable(m, j)
    ensures Destroy(m, m.slots[j].value.id) == Cleared(m, j)
  {
    FoundIffFindable(m, j);
  }

  /** Exactly when destroying a session keeps all others findable: when its slot lies on nobody
      else's way. */
  lemma DestroyKeepsAllFindableIff(m: Manager, j: nat)
    requires Coherent(m) && AllFindable(m) && j < |m.slots| && m.slots[j].Some?
    ensures Destroy(m, m.slots[j].value.id) == Cleared(m, j)
    ensures AllFindable(Cleared(m, j)) <==>
            forall i :: 0 <= i < |m.slots| && i != j && m.slots[i].Some? ==> OffTheWay(m, i, j)
  {
    DestroyClears(m, j);
    var m' := Cleared(m, j);
    forall i | 0 <= i < |m.slots| && i != j && m.slots[i].Some?
      ensures m'.slots[i].Some? && (Findable(m', i) <==> OffTheWay(m, i, j))
    {
      ClearedStaysFindableIff(m, j, i);
    }
  }

  /** Two ids fewer than `n` apart have different homes. */
  lemma CloseIdsDiffer(a: nat, b: nat, n: nat)
    requires n > 0 && a < b < a + n
    ensures a % n != b % n
  {
    var qa, qb := a / n, b / n;
    assert a == n * qa + a % n && b == n * qb + b % n;
    if qa < qb {
      MultipleGap(n, qa, qb);
    } else {
      MultipleGap(n, qb, qa + 1);
    }
  }

  lemma MultipleGap(n: nat, x: nat, y: nat)
    requires n > 0 && x < y
    ensures n * y >= n * x + n
  {
    var k := y - x - 1;
    assert n * y == n * (x + 1 + k) == n * x + n + n * k;
    ProductNonNegative(n, k);
  }

  lemma ProductNonNegative(a: nat, b: nat)
    ensures a * b >= 0
  {
  }

  /** With recent live ids the home slot of the next id is free. */
  lemma NextHomeIsFree(m: Manager)
    requires Coherent(m) && AllHome(m) && Recent(m)
    ensures m.slots[m.nextId % |m.slots|].None?
    ensures Probe(Ids(m.slots), m.nextId % |m.slots|, None, 0) == 0
    ensures Walk(m.nextId % |m.slots|, 0, |m.slots|) == m.nextId % |m.slots|
  {
    var home := m.nextId % |m.slots|;
    if m.slots[home].Some? {
      CloseIdsDiffer(m.slots[home].value.id, m.nextId, |m.slots|);
    }
    assert Walk(home, 0, |m.slots|) == home;
    assert Ids(m.slots)[home] == None;
  }

  /** In an all-home table the search is a map lookup. */
  lemma HomeSearchIsLookup(m: Manager, a: IdMap, id: nat)
    requires Coherent(m) && AllHome(m) && Represents(m, a)
    ensures Find(m, id) == if id in a.sessions then Some(id % |m.slots|) else None
    ensures id in a.sessions ==> m.slots[id % |m.slots|] == Some(a.sessions[id])
  {
    if id in a.sessions {
      var i :| 0 <= i < |m.slots| && m.slots[i] == Some(a.sessions[id]);
      assert i == id % |m.slots|;
      assert Distance(i, i, |m.slots|) == 0;
      FoundIffFindable(m, i);
    }
  }

  lemma InsertRepresents(m: Manager, a: IdMap, j: nat, fd: int)
    requires Coherent(m) && Represents(m, a) && j < |m.slots| && m.slots[j].None?
    ensures var m' := m.(slots := m.slots[j := Some(Entry(m.nextId, fd, true))], nextId := m.nextId + 1);
            Represents(m', IdMap(a.sessions[a.nextId := Entry(a.nextId, fd, true)], a.nextId + 1))
  {
    var e := Entry(m.nextId, fd, true);
    var slots := m.slots[j := Some(e)];
    assert slots[j] == Some(e);
    forall id | id in a.sessions ensures Some(a.sessions[id]) in slots {
      var i :| 0 <= i < |m.slots| && m.slots[i] == Some(a.sessions[id]);
      assert slots[i] == m.slots[i];
    }
  }

  lemma UpdateRepresents(m: Manager, a: IdMap, j: nat, e: Entry)
    requires Coherent(m) && Represents(m, a)
    requires j < |m.slots| && m.slots[j].Some? && m.slots[j].value.id == e.id
    ensures Represents(m.(slots := m.slots[j := Some(e)]), a.(sessions := a.sessions[e.id := e]))
  {
    var slots := m.slots[j := Some(e)];
    assert slots[j] == Some(e);
    forall id | id in a.sessions && id != e.id ensures Some(a.sessions[id]) in slots {
      var i :| 0 <= i < |m.slots| && m.slots[i] == Some(a.sessions[id]);
      assert slots[i] == m.slots[i];
    }
    OneSlotHolds(m, j);
  }

  lemma RemoveRepresents(m: Manager, a: IdMap, j: nat)
    requires Coherent(m) && Represents(m, a) && j < |m.slots| && m.slots[j].Some?
    ensures Represents(m.(slots := m.slots[j := None]), a.(sessions := a.sessions - {m.slots[j].value.id}))
  {
    var gone := m.slots[j].value.id;
    var slots := m.slots[j := None];
    forall id | id in a.sessions && id != gone ensures Some(a.sessions[id]) in slots {
      var i :| 0 <= i < |m.slots| && m.slots[i] == Some(a.sessions[id]);
      assert slots[i] == m.slots[i];
    }
    OneSlotHolds(m, j);
  }

  lemma CreateRefines(m: Manager, a: IdMap, fd: int, res: Resources)
    requires Coherent(m) && AllHome(m) && Represents(m, a) && m.nextId + 1 < TWO_64 && Recent(m)
    ensures AllHome(Create(m, fd, res).0)
    ensures Represents(Create(m, fd, res).0, MapStep(a, CreateOp(fd, res)).0)
    ensures NewId(Create(m, fd, res).1) == MapStep(a, CreateOp(fd, res)).1
  {
    NextHomeIsFree(m);
    InsertRepresents(m, a, m.nextId % |m.slots|, fd);
  }

  lemma InactiveRefines(m: Manager, a: IdMap, id: nat)
    requires Coherent(m) && AllHome(m) && Represents(m, a)
    ensures AllHome(MarkInactive(m, id))
    ensures Represents(MarkInactive(m, id), MapStep(a, InactiveOp(id)).0)
  {
    HomeSearchIsLookup(m, a, id);
    if id in a.sessions {
      UpdateRepresents(m, a, id % |m.slots|, a.sessions[id].(active := false));
    }
  }

  lemma DestroyRefines(m: Manager, a: IdMap, id: nat)
    requires Coherent(m) && AllHome(m) && Represents(m, a)
    ensures AllHome(Destroy(m, id))
    ensures Represents(Destroy(m, id), MapStep(a, DestroyOp(id)).0)
  {
    HomeSearchIsLookup(m, a, id);
    if id in a.sessions {
      RemoveRepresents(m, a, id % |m.slots|);
    } else {
      assert a.sessions - {id} == a.sessions;
    }
  }

  lemma StepRefinesMap(m: Manager, a: IdMap, op: Op)
    requires Coherent(m) && AllHome(m) && Represents(m, a) && m.nextId + 1 < TWO_64
    requires op.CreateOp? ==> Recent(m)
    ensures AllHome(Step(m, op).0)
    ensures Represents(Step(m, op).0, MapStep(a, op).0)
    ensures Step(m, op).1 == MapStep(a, op).1
  {
    match op {
      case CreateOp(fd, res) => CreateRefines(m, a, fd, res);
      case GetOp(id) => HomeSearchIsLookup(m, a, id);
      case InactiveOp(id) => InactiveRefines(m, a, id);
      case DestroyOp(id) => DestroyRefines(m, a, id);
    }
  }

  /** No other slot holds the id of slot `j`. */
  lemma OneSlotHolds(m: Manager, j: nat)
    requires Coherent(m) && j < |m.slots| && m.slots[j].Some?
    ensures forall i :: 0 <= i < |m.slots| && i != j && m.slots[i].Some? ==> m.slots[i].value.id != m.slots[j].value.id
  {
    forall i | 0 <= i < |m.slots| && i != j && m.slots[i].Some?
      ensures m.slots[i].value.id != m.slots[j].value.id
    {
      assert Ids(m.slots)[i] != Ids(m.slots)[j];
    }
  }

  /** The table is a map, over any sequence of operations whose creations meet only recent
      live ids: all replies and the final contents agree, and every session stays home. */
  lemma {:induction false} RunRefinesMap(m: Manager, a: IdMap, ops: seq<Op>)
    requires Coherent(m) && AllHome(m) && Represents(m, a)
    requires m.nextId + |ops| < TWO_64 && RecentRun(m, ops)
    ensures Run(m, ops).1 == MapRun(a, ops).1
    ensures Represents(Run(m, ops).0, MapRun(a, ops).0) && AllHome(Run(m, ops).0)
    decreases |ops|
  {
    if ops != [] {
      StepKeepsCoherent(m, ops[0]);
      StepRefinesMap(m, a, ops[0]);
      RunRefinesMap(Step(m, ops[0]).0, MapStep(a, ops[0]).0, ops[1..]);
    }
  }

  // ---------------------------------------------------------------- the sharper condition

  /** In a table where nobody is cut off, the search is a map lookup. */
  lemma FindableSearchIsLookup(m: Manager, a: IdMap, id: nat)
    requires Coherent(m) && AllFindable(m) && Represents(m, a)
    ensures Find(m, id).Some? <==> id in a.sessions
    ensures id in a.sessions ==> m.slots[Find(m, id).value] == Some(a.sessions[id])
    ensures Get(m, id) == if id in a.sessions && a.sessions[id].active then Some(a.sessions[id]) else None
  {
    AnswersAsMapIff(m, a);
    if id in a.sessions {
      assert a.sessions[m.slots[Find(m, id).value].value.id] == m.slots[Find(m, id).value].value;
    }
  }

  /** Destroying session `id` would cut nobody off. */
  predicate CutsNobodyOff(m: Manager, id: nat)
    requires |m.slots| > 0
  {
    var slot := Find(m, id);
    slot.Some? ==>
      forall i :: 0 <= i < |m.slots| && i != slot.value && m.slots[i].Some? ==> OffTheWay(m, i, slot.value)
  }

  lemma FindableCreate(m: Manager, a: IdMap, fd: int, res: Resources)
    requires Coherent(m) && AllFindable(m) && Represents(m, a) && m.nextId + 1 < TWO_64
    ensures |Create(m, fd, res).0.slots| == |m.slots| && AllFindable(Create(m, fd, res).0)
    ensures m.nextId <= Create(m, fd, res).0.nextId <= m.nextId + 1
    ensures var (m', id) := Create(m, fd, res);
            if id == 0 then Represents(m', a.(nextId := m'.nextId))
            else id == m.nextId && Represents(m', IdMap(a.sessions[id := Entry(id, fd, true)], id + 1))
  {
    var m' := Create(m, fd, res).0;
    var slot := CreateOutcomes(m, fd, res);
    forall i | 0 <= i < |m'.slots| && m'.slots[i].Some? ensures Findable(m', i) {
      CreateKeepsFindable(m, fd, res, i);
    }
    if slot.Some? {
      InsertRepresents(m, a, slot.value, fd);
    }
  }

  lemma FindableInactive(m: Manager, a: IdMap, id: nat)
    requires Coherent(m) && AllFindable(m) && Represents(m, a)
    ensures |MarkInactive(m, id).slots| == |m.slots| && AllFindable(MarkInactive(m, id))
    ensures Represents(MarkInactive(m, id), MapStep(a, InactiveOp(id)).0)
  {
    FindableSearchIsLookup(m, a, id);
    if id in a.sessions {
      var j, m' := Find(m, id).value, MarkInactive(m, id);
      UpdateRepresents(m, a, j, a.sessions[id].(active := false));
      assert Ids(m'.slots) == Ids(m.slots);
      forall i | 0 <= i < |m'.slots| && m'.slots[i].Some? ensures Findable(m', i) {
        assert Findable(m, i);
      }
    }
  }

  lemma FindableDestroy(m: Manager, a: IdMap, id: nat)
    requires Coherent(m) && AllFindable(m) && Represents(m, a) && CutsNobodyOff(m, id)
    ensures |Destroy(m, id).slots| == |m.slots| && AllFindable(Destroy(m, id))
    ensures Represents(Destroy(m, id), MapStep(a, DestroyOp(id)).0)
  {
    FindableSearchIsLookup(m, a, id);
    if id in a.sessions {
      DestroyKeepsAllFindableIff(m, Find(m, id).value);
      RemoveRepresents(m, a, Find(m, id).value);
    } else {
      assert a.sessions - {id} == a.sessions;
    }
  }

  /** The step cuts nobody off, and a creation that gets its resources finds a free slot. */
  ghost predicate ClearStep(m: Manager, op: Op)
    requires |m.slots| > 0
  {
    match op
    case CreateOp(fd, res) => fd >= 0 && res.Available? ==> m.count < |m.slots|
    case DestroyOp(id) => CutsNobodyOff(m, id)
    case _ => true
  }

  ghost predicate ClearRun(m: Manager, ops: seq<Op>)
    requires |m.slots| > 0
    decreases |ops|
  {
    ops == [] || (ClearStep(m, ops[0]) && ClearRun(Step(m, ops[0]).0, ops[1..]))
  }

  lemma ClearStepRefinesMap(m: Manager, a: IdMap, op: Op)
    requires Coherent(m) && AllFindable(m) && Represents(m, a) && m.nextId + 1 < TWO_64 && ClearStep(m, op)
    ensures AllFindable(Step(m, op).0)
    ensures Represents(Step(m, op).0, MapStep(a, op).0)
    ensures Step(m, op).1 == MapStep(a, op).1
  {
    match op {
      case CreateOp(fd, res) =>
        FindableCreate(m, a, fd, res);
        if fd >= 0 {
          FullIffNoFreeSlot(m, fd);
        }
      case GetOp(id) => FindableSearchIsLookup(m, a, id);
      case InactiveOp(id) => FindableInactive(m, a, id);
      case DestroyOp(id) => FindableDestroy(m, a, id);
    }
  }

  /** Without any hypothesis on the age of sessions: the table is a map over any sequence of
      operations that never frees a slot on another session's way and never meets a full table. */
  lemma {:induction false} ClearRunRefinesMap(m: Manager, a: IdMap, ops: seq<Op>)
    requires Coherent(m) && AllFindable(m) && Represents(m, a)
    requires m.nextId + |ops| < TWO_64 && ClearRun(m, ops)
    ensures Run(m, ops).1 == MapRun(a, ops).1
    ensures Represents(Run(m, ops).0, MapRun(a, ops).0) && AllFindable(Run(m, ops).0)
    decreases |ops|
  {
    if ops != [] {
      StepKeepsCoherent(m, ops[0]);
      ClearStepRefinesMap(m, a, ops[0]);
      ClearRunRefinesMap(Step(m, ops[0]).0, MapStep(a, ops[0]).0, ops[1..]);
    }
  }

  /** Sessions at home are found, and destroying one cuts nobody off. */
  lemma HomeIsClear(m: Manager, id: nat)
    requires Coherent(m) && AllHome(m)
    ensures AllFindable(m) && CutsNobodyOff(m, id)
  {
    forall i | 0 <= i < |m.slots| && m.slots[i].Some?
      ensures Distance(m.slots[i].value.id % |m.slots|, i, |m.slots|) == 0
      ensures Findable(m, i)
    {
    }
  }

  // ---------------------------------------------------------------- why recency is needed

  /** `k` short sessions one after the other, the first one getting id `first`. */
  function Churn(first: nat, k: nat): seq<Op>
    decreases k
  {
    if k == 0 then [] else [CreateOp(3, Available), DestroyOp(first)] + Churn(first + 1, k - 1)
  }

  /** The failing run for `n` slots: session 1 stays while ids 2 to n come and go, session
      n + 1 probes past it, session 1 ends, and session n + 1 can no longer be found. */
  function LostSessionRun(n: nat): seq<Op>
    requires n >= 2
  {
    [CreateOp(3, Available)] + (Churn(2, n - 1) + [CreateOp(3, Available), DestroyOp(1), GetOp(n + 1)])
  }

  lemma {:induction false} RunCompose(m: Manager, a: seq<Op>, b: seq<Op>)
    requires |m.slots| > 0
    ensures Run(m, a + b).0 == Run(Run(m, a).0, b).0
    ensures Run(m, a + b).1 == Run(m, a).1 + Run(Run(m, a).0, b).1
    decreases |a|
  {
    if a == [] {
      assert a + b == b;
    } else {
      assert (a + b)[0] == a[0] && (a + b)[1..] == a[1..] + b;
      RunCompose(Step(m, a[0]).0, a[1..], b);
    }
  }

  ghost predicate OnlySessionOne(m: Manager, n: nat, k: nat)
  {
    && |m.slots| == n && m.nextId == k
    && forall i :: 0 <= i < n ==> m.slots[i] == if i == 1 then Some(Entry(1, 3, true)) else None
  }

  /** A creation whose probe stops at once, at the home slot. */
  lemma CreateAtHome(m: Manager, home: nat)
    requires |m.slots| > 0 && home == m.nextId % |m.slots| && m.slots[home].None? && m.nextId + 1 < TWO_64
    ensures Step(m, CreateOp(3, Available)).0.slots == m.slots[home := Some(Entry(m.nextId, 3, true))]
    ensures Step(m, CreateOp(3, Available)).0.nextId == m.nextId + 1
    ensures Create(m, 3, Available).1 == m.nextId
  {
    assert Walk(home, 0, |m.slots|) == home;
    assert Ids(m.slots)[home] == None;
    assert Probe(Ids(m.slots), home, None, 0) == 0;
  }

  lemma DestroyAtHome(m: Manager, id: nat, home: nat)
    requires |m.slots| > 0 && home == id % |m.slots| && id > 0
    requires m.slots[home].Some? && m.slots[home].value.id == id
    ensures Find(m, id) == Some(home)
    ensures Step(m, DestroyOp(id)).0.slots == m.slots[home := None]
    ensures Step(m, DestroyOp(id)).0.nextId == m.nextId
  {
    assert Walk(home, 0, |m.slots|) == home;
    assert Ids(m.slots)[home] == Some(id);
    assert Probe(Ids(m.slots), home, Some(id), 0) == 0;
  }

  lemma SmallModulus(k: nat, n: nat)
    requires 0 < k <= n
    ensures k % n == if k == n then 0 else k
    ensures n >= 2 ==> (n + 1) % n == 1
  {
  }

  /** Running the two operations of one short session. */
  lemma ShortSession(m: Manager, m1: Manager, n: nat, k: nat)
    requires 2 <= k <= n < TWO_63 && OnlySessionOne(m, n, k)
    requires m1 == Step(m, CreateOp(3, Available)).0
    ensures OnlySessionOne(Step(m1, DestroyOp(k)).0, n, k + 1)
  {
    var home := if k == n then 0 else k;
    SmallModulus(k, n);
    CreateAtHome(m, home);
    DestroyAtHome(m1, k, home);
    assert m1.slots[home := None] == m.slots;
  }

  lemma ShortSessionRun(m: Manager, n: nat, k: nat)
    requires 2 <= k <= n < TWO_63 && OnlySessionOne(m, n, k)
    ensures OnlySessionOne(Run(m, [CreateOp(3, Available), DestroyOp(k)]).0, n, k + 1)
  {
    ShortSession(m, Step(m, CreateOp(3, Available)).0, n, k);
    RunTwoOps(m, CreateOp(3, Available), DestroyOp(k));
  }

  lemma {:induction false} ChurnLeavesSessionOne(m: Manager, n: nat, k: nat, count: nat)
    requires 2 <= k && k + count <= n + 1 && n < TWO_63 && n >= 2 && OnlySessionOne(m, n, k)
    ensures OnlySessionOne(Run(m, Churn(k, count)).0, n, k + count)
    decreases count
  {
    if count > 0 {
      var ops, rest := [CreateOp(3, Available), DestroyOp(k)], Churn(k + 1, count - 1);
      var m2 := Run(m, ops).0;
      assert OnlySessionOne(m2, n, k + 1) by {
        ShortSessionRun(m, n, k);
      }
      assert Run(m, Churn(k, count)).0 == Run(m2, rest).0 by {
        RunCompose(m, ops, rest);
      }
      ChurnLeavesSessionOne(m2, n, k + 1, count - 1);
    }
  }

  lemma RunTwoOps(m: Manager, x: Op, y: Op)
    requires |m.slots| > 0
    ensures Run(m, [x, y]).0 == Step(Step(m, x).0, y).0
  {
    assert [x, y][1..] == [y] && [y][1..] == [];
    assert Run(Step(m, x).0, [y]).0 == Step(Step(m, x).0, y).0;
  }

  lemma RunOneOp(m: Manager, x: Op)
    requires |m.slots| > 0
    ensures Run(m, [x]).0 == Step(m, x).0 && Run(m, [x]).1 == [Step(m, x).1]
  {
    assert [x][1..] == [];
  }

  /** Without recency the table is no map: the session is stored and active, yet neither
      `session_get` nor `session_destroy` can find it. */
  lemma LongLivedSessionHidesAnother(n: nat)
    requires 2 <= n < TWO_63
    ensures var m := Run(EmptyManager(n), LostSessionRun(n)).0;
            && Some(Entry(n + 1, 3, true)) in m.slots
            && Get(m, n + 1) == None
            && Destroy(m, n + 1) == m
  {
    var m0 := EmptyManager(n);
    var first, churn := [CreateOp(3, Available)], Churn(2, n - 1);
    var tail := [CreateOp(3, Available), DestroyOp(1), GetOp(n + 1)];
    var m1 := Run(m0, first).0;
    assert OnlySessionOne(m1, n, 2) by {
      FirstSession(n);
    }
    var m2 := Run(m1, churn).0;
    assert OnlySessionOne(m2, n, n + 1) by {
      ChurnLeavesSessionOne(m1, n, 2, n - 1);
    }
    LastThreeOps(m2, n);
    RunCompose(m1, churn, tail);
    RunCompose(m0, first, churn + tail);
  }

  lemma FirstSession(n: nat)
    requires 2 <= n < TWO_63
    ensures OnlySessionOne(Run(EmptyManager(n), [CreateOp(3, Available)]).0, n, 2)
  {
    SmallModulus(1, n);
    CreateAtHome(EmptyManager(n), 1);
    RunOneOp(EmptyManager(n), CreateOp(3, Available));
  }

  lemma CreatePastSessionOne(m: Manager, n: nat, j: nat)
    requires 2 <= n < TWO_63 && OnlySessionOne(m, n, n + 1) && (n + 1) % n == 1 && j == Walk(1, 1, n)
    ensures Step(m, CreateOp(3, Available)).0.slots == m.slots[j := Some(Entry(n + 1, 3, true))]
    ensures Step(m, CreateOp(3, Available)).0.nextId == n + 2 && Create(m, 3, Available).1 == n + 1
  {
    var ids := Ids(m.slots);
    assert Walk(1, 0, n) == 1 && ids[1] == Some(1) && ids[j] == None;
    assert Probe(ids, 1, None, 1) == 1;
    assert Probe(ids, 1, None, 0) == 1;
  }

  lemma SlotsAtTheEnd(m: Manager, m3: Manager, m4: Manager, n: nat)
    requires 2 <= n < TWO_63 && OnlySessionOne(m, n, n + 1)
    requires m3 == Step(m, CreateOp(3, Available)).0 && m4 == Step(m3, DestroyOp(1)).0
    ensures |m4.slots| == n && m4.slots[1] == None && Some(Entry(n + 1, 3, true)) in m4.slots
    ensures (n + 1) % n == 1
  {
    var j := Walk(1, 1, n);
    SmallModulus(1, n);
    CreatePastSessionOne(m, n, j);
    DestroyAtHome(m3, 1, 1);
    assert m4.slots[j] == Some(Entry(n + 1, 3, true));
  }

  lemma SearchStopsAtFreeHome(m: Manager, id: nat, home: nat)
    requires |m.slots| > 0 && home == id % |m.slots| && m.slots[home].None?
    ensures Find(m, id) == None
  {
    assert Walk(home, 0, |m.slots|) == home;
    assert Ids(m.slots)[home] == None;
    assert Probe(Ids(m.slots), home, Some(id), 0) == 0;
  }

  lemma LastThreeOps(m: Manager, n: nat)
    requires 2 <= n < TWO_63 && OnlySessionOne(m, n, n + 1)
    ensures var m' := Run(m, [CreateOp(3, Available), DestroyOp(1), GetOp(n + 1)]).0;
            && Some(Entry(n + 1, 3, true)) in m'.slots
            && Get(m', n + 1) == None
            && Destroy(m', n + 1) == m'
  {
    var m3 := Step(m, CreateOp(3, Available)).0;
    var m4 := Step(m3, DestroyOp(1)).0;
    SlotsAtTheEnd(m, m3, m4, n);
    SearchStopsAtFreeHome(m4, n + 1, 1);
    assert Destroy(m4, n + 1) == m4 && Get(m4, n + 1) == None;
    RunOneOp(m4, GetOp(n + 1));
    RunTwoOps(m, CreateOp(3, Available), DestroyOp(1));
    RunCompose(m, [CreateOp(3, Available), DestroyOp(1)], [GetOp(n + 1)]);
    assert [CreateOp(3, Available), DestroyOp(1)] + [GetOp(n + 1)] ==
           [CreateOp(3, Available), DestroyOp(1), GetOp(n + 1)];
  }
}

module SessionManagement {
  import opened Prelude
  import opened Probing
  import opened SessionTable

  const MAX_SESSIONS: nat := 256

  class Session {
    const sessionId: nat
    var socketFd: int
    var isActive: bool

    constructor (id: nat, fd: int)
      ensures sessionId == id && socketFd == fd && isActive
    {
      sessionId := id;
      socketFd := fd;
      isActive := true;
    }

    function View(): Entry
      reads this
    {
      Entry(sessionId, socketFd, isActive)
    }
  }

  class SessionManager {
    const sessions: array<Session?>
    var nextSessionId: nat
    var totalSessionsCreated: nat
    var activeSessionCount: nat
    var peakSessionCount: nat

    ghost function Objects(): set<Session>
      reads sessions
    {
      set i | 0 <= i < sessions.Length && sessions[i] != null :: sessions[i]
    }

    /** No object is stored in two slots. */
    ghost predicate Valid()
      reads this, sessions
    {
      && sessions.Length == MAX_SESSIONS
      && forall i, j :: 0 <= i < j < sessions.Length && sessions[i] != null ==> sessions[i] != sessions[j]
    }

    ghost function Slots(): (s: seq<Option<Entry>>)
      reads sessions, Objects()
      ensures |s| == sessions.Length
    {
      seq(sessions.Length, i requires 0 <= i < sessions.Length reads sessions, Objects() =>
        if sessions[i] == null then None else Some(sessions[i].View()))
    }

    ghost function State(): (m: Manager)
      requires Valid()
      reads this, sessions, Objects()
      ensures |m.slots| == MAX_SESSIONS
    {
      Manager(Slots(), nextSessionId, totalSessionsCreated, activeSessionCount, peakSessionCount)
    }

    /** The zero-initialised global object. */
    constructor ()
      ensures Valid() && fresh(sessions) && State() == EmptyManager(MAX_SESSIONS).(nextId := 0)
    {
      sessions := new Session?[MAX_SESSIONS](_ => null);
      nextSessionId := 0;
      totalSessionsCreated, activeSessionCount, peakSessionCount := 0, 0, 0;
    }

    /** `session_manager_init`; `mutex` says whether its mutex can be initialised. A failure leaves
        the counters alone. */
    method Init(mutex: bool) returns (rc: int)
      requires sessions.Length == MAX_SESSIONS
      modifies this, sessions
      ensures Valid() && rc == if mutex then 0 else -1
      ensures rc == 0 ==> State() == EmptyManager(MAX_SESSIONS)
      ensures rc != 0 ==> Slots() == EmptyManager(MAX_SESSIONS).slots && nextSessionId == old(nextSessionId)
      ensures rc != 0 ==> totalSessionsCreated == old(totalSessionsCreated) &&
                          activeSessionCount == old(activeSessionCount) && peakSessionCount == old(peakSessionCount)
    {
      forall i | 0 <= i < sessions.Length {
        sessions[i] := null;
      }
      if !mutex {
        return -1;
      }
      nextSessionId := 1;
      totalSessionsCreated := 0;
      activeSessionCount := 0;
      peakSessionCount := 0;
      return 0;
    }

    /** The probing loop of `session_create`; -1 when every slot is taken. */
    method FreeSlot(id: nat) returns (slot: int)
      requires Valid()
      ensures var home := id % MAX_SESSIONS;
              var r := Probe(Ids(Slots()), home, None, 0);
              slot == if r == MAX_SESSIONS then -1 else Walk(home, r, MAX_SESSIONS)
      ensures slot >= 0 ==> slot < MAX_SESSIONS && sessions[slot] == null
    {
      ghost var ids, home := Ids(Slots()), id % MAX_SESSIONS;
      var index := id % MAX_SESSIONS;
      var probeCount := 0;
      while sessions[index] != null && probeCount < MAX_SESSIONS
        invariant 0 <= probeCount <= MAX_SESSIONS
        invariant index == Walk(home, probeCount, MAX_SESSIONS)
        invariant Probe(ids, home, None, 0) == Probe(ids, home, None, probeCount)
        decreases MAX_SESSIONS - probeCount
      {
        assert ids[index] != None;
        StepIsModulo(home, probeCount, MAX_SESSIONS);
        index := (index + 1) % MAX_SESSIONS;
        probeCount := probeCount + 1;
      }
      if probeCount >= MAX_SESSIONS {
        return -1;
      }
      assert ids[index] == None;
      return index;
    }

    /** `session_create`, under `manager_mtx`. */
    method Create(socketFd: int, resources: Resources) returns (id: nat)
      requires Valid()
      modifies this, sessions
      ensures Valid()
      ensures (State(), id) == SessionTable.Create(old(State()), socketFd, resources)
      ensures forall i :: 0 <= i < MAX_SESSIONS && old(sessions[i]) != null ==> sessions[i] == old(sessions[i])
    {
      if socketFd < 0 || resources.NoMemory? {
        return 0;
      }
      ghost var slots := Slots();
      id := nextSessionId;
      nextSessionId := (nextSessionId + 1) % TWO_64;
      var index := FreeSlot(id);
      assert Slots() == slots;
      if index < 0 {
        return 0;
      }
      if resources.NoPrimitives? {
        return 0;
      }
      var session := new Session(id, socketFd);
      sessions[index] := session;
      totalSessionsCreated := totalSessionsCreated + 1;
      activeSessionCount := activeSessionCount + 1;
      if activeSessionCount > peakSessionCount {
        peakSessionCount := activeSessionCount;
      }
      assert Slots() == slots[index := Some(Entry(id, socketFd, true))];
    }

    /** The search loop shared by the three operations below, under `manager_mtx`. */
    method FindSlot(id: nat) returns (slot: int)
      requires Valid()
      ensures slot == match Find(State(), id) case None => -1 case Some(i) => i
      ensures slot >= 0 ==> slot < MAX_SESSIONS && sessions[slot] != null
    {
      if id == 0 {
        return -1;
      }
      ghost var ids, home := Ids(State().slots), id % MAX_SESSIONS;
      var index := id % MAX_SESSIONS;
      var probeCount := 0;
      while probeCount < MAX_SESSIONS
        invariant 0 <= probeCount <= MAX_SESSIONS
        invariant index == Walk(home, probeCount, MAX_SESSIONS)
        invariant Probe(ids, home, Some(id), 0) == Probe(ids, home, Some(id), probeCount)
      {
        var session := sessions[index];
        assert ids[index] == if session == null then None else Some(session.sessionId);
        if session == null {
          return -1;
        }
        if session.sessionId == id {
          return index;
        }
        StepIsModulo(home, probeCount, MAX_SESSIONS);
        index := (index + 1) % MAX_SESSIONS;
        probeCount := probeCount + 1;
      }
      return -1;
    }

    method Get(id: nat) returns (session: Session?)
      requires Valid()
      ensures session == null <==> SessionTable.Get(State(), id).None?
      ensures session != null ==> session in Objects() && SessionTable.Get(State(), id) == Some(session.View())
    {
      var slot := FindSlot(id);
      if slot >= 0 && sessions[slot].isActive {
        return sessions[slot];
      }
      return null;
    }

    method MarkInactive(id: nat)
      requires Valid()
      modifies Objects()
      ensures Valid() && State() == SessionTable.MarkInactive(old(State()), id)
      ensures forall s :: s in Objects() ==> s.socketFd == old(s.socketFd)
    {
      var slot := FindSlot(id);
      if slot >= 0 {
        ghost var slots := Slots();
        sessions[slot].isActive := false;
        assert Slots() == slots[slot := Some(slots[slot].value.(active := false))];
      }
    }

    /** The object is dropped from the table after its socket was closed. */
    method Destroy(id: nat)
      requires Valid()
      modifies this, sessions, Objects()
      ensures Valid() && State() == SessionTable.Destroy(old(State()), id)
      ensures forall i :: 0 <= i < MAX_SESSIONS && sessions[i] != null ==> sessions[i] == old(sessions[i])
      ensures forall s :: s in old(Objects()) && s !in Objects() ==> !s.isActive && s.socketFd < 0
      ensures forall s :: s in Objects() ==> s.socketFd == old(s.socketFd) && s.isActive == old(s.isActive)
    {
      var slot := FindSlot(id);
      if slot >= 0 {
        ghost var slots := Slots();
        var session := sessions[slot];
        session.isActive := false;
        if session.socketFd >= 0 {
          session.socketFd := -1;
        }
        if activeSessionCount > 0 {
          activeSessionCount := activeSessionCount - 1;
        }
        sessions[slot] := null;
        assert Slots() == slots[slot := None];
      }
    }

    /** `session_manager_destroy`: every stored session is released; the counters stay. */
    method DestroyAll() returns (cleaned: nat)
      requires Valid()
      modifies sessions, Objects()
      ensures Valid() && State() == old(State()).(slots := EmptyManager(MAX_SESSIONS).slots)
      ensures cleaned == Occupied(old(Slots()))
      ensures forall s :: s in old(Objects()) ==> !s.isActive && s.socketFd < 0
    {
      ghost var slots, objects := Slots(), Objects();
      cleaned := 0;
      for i := 0 to MAX_SESSIONS
        invariant cleaned == Occupied(slots[..i])
        invariant forall k :: 0 <= k < i ==> sessions[k] == null
        invariant forall k :: i <= k < MAX_SESSIONS ==> sessions[k] == old(sessions[k])
        invariant forall k :: 0 <= k < i && old(sessions[k]) != null ==>
                    !old(sessions[k]).isActive && old(sessions[k]).socketFd < 0
      {
        assert slots[..i + 1][..i] == slots[..i];
        assert slots[i].None? <==> sessions[i] == null;
        if sessions[i] != null {
          var session := sessions[i];
          cleaned := cleaned + 1;
          session.isActive := false;
          if session.socketFd >= 0 {
            session.socketFd := -1;
          }
          sessions[i] := null;
        }
      }
      assert slots[..MAX_SESSIONS] == slots;
      assert Slots() == EmptyManager(MAX_SESSIONS).slots;
    }
  }
}
