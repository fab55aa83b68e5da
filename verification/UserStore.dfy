/**
 The older in-memory store of src/auth/user_metadata.c.backup: a file array per user with a
 running `quota_used`.  The running quota is the fast form; `Ledger`, which recomputes the sum
 in every transaction, is the simple one.
 */
module UserFileStore {
  import opened Prelude
  import Ledger

  type Name = Ledger.Name

  const INITIAL_CAPACITY: nat := 16
  const MAX_FILENAME: nat := 255

  datatype FileMeta = FileMeta(name: Name, size: nat)

  datatype Store = Store(files: seq<FileMeta>, used: nat, capacity: nat)

  function Position(files: seq<FileMeta>, name: Name): (i: Option<nat>)
    ensures i.Some? ==> i.value < |files| && files[i.value].name == name
    ensures forall k :: 0 <= k < (if i.Some? then i.value else |files|) ==> files[k].name != name
  {
    if files == [] then None
    else if files[0].name == name then Some(0)
    else
      var i := Position(files[1..], name);
      if i.Some? then Some(i.value + 1) else None
  }

  /** `strncpy` keeps at most 255 bytes of a name. */
  function Clipped(name: Name): (r: Name)
    ensures r <= name && |r| == Min(|name|, MAX_FILENAME)
  {
    if |name| <= MAX_FILENAME then name else name[..MAX_FILENAME]
  }

  /** `user_add_file`; `memory` says whether `realloc` succeeds. Sizes are `size_t`. */
  function Put(st: Store, name: Name, size: nat, memory: bool): (Store, int)
  {
    var i := Position(st.files, name);
    if i.Some? then
      (st.(files := st.files[i.value := FileMeta(name, size)],
           used := (st.used - st.files[i.value].size + size) % TWO_64), 0)
    else if |st.files| >= st.capacity && !memory then (st, -1)
    else
      (Store(st.files + [FileMeta(Clipped(name), size)], (st.used + size) % TWO_64,
             if |st.files| >= st.capacity then 2 * st.capacity else st.capacity), 0)
  }

  /** `user_remove_file`. */
  function Remove(st: Store, name: Name): (Store, int)
  {
    var i := Position(st.files, name);
    if i.None? then (st, -1)
    else
      (st.(files := st.files[..i.value] + st.files[i.value + 1..],
           used := (st.used - st.files[i.value].size) % TWO_64), 0)
  }

  // ---------------------------------------------------------------- the object

  class UserFiles {
    var files: array<FileMeta>
    var count: int
    var used: nat

    ghost predicate Valid()
      reads this
    {
      0 <= count <= files.Length && 0 < files.Length && used < TWO_64
    }

    ghost function State(): Store
      requires Valid()
      reads this, files
    {
      Store(files[..count], used, files.Length)
    }

    constructor ()
      ensures Valid() && fresh(files) && State() == Store([], 0, INITIAL_CAPACITY)
    {
      files := new FileMeta[INITIAL_CAPACITY](_ => FileMeta([], 0));
      count, used := 0, 0;
    }

    method Search(name: Name) returns (i: int)
      requires Valid()
      ensures i == (var p := Position(files[..count], name); if p.Some? then p.value else count)
    {
      i := 0;
      while i < count && files[i].name != name
        invariant 0 <= i <= count
        invariant forall k :: 0 <= k < i ==> files[k].name != name
      {
        i := i + 1;
      }
      assert forall k :: 0 <= k < count ==> files[..count][k] == files[k];
    }

    /** `realloc` to twice the capacity, keeping the contents. */
    method Grow()
      requires Valid()
      modifies this`files
      ensures Valid() && fresh(files) && files.Length == 2 * old(files.Length)
      ensures files[..count] == old(files[..count])
    {
      var bigger := new FileMeta[2 * files.Length](_ => FileMeta([], 0));
      forall k | 0 <= k < count {
        bigger[k] := files[k];
      }
      files := bigger;
    }

    method AddFile(name: Name, size: nat, memory: bool) returns (rc: int)
      requires Valid() && size < TWO_64
      modifies this, files
      ensures Valid() && (State(), rc) == Put(old(State()), name, size, memory)
      ensures rc != 0 ==> State() == old(State())
    {
      ghost var before := files[..count];
      var i := Search(name);
      if i < count {
        var oldSize := files[i].size;
        files[i] := FileMeta(name, size);
        used := (used - oldSize + size) % TWO_64;
        assert files[..count] == before[i := FileMeta(name, size)];
        return 0;
      }
      if count >= files.Length {
        if !memory {
          return -1;
        }
        Grow();
      }
      files[count] := FileMeta(Clipped(name), size);
      assert files[..count + 1] == before + [FileMeta(Clipped(name), size)];
      count := count + 1;
      used := (used + size) % TWO_64;
      return 0;
    }

    /** The loop that moves later entries one place down. */
    static method ShiftLeft(a: array<FileMeta>, i: nat, n: nat)
      requires i < n <= a.Length
      modifies a
      ensures a[..n - 1] == old(a[..n])[..i] + old(a[..n])[i + 1..]
    {
      ghost var before := a[..n];
      var j := i;
      while j < n - 1
        invariant i <= j <= n - 1
        invariant forall k :: 0 <= k < i ==> a[k] == before[k]
        invariant forall k :: i <= k < j ==> a[k] == before[k + 1]
        invariant forall k :: j < k < n ==> a[k] == before[k]
      {
        a[j] := a[j + 1];
        j := j + 1;
      }
    }

    method RemoveFile(name: Name) returns (rc: int)
      requires Valid()
      modifies this, files
      ensures Valid() && files == old(files) && (State(), rc) == Remove(old(State()), name)
    {
      var i := Search(name);
      if i == count {
        return -1;
      }
      used := (used - files[i].size) % TWO_64;
      ShiftLeft(files, i, count);
      count := count - 1;
      return 0;
    }
  }

  // ---------------------------------------------------------------- against the ledger

  function Total(files: seq<FileMeta>): nat
  {
    if files == [] then 0 else Total(files[..|files| - 1]) + files[|files| - 1].size
  }

  lemma {:induction false} TotalAppend(a: seq<FileMeta>, b: seq<FileMeta>)
    ensures Total(a + b) == Total(a) + Total(b)
  {
    if b == [] {
      assert a + b == a;
    } else {
      assert (a + b)[..|a + b| - 1] == a + b[..|b| - 1];
      TotalAppend(a, b[..|b| - 1]);
    }
  }

  lemma TotalSplit(files: seq<FileMeta>, i: nat)
    requires i < |files|
    ensures Total(files) == Total(files[..i]) + files[i].size + Total(files[i + 1..])
  {
    assert files == files[..i] + ([files[i]] + files[i + 1..]);
    assert [files[i]][..0] == [];
    TotalAppend([files[i]], files[i + 1..]);
    TotalAppend(files[..i], [files[i]] + files[i + 1..]);
  }

  ghost predicate UniqueNames(files: seq<FileMeta>)
  {
    forall i, j :: 0 <= i < j < |files| ==> files[i].name != files[j].name
  }

  /** The file map of the array store. */
  function SizeHere(files: seq<FileMeta>, name: Name): Option<int>
  {
    var i := Position(files, name);
    if i.Some? then Some(files[i.value].size) else None
  }

  /** The file map of one user in the ledger. */
  function SizeThere(files: seq<Ledger.FileRow>, owner: int, name: Name): Option<int>
  {
    var i := Ledger.FileIndex(files, owner, name);
    if i.Some? then Some(files[i.value].size) else None
  }

  /** Same file map, and a running quota that is the sum up to wrap-around. */
  ghost predicate Agree(st: Store, files: seq<Ledger.FileRow>, owner: int)
  {
    && UniqueNames(st.files) && Ledger.UniqueFiles(files)
    && (forall name :: SizeHere(st.files, name) == SizeThere(files, owner, name))
    && Total(st.files) == Ledger.SumFor(files, owner)
    && st.used == Total(st.files) % TWO_64
  }

  lemma PositionIs(files: seq<FileMeta>, i: nat)
    requires i < |files| && UniqueNames(files)
    ensures Position(files, files[i].name) == Some(i)
  {
  }

  lemma PutMap(st: Store, name: Name, size: nat, what: Name)
    requires UniqueNames(st.files) && |name| <= MAX_FILENAME
    ensures var files := Put(st, name, size, true).0.files;
            && UniqueNames(files)
            && SizeHere(files, what) == if what == name then Some(size) else SizeHere(st.files, what)
  {
    var files := Put(st, name, size, true).0.files;
    var i := Position(st.files, name);
    PositionIs(files, if i.Some? then i.value else |st.files|);
    var w := Position(st.files, what);
    if what != name && w.Some? {
      assert files[w.value] == st.files[w.value];
      PositionIs(files, w.value);
    }
  }

  /** A stored file is found again if and only if its name was not cut. */
  lemma StoredIsFoundIff(st: Store, name: Name, size: nat)
    requires forall k :: 0 <= k < |st.files| ==> |st.files[k].name| <= MAX_FILENAME
    ensures SizeHere(Put(st, name, size, true).0.files, name).Some? <==> |name| <= MAX_FILENAME
  {
    var files := Put(st, name, size, true).0.files;
    var i := Position(st.files, name);
    var at := if i.Some? then i.value else |st.files|;
    assert files[at].name == Clipped(name);
  }

  lemma RemoveMap(st: Store, name: Name, what: Name)
    requires UniqueNames(st.files)
    ensures var files := Remove(st, name).0.files;
            && UniqueNames(files)
            && SizeHere(files, what) == if what == name then None else SizeHere(st.files, what)
  {
    var files := Remove(st, name).0.files;
    var i, w := Position(st.files, name), Position(st.files, what);
    if i.Some? && what != name && w.Some? {
      var at := if w.value < i.value then w.value else w.value - 1;
      assert files[at] == st.files[w.value];
      PositionIs(files, at);
    }
  }

  lemma WrapsAlike(a: nat, before: nat, size: nat)
    requires before <= a
    ensures (a % TWO_64 - before + size) % TWO_64 == (a - before + size) % TWO_64
  {
  }

  /** Size of a stored file; 0 when there is none. */
  function OldSize(files: seq<FileMeta>, name: Name): nat
  {
    var i := Position(files, name);
    if i.Some? then files[i.value].size else 0
  }

  lemma OldSizeWithinTotal(files: seq<FileMeta>, name: Name)
    ensures OldSize(files, name) <= Total(files)
  {
    var i := Position(files, name);
    if i.Some? {
      TotalSplit(files, i.value);
    }
  }

  lemma PutTotal(st: Store, name: Name, size: nat)
    ensures Total(Put(st, name, size, true).0.files) == Total(st.files) + size - OldSize(st.files, name)
  {
    var i, m := Position(st.files, name), FileMeta(name, size);
    if i.Some? {
      var files := st.files[i.value := m];
      TotalSplit(st.files, i.value);
      TotalSplit(files, i.value);
      assert files[..i.value] == st.files[..i.value] && files[i.value + 1..] == st.files[i.value + 1..];
    } else {
      TotalAppend(st.files, [m]);
      assert [m][..0] == [];
    }
  }

  /** The running quota follows the total through any wrap-around. */
  lemma PutUsed(st: Store, name: Name, size: nat)
    requires st.used == Total(st.files) % TWO_64
    ensures Put(st, name, size, true).0.used == Total(Put(st, name, size, true).0.files) % TWO_64
  {
    PutTotal(st, name, size);
    OldSizeWithinTotal(st.files, name);
    WrapsAlike(Total(st.files), OldSize(st.files, name), size);
  }

  lemma RemoveTotal(st: Store, name: Name)
    requires st.used == Total(st.files) % TWO_64
    ensures Total(Remove(st, name).0.files) == Total(st.files) - OldSize(st.files, name)
    ensures Remove(st, name).0.used == Total(Remove(st, name).0.files) % TWO_64
  {
    var i := Position(st.files, name);
    if i.Some? {
      TotalSplit(st.files, i.value);
      TotalAppend(st.files[..i.value], st.files[i.value + 1..]);
      WrapsAlike(Total(st.files), st.files[i.value].size, 0);
    }
  }

  lemma PutAgreesAt(st: Store, files: seq<Ledger.FileRow>, owner: int, name: Name, size: nat, what: Name)
    requires Agree(st, files, owner) && |name| <= MAX_FILENAME
    ensures SizeHere(Put(st, name, size, true).0.files, what) ==
            SizeThere(Ledger.Upsert(files, owner, name, size), owner, what)
  {
    PutMap(st, name, size, what);
    Ledger.UpsertKeepsOthers(files, owner, name, size);
    assert SizeHere(st.files, what) == SizeThere(files, owner, what);
    SameSize(files, Ledger.Upsert(files, owner, name, size), owner, name, what);
  }

  /** One upload: the running difference does what recomputing the sum does. */
  lemma PutAgrees(st: Store, files: seq<Ledger.FileRow>, owner: int, name: Name, size: nat)
    requires Agree(st, files, owner) && |name| <= MAX_FILENAME
    ensures Agree(Put(st, name, size, true).0, Ledger.Upsert(files, owner, name, size), owner)
  {
    var st', files' := Put(st, name, size, true).0, Ledger.Upsert(files, owner, name, size);
    forall what ensures SizeHere(st'.files, what) == SizeThere(files', owner, what) {
      PutAgreesAt(st, files, owner, name, size, what);
    }
    assert SizeHere(st.files, name) == SizeThere(files, owner, name);
    PutTotal(st, name, size);
    PutUsed(st, name, size);
    PutMap(st, name, size, name);
    Ledger.UpsertMovesSum(files, owner, name, size, owner);
    UpsertStaysUnique(files, owner, name, size);
  }

  lemma UpsertStaysUnique(files: seq<Ledger.FileRow>, owner: int, name: Name, size: nat)
    requires Ledger.UniqueFiles(files)
    ensures Ledger.UniqueFiles(Ledger.Upsert(files, owner, name, size))
  {
  }

  lemma SameSize(files: seq<Ledger.FileRow>, files': seq<Ledger.FileRow>, owner: int, name: Name, what: Name)
    requires Ledger.OtherFilesKept(files, files', owner, name)
    ensures what != name ==> SizeThere(files', owner, what) == SizeThere(files, owner, what)
  {
    if what != name {
      assert Ledger.StoredSize(files', owner, what) == Ledger.StoredSize(files, owner, what);
      assert Ledger.FileIndex(files', owner, what).Some? <==> Ledger.FileIndex(files, owner, what).Some?;
    }
  }

  lemma RemoveAgrees(st: Store, files: seq<Ledger.FileRow>, owner: int, name: Name)
    requires Agree(st, files, owner)
    ensures Agree(Remove(st, name).0, Ledger.DeleteFile(files, owner, name), owner)
    ensures Remove(st, name).1 == 0 <==> Ledger.FileIndex(files, owner, name).Some?
  {
    var st', files' := Remove(st, name).0, Ledger.DeleteFile(files, owner, name);
    RemoveTotal(st, name);
    Ledger.DeleteMovesSum(files, owner, name, owner);
    Ledger.DeleteKeepsOthers(files, owner, name);
    assert SizeHere(st.files, name) == SizeThere(files, owner, name);
    RemoveMap(st, name, name);
    forall what ensures SizeHere(st'.files, what) == SizeThere(files', owner, what) {
      RemoveMap(st, name, what);
      assert SizeHere(st.files, what) == SizeThere(files, owner, what);
      SameSize(files, files', owner, name, what);
    }
  }

  /** The ledger's SUM cannot overflow while the total fits in a signed 64-bit integer. */
  lemma {:induction false} NoOverflow(files: seq<Ledger.FileRow>, owner: int)
    requires forall i :: 0 <= i < |files| && files[i].owner == owner ==> files[i].size >= 0
    requires Ledger.SumFor(files, owner) < TWO_63
    ensures !Ledger.SumOverflows(files, owner) && Ledger.SumFor(files, owner) >= 0
  {
    if files != [] {
      var front := files[..|files| - 1];
      assert forall i :: 0 <= i < |front| ==> front[i] == files[i];
      NoOverflow(front, owner);
    }
  }

  lemma AgreeBoundsSum(st: Store, files: seq<Ledger.FileRow>, owner: int)
    requires Agree(st, files, owner) && Total(st.files) < TWO_63
    ensures !Ledger.SumOverflows(files, owner)
  {
    forall i | 0 <= i < |files| && files[i].owner == owner ensures files[i].size >= 0 {
      Ledger.FileIndexIs(files, i);
      assert SizeHere(st.files, files[i].name) == SizeThere(files, owner, files[i].name);
    }
    NoOverflow(files, owner);
  }

  // ---------------------------------------------------------------- over whole traces

  datatype FileOp = Upload(name: Name, size: nat) | Delete(name: Name)

  const NO_FAULTS: Ledger.Faults := Ledger.Faults(false, false, false, false, false, false, false, false)

  function StoreStep(st: Store, op: FileOp): (Store, int)
  {
    match op
    case Upload(name, size) => Put(st, name, size, true)
    case Delete(name) => Remove(st, name)
  }

  function LedgerStep(t: Ledger.Tables, user: Name, op: FileOp): (Ledger.Tables, int)
  {
    match op
    case Upload(name, size) => Ledger.AddFile(t, user, name, size, NO_FAULTS)
    case Delete(name) => Ledger.RemoveFile(t, user, name, NO_FAULTS)
  }

  /** Final states and return codes of both stores on one trace. */
  function StoreRun(st: Store, ops: seq<FileOp>): (Store, seq<int>)
    decreases |ops|
  {
    if ops == [] then (st, [])
    else
      var (st', rc) := StoreStep(st, ops[0]);
      var (st'', rcs) := StoreRun(st', ops[1..]);
      (st'', [rc] + rcs)
  }

  function LedgerRun(t: Ledger.Tables, user: Name, ops: seq<FileOp>): (Ledger.Tables, seq<int>)
    decreases |ops|
  {
    if ops == [] then (t, [])
    else
      var (t', rc) := LedgerStep(t, user, ops[0]);
      var (t'', rcs) := LedgerRun(t', user, ops[1..]);
      (t'', [rc] + rcs)
  }

  /** Names are as long as the upload parser lets them be, and the stored total fits in a signed
      64-bit integer after every operation. */
  predicate InBounds(st: Store, ops: seq<FileOp>)
    decreases |ops|
  {
    Total(st.files) < TWO_63 &&
    (ops == [] || (|ops[0].name| <= MAX_FILENAME && InBounds(StoreStep(st, ops[0]).0, ops[1..])))
  }

  /** Both report success alike; a missing file is -1 in the one and -3 in the other. */
  predicate SameCodes(here: seq<int>, there: seq<int>)
  {
    |here| == |there| &&
    forall i :: 0 <= i < |here| ==> (here[i] == 0 && there[i] == 0) || (here[i] == -1 && there[i] == -3)
  }

  ghost predicate Refines(st: Store, t: Ledger.Tables, user: Name)
  {
    && Ledger.Consistent(t)
    && Ledger.UserIndex(t.users, user).Some?
    && Agree(st, t.files, t.users[Ledger.UserIndex(t.users, user).value].id)
  }

  lemma SizeWithinTotal(files: seq<FileMeta>, i: nat)
    requires i < |files|
    ensures files[i].size <= Total(files)
  {
    TotalSplit(files, i);
  }

  lemma UploadRefines(st: Store, t: Ledger.Tables, user: Name, name: Name, size: nat)
    requires Refines(st, t, user) && Total(Put(st, name, size, true).0.files) < TWO_63 && |name| <= MAX_FILENAME
    ensures var (t', rc) := Ledger.AddFile(t, user, name, size, NO_FAULTS);
            rc == 0 && Refines(Put(st, name, size, true).0, t', user)
  {
    var u := Ledger.UserIndex(t.users, user).value;
    var id, st' := t.users[u].id, Put(st, name, size, true).0;
    PutMap(st, name, size, name);
    SizeWithinTotal(st'.files, Position(st'.files, name).value);
    PutAgrees(st, t.files, id, name, size);
    AgreeBoundsSum(st', Ledger.Upsert(t.files, id, name, size), id);
    LedgerAdds(t, user, name, size);
    Ledger.AddKeepsConsistent(t, user, name, size, NO_FAULTS);
    UserStays(t, user, id, Ledger.SumFor(Ledger.Upsert(t.files, id, name, size), id));
  }

  /** Without faults and overflow the ledger accepts the upload. */
  lemma LedgerAdds(t: Ledger.Tables, user: Name, name: Name, size: nat)
    requires Ledger.UserIndex(t.users, user).Some? && size < TWO_63
    requires var id := t.users[Ledger.UserIndex(t.users, user).value].id;
             !Ledger.SumOverflows(Ledger.Upsert(t.files, id, name, size), id)
    ensures var id := t.users[Ledger.UserIndex(t.users, user).value].id;
            var files := Ledger.Upsert(t.files, id, name, size);
            Ledger.AddFile(t, user, name, size, NO_FAULTS) ==
            (t.(files := files, users := Ledger.SetUsed(t.users, id, Ledger.SumFor(files, id))), 0)
  {
    assert Ledger.ToInt64(size) == size;
  }

  /** The bound is exact: the array store always accepts, the ledger if and only if the new total
      fits in a signed 64-bit integer. */
  lemma LedgerAcceptsIff(st: Store, t: Ledger.Tables, user: Name, name: Name, size: nat)
    requires Refines(st, t, user) && size < TWO_63 && |name| <= MAX_FILENAME
    ensures Put(st, name, size, true).1 == 0
    ensures Ledger.AddFile(t, user, name, size, NO_FAULTS).1 == 0 <==>
            Total(Put(st, name, size, true).0.files) < TWO_63
  {
    if Total(Put(st, name, size, true).0.files) < TWO_63 {
      UploadRefines(st, t, user, name, size);
    } else {
      var id := t.users[Ledger.UserIndex(t.users, user).value].id;
      PutAgrees(st, t.files, id, name, size);
      assert Ledger.SumFor(Ledger.Upsert(t.files, id, name, size), id) >= TWO_63;
    }
  }

  lemma UserStays(t: Ledger.Tables, user: Name, id: int, used: int)
    requires Ledger.Consistent(t) && Ledger.UserIndex(t.users, user).Some?
    ensures Ledger.UserIndex(Ledger.SetUsed(t.users, id, used), user) == Ledger.UserIndex(t.users, user)
  {
    var users := Ledger.SetUsed(t.users, id, used);
    assert users[Ledger.UserIndex(t.users, user).value].name == user;
  }

  lemma DeleteRefines(st: Store, t: Ledger.Tables, user: Name, name: Name)
    requires Refines(st, t, user) && Total(Remove(st, name).0.files) < TWO_63
    ensures var (t', rc) := Ledger.RemoveFile(t, user, name, NO_FAULTS);
            && ((Remove(st, name).1 == 0 && rc == 0) || (Remove(st, name).1 == -1 && rc == -3))
            && Refines(Remove(st, name).0, t', user)
  {
    var u := Ledger.UserIndex(t.users, user).value;
    var id, st' := t.users[u].id, Remove(st, name).0;
    RemoveAgrees(st, t.files, id, name);
    AgreeBoundsSum(st', Ledger.DeleteFile(t.files, id, name), id);
    Ledger.RemoveKeepsConsistent(t, user, name, NO_FAULTS);
    UserStays(t, user, id, Ledger.SumFor(Ledger.DeleteFile(t.files, id, name), id));
  }

  lemma StepRefines(st: Store, t: Ledger.Tables, user: Name, op: FileOp)
    requires Refines(st, t, user) && Total(StoreStep(st, op).0.files) < TWO_63 && |op.name| <= MAX_FILENAME
    ensures Refines(StoreStep(st, op).0, LedgerStep(t, user, op).0, user)
    ensures SameCodes([StoreStep(st, op).1], [LedgerStep(t, user, op).1])
  {
    match op {
      case Upload(name, size) => UploadRefines(st, t, user, name, size);
      case Delete(name) => DeleteRefines(st, t, user, name);
    }
  }

  lemma UsedIsTotal(st: Store, t: Ledger.Tables, user: Name)
    requires Refines(st, t, user) && Total(st.files) < TWO_63
    ensures st.used == t.users[Ledger.UserIndex(t.users, user).value].used
  {
  }

  /** On every trace within bounds the array store and the ledger report the same codes and end
      with the same file map and the same `quota_used`. */
  lemma {:induction false} RunRefinesLedger(st: Store, t: Ledger.Tables, user: Name, ops: seq<FileOp>)
    requires Refines(st, t, user) && InBounds(st, ops)
    ensures var (st', here) := StoreRun(st, ops);
            var (t', there) := LedgerRun(t, user, ops);
            && Refines(st', t', user)
            && SameCodes(here, there)
            && st'.used == t'.users[Ledger.UserIndex(t'.users, user).value].used
    decreases |ops|
  {
    if ops != [] {
      StepRefines(st, t, user, ops[0]);
      RunRefinesLedger(StoreStep(st, ops[0]).0, LedgerStep(t, user, ops[0]).0, user, ops[1..]);
    } else {
      UsedIsTotal(st, t, user);
    }
  }

  /** A new user starts the same in both. */
  lemma NewUserRefines(t: Ledger.Tables, user: Name, hash: Name)
    requires Ledger.Consistent(t) && Ledger.UserIndex(t.users, user).None?
    ensures Refines(Store([], 0, INITIAL_CAPACITY), Ledger.CreateUser(t, user, hash, NO_FAULTS).0, user)
  {
    Ledger.CreateKeepsConsistent(t, user, hash, NO_FAULTS);
    var t' := Ledger.CreateUser(t, user, hash, NO_FAULTS).0;
    assert t'.files == t.files;
    assert t'.users[|t.users|] == Ledger.UserRow(t.nextId, user, hash, 0, Ledger.DEFAULT_LIMIT);
    assert Ledger.UserIndex(t'.users, user) == Some(|t.users|);
    NothingAgrees(t.files, t.nextId);
  }

  /** The empty store agrees with an owner without rows. */
  lemma NothingAgrees(files: seq<Ledger.FileRow>, owner: int)
    requires Ledger.UniqueFiles(files) && forall i :: 0 <= i < |files| ==> files[i].owner != owner
    ensures Agree(Store([], 0, INITIAL_CAPACITY), files, owner)
  {
    Ledger.NoFilesNoSum(files, owner);
    forall name ensures SizeThere(files, owner, name) == None {
      assert Ledger.FileIndex(files, owner, name).None?;
    }
  }
}
