/**
 The quota ledger of src/auth/database.c: a users table with a cached `quota_used`, a files
 table, and transactions whose SQL calls may each fail.  SQL statements are atomic
 primitives; the branch structure around them is the source's.
 */
module Ledger {
  import opened Prelude

  type Name = seq<byte>

  const DEFAULT_LIMIT: int := 104857600

  datatype UserRow = UserRow(id: int, name: Name, hash: Name, used: int, limit: int)
  datatype FileRow = FileRow(owner: int, name: Name, size: int)
  datatype Tables = Tables(users: seq<UserRow>, files: seq<FileRow>, nextId: int)

  /** Which SQL calls of one transaction fail. */
  datatype Faults = Faults(begin: bool, prepareId: bool, stepId: bool, prepareWrite: bool, stepWrite: bool,
                           prepareQuota: bool, stepQuota: bool, commit: bool)

  /** `sqlite3_bind_int64` of a `size_t`. */
  function ToInt64(size: nat): int
  {
    var low := size % TWO_64;
    if low < TWO_63 then low else low - TWO_64
  }

  /** `size_t` of a stored integer. */
  function ToSize(v: int): nat
  {
    v % TWO_64
  }

  // ---------------------------------------------------------------- SQL statements

  /** SELECT id FROM users WHERE username = ? */
  function UserIndex(users: seq<UserRow>, name: Name): (i: Option<nat>)
    ensures i.Some? ==> i.value < |users| && users[i.value].name == name
    ensures i.None? ==> forall k :: 0 <= k < |users| ==> users[k].name != name
  {
    if users == [] then None
    else if users[|users| - 1].name == name then Some(|users| - 1)
    else UserIndex(users[..|users| - 1], name)
  }

  /** The users table has a row with this name. */
  predicate Known(users: seq<UserRow>, name: Name)
  {
    exists i :: 0 <= i < |users| && users[i].name == name
  }

  function FileIndex(files: seq<FileRow>, owner: int, name: Name): (i: Option<nat>)
    ensures i.Some? ==> i.value < |files| && files[i.value].owner == owner && files[i.value].name == name
    ensures i.None? ==> forall k :: 0 <= k < |files| ==> files[k].owner != owner || files[k].name != name
  {
    if files == [] then None
    else if files[|files| - 1].owner == owner && files[|files| - 1].name == name then Some(|files| - 1)
    else FileIndex(files[..|files| - 1], owner, name)
  }

  /** INSERT ... ON CONFLICT(user_id, filename) DO UPDATE */
  function Upsert(files: seq<FileRow>, owner: int, name: Name, size: int): seq<FileRow>
  {
    var i := FileIndex(files, owner, name);
    if i.Some? then files[i.value := FileRow(owner, name, size)] else files + [FileRow(owner, name, size)]
  }

  /** DELETE FROM files WHERE user_id = ? AND filename = ? */
  function DeleteFile(files: seq<FileRow>, owner: int, name: Name): seq<FileRow>
  {
    var i := FileIndex(files, owner, name);
    if i.Some? then files[..i.value] + files[i.value + 1..] else files
  }

  /** SELECT COALESCE(SUM(size), 0) FROM files WHERE user_id = ? */
  function SumFor(files: seq<FileRow>, owner: int): int
  {
    if files == [] then 0
    else
      var last := files[|files| - 1];
      SumFor(files[..|files| - 1], owner) + (if last.owner == owner then last.size else 0)
  }

  /** SUM reports an error when its 64-bit accumulator overflows. */
  predicate SumOverflows(files: seq<FileRow>, owner: int)
  {
    files != [] &&
    (SumOverflows(files[..|files| - 1], owner) ||
     !(SumFor(files, owner) + TWO_63 >= 0 && SumFor(files, owner) < TWO_63))
  }

  /** UPDATE users SET quota_used = ? WHERE id = ? */
  function SetUsed(users: seq<UserRow>, id: int, used: int): (r: seq<UserRow>)
    ensures |r| == |users|
    ensures forall k :: 0 <= k < |users| ==> r[k] == if users[k].id == id then users[k].(used := used) else users[k]
  {
    seq(|users|, k requires 0 <= k < |users| => if users[k].id == id then users[k].(used := used) else users[k])
  }

  // ---------------------------------------------------------------- transactions as functions

  /** What `db_add_or_update_file` makes of the tables, and its return code. */
  function AddFile(t: Tables, user: Name, file: Name, size: nat, f: Faults): (Tables, int)
  {
    if f.begin || f.prepareId then (t, -1)
    else if f.stepId || UserIndex(t.users, user).None? then (t, -2)
    else
      var id := t.users[UserIndex(t.users, user).value].id;
      var files := Upsert(t.files, id, file, ToInt64(size));
      if f.prepareWrite || f.stepWrite || f.prepareQuota || f.stepQuota || SumOverflows(files, id) || f.commit
      then (t, -1)
      else (t.(files := files, users := SetUsed(t.users, id, SumFor(files, id))), 0)
  }

  /** The same for `db_remove_file`. */
  function RemoveFile(t: Tables, user: Name, file: Name, f: Faults): (Tables, int)
  {
    if f.begin || f.prepareId then (t, -1)
    else if f.stepId || UserIndex(t.users, user).None? then (t, -2)
    else
      var id := t.users[UserIndex(t.users, user).value].id;
      if f.prepareWrite || f.stepWrite then (t, -1)
      else if FileIndex(t.files, id, file).None? then (t, -3)
      else
        var files := DeleteFile(t.files, id, file);
        if f.prepareQuota || f.stepQuota || SumOverflows(files, id) || f.commit then (t, -1)
        else (t.(files := files, users := SetUsed(t.users, id, SumFor(files, id))), 0)
  }

  function CreateUser(t: Tables, user: Name, hash: Name, f: Faults): (Tables, int)
  {
    if f.prepareWrite then (t, -1)
    else if UserIndex(t.users, user).Some? then (t, -2)
    else if f.stepWrite then (t, -1)
    else (t.(users := t.users + [UserRow(t.nextId, user, hash, 0, DEFAULT_LIMIT)], nextId := t.nextId + 1), 0)
  }

  /** `db_check_quota`: the C expression `(quota_used + additional_bytes) <= quota_limit` on
      `size_t`; an error counts as no quota in `user_check_quota`. */
  function CheckQuota(t: Tables, user: Name, additional: nat, f: Faults): bool
  {
    var i := UserIndex(t.users, user);
    !f.prepareId && !f.stepId && i.Some? &&
    (ToSize(t.users[i.value].used) + additional) % TWO_64 <= ToSize(t.users[i.value].limit)
  }

  // ---------------------------------------------------------------- the database object

  class Database {
    var users: seq<UserRow>
    var files: seq<FileRow>
    var nextId: int
    var savedUsers: seq<UserRow>   // what ROLLBACK restores
    var savedFiles: seq<FileRow>

    function State(): Tables
      reads this
    {
      Tables(users, files, nextId)
    }

    constructor ()
      ensures State() == Tables([], [], 1)
    {
      users, files, nextId := [], [], 1;
      savedUsers, savedFiles := [], [];
    }

    method Begin()
      modifies this
      ensures State() == old(State())
      ensures savedUsers == users && savedFiles == files
    {
      savedUsers, savedFiles := users, files;
    }

    /** ROLLBACK is taken to succeed. */
    method Rollback()
      modifies this
      ensures users == old(savedUsers) && files == old(savedFiles) && nextId == old(nextId)
    {
      users, files := savedUsers, savedFiles;
    }

    /** `db_add_or_update_file`. */
    method AddOrUpdateFile(username: Name, filename: Name, size: nat, faults: Faults) returns (rc: int)
      modifies this
      ensures (State(), rc) == AddFile(old(State()), username, filename, size, faults)
      ensures rc != 0 ==> State() == old(State())
    {
      if faults.begin {
        return -1;
      }
      Begin();
      if faults.prepareId {
        Rollback();
        return -1;
      }
      var row := UserIndex(users, username);
      if faults.stepId || row.None? {
        Rollback();
        return -2;
      }
      var userId := users[row.value].id;
      if faults.prepareWrite || faults.stepWrite {
        Rollback();
        return -1;
      }
      files := Upsert(files, userId, filename, ToInt64(size));
      if faults.prepareQuota {
        Rollback();
        return -1;
      }
      if faults.stepQuota || SumOverflows(files, userId) {
        Rollback();
        return -1;
      }
      users := SetUsed(users, userId, SumFor(files, userId));
      if faults.commit {
        Rollback();
        return -1;
      }
      return 0;
    }

    /** `db_remove_file`. */
    method Remove(username: Name, filename: Name, faults: Faults) returns (rc: int)
      modifies this
      ensures (State(), rc) == RemoveFile(old(State()), username, filename, faults)
      ensures rc != 0 ==> State() == old(State())
    {
      if faults.begin {
        return -1;
      }
      Begin();
      if faults.prepareId {
        Rollback();
        return -1;
      }
      var row := UserIndex(users, username);
      if faults.stepId || row.None? {
        Rollback();
        return -2;
      }
      var userId := users[row.value].id;
      if faults.prepareWrite || faults.stepWrite {
        Rollback();
        return -1;
      }
      var changes := if FileIndex(files, userId, filename).Some? then 1 else 0;
      files := DeleteFile(files, userId, filename);
      if changes == 0 {
        Rollback();
        return -3;
      }
      if faults.prepareQuota || faults.stepQuota || SumOverflows(files, userId) {
        Rollback();
        return -1;
      }
      users := SetUsed(users, userId, SumFor(files, userId));
      if faults.commit {
        Rollback();
        return -1;
      }
      return 0;
    }

    method Create(username: Name, hash: Name, faults: Faults) returns (rc: int)
      modifies this
      ensures (State(), rc) == CreateUser(old(State()), username, hash, faults)
      ensures rc == 0 <==> !faults.prepareWrite && !faults.stepWrite && !Known(old(users), username)
      ensures rc == -2 <==> !faults.prepareWrite && Known(old(users), username)
      ensures rc == 0 ==>
                users == old(users) + [UserRow(old(nextId), username, hash, 0, DEFAULT_LIMIT)] &&
                files == old(files) && nextId == old(nextId) + 1
      ensures rc != 0 ==> rc in {-1, -2} && State() == old(State())
    {
      if faults.prepareWrite {
        return -1;
      }
      if UserIndex(users, username).Some? {
        return -2;
      }
      if faults.stepWrite {
        return -1;
      }
      users := users + [UserRow(nextId, username, hash, 0, DEFAULT_LIMIT)];
      nextId := nextId + 1;
      return 0;
    }

    /** `db_update_user_quota`: recompute the cached value outside a transaction. */
    method UpdateUserQuota(username: Name, faults: Faults) returns (rc: int)
      modifies this
      ensures rc == 0 <==>
              !faults.prepareQuota && !faults.stepQuota &&
              (UserIndex(old(users), username).Some? ==>
                 !SumOverflows(old(files), old(users)[UserIndex(old(users), username).value].id))
      ensures rc in {0, -1}
      ensures rc == 0 ==> files == old(files) && nextId == old(nextId)
      ensures rc == 0 && UserIndex(old(users), username).Some? ==>
                var id := old(users)[UserIndex(old(users), username).value].id;
                users == SetUsed(old(users), id, SumFor(files, id))
      ensures rc != 0 || UserIndex(old(users), username).None? ==> State() == old(State())
    {
      var row := UserIndex(users, username);
      if faults.prepareQuota || faults.stepQuota {
        return -1;
      }
      if row.Some? {
        var id := users[row.value].id;
        if SumOverflows(files, id) {
          return -1;
        }
        users := SetUsed(users, id, SumFor(files, id));
      }
      return 0;
    }
  }

  // ---------------------------------------------------------------- the ledger invariant

  ghost predicate UniqueFiles(files: seq<FileRow>)
  {
    forall a, b :: 0 <= a < b < |files| ==> files[a].owner != files[b].owner || files[a].name != files[b].name
  }

  /** Keys are unique and every cached `quota_used` is the sum of the user's file sizes. */
  ghost predicate Consistent(t: Tables)
  {
    && (forall i, j :: 0 <= i < j < |t.users| ==> t.users[i].id != t.users[j].id && t.users[i].name != t.users[j].name)
    && (forall i :: 0 <= i < |t.users| ==> t.users[i].id < t.nextId)
    && UniqueFiles(t.files)
    && (forall i :: 0 <= i < |t.files| ==> t.files[i].owner < t.nextId)
    && (forall i :: 0 <= i < |t.users| ==> t.users[i].used == SumFor(t.files, t.users[i].id))
  }

  lemma {:induction false} SumAppend(a: seq<FileRow>, b: seq<FileRow>, owner: int)
    ensures SumFor(a + b, owner) == SumFor(a, owner) + SumFor(b, owner)
  {
    if b == [] {
      assert a + b == a;
    } else {
      assert (a + b)[..|a + b| - 1] == a + b[..|b| - 1];
      SumAppend(a, b[..|b| - 1], owner);
    }
  }

  lemma SumOfOne(r: FileRow, owner: int)
    ensures SumFor([r], owner) == if r.owner == owner then r.size else 0
  {
    assert [r][..0] == [];
  }

  /** A table is the rows before one, that row, and the rows after it. */
  lemma SumSplit(files: seq<FileRow>, i: nat, owner: int)
    requires i < |files|
    ensures SumFor(files, owner) ==
            SumFor(files[..i], owner) + (if files[i].owner == owner then files[i].size else 0) +
            SumFor(files[i + 1..], owner)
  {
    assert files == files[..i] + ([files[i]] + files[i + 1..]);
    SumAppend(files[..i], [files[i]] + files[i + 1..], owner);
    SumAppend([files[i]], files[i + 1..], owner);
    SumOfOne(files[i], owner);
  }

  /** Size of a stored file; 0 when there is none. */
  function StoredSize(files: seq<FileRow>, owner: int, name: Name): int
  {
    var i := FileIndex(files, owner, name);
    if i.Some? then files[i.value].size else 0
  }

  /** The recomputed sum moves by the difference the change makes, for that owner alone. */
  lemma UpsertMovesSum(files: seq<FileRow>, owner: int, name: Name, size: int, who: int)
    ensures SumFor(Upsert(files, owner, name, size), who) ==
            SumFor(files, who) + (if who == owner then size - StoredSize(files, owner, name) else 0)
  {
    var i := FileIndex(files, owner, name);
    var r := FileRow(owner, name, size);
    if i.Some? {
      var files' := files[i.value := r];
      SumSplit(files, i.value, who);
      SumSplit(files', i.value, who);
      assert files'[..i.value] == files[..i.value] && files'[i.value + 1..] == files[i.value + 1..];
    } else {
      SumAppend(files, [r], who);
      SumOfOne(r, who);
    }
  }

  lemma DeleteMovesSum(files: seq<FileRow>, owner: int, name: Name, who: int)
    ensures SumFor(DeleteFile(files, owner, name), who) ==
            SumFor(files, who) - (if who == owner then StoredSize(files, owner, name) else 0)
  {
    var i := FileIndex(files, owner, name);
    if i.Some? {
      SumSplit(files, i.value, who);
      SumAppend(files[..i.value], files[i.value + 1..], who);
    }
  }

  lemma UsedOthersUnchanged(t: Tables, id: int, files: seq<FileRow>)
    requires Consistent(t)
    requires UniqueFiles(files)
    requires forall i :: 0 <= i < |files| ==> files[i].owner < t.nextId
    requires forall who :: who != id ==> SumFor(files, who) == SumFor(t.files, who)
    ensures Consistent(t.(files := files, users := SetUsed(t.users, id, SumFor(files, id))))
  {
  }

  lemma AddKeepsConsistent(t: Tables, user: Name, file: Name, size: nat, f: Faults)
    requires Consistent(t)
    ensures Consistent(AddFile(t, user, file, size, f).0)
  {
    if AddFile(t, user, file, size, f).1 == 0 {
      var id := t.users[UserIndex(t.users, user).value].id;
      forall who | who != id ensures SumFor(Upsert(t.files, id, file, ToInt64(size)), who) == SumFor(t.files, who) {
        UpsertMovesSum(t.files, id, file, ToInt64(size), who);
      }
      UsedOthersUnchanged(t, id, Upsert(t.files, id, file, ToInt64(size)));
    }
  }

  lemma RemoveKeepsConsistent(t: Tables, user: Name, file: Name, f: Faults)
    requires Consistent(t)
    ensures Consistent(RemoveFile(t, user, file, f).0)
  {
    if RemoveFile(t, user, file, f).1 == 0 {
      var id := t.users[UserIndex(t.users, user).value].id;
      forall who | who != id ensures SumFor(DeleteFile(t.files, id, file), who) == SumFor(t.files, who) {
        DeleteMovesSum(t.files, id, file, who);
      }
      UsedOthersUnchanged(t, id, DeleteFile(t.files, id, file));
    }
  }

  lemma {:induction false} NoFilesNoSum(files: seq<FileRow>, owner: int)
    requires forall i :: 0 <= i < |files| ==> files[i].owner != owner
    ensures SumFor(files, owner) == 0
  {
    if files != [] {
      NoFilesNoSum(files[..|files| - 1], owner);
    }
  }

  lemma CreateKeepsConsistent(t: Tables, user: Name, hash: Name, f: Faults)
    requires Consistent(t)
    ensures Consistent(CreateUser(t, user, hash, f).0)
  {
    NoFilesNoSum(t.files, t.nextId);
  }

  // ---------------------------------------------------------------- main results

  datatype Op =
    | Add(user: Name, file: Name, size: nat, f: Faults)
    | Remove(user: Name, file: Name, f: Faults)
    | Create(user: Name, hash: Name, f: Faults)

  function Step(t: Tables, op: Op): (Tables, int)
  {
    match op
    case Add(u, n, size, f) => AddFile(t, u, n, size, f)
    case Remove(u, n, f) => RemoveFile(t, u, n, f)
    case Create(u, h, f) => CreateUser(t, u, h, f)
  }

  function Run(t: Tables, ops: seq<Op>): Tables
    decreases |ops|
  {
    if ops == [] then t else Run(Step(t, ops[0]).0, ops[1..])
  }

  /** Whatever SQL calls fail, in every committed state every cached quota is the sum of that
      user's file sizes. */
  lemma {:induction false} RunKeepsConsistent(t: Tables, ops: seq<Op>)
    requires Consistent(t)
    ensures Consistent(Run(t, ops))
    decreases |ops|
  {
    if ops != [] {
      match ops[0] {
        case Add(u, n, size, f) => AddKeepsConsistent(t, u, n, size, f);
        case Remove(u, n, f) => RemoveKeepsConsistent(t, u, n, f);
        case Create(u, h, f) => CreateKeepsConsistent(t, u, h, f);
      }
      RunKeepsConsistent(Step(t, ops[0]).0, ops[1..]);
    }
  }

  /** Every row but the one for (`owner`, `name`) is as before. */
  ghost predicate OtherFilesKept(files: seq<FileRow>, files': seq<FileRow>, owner: int, name: Name)
  {
    forall who, what :: who != owner || what != name ==>
      && (FileIndex(files', who, what).Some? <==> FileIndex(files, who, what).Some?)
      && StoredSize(files', who, what) == StoredSize(files, who, what)
  }

  /** A row is found from its position when keys are unique. */
  lemma FileIndexIs(files: seq<FileRow>, i: nat)
    requires i < |files| && UniqueFiles(files)
    ensures FileIndex(files, files[i].owner, files[i].name) == Some(i)
  {
    var k := FileIndex(files, files[i].owner, files[i].name);
    assert k.Some?;
  }

  lemma UpsertKeepsOthers(files: seq<FileRow>, owner: int, name: Name, size: int)
    requires UniqueFiles(files)
    ensures var files' := Upsert(files, owner, name, size);
            && UniqueFiles(files') && OtherFilesKept(files, files', owner, name)
            && FileIndex(files', owner, name).Some? && StoredSize(files', owner, name) == size
  {
    var files' := Upsert(files, owner, name, size);
    var i := FileIndex(files, owner, name);
    var at := if i.Some? then i.value else |files|;
    assert files'[at] == FileRow(owner, name, size);
    FileIndexIs(files', at);
    forall who, what | who != owner || what != name
      ensures FileIndex(files', who, what) == FileIndex(files, who, what)
    {
      var w := FileIndex(files, who, what);
      if w.Some? {
        assert files'[w.value] == files[w.value];
        FileIndexIs(files', w.value);
      }
    }
  }

  lemma DeleteKeepsOthers(files: seq<FileRow>, owner: int, name: Name)
    requires UniqueFiles(files)
    ensures var files' := DeleteFile(files, owner, name);
            && UniqueFiles(files') && OtherFilesKept(files, files', owner, name)
            && FileIndex(files', owner, name).None?
  {
    var files' := DeleteFile(files, owner, name);
    var i := FileIndex(files, owner, name);
    if i.Some? {
      forall who, what | who != owner || what != name
        ensures FileIndex(files', who, what).Some? <==> FileIndex(files, who, what).Some?
        ensures StoredSize(files', who, what) == StoredSize(files, who, what)
      {
        var w := FileIndex(files, who, what);
        if w.Some? {
          var at := if w.value < i.value then w.value else w.value - 1;
          assert files'[at] == files[w.value];
          FileIndexIs(files', at);
        }
      }
    }
  }

  /** A transaction is all or nothing: a non-zero code changes no table; code 0 changes exactly
      the named file of the named user and moves that user's quota by the difference in size. */
  lemma AddIsAllOrNothing(t: Tables, user: Name, file: Name, size: nat, f: Faults)
    requires Consistent(t) && size < TWO_63
    ensures var (t', rc) := AddFile(t, user, file, size, f);
            && rc in {0, -1, -2}
            && (rc != 0 ==> t' == t)
            && (rc == 0 ==>
                  && UserIndex(t.users, user).Some?
                  && var u := UserIndex(t.users, user).value;
                     && StoredSize(t'.files, t.users[u].id, file) == size
                     && OtherFilesKept(t.files, t'.files, t.users[u].id, file)
                     && t'.users == t.users[u := t.users[u].(used :=
                          t.users[u].used + size - StoredSize(t.files, t.users[u].id, file))])
  {
    var (t', rc) := AddFile(t, user, file, size, f);
    if rc == 0 {
      var id := t.users[UserIndex(t.users, user).value].id;
      UpsertMovesSum(t.files, id, file, size, id);
      UpsertKeepsOthers(t.files, id, file, size);
    }
  }

  lemma RemoveIsAllOrNothing(t: Tables, user: Name, file: Name, f: Faults)
    requires Consistent(t)
    ensures var (t', rc) := RemoveFile(t, user, file, f);
            && rc in {0, -1, -2, -3}
            && (rc != 0 ==> t' == t)
            && (rc == 0 ==>
                  && UserIndex(t.users, user).Some?
                  && var u := UserIndex(t.users, user).value;
                     && FileIndex(t.files, t.users[u].id, file).Some?
                     && FileIndex(t'.files, t.users[u].id, file).None?
                     && OtherFilesKept(t.files, t'.files, t.users[u].id, file)
                     && t'.users == t.users[u := t.users[u].(used :=
                          t.users[u].used - StoredSize(t.files, t.users[u].id, file))])
  {
    var (t', rc) := RemoveFile(t, user, file, f);
    if rc == 0 {
      var id := t.users[UserIndex(t.users, user).value].id;
      DeleteMovesSum(t.files, id, file, id);
      DeleteKeepsOthers(t.files, id, file);
    }
  }

  // ---------------------------------------------------------------- return codes

  predicate NoFault(f: Faults)
  {
    && !f.begin && !f.prepareId && !f.stepId && !f.prepareWrite && !f.stepWrite
    && !f.prepareQuota && !f.stepQuota && !f.commit
  }

  /** The number bound for a size is the signed one with the same 64 bits. */
  lemma ToInt64IsSigned(size: nat)
    ensures 0 - TWO_63 <= ToInt64(size) < TWO_63 && (ToInt64(size) - size) % TWO_64 == 0
    ensures ToSize(ToInt64(size)) == size % TWO_64
  {
  }

  /** SUM fails exactly when the sum of some first rows leaves the 64-bit range. */
  lemma {:induction false} SumOverflowsIff(files: seq<FileRow>, owner: int)
    ensures SumOverflows(files, owner) <==>
            exists k :: 0 <= k <= |files| && !(0 - TWO_63 <= SumFor(files[..k], owner) < TWO_63)
  {
    if files != [] {
      var front := files[..|files| - 1];
      SumOverflowsIff(front, owner);
      assert files[..|files|] == files;
      assert forall k :: 0 <= k <= |front| ==> front[..k] == files[..k];
    }
  }

  /** When an upload is recorded, when its user is unknown, and when something fails. */
  lemma AddCodes(t: Tables, user: Name, file: Name, size: nat, f: Faults)
    ensures var rc := AddFile(t, user, file, size, f).1;
            && rc in {0, -1, -2}
            && (rc == -2 <==> !f.begin && !f.prepareId && (f.stepId || !Known(t.users, user)))
            && (rc == 0 <==>
                  && NoFault(f) && Known(t.users, user)
                  && var id := t.users[UserIndex(t.users, user).value].id;
                     !SumOverflows(Upsert(t.files, id, file, ToInt64(size)), id))
  {
    KnownIff(t.users, user);
  }

  lemma KnownIff(users: seq<UserRow>, name: Name)
    ensures Known(users, name) <==> UserIndex(users, name).Some?
  {
  }

  /** The same for a removal, with its own code for a file that is not there. */
  lemma RemoveCodes(t: Tables, user: Name, file: Name, f: Faults)
    ensures var rc := RemoveFile(t, user, file, f).1;
            && rc in {0, -1, -2, -3}
            && (rc == -2 <==> !f.begin && !f.prepareId && (f.stepId || !Known(t.users, user)))
            && (rc == -3 <==>
                  && !f.begin && !f.prepareId && !f.stepId && !f.prepareWrite && !f.stepWrite
                  && Known(t.users, user) && !HasFile(t, user, file))
            && (rc == 0 <==>
                  && NoFault(f) && Known(t.users, user) && HasFile(t, user, file)
                  && var id := t.users[UserIndex(t.users, user).value].id;
                     !SumOverflows(DeleteFile(t.files, id, file), id))
  {
    KnownIff(t.users, user);
  }

  /** The user's row owns a file of this name. */
  predicate HasFile(t: Tables, user: Name, file: Name)
  {
    var u := UserIndex(t.users, user);
    u.Some? && exists i :: 0 <= i < |t.files| && t.files[i].owner == t.users[u.value].id && t.files[i].name == file
  }

  /** A new user appears exactly when the name was free and no call failed, and then with this
      name and hash, nothing used and the default limit; a taken name is told apart from a
      failure, and changes nothing. */
  lemma CreateCodes(t: Tables, user: Name, hash: Name, f: Faults)
    ensures var (t', rc) := CreateUser(t, user, hash, f);
            && rc in {0, -1, -2}
            && (rc == 0 <==> !f.prepareWrite && !f.stepWrite && !Known(t.users, user))
            && (rc == -2 <==> !f.prepareWrite && Known(t.users, user))
            && (rc != 0 ==> t' == t)
            && (rc == 0 ==>
                  && t'.users == t.users + [UserRow(t.nextId, user, hash, 0, DEFAULT_LIMIT)]
                  && t'.files == t.files && t'.nextId == t.nextId + 1)
  {
    KnownIff(t.users, user);
  }

  /** An upload passes the check only for a known user, with no failing call, and then exactly
      when the claim fits; for numbers whose sum stays below 2^64. */
  lemma CheckQuotaIff(t: Tables, user: Name, additional: nat, f: Faults)
    requires forall i :: 0 <= i < |t.users| ==>
               0 <= t.users[i].used && 0 <= t.users[i].limit < TWO_63 && t.users[i].used + additional < TWO_64
    ensures CheckQuota(t, user, additional, f) <==>
            && !f.prepareId && !f.stepId && Known(t.users, user)
            && var r := t.users[UserIndex(t.users, user).value];
               r.used + additional <= r.limit
  {
    KnownIff(t.users, user);
  }

  // ---------------------------------------------------------------- the cached value

  /** On a consistent ledger `db_update_user_quota` has nothing to correct. */
  lemma RecomputeChangesNothing(t: Tables, i: nat)
    requires Consistent(t) && i < |t.users|
    ensures SetUsed(t.users, t.users[i].id, SumFor(t.files, t.users[i].id)) == t.users
  {
  }

  /** The wrap-around check is the intended one exactly when the sum stays below 2^64 or wraps to
      more than the limit. */
  lemma CheckQuotaIsExactIff(t: Tables, user: Name, additional: nat, f: Faults)
    requires additional < TWO_64 && !f.prepareId && !f.stepId
    requires UserIndex(t.users, user).Some?
    requires var r := t.users[UserIndex(t.users, user).value]; 0 <= r.used < TWO_63 && 0 <= r.limit < TWO_63
    ensures var r := t.users[UserIndex(t.users, user).value];
            (CheckQuota(t, user, additional, f) <==> r.used + additional <= r.limit) <==>
            (r.used + additional < TWO_64 || r.used + additional - TWO_64 > r.limit)
  {
  }
}
