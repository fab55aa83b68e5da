/**
 The quota check of a client thread and the metadata commit of a worker are two separate
 steps.  With any number of client threads between them, this is how far the soft limit can
 be overshot, and that the bound is reached.
 */
module QuotaRace {
  import opened Prelude
  import opened Ledger

  /** An upload that passed the check and is not yet committed or abandoned. */
  datatype Claim = Claim(user: Name, size: nat)

  /** One entry of `pending` per client thread. */
  datatype Race = Race(tables: Tables, pending: seq<Option<Claim>>)

  datatype Action =
    | Check(c: nat, user: Name, size: nat, f: Faults)
    | Abandon(c: nat)
    | Commit(c: nat, file: Name, f: Faults)
    | Erase(user: Name, file: Name, f: Faults)
    | SignUp(user: Name, hash: Name, f: Faults)

  function Init(clients: nat): Race
  {
    Race(Tables([], [], 1), seq(clients, _ => None))
  }

  /** Upload sizes stay below 2^63: larger buffers cannot be allocated. */
  predicate Enabled(s: Race, a: Action)
  {
    match a
    case Check(c, _, size, _) => c < |s.pending| && s.pending[c].None? && size < TWO_63
    case Abandon(c) => c < |s.pending| && s.pending[c].Some?
    case Commit(c, _, _) => c < |s.pending| && s.pending[c].Some?
    case _ => true
  }

  function Apply(s: Race, a: Action): Race
    requires Enabled(s, a)
  {
    match a
    case Check(c, user, size, f) =>
      if CheckQuota(s.tables, user, size, f) then s.(pending := s.pending[c := Some(Claim(user, size))]) else s
    case Abandon(c) => s.(pending := s.pending[c := None])
    case Commit(c, file, f) =>
      Race(AddFile(s.tables, s.pending[c].value.user, file, s.pending[c].value.size, f).0, s.pending[c := None])
    case Erase(user, file, f) => s.(tables := RemoveFile(s.tables, user, file, f).0)
    case SignUp(user, hash, f) => s.(tables := CreateUser(s.tables, user, hash, f).0)
  }

  predicate Valid(s: Race, acts: seq<Action>)
    decreases |acts|
  {
    acts == [] || (Enabled(s, acts[0]) && Valid(Apply(s, acts[0]), acts[1..]))
  }

  function Final(s: Race, acts: seq<Action>): Race
    requires Valid(s, acts)
    decreases |acts|
  {
    if acts == [] then s else Final(Apply(s, acts[0]), acts[1..])
  }

  /** Bytes of `user` that were checked but are neither committed nor abandoned. */
  function Claimed(pending: seq<Option<Claim>>, user: Name): nat
  {
    if pending == [] then 0
    else
      var last := pending[|pending| - 1];
      Claimed(pending[..|pending| - 1], user) + (if last.Some? && last.value.user == user then last.value.size else 0)
  }

  function ShareOf(c: Option<Claim>, user: Name): nat
  {
    if c.Some? && c.value.user == user then c.value.size else 0
  }

  lemma {:induction false} ClaimedUpdate(pending: seq<Option<Claim>>, c: nat, after: Option<Claim>, user: Name)
    requires c < |pending|
    ensures Claimed(pending[c := after], user) ==
            Claimed(pending, user) - ShareOf(pending[c], user) + ShareOf(after, user)
  {
    var n := |pending| - 1;
    if c == n {
      assert pending[c := after][..n] == pending[..n];
    } else {
      assert pending[c := after][..n] == pending[..n][c := after];
      ClaimedUpdate(pending[..n], c, after, user);
    }
  }

  /** `n` limits. */
  function Limits(n: nat): nat
  {
    n * DEFAULT_LIMIT
  }

  ghost predicate SmallClaims(pending: seq<Option<Claim>>)
  {
    forall c :: 0 <= c < |pending| && pending[c].Some? ==> pending[c].value.size <= DEFAULT_LIMIT
  }

  lemma {:induction false} ClaimsAreBounded(pending: seq<Option<Claim>>, user: Name)
    requires SmallClaims(pending)
    ensures Claimed(pending, user) <= Limits(|pending|)
  {
    if pending != [] {
      ClaimsAreBounded(pending[..|pending| - 1], user);
    }
  }

  lemma {:induction false} IdleClientLeavesRoom(pending: seq<Option<Claim>>, c: nat, user: Name)
    requires SmallClaims(pending) && c < |pending| && pending[c].None?
    ensures Claimed(pending, user) + DEFAULT_LIMIT <= Limits(|pending|)
  {
    var front := pending[..|pending| - 1];
    if c == |front| {
      ClaimsAreBounded(front, user);
    } else {
      IdleClientLeavesRoom(front, c, user);
    }
  }

  ghost predicate SizesOk(files: seq<FileRow>)
  {
    forall i :: 0 <= i < |files| ==> 0 <= files[i].size
  }

  ghost predicate ClaimsHaveUsers(users: seq<UserRow>, pending: seq<Option<Claim>>)
  {
    forall c :: 0 <= c < |pending| && pending[c].Some? ==> UserIndex(users, pending[c].value.user).Some?
  }

  /** Row `i` obeys the bound of `n` limits together with the claims of its user. */
  ghost predicate RowBounded(u: UserRow, pending: seq<Option<Claim>>)
  {
    u.limit == DEFAULT_LIMIT && 0 <= u.used && u.used + Claimed(pending, u.name) <= Limits(|pending|)
  }

  ghost predicate Bounded(s: Race)
  {
    && Consistent(s.tables)
    && SmallClaims(s.pending)
    && SizesOk(s.tables.files)
    && (forall i :: 0 <= i < |s.tables.users| ==> RowBounded(s.tables.users[i], s.pending))
    && ClaimsHaveUsers(s.tables.users, s.pending)
  }

  lemma CheckKeepsBounded(s: Race, c: nat, user: Name, size: nat, f: Faults)
    requires Bounded(s) && Limits(|s.pending|) <= TWO_63 && Enabled(s, Check(c, user, size, f))
    ensures Bounded(Apply(s, Check(c, user, size, f)))
  {
    if CheckQuota(s.tables, user, size, f) {
      var u := UserIndex(s.tables.users, user).value;
      assert s.tables.users[u].used + size <= DEFAULT_LIMIT;
      forall i | 0 <= i < |s.tables.users|
        ensures s.tables.users[i].used + Claimed(s.pending[c := Some(Claim(user, size))], s.tables.users[i].name)
                <= Limits(|s.pending|)
      {
        ClaimedUpdate(s.pending, c, Some(Claim(user, size)), s.tables.users[i].name);
        IdleClientLeavesRoom(s.pending, c, s.tables.users[i].name);
      }
    }
  }

  lemma AbandonKeepsBounded(s: Race, c: nat)
    requires Bounded(s) && Enabled(s, Abandon(c))
    ensures Bounded(Apply(s, Abandon(c)))
  {
    forall i | 0 <= i < |s.tables.users|
      ensures Claimed(s.pending[c := None], s.tables.users[i].name) <= Claimed(s.pending, s.tables.users[i].name)
    {
      ClaimedUpdate(s.pending, c, None, s.tables.users[i].name);
    }
  }

  /** Dropping a claim and charging at most its size to its user keeps every row bounded. */
  lemma ChargeKeepsRowBounded(row: UserRow, row': UserRow, pending: seq<Option<Claim>>, c: nat)
    requires c < |pending| && pending[c].Some? && RowBounded(row, pending)
    requires row'.name == row.name && row'.limit == row.limit && 0 <= row'.used
    requires row'.used <= row.used + ShareOf(pending[c], row.name)
    ensures RowBounded(row', pending[c := None])
  {
    ClaimedUpdate(pending, c, None, row.name);
  }

  lemma UpsertKeepsSizes(files: seq<FileRow>, owner: int, name: Name, size: nat)
    requires SizesOk(files) && size < TWO_63
    ensures SizesOk(Upsert(files, owner, name, ToInt64(size)))
  {
  }

  lemma CommitKeepsBounded(s: Race, c: nat, file: Name, f: Faults)
    requires Bounded(s) && Enabled(s, Commit(c, file, f))
    ensures Bounded(Apply(s, Commit(c, file, f)))
  {
    var claim := s.pending[c].value;
    var (t', rc) := AddFile(s.tables, claim.user, file, claim.size, f);
    AddIsAllOrNothing(s.tables, claim.user, file, claim.size, f);
    AddKeepsConsistent(s.tables, claim.user, file, claim.size, f);
    if rc != 0 {
      AbandonKeepsBounded(s, c);
    } else {
      var u := UserIndex(s.tables.users, claim.user).value;
      UpsertKeepsSizes(s.tables.files, s.tables.users[u].id, file, claim.size);
      NonNegativeSum(t'.files, s.tables.users[u].id);
      assert StoredSize(s.tables.files, s.tables.users[u].id, file) >= 0;
      forall i | 0 <= i < |t'.users| ensures RowBounded(t'.users[i], s.pending[c := None]) {
        ChargeKeepsRowBounded(s.tables.users[i], t'.users[i], s.pending, c);
      }
      ClaimsKept(s.tables.users, t'.users, s.pending);
    }
  }

  lemma {:induction false} NonNegativeSum(files: seq<FileRow>, owner: int)
    requires forall i :: 0 <= i < |files| ==> 0 <= files[i].size
    ensures 0 <= SumFor(files, owner)
  {
    if files != [] {
      NonNegativeSum(files[..|files| - 1], owner);
    }
  }

  lemma ClaimsKept(users: seq<UserRow>, users': seq<UserRow>, pending: seq<Option<Claim>>)
    requires ClaimsHaveUsers(users, pending)
    requires |users| <= |users'| && forall i :: 0 <= i < |users| ==> users'[i].name == users[i].name
    ensures ClaimsHaveUsers(users', pending)
  {
    forall k | 0 <= k < |pending| && pending[k].Some? ensures UserIndex(users', pending[k].value.user).Some? {
      var i := UserIndex(users, pending[k].value.user).value;
      assert users'[i].name == pending[k].value.user;
    }
  }

  lemma DeleteKeepsSizes(files: seq<FileRow>, owner: int, name: Name)
    requires SizesOk(files)
    ensures SizesOk(DeleteFile(files, owner, name))
  {
  }

  lemma EraseKeepsBounded(s: Race, user: Name, file: Name, f: Faults)
    requires Bounded(s)
    ensures Bounded(Apply(s, Erase(user, file, f)))
  {
    var (t', rc) := RemoveFile(s.tables, user, file, f);
    RemoveKeepsConsistent(s.tables, user, file, f);
    RemoveIsAllOrNothing(s.tables, user, file, f);
    if rc == 0 {
      var u := UserIndex(s.tables.users, user).value;
      DeleteKeepsSizes(s.tables.files, s.tables.users[u].id, file);
      NonNegativeSum(t'.files, s.tables.users[u].id);
      assert StoredSize(s.tables.files, s.tables.users[u].id, file) >= 0;
      CreditKeepsRowsBounded(s.tables.users, t'.users, u, s.pending);
      ClaimsKept(s.tables.users, t'.users, s.pending);
    }
  }

  /** Crediting one user keeps every row bounded. */
  lemma CreditKeepsRowsBounded(users: seq<UserRow>, users': seq<UserRow>, u: nat, pending: seq<Option<Claim>>)
    requires u < |users| == |users'| && 0 <= users'[u].used <= users[u].used
    requires users' == users[u := users[u].(used := users'[u].used)]
    requires forall i :: 0 <= i < |users| ==> RowBounded(users[i], pending)
    ensures forall i :: 0 <= i < |users'| ==> RowBounded(users'[i], pending)
  {
    forall i | 0 <= i < |users'| ensures RowBounded(users'[i], pending) {
      assert RowBounded(users[i], pending);
    }
  }

  lemma {:induction false} NobodyClaims(pending: seq<Option<Claim>>, user: Name)
    requires forall c :: 0 <= c < |pending| && pending[c].Some? ==> pending[c].value.user != user
    ensures Claimed(pending, user) == 0
  {
    if pending != [] {
      NobodyClaims(pending[..|pending| - 1], user);
    }
  }

  lemma SignUpKeepsBounded(s: Race, user: Name, hash: Name, f: Faults)
    requires Bounded(s)
    ensures Bounded(Apply(s, SignUp(user, hash, f)))
  {
    CreateKeepsConsistent(s.tables, user, hash, f);
    var t' := CreateUser(s.tables, user, hash, f).0;
    if t' != s.tables {
      NobodyClaims(s.pending, user);
      ClaimsKept(s.tables.users, t'.users, s.pending);
    }
  }

  lemma StepKeepsBounded(s: Race, a: Action)
    requires Bounded(s) && Limits(|s.pending|) <= TWO_63 && Enabled(s, a)
    ensures Bounded(Apply(s, a)) && |Apply(s, a).pending| == |s.pending|
  {
    match a {
      case Check(c, user, size, f) => CheckKeepsBounded(s, c, user, size, f);
      case Abandon(c) => AbandonKeepsBounded(s, c);
      case Commit(c, file, f) => CommitKeepsBounded(s, c, file, f);
      case Erase(user, file, f) => EraseKeepsBounded(s, user, file, f);
      case SignUp(user, hash, f) => SignUpKeepsBounded(s, user, hash, f);
    }
  }

  lemma {:induction false} RunsStayBounded(s: Race, acts: seq<Action>)
    requires Bounded(s) && Limits(|s.pending|) <= TWO_63 && Valid(s, acts)
    ensures Bounded(Final(s, acts)) && |Final(s, acts).pending| == |s.pending|
    decreases |acts|
  {
    if acts != [] {
      StepKeepsBounded(s, acts[0]);
      RunsStayBounded(Apply(s, acts[0]), acts[1..]);
    }
  }

  /** How soft the limit is: in every interleaving of checks, commits, overwrites, deletes and
      failures, a user's committed bytes plus that user's checked but uncommitted uploads never
      exceed one limit per client thread.  With one client thread the limit is hard. */
  lemma OvershootBound(clients: nat, acts: seq<Action>, i: nat)
    requires Limits(clients) <= TWO_63 && Valid(Init(clients), acts)
    requires i < |Final(Init(clients), acts).tables.users|
    ensures var s := Final(Init(clients), acts);
            var u := s.tables.users[i];
            && u.used == SumFor(s.tables.files, u.id)
            && 0 <= u.used && u.used + Claimed(s.pending, u.name) <= clients * DEFAULT_LIMIT
            && (clients == 1 ==> u.used <= u.limit)
  {
    RunsStayBounded(Init(clients), acts);
  }

  // ---------------------------------------------------------------- the bound is reached

  const NO_FAULT := Faults(false, false, false, false, false, false, false, false)
  const BOB: Name := [98, 111, 98]

  function FileName(k: nat): Name
  {
    seq(k + 1, _ => 97)
  }

  /** Clients k and up each check an upload of a whole limit. */
  function Checks(k: nat, n: nat): seq<Action>
    requires k <= n
    decreases n - k
  {
    if k == n then [] else [Check(k, BOB, DEFAULT_LIMIT, NO_FAULT)] + Checks(k + 1, n)
  }

  function Commits(k: nat, n: nat): seq<Action>
    requires k <= n
    decreases n - k
  {
    if k == n then [] else [Commit(k, FileName(k), NO_FAULT)] + Commits(k + 1, n)
  }

  function OvershootRun(n: nat): seq<Action>
  {
    [SignUp(BOB, [], NO_FAULT)] + (Checks(0, n) + Commits(0, n))
  }

  lemma {:induction false} RunsCompose(s: Race, a: seq<Action>, b: seq<Action>)
    requires Valid(s, a) && Valid(Final(s, a), b)
    ensures Valid(s, a + b) && Final(s, a + b) == Final(Final(s, a), b)
    decreases |a|
  {
    if a == [] {
      assert a + b == b;
    } else {
      assert (a + b)[0] == a[0] && (a + b)[1..] == a[1..] + b;
      RunsCompose(Apply(s, a[0]), a[1..], b);
    }
  }

  /** Bob is the only user and has committed `k` files of a whole limit. */
  ghost predicate Committed(t: Tables, k: nat)
  {
    && t.users == [UserRow(1, BOB, [], Limits(k), DEFAULT_LIMIT)]
    && t.files == seq(k, i requires 0 <= i < k => FileRow(1, FileName(i), DEFAULT_LIMIT))
  }

  ghost predicate ClaimsFrom(pending: seq<Option<Claim>>, from: nat, to: nat)
  {
    forall c :: 0 <= c < |pending| ==>
      pending[c] == if from <= c < to then Some(Claim(BOB, DEFAULT_LIMIT)) else None
  }

  lemma BobIsFirst(t: Tables, k: nat)
    requires Committed(t, k)
    ensures UserIndex(t.users, BOB) == Some(0)
  {
    assert UserIndex(t.users, BOB).Some?;
  }

  lemma {:induction false} ChecksPass(s: Race, k: nat, n: nat)
    requires k <= n == |s.pending| && Committed(s.tables, 0) && ClaimsFrom(s.pending, 0, k)
    ensures Valid(s, Checks(k, n))
    ensures Final(s, Checks(k, n)).tables == s.tables
    ensures |Final(s, Checks(k, n)).pending| == n && ClaimsFrom(Final(s, Checks(k, n)).pending, 0, n)
    decreases n - k
  {
    if k < n {
      BobIsFirst(s.tables, 0);
      var s' := Apply(s, Check(k, BOB, DEFAULT_LIMIT, NO_FAULT));
      ChecksPass(s', k + 1, n);
      assert Checks(k, n)[1..] == Checks(k + 1, n);
    }
  }

  lemma {:induction false} SumOfCommitted(t: Tables, k: nat)
    requires Committed(t, k) && Limits(k) < TWO_63
    ensures SumFor(t.files, 1) == Limits(k) && !SumOverflows(t.files, 1)
    decreases k
  {
    if k > 0 {
      var t' := Tables([UserRow(1, BOB, [], Limits(k - 1), DEFAULT_LIMIT)], t.files[..k - 1], 2);
      assert Committed(t', k - 1);
      SumOfCommitted(t', k - 1);
    }
  }

  lemma NewFileName(t: Tables, k: nat)
    requires Committed(t, k)
    ensures FileIndex(t.files, 1, FileName(k)).None?
  {
    forall i | 0 <= i < k ensures FileName(i) != FileName(k) {
      assert |FileName(i)| != |FileName(k)|;
    }
  }

  lemma CommitOne(t: Tables, k: nat)
    requires Committed(t, k) && Limits(k + 1) < TWO_63
    ensures Committed(AddFile(t, BOB, FileName(k), DEFAULT_LIMIT, NO_FAULT).0, k + 1)
  {
    BobIsFirst(t, k);
    NewFileName(t, k);
    var files := t.files + [FileRow(1, FileName(k), DEFAULT_LIMIT)];
    var after := Tables([UserRow(1, BOB, [], Limits(k + 1), DEFAULT_LIMIT)], files, t.nextId);
    assert Committed(after, k + 1);
    SumOfCommitted(after, k + 1);
    assert SetUsed(t.users, 1, Limits(k + 1)) == after.users;
  }

  lemma {:induction false} CommitsPass(s: Race, k: nat, n: nat)
    requires k <= n == |s.pending| && Limits(n) < TWO_63
    requires Committed(s.tables, k) && ClaimsFrom(s.pending, k, n)
    ensures Valid(s, Commits(k, n))
    ensures Committed(Final(s, Commits(k, n)).tables, n)
    decreases n - k
  {
    if k < n {
      CommitOne(s.tables, k);
      var s' := Apply(s, Commit(k, FileName(k), NO_FAULT));
      CommitsPass(s', k + 1, n);
      assert Commits(k, n)[1..] == Commits(k + 1, n);
    }
  }

  /** The bound is exact: with `n` client threads some run commits `n` whole limits. */
  lemma OvershootReached(n: nat)
    requires Limits(n) < TWO_63
    ensures Valid(Init(n), OvershootRun(n))
    ensures var t := Final(Init(n), OvershootRun(n)).tables;
            |t.users| == 1 && t.users[0].used == n * DEFAULT_LIMIT && t.users[0].limit == DEFAULT_LIMIT
  {
    var s0 := Init(n);
    var s1 := Apply(s0, SignUp(BOB, [], NO_FAULT));
    assert Committed(s1.tables, 0);
    ChecksPass(s1, 0, n);
    var s2 := Final(s1, Checks(0, n));
    CommitsPass(s2, 0, n);
    RunsCompose(s1, Checks(0, n), Commits(0, n));
    assert OvershootRun(n)[1..] == Checks(0, n) + Commits(0, n);
  }
}
