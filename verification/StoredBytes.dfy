/**
 What the quota counts is what the disk holds: over runs of the whole server without write and
 database faults, every size in the ledger is the size of the file, and so a user's cached usage
 is the sum of that user's files on disk.
 */
module StoredBytes {
  import opened Prelude
  import opened BoundedQueue
  import opened Protocol
  import opened ProtocolFlow
  import opened ProtocolResults
  import opened ServerQuota
  import opened Ledger
  import D = DiskPaths
  import F = FileService
  import FL = FileLocks
  import FR = FileServiceResults
  import R = QuotaRace

  /** Live keys have distinct homes and reach different files, no write and no transaction fails,
      and tasks are on the given keys. */
  ghost predicate CleanStep(s: Sys, a: Action, keys: set<FL.Path>)
    requires Enabled(s, a)
  {
    && (a.Exec? ==> F.Separated(s.svc, a.a) && !F.WriteFault(a.a) && !F.DbFault(a.a))
    && (a.Pop? ==> FR.On(F.Begin(a.w, Contents(s.ring)[0].op), keys))
  }

  ghost predicate CleanRun(q: Quota, es: seq<Event>, keys: set<FL.Path>)
    requires ValidRun(q, es)
    decreases |es|
  {
    es == [] ||
    ((es[0].Move? ==> CleanStep(q.sys, es[0].a, keys)) && CleanRun(Advance(q, es[0]), es[1..], keys))
  }

  /** The files are as a serial history left them, and in step with the metadata. */
  ghost predicate InStep(svc: F.Service, f: F.Files, keys: set<FL.Path>)
  {
    F.Serialized(svc, f) && F.NoSpoils(svc) && FR.Agreed(svc, keys)
  }

  lemma ServiceStepKeepsInStep(svc: F.Service, x: F.Action, f: F.Files, keys: set<FL.Path>)
    requires InStep(svc, f, keys) && F.Enabled(svc, x) && F.Separated(svc, x)
    requires !F.WriteFault(x) && !F.DbFault(x) && FR.On(x, keys)
    ensures InStep(F.Apply(svc, x), f, keys)
  {
    F.StepKeepsNoSpoils(svc, x);
    F.StepKeepsUnmixed(svc, x);
    F.StepKeepsSerialized(svc, x, f);
    FR.StepKeepsAgreed(svc, x, f, keys);
  }

  lemma MoveKeepsInStep(s: Sys, a: Action, f: F.Files, keys: set<FL.Path>)
    requires FlowOk(s) && InStep(s.svc, f, keys) && Enabled(s, a) && CleanStep(s, a, keys)
    ensures InStep(Apply(s, a).svc, f, keys)
  {
    if a.Pop? {
      PopEffect(s, a.w);
      ServiceStepKeepsInStep(s.svc, F.Begin(a.w, Contents(s.ring)[0].op), f, keys);
    } else if a.Exec? {
      ServiceStepKeepsInStep(s.svc, a.a, f, keys);
    } else if a.FindSession? {
      ServiceStepKeepsInStep(s.svc, F.Finish(a.w), f, keys);
    } else {
      OthersLeaveService(s, a);
    }
  }

  lemma OthersLeaveService(s: Sys, a: Action)
    requires Enabled(s, a) && !a.Pop? && !a.Exec? && !a.FindSession?
    ensures Apply(s, a).svc == s.svc
  {
  }

  lemma {:induction false} RunKeepsInStep(q: Quota, es: seq<Event>, f: F.Files, keys: set<FL.Path>)
    requires QuotaOk(q) && InStep(q.sys.svc, f, keys) && ValidRun(q, es) && CleanRun(q, es, keys)
    ensures InStep(End(q, es).sys.svc, f, keys) && QuotaOk(End(q, es))
    decreases |es|
  {
    if es != [] {
      StepKeepsQuota(q, es[0]);
      if es[0].Move? {
        MoveKeepsInStep(q.sys, es[0].a, f, keys);
      }
      RunKeepsInStep(Advance(q, es[0]), es[1..], f, keys);
    }
  }

  /** A server without users and files is started, and its tasks are on keys that reach different
      files. */
  ghost predicate CleanServer(cfg: Config, es: seq<Event>, keys: set<FL.Path>)
  {
    && Usable(cfg) && cfg.rows == map[] && R.Limits(cfg.clients) <= TWO_63
    && D.OneNameEach(keys) && (forall key :: key in keys ==> D.FileOf(key) !in cfg.disk)
    && ValidRun(Begin(cfg), es) && CleanRun(Begin(cfg), es, keys)
  }

  lemma EndIsInStep(cfg: Config, es: seq<Event>, keys: set<FL.Path>)
    requires CleanServer(cfg, es, keys)
    ensures var q := End(Begin(cfg), es);
            InStep(q.sys.svc, cfg.disk, keys) && QuotaOk(q)
  {
    BeginIsOk(cfg);
    F.InitIsSerialized(cfg.locks, cfg.workers, cfg.disk, cfg.rows);
    RunKeepsInStep(Begin(cfg), es, cfg.disk, keys);
  }

  /** The ledger has a size for a key exactly when there is a file, and it is the file's, whenever
      nobody works on it. */
  lemma RecordsMatchDisk(cfg: Config, es: seq<Event>, keys: set<FL.Path>, key: FL.Path)
    requires CleanServer(cfg, es, keys) && key in keys && FL.SLASH in key
    requires F.NobodyInside(End(Begin(cfg), es).sys.svc.jobs, D.FileOf(key))
    ensures var q, file := End(Begin(cfg), es), D.FileOf(key);
            Recorded(q.tables, key) ==
            if file in q.sys.svc.disk then Some(|q.sys.svc.disk[file]| as int) else None
  {
    EndIsInStep(cfg, es, keys);
    var q := End(Begin(cfg), es);
    assert FR.AgreeAt(q.sys.svc.disk, q.sys.svc.rows, key);
    assert Recorded(q.tables, key) == if key in q.sys.svc.rows then Some(q.sys.svc.rows[key] as int) else None;
  }

  /** The key of a user's file. */
  function KeyOf(u: UserRow, r: FileRow): FL.Path
  {
    u.name + [FL.SLASH] + r.name
  }

  lemma RecordOfRow(t: Tables, i: nat, k: nat)
    requires Consistent(t) && i < |t.users| && k < |t.files| && t.files[k].owner == t.users[i].id
    requires FL.SLASH !in t.users[i].name
    ensures Recorded(t, KeyOf(t.users[i], t.files[k])) == Some(t.files[k].size)
    ensures FL.SLASH in KeyOf(t.users[i], t.files[k])
  {
    KeyParts(t.users[i].name, t.files[k].name);
    FileIndexIs(t.files, k);
    var u := UserIndex(t.users, t.users[i].name);
    assert u == Some(i);
    assert KeyOf(t.users[i], t.files[k])[|t.users[i].name|] == FL.SLASH;
  }

  predicate SizeOnDisk(disk: F.Files, key: FL.Path, size: int)
  {
    D.FileOf(key) in disk && |disk[D.FileOf(key)]| == size
  }

  /** A user's cached usage is the sum of the sizes on record, and each of these is the size of a
      file on disk. */
  lemma UsageIsOnDisk(cfg: Config, es: seq<Event>, keys: set<FL.Path>, i: nat, k: nat)
    requires CleanServer(cfg, es, keys)
    requires var t := End(Begin(cfg), es).tables;
             && i < |t.users| && k < |t.files| && t.files[k].owner == t.users[i].id
             && FL.SLASH !in t.users[i].name && KeyOf(t.users[i], t.files[k]) in keys
    requires var q := End(Begin(cfg), es);
             F.NobodyInside(q.sys.svc.jobs, D.FileOf(KeyOf(q.tables.users[i], q.tables.files[k])))
    ensures var q := End(Begin(cfg), es);
            && q.tables.users[i].used == SumFor(q.tables.files, q.tables.users[i].id)
            && SizeOnDisk(q.sys.svc.disk, KeyOf(q.tables.users[i], q.tables.files[k]), q.tables.files[k].size)
  {
    EndIsInStep(cfg, es, keys);
    var q := End(Begin(cfg), es);
    RecordOfRow(q.tables, i, k);
    RecordsMatchDisk(cfg, es, keys, KeyOf(q.tables.users[i], q.tables.files[k]));
  }
}
