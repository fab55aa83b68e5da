/**
 The quota ledger inside the whole server: a client thread checks the quota before it receives
 an upload, a worker commits the size after it wrote the file.  In every run the bound of
 `QuotaRace` holds, with one claim for each client whose upload is under way, and the metadata
 rows of the file service are the ledger's.
 */
module ServerQuota {
  import opened Prelude
  import opened BoundedQueue
  import opened Protocol
  import opened ProtocolFlow
  import opened ProtocolResults
  import opened Ledger
  import F = FileService
  import FL = FileLocks
  import R = QuotaRace

  // ---------------------------------------------------------------- keys

  /** The user name in a key "user/file". */
  function Owner(key: FL.Path): Name
  {
    if key == [] || key[0] == FL.SLASH then [] else [key[0]] + Owner(key[1..])
  }

  /** The file name in a key "user/file". */
  function FileName(key: FL.Path): Name
  {
    if key == [] then [] else if key[0] == FL.SLASH then key[1..] else FileName(key[1..])
  }

  lemma {:induction false} KeyParts(user: Name, file: Name)
    requires FL.SLASH !in user
    ensures Owner(user + [FL.SLASH] + file) == user && FileName(user + [FL.SLASH] + file) == file
  {
    var key := user + [FL.SLASH] + file;
    if user == [] {
      assert key[1..] == file;
    } else {
      assert key[1..] == user[1..] + [FL.SLASH] + file;
      KeyParts(user[1..], file);
      assert [user[0]] + user[1..] == user;
    }
  }

  /** A key is put together from its parts. */
  lemma {:induction false} PartsMakeKey(key: FL.Path)
    requires FL.SLASH in key
    ensures key == Owner(key) + [FL.SLASH] + FileName(key)
  {
    if key[0] == FL.SLASH {
      assert key == [] + [FL.SLASH] + key[1..];
    } else {
      PartsMakeKey(key[1..]);
      assert key == [key[0]] + key[1..];
    }
  }

  // ---------------------------------------------------------------- the server with its ledger

  /** `claims` is history: the uploads that passed the check and are not yet settled. */
  datatype Quota = Quota(sys: Sys, tables: Tables, claims: seq<Option<R.Claim>>)

  /** A step of the server, with the faults of its SQL calls; or a sign-up. */
  datatype Event = Move(a: Action, f: Faults) | SignUp(user: Name, hash: Name, f: Faults)

  function ClaimOf(op: F.Op): Option<R.Claim>
  {
    if op.Upload? then Some(R.Claim(Owner(op.path), |op.data|)) else None
  }

  /** The client whose request worker `w` works on. */
  function Asker(s: Sys, w: nat): nat
  {
    if w < |s.workers| && s.workers[w].Running? && s.workers[w].task.req < |s.requests|
    then s.requests[s.workers[w].task.req].client
    else |s.clients|
  }

  /** How a worker's transaction ends decides which of its two steps is possible; an upload is
      received only if the check passes, and only below 2^63 bytes, which is what can be
      allocated. */
  predicate CanMove(q: Quota, a: Action, f: Faults)
  {
    && Enabled(q.sys, a)
    && match a
       case StartUpload(_, path, size) =>
         FL.SLASH in path && size < TWO_63 && CheckQuota(q.tables, Owner(path), size, f)
       case Command(_, op) => op.List? || FL.SLASH in op.path
       case Exec(w, x) =>
         var op := q.sys.svc.jobs[w].op;
         if x.Commit? then op.Upload? && AddFile(q.tables, Owner(op.path), FileName(op.path), |op.data|, f).1 == 0
         else if x.CommitFails? then
           op.Upload? && AddFile(q.tables, Owner(op.path), FileName(op.path), |op.data|, f).1 != 0
         else if x.CommitRemove? then !op.List? && RemoveFile(q.tables, Owner(op.path), FileName(op.path), f).1 == 0
         else if x.RemoveRowFails? then !op.List? && RemoveFile(q.tables, Owner(op.path), FileName(op.path), f).1 != 0
         else true
       case _ => true
  }

  function NextTables(q: Quota, a: Action, f: Faults): Tables
    requires CanMove(q, a, f)
  {
    if !a.Exec? then q.tables
    else
      var op := q.sys.svc.jobs[a.w].op;
      if a.a.Commit? || a.a.CommitFails? then
        AddFile(q.tables, Owner(op.path), FileName(op.path), |op.data|, f).0
      else if a.a.CommitRemove? || a.a.RemoveRowFails? then
        RemoveFile(q.tables, Owner(op.path), FileName(op.path), f).0
      else q.tables
  }

  function Settle(claims: seq<Option<R.Claim>>, c: nat): seq<Option<R.Claim>>
  {
    if c < |claims| then claims[c := None] else claims
  }

  function NextClaims(q: Quota, a: Action): seq<Option<R.Claim>>
    requires Enabled(q.sys, a) && |q.claims| == |q.sys.clients|
  {
    match a
    case StartUpload(c, path, size) => q.claims[c := Some(R.Claim(Owner(path), size))]
    case UploadBreaks(c) => Settle(q.claims, c)
    case Push(c) => if q.sys.ring.shutdown then Settle(q.claims, c) else q.claims
    case Wake(c) => Settle(q.claims, c)
    case Exec(w, x) => if x.Commit? || x.CommitFails? then Settle(q.claims, Asker(q.sys, w)) else q.claims
    case _ => q.claims
  }

  predicate Can(q: Quota, e: Event)
  {
    |q.claims| == |q.sys.clients| && (e.Move? ==> CanMove(q, e.a, e.f))
  }

  function Advance(q: Quota, e: Event): Quota
    requires Can(q, e)
  {
    match e
    case Move(a, f) => Quota(Apply(q.sys, a), NextTables(q, a, f), NextClaims(q, a))
    case SignUp(user, hash, f) => q.(tables := CreateUser(q.tables, user, hash, f).0)
  }

  /** No session's end cuts another off. */
  ghost predicate ValidRun(q: Quota, es: seq<Event>)
    decreases |es|
  {
    es == [] ||
    (Can(q, es[0]) && (es[0].Move? ==> ClearStep(q.sys, es[0].a)) && ValidRun(Advance(q, es[0]), es[1..]))
  }

  ghost function End(q: Quota, es: seq<Event>): Quota
    requires ValidRun(q, es)
    decreases |es|
  {
    if es == [] then q else End(Advance(q, es[0]), es[1..])
  }

  function Begin(cfg: Config): Quota
    requires Usable(cfg)
  {
    Quota(Start(cfg), Tables([], [], 1), seq(cfg.clients, _ => None))
  }

  // ---------------------------------------------------------------- claims belong to uploads

  /** The claim of the upload that client `c` is busy with. */
  function Due(s: Sys, c: nat): Option<R.Claim>
    requires c < |s.clients|
  {
    match s.clients[c]
    case Receiving(_, path, size, _) => Some(R.Claim(Owner(path), size))
    case Ready(_, op, _) => ClaimOf(op)
    case Cleared(_, op, _) => ClaimOf(op)
    case Waiting(_, req) => if req < |s.requests| then ClaimOf(s.requests[req].op) else None
    case _ => None
  }

  predicate BeforeCommit(j: F.Job)
  {
    j.Start? || j.Located? || j.Locked? || j.Writing? || j.Written?
  }

  /** The task at this place may still be committed. */
  predicate Uncommitted(s: Sys, spot: Spot)
  {
    match spot
    case AtQueue(_) => true
    case AtWorker(w) => w < |s.workers| == |s.svc.jobs| && s.workers[w].Running? && BeforeCommit(s.svc.jobs[w])
  }

  /** The client that waits for this task holds its claim. */
  predicate StillClaimed(q: Quota, k: Task)
  {
    && k.req < |q.sys.requests|
    && q.sys.requests[k.req].client < |q.claims|
    && q.claims[q.sys.requests[k.req].client] == ClaimOf(k.op)
  }

  /** Claims are those of uploads under way, and until a request is sent its claim is there. */
  ghost predicate ClientsClaimed(q: Quota)
  {
    && |q.claims| == |q.sys.clients|
    && (forall c :: 0 <= c < |q.claims| && q.claims[c].Some? ==> q.claims[c] == Due(q.sys, c))
    && (forall c :: 0 <= c < |q.claims| && !q.sys.clients[c].Waiting? ==> q.claims[c] == Due(q.sys, c))
  }

  ghost predicate TasksClaimed(q: Quota)
    requires WellFormed(q.sys.ring)
  {
    forall spot :: Here(q.sys, spot).Some? && Uncommitted(q.sys, spot) ==> StillClaimed(q, Here(q.sys, spot).value)
  }

  ghost predicate Claimed(q: Quota)
  {
    WellFormed(q.sys.ring) && ClientsClaimed(q) && TasksClaimed(q)
  }

  /** The committing worker's client holds the claim for just this upload. */
  lemma CommitMeetsClaim(q: Quota, w: nat, x: F.Action)
    requires FlowOk(q.sys) && Claimed(q) && Enabled(q.sys, Exec(w, x)) && (x.Commit? || x.CommitFails?)
    ensures var c, op := Asker(q.sys, w), q.sys.svc.jobs[w].op;
            op.Upload? && c < |q.claims| && q.claims[c] == Some(R.Claim(Owner(op.path), |op.data|))
  {
    assert WorkerOk(q.sys, w) && F.Matches(q.sys.svc.jobs[w], q.sys.svc.locks.phases[w]);
    assert Here(q.sys, AtWorker(w)) == Some(q.sys.workers[w].task);
    assert Uncommitted(q.sys, AtWorker(w));
    assert StillClaimed(q, q.sys.workers[w].task);
  }

  /** What a worker's transaction is for the ledger. */
  lemma TransactionIsRaceStep(q: Quota, w: nat, x: F.Action, f: Faults) returns (r: Option<R.Action>)
    requires FlowOk(q.sys) && Claimed(q) && CanMove(q, Exec(w, x), f)
    ensures var race, race' := R.Race(q.tables, q.claims),
                               R.Race(NextTables(q, Exec(w, x), f), NextClaims(q, Exec(w, x)));
            if r.None? then race' == race else R.Enabled(race, r.value) && race' == R.Apply(race, r.value)
  {
    var key := if q.sys.svc.jobs[w].NoJob? || q.sys.svc.jobs[w].op.List? then [] else q.sys.svc.jobs[w].op.path;
    r := None;
    if x.Commit? || x.CommitFails? {
      CommitMeetsClaim(q, w, x);
      r := Some(R.Commit(Asker(q.sys, w), FileName(key), f));
    } else if x.CommitRemove? || x.RemoveRowFails? {
      r := Some(R.Erase(Owner(key), FileName(key), f));
    }
  }

  /** Seen from the ledger, a step of the server is a step of `QuotaRace`, or none. */
  lemma StepIsRaceStep(q: Quota, a: Action, f: Faults) returns (r: Option<R.Action>)
    requires FlowOk(q.sys) && Claimed(q) && CanMove(q, a, f)
    ensures var race, race' := R.Race(q.tables, q.claims), R.Race(NextTables(q, a, f), NextClaims(q, a));
            if r.None? then race' == race else R.Enabled(race, r.value) && race' == R.Apply(race, r.value)
  {
    r := None;
    if a.Exec? {
      r := TransactionIsRaceStep(q, a.w, a.a, f);
    } else if a.StartUpload? {
      r := Some(R.Check(a.c, Owner(a.path), a.size, f));
    } else if (a.UploadBreaks? || a.Wake? || (a.Push? && q.sys.ring.shutdown)) && q.claims[a.c].Some? {
      r := Some(R.Abandon(a.c));
    }
  }

  // ---------------------------------------------------------------- steps keep claims

  /** The claims of all clients but `c` stay, and no task of `c` is uncommitted. */
  lemma TasksStayClaimed(q: Quota, q': Quota, c: nat)
    requires Claimed(q) && WellFormed(q'.sys.ring) && q'.sys.requests == q.sys.requests
    requires c < |q.claims| == |q'.claims| && q'.claims == q.claims[c := q'.claims[c]]
    requires forall spot :: Here(q'.sys, spot).Some? && Uncommitted(q'.sys, spot) ==>
               && Here(q.sys, spot) == Here(q'.sys, spot) && Uncommitted(q.sys, spot)
               && TaskOk(q.sys, Here(q.sys, spot).value)
               && q.sys.requests[Here(q.sys, spot).value.req].client != c
    ensures TasksClaimed(q')
  {
    forall spot | Here(q'.sys, spot).Some? && Uncommitted(q'.sys, spot)
      ensures StillClaimed(q', Here(q'.sys, spot).value)
    {
      assert StillClaimed(q, Here(q.sys, spot).value);
    }
  }

  /** A client that waits for nothing, or whose answer is there, has no task left. */
  lemma NoTaskOf(s: Sys, c: nat)
    requires FlowOk(s) && c < |s.clients|
    requires s.clients[c].Waiting? ==> s.clients[c].sid in s.responses && s.responses[s.clients[c].sid].ready
    ensures forall spot :: Here(s, spot).Some? ==>
              TaskOk(s, Here(s, spot).value) && s.requests[Here(s, spot).value.req].client != c
  {
  }

  lemma OwnMoveKeepsClaimed(q: Quota, q': Quota, c: nat)
    requires Claimed(q) && c < |q.sys.clients|
    requires q'.sys.ring == q.sys.ring && q'.sys.workers == q.sys.workers && q'.sys.svc == q.sys.svc
    requires q'.sys.requests == q.sys.requests && |q'.claims| == |q'.sys.clients| == |q.sys.clients|
    requires q'.sys.clients == q.sys.clients[c := q'.sys.clients[c]] && q'.claims == q.claims[c := q'.claims[c]]
    requires forall spot :: Here(q.sys, spot).Some? ==>
               TaskOk(q.sys, Here(q.sys, spot).value) && q.sys.requests[Here(q.sys, spot).value.req].client != c
    requires !q'.sys.clients[c].Waiting? && q'.claims[c] == Due(q'.sys, c)
    ensures Claimed(q')
  {
    forall spot | Here(q'.sys, spot).Some? ensures Here(q.sys, spot) == Here(q'.sys, spot) {
    }
    TasksStayClaimed(q, q', c);
  }

  /** One client moves on by itself. */
  lemma ClientKeepsClaimed(q: Quota, q': Quota, c: nat)
    requires FlowOk(q.sys) && Claimed(q) && c < |q.sys.clients|
    requires q'.sys.ring == q.sys.ring && q'.sys.workers == q.sys.workers && q'.sys.svc == q.sys.svc
    requires q'.sys.requests == q.sys.requests && |q'.claims| == |q'.sys.clients| == |q.sys.clients|
    requires q'.sys.clients == q.sys.clients[c := q'.sys.clients[c]] && q'.claims == q.claims[c := q'.claims[c]]
    requires var cl := q.sys.clients[c];
             cl.Waiting? ==> cl.sid in q.sys.responses && q.sys.responses[cl.sid].ready
    requires !q'.sys.clients[c].Waiting? && q'.claims[c] == Due(q'.sys, c)
    ensures Claimed(q')
  {
    NoTaskOf(q.sys, c);
    OwnMoveKeepsClaimed(q, q', c);
  }

  lemma PushKeepsTasksClaimed(q: Quota, q': Quota, c: nat)
    requires Claimed(q) && Enabled(q.sys, Push(c)) && !q.sys.ring.shutdown
    requires q'.sys == ApplyPush(q.sys, c) && q'.claims == q.claims
    ensures WellFormed(q'.sys.ring) && TasksClaimed(q')
  {
    PushSpots(q.sys, c);
    forall spot | Here(q'.sys, spot).Some? && Uncommitted(q'.sys, spot)
      ensures StillClaimed(q', Here(q'.sys, spot).value)
    {
      if spot != AtQueue(|Contents(q.sys.ring)|) {
        assert Uncommitted(q.sys, spot) && StillClaimed(q, Here(q.sys, spot).value);
      }
    }
  }

  lemma PushKeepsClaimed(q: Quota, q': Quota, c: nat)
    requires FlowOk(q.sys) && Claimed(q) && Enabled(q.sys, Push(c)) && !q.sys.ring.shutdown
    requires q'.sys == ApplyPush(q.sys, c) && q'.claims == q.claims
    ensures Claimed(q')
  {
    PushSpots(q.sys, c);
    PushKeepsTasksClaimed(q, q', c);
    NewRequestChangesNoDue(q.sys, q'.sys, c);
  }

  lemma NewRequestChangesNoDue(s: Sys, s': Sys, c: nat)
    requires FlowOk(s) && c < |s.clients| == |s'.clients| && s'.clients == s.clients[c := s'.clients[c]]
    requires s.requests <= s'.requests
    ensures forall d :: 0 <= d < |s.clients| && d != c ==> Due(s', d) == Due(s, d)
  {
    forall d | 0 <= d < |s.clients| && d != c ensures Due(s', d) == Due(s, d) {
      assert ClientOk(s, d);
    }
  }

  /** The head of the queue goes to worker `w`. */
  lemma PopKeepsClaimed(q: Quota, q': Quota, w: nat)
    requires Claimed(q) && w < |q.sys.workers| && q.sys.ring.size > 0 && WellFormed(q'.sys.ring)
    requires Contents(q'.sys.ring) == Contents(q.sys.ring)[1..]
    requires q'.sys.workers == q.sys.workers[w := Running(Contents(q.sys.ring)[0], None)]
    requires w < |q.sys.svc.jobs| == |q'.sys.svc.jobs|
    requires q'.sys.svc.jobs == q.sys.svc.jobs[w := q'.sys.svc.jobs[w]]
    requires q'.sys.clients == q.sys.clients && q'.sys.requests == q.sys.requests && q'.claims == q.claims
    ensures Claimed(q')
  {
    forall spot | Here(q'.sys, spot).Some? && Uncommitted(q'.sys, spot)
      ensures StillClaimed(q', Here(q'.sys, spot).value)
    {
      var before := if spot == AtWorker(w) then AtQueue(0) else if spot.AtQueue? then AtQueue(spot.i + 1) else spot;
      assert Here(q.sys, before) == Here(q'.sys, spot) && Uncommitted(q.sys, before);
      assert StillClaimed(q, Here(q.sys, before).value);
    }
  }

  /** A worker's step that settles no claim. */
  lemma WorkerKeepsClaimed(q: Quota, q': Quota, w: nat)
    requires FlowOk(q.sys) && Claimed(q) && w < |q.sys.workers|
    requires q'.sys.ring == q.sys.ring && q'.sys.clients == q.sys.clients && q'.sys.requests == q.sys.requests
    requires q'.claims == q.claims && |q'.sys.workers| == |q.sys.workers| && |q'.sys.svc.jobs| == |q.sys.svc.jobs|
    requires q'.sys.workers == q.sys.workers[w := q'.sys.workers[w]]
    requires q'.sys.svc.jobs == q.sys.svc.jobs[w := q'.sys.svc.jobs[w]]
    requires Uncommitted(q'.sys, AtWorker(w)) ==>
               Uncommitted(q.sys, AtWorker(w)) && q'.sys.workers[w].task == q.sys.workers[w].task
    ensures Claimed(q')
  {
    forall spot | Here(q'.sys, spot).Some? && Uncommitted(q'.sys, spot)
      ensures StillClaimed(q', Here(q'.sys, spot).value)
    {
      assert Here(q.sys, spot) == Here(q'.sys, spot) && Uncommitted(q.sys, spot);
      assert StillClaimed(q, Here(q.sys, spot).value);
    }
  }

  /** Another task belongs to another client. */
  lemma OtherTaskOtherClient(s: Sys, w: nat, spot: Spot)
    requires FlowOk(s) && Here(s, AtWorker(w)).Some? && Here(s, spot).Some? && spot != AtWorker(w)
    ensures TaskOk(s, Here(s, spot).value) && TaskOk(s, Here(s, AtWorker(w)).value)
    ensures s.requests[Here(s, spot).value.req].client != s.requests[Here(s, AtWorker(w)).value.req].client
  {
    assert TaskOk(s, Here(s, spot).value) && TaskOk(s, Here(s, AtWorker(w)).value);
  }

  /** A commit settles the claim of its own client only. */
  lemma CommitKeepsClaimed(q: Quota, q': Quota, w: nat)
    requires FlowOk(q.sys) && Claimed(q) && w < |q.sys.workers| && q.sys.workers[w].Running?
    requires q'.sys == q.sys.(svc := q'.sys.svc) && |q'.sys.svc.jobs| == |q.sys.svc.jobs|
    requires q'.sys.svc.jobs == q.sys.svc.jobs[w := q'.sys.svc.jobs[w]] && !BeforeCommit(q'.sys.svc.jobs[w])
    requires Asker(q.sys, w) < |q.claims| && q'.claims == Settle(q.claims, Asker(q.sys, w))
    ensures Claimed(q')
  {
    assert Here(q.sys, AtWorker(w)) == Some(q.sys.workers[w].task);
    assert TaskOk(q.sys, q.sys.workers[w].task);
    forall spot | Here(q'.sys, spot).Some? && Uncommitted(q'.sys, spot)
      ensures Here(q.sys, spot) == Here(q'.sys, spot) && Uncommitted(q.sys, spot)
      ensures TaskOk(q.sys, Here(q.sys, spot).value)
      ensures q.sys.requests[Here(q.sys, spot).value.req].client != Asker(q.sys, w)
    {
      OtherTaskOtherClient(q.sys, w, spot);
    }
    TasksStayClaimed(q, q', Asker(q.sys, w));
  }

  lemma ExecKeepsClaimed(q: Quota, q': Quota, w: nat, x: F.Action)
    requires FlowOk(q.sys) && Claimed(q) && Enabled(q.sys, Exec(w, x))
    requires q'.sys == ApplyExec(q.sys, w, x) && q'.claims == NextClaims(q, Exec(w, x))
    ensures Claimed(q')
  {
    ExecShape(q.sys, w, x);
    if x.Commit? || x.CommitFails? {
      CommitMeetsClaim(q, w, x);
      CommitKeepsClaimed(q, q', w);
    } else {
      ExecKeepsStage(q.sys.svc, x);
      WorkerKeepsClaimed(q, q', w);
    }
  }

  /** Nothing but taking a task brings a job back before its commit. */
  lemma ExecKeepsStage(svc: F.Service, x: F.Action)
    requires F.Enabled(svc, x) && !x.Begin?
    ensures BeforeCommit(F.NextJob(svc, x)) ==> BeforeCommit(svc.jobs[x.t])
  {
  }

  lemma OtherWorkerStepKeepsClaimed(q: Quota, q': Quota, a: Action)
    requires FlowOk(q.sys) && Claimed(q) && Enabled(q.sys, a)
    requires WorkerAction(a) && !a.Pop? && !a.Exec?
    requires q'.sys == ApplyWorker(q.sys, a) && q'.claims == q.claims
    ensures Claimed(q')
  {
    WorkerKeepsClaimed(q, q', a.w);
  }

  /** What a client's step leaves alone. */
  lemma ClientStepShape(s: Sys, a: Action)
    requires Enabled(s, a) && ClientAction(a) && (a.Push? ==> s.ring.shutdown)
    ensures var s' := ApplyClient(s, a);
            && s'.ring == s.ring && s'.workers == s.workers && s'.svc == s.svc && s'.requests == s.requests
            && |s'.clients| == |s.clients| && s'.clients == s.clients[a.c := s'.clients[a.c]]
            && !s'.clients[a.c].Waiting?
            && (s.clients[a.c].Waiting? ==>
                  s.clients[a.c].sid in s.responses && s.responses[s.clients[a.c].sid].ready)
  {
  }

  /** The client's claim follows what it is busy with. */
  lemma ClientStepDue(q: Quota, a: Action)
    requires ClientsClaimed(q) && Enabled(q.sys, a) && ClientAction(a) && (a.Push? ==> q.sys.ring.shutdown)
    ensures |NextClaims(q, a)| == |q.claims| && NextClaims(q, a) == q.claims[a.c := NextClaims(q, a)[a.c]]
    ensures |ApplyClient(q.sys, a).clients| == |q.claims|
    ensures NextClaims(q, a)[a.c] == Due(ApplyClient(q.sys, a), a.c)
  {
  }

  lemma ClientStepKeepsClaimed(q: Quota, q': Quota, a: Action)
    requires FlowOk(q.sys) && Claimed(q) && Enabled(q.sys, a)
    requires ClientAction(a) && (a.Push? ==> q.sys.ring.shutdown)
    requires q'.sys == ApplyClient(q.sys, a) && q'.claims == NextClaims(q, a)
    ensures Claimed(q')
  {
    ClientStepShape(q.sys, a);
    ClientStepDue(q, a);
    ClientKeepsClaimed(q, q', a.c);
  }

  lemma ShutdownKeepsClaimed(q: Quota, q': Quota)
    requires Claimed(q) && Enabled(q.sys, Shutdown) && q'.sys == Apply(q.sys, Shutdown) && q'.claims == q.claims
    ensures Claimed(q')
  {
    forall spot | Here(q'.sys, spot).Some? && Uncommitted(q'.sys, spot)
      ensures StillClaimed(q', Here(q'.sys, spot).value)
    {
      assert Contents(q'.sys.ring) == Contents(q.sys.ring);
      assert Here(q.sys, spot) == Here(q'.sys, spot) && Uncommitted(q.sys, spot);
      assert StillClaimed(q, Here(q.sys, spot).value);
    }
  }

  lemma StepKeepsClaimed(q: Quota, a: Action, f: Faults)
    requires FlowOk(q.sys) && Claimed(q) && CanMove(q, a, f) && ClearStep(q.sys, a)
    ensures Claimed(Advance(q, Move(a, f)))
  {
    var q' := Advance(q, Move(a, f));
    if a.Shutdown? {
      ShutdownKeepsClaimed(q, q');
    } else if a.Pop? {
      PopEffect(q.sys, a.w);
      PopKeepsClaimed(q, q', a.w);
    } else if a.Exec? {
      ExecKeepsClaimed(q, q', a.w, a.a);
    } else if WorkerAction(a) {
      OtherWorkerStepKeepsClaimed(q, q', a);
    } else if a.Push? && !q.sys.ring.shutdown {
      PushKeepsClaimed(q, q', a.c);
    } else {
      ClientStepKeepsClaimed(q, q', a);
    }
  }

  // ---------------------------------------------------------------- the rows are the ledger's

  predicate KeyOk(op: F.Op)
  {
    op.List? || FL.SLASH in op.path
  }

  /** Every key in use was put together from a user name and a file name. */
  ghost predicate KeysOk(s: Sys)
  {
    && (forall c :: 0 <= c < |s.clients| ==>
          match s.clients[c]
          case Receiving(_, path, _, _) => FL.SLASH in path
          case Ready(_, op, _) => KeyOk(op)
          case Cleared(_, op, _) => KeyOk(op)
          case _ => true)
    && (forall r :: 0 <= r < |s.requests| ==> KeyOk(s.requests[r].op))
  }

  lemma ClientStepKeepsKeys(s: Sys, a: Action)
    requires KeysOk(s) && Enabled(s, a) && ClientAction(a)
    requires a.StartUpload? ==> FL.SLASH in a.path
    requires a.Command? ==> KeyOk(a.op)
    ensures KeysOk(ApplyClient(s, a))
  {
  }

  lemma StepKeepsKeys(q: Quota, a: Action, f: Faults)
    requires KeysOk(q.sys) && CanMove(q, a, f)
    ensures KeysOk(Apply(q.sys, a))
  {
    if WorkerAction(a) {
      WorkerLeavesRequests(q.sys, a);
    } else if !a.Shutdown? {
      ClientStepKeepsKeys(q.sys, a);
    }
  }

  lemma WorkerLeavesRequests(s: Sys, a: Action)
    requires Enabled(s, a) && WorkerAction(a)
    ensures ApplyWorker(s, a).clients == s.clients && ApplyWorker(s, a).requests == s.requests
  {
  }

  /** The size on record for a key, if any. */
  function Recorded(t: Tables, key: FL.Path): Option<int>
  {
    var u := UserIndex(t.users, Owner(key));
    if u.None? then None
    else
      var i := FileIndex(t.files, t.users[u.value].id, FileName(key));
      if i.None? then None else Some(t.files[i.value].size)
  }

  /** The metadata rows of the file service are those of the ledger. */
  ghost predicate RowsAreLedger(rows: map<FL.Path, nat>, t: Tables)
  {
    forall key: FL.Path :: FL.SLASH in key ==>
      Recorded(t, key) == if key in rows then Some(rows[key] as int) else None
  }

  lemma OtherKeyOtherParts(k1: FL.Path, k2: FL.Path)
    requires FL.SLASH in k1 && FL.SLASH in k2 && k1 != k2
    ensures Owner(k1) != Owner(k2) || FileName(k1) != FileName(k2)
  {
    PartsMakeKey(k1);
    PartsMakeKey(k2);
  }

  lemma {:induction false} SameNamesSameIndex(users: seq<UserRow>, users': seq<UserRow>, name: Name)
    requires |users| == |users'| && forall i :: 0 <= i < |users| ==> users'[i].name == users[i].name
    ensures UserIndex(users', name) == UserIndex(users, name)
  {
    if users != [] {
      SameNamesSameIndex(users[..|users| - 1], users'[..|users| - 1], name);
    }
  }

  /** A change of one file of one user leaves what is recorded for other keys. */
  lemma OtherKeysKept(t: Tables, t': Tables, key: FL.Path, other: FL.Path)
    requires Consistent(t) && UserIndex(t.users, Owner(key)).Some?
    requires FL.SLASH in key && FL.SLASH in other && key != other
    requires |t'.users| == |t.users|
    requires forall i :: 0 <= i < |t.users| ==> t'.users[i].name == t.users[i].name && t'.users[i].id == t.users[i].id
    requires OtherFilesKept(t.files, t'.files, t.users[UserIndex(t.users, Owner(key)).value].id, FileName(key))
    ensures Recorded(t', other) == Recorded(t, other)
  {
    OtherKeyOtherParts(key, other);
    SameNamesSameIndex(t.users, t'.users, Owner(other));
    var u := UserIndex(t.users, Owner(other));
    if u.Some? {
      var who, what := t.users[u.value].id, FileName(other);
      assert FileIndex(t'.files, who, what).Some? <==> FileIndex(t.files, who, what).Some?;
      assert StoredSize(t'.files, who, what) == StoredSize(t.files, who, what);
    }
  }

  lemma CommitKeepsRows(rows: map<FL.Path, nat>, t: Tables, key: FL.Path, size: nat, f: Faults)
    requires Consistent(t) && RowsAreLedger(rows, t) && FL.SLASH in key && size < TWO_63
    requires AddFile(t, Owner(key), FileName(key), size, f).1 == 0
    ensures RowsAreLedger(rows[key := size], AddFile(t, Owner(key), FileName(key), size, f).0)
  {
    var t' := AddFile(t, Owner(key), FileName(key), size, f).0;
    AddIsAllOrNothing(t, Owner(key), FileName(key), size, f);
    var id := t.users[UserIndex(t.users, Owner(key)).value].id;
    UpsertKeepsOthers(t.files, id, FileName(key), ToInt64(size));
    forall other: FL.Path | FL.SLASH in other
      ensures Recorded(t', other) == if other in rows[key := size] then Some(rows[key := size][other] as int) else None
    {
      if other == key {
        SameNamesSameIndex(t.users, t'.users, Owner(key));
      } else {
        OtherKeysKept(t, t', key, other);
      }
    }
  }

  lemma RemovalKeepsRows(rows: map<FL.Path, nat>, t: Tables, key: FL.Path, f: Faults)
    requires Consistent(t) && RowsAreLedger(rows, t) && FL.SLASH in key
    requires RemoveFile(t, Owner(key), FileName(key), f).1 == 0
    ensures RowsAreLedger(rows - {key}, RemoveFile(t, Owner(key), FileName(key), f).0)
  {
    var t' := RemoveFile(t, Owner(key), FileName(key), f).0;
    RemoveIsAllOrNothing(t, Owner(key), FileName(key), f);
    forall other: FL.Path | FL.SLASH in other
      ensures Recorded(t', other) == if other in rows - {key} then Some((rows - {key})[other] as int) else None
    {
      if other == key {
        SameNamesSameIndex(t.users, t'.users, Owner(key));
      } else {
        OtherKeysKept(t, t', key, other);
      }
    }
  }

  lemma NoFilesOfNobody(files: seq<FileRow>, id: int, name: Name)
    requires forall i :: 0 <= i < |files| ==> files[i].owner < id
    ensures FileIndex(files, id, name).None?
  {
  }

  lemma SignUpKeepsRows(rows: map<FL.Path, nat>, t: Tables, user: Name, hash: Name, f: Faults)
    requires Consistent(t) && RowsAreLedger(rows, t)
    ensures RowsAreLedger(rows, CreateUser(t, user, hash, f).0)
  {
    var t' := CreateUser(t, user, hash, f).0;
    if t' != t {
      assert t'.users[..|t'.users| - 1] == t.users;
      forall key: FL.Path | FL.SLASH in key ensures Recorded(t', key) == Recorded(t, key) {
        if Owner(key) == user {
          NoFilesOfNobody(t.files, t.nextId, FileName(key));
        }
      }
    }
  }

  // ---------------------------------------------------------------- over runs

  ghost predicate QuotaOk(q: Quota)
  {
    && Sound(q.sys) && Claimed(q) && KeysOk(q.sys)
    && R.Bounded(R.Race(q.tables, q.claims)) && R.Limits(|q.claims|) <= TWO_63
    && RowsAreLedger(q.sys.svc.rows, q.tables)
  }

  /** The key a worker is busy with is one that a client sent. */
  lemma WorkersKey(s: Sys, w: nat)
    requires FlowOk(s) && KeysOk(s) && w < |s.workers| && s.workers[w].Running?
    ensures !s.svc.jobs[w].NoJob? && KeyOk(s.svc.jobs[w].op)
  {
    assert WorkerOk(s, w);
    assert Here(s, AtWorker(w)) == Some(s.workers[w].task);
    assert TaskOk(s, s.workers[w].task);
  }

  lemma CommittedSizeIsSmall(q: Quota, w: nat, x: F.Action)
    requires FlowOk(q.sys) && Claimed(q) && R.SmallClaims(q.claims) && Enabled(q.sys, Exec(w, x)) && x.Commit?
    ensures q.sys.svc.jobs[w].op.Upload? && |q.sys.svc.jobs[w].op.data| < TWO_63
  {
    CommitMeetsClaim(q, w, x);
  }

  lemma TransactionKeepsRows(q: Quota, w: nat, x: F.Action, f: Faults)
    requires Consistent(q.tables) && RowsAreLedger(q.sys.svc.rows, q.tables) && CanMove(q, Exec(w, x), f)
    requires !q.sys.svc.jobs[w].NoJob? && KeyOk(q.sys.svc.jobs[w].op)
    requires x.Commit? ==> |q.sys.svc.jobs[w].op.data| < TWO_63
    ensures RowsAreLedger(F.NextRows(q.sys.svc, x), NextTables(q, Exec(w, x), f))
  {
    var op := q.sys.svc.jobs[w].op;
    if x.Commit? {
      CommitKeepsRows(q.sys.svc.rows, q.tables, op.path, |op.data|, f);
    } else if x.CommitRemove? {
      RemovalKeepsRows(q.sys.svc.rows, q.tables, op.path, f);
    }
  }

  lemma ExecKeepsRows(q: Quota, w: nat, x: F.Action, f: Faults)
    requires QuotaOk(q) && CanMove(q, Exec(w, x), f)
    ensures RowsAreLedger(F.NextRows(q.sys.svc, x), NextTables(q, Exec(w, x), f))
  {
    WorkersKey(q.sys, w);
    if x.Commit? {
      CommittedSizeIsSmall(q, w, x);
    }
    TransactionKeepsRows(q, w, x, f);
  }

  /** Only a worker's work on a file touches the metadata. */
  lemma RowsStay(s: Sys, a: Action)
    requires Enabled(s, a)
    ensures Apply(s, a).svc.rows == if a.Exec? then F.NextRows(s.svc, a.a) else s.svc.rows
  {
    if !WorkerAction(a) {
      ClientsLeaveService(s, a);
    }
  }

  lemma ClientsLeaveService(s: Sys, a: Action)
    requires Enabled(s, a) && !WorkerAction(a)
    ensures Apply(s, a).svc == s.svc
  {
  }

  lemma MoveKeepsQuota(q: Quota, a: Action, f: Faults)
    requires QuotaOk(q) && Can(q, Move(a, f)) && ClearStep(q.sys, a)
    ensures QuotaOk(Advance(q, Move(a, f)))
  {
    StepKeepsSound(q.sys, a);
    StepKeepsClaimed(q, a, f);
    StepKeepsKeys(q, a, f);
    var r := StepIsRaceStep(q, a, f);
    if r.Some? {
      R.StepKeepsBounded(R.Race(q.tables, q.claims), r.value);
    }
    RowsStay(q.sys, a);
    if a.Exec? {
      ExecKeepsRows(q, a.w, a.a, f);
    }
  }

  lemma SignUpKeepsQuota(q: Quota, user: Name, hash: Name, f: Faults)
    requires QuotaOk(q)
    ensures QuotaOk(q.(tables := CreateUser(q.tables, user, hash, f).0))
  {
    var q' := q.(tables := CreateUser(q.tables, user, hash, f).0);
    R.StepKeepsBounded(R.Race(q.tables, q.claims), R.SignUp(user, hash, f));
    SignUpKeepsRows(q.sys.svc.rows, q.tables, user, hash, f);
    assert forall spot :: Here(q'.sys, spot) == Here(q.sys, spot);
  }

  lemma StepKeepsQuota(q: Quota, e: Event)
    requires QuotaOk(q) && Can(q, e) && (e.Move? ==> ClearStep(q.sys, e.a))
    ensures QuotaOk(Advance(q, e)) && |Advance(q, e).claims| == |q.claims|
  {
    match e {
      case Move(a, f) =>
        MoveKeepsQuota(q, a, f);
        StepKeepsSizes(q.sys, a);
      case SignUp(user, hash, f) =>
        SignUpKeepsQuota(q, user, hash, f);
    }
  }

  lemma {:induction false} RunKeepsQuota(q: Quota, es: seq<Event>)
    requires QuotaOk(q) && ValidRun(q, es)
    ensures QuotaOk(End(q, es)) && |End(q, es).claims| == |q.claims|
    decreases |es|
  {
    if es != [] {
      StepKeepsQuota(q, es[0]);
      RunKeepsQuota(Advance(q, es[0]), es[1..]);
    }
  }

  lemma BeginIsOk(cfg: Config)
    requires Usable(cfg) && cfg.rows == map[] && R.Limits(cfg.clients) <= TWO_63
    ensures QuotaOk(Begin(cfg))
  {
    StartIsSound(cfg);
    assert Contents(Start(cfg).ring) == [];
    assert forall spot :: Here(Start(cfg), spot).None?;
  }

  /** The quota in the running server: a user's cached usage is the sum of that user's file sizes,
      and together with the checked uploads that are still under way it stays within one limit
      for each client thread.  Each such claim is that of the upload its client is busy with. */
  lemma ServerStaysWithinLimits(cfg: Config, es: seq<Event>, i: nat)
    requires Usable(cfg) && cfg.rows == map[] && R.Limits(cfg.clients) <= TWO_63 && ValidRun(Begin(cfg), es)
    requires i < |End(Begin(cfg), es).tables.users|
    ensures var q := End(Begin(cfg), es);
            var u := q.tables.users[i];
            && u.used == SumFor(q.tables.files, u.id)
            && 0 <= u.used && u.used + R.Claimed(q.claims, u.name) <= cfg.clients * DEFAULT_LIMIT
            && |q.claims| == |q.sys.clients|
            && forall c :: 0 <= c < |q.claims| && q.claims[c].Some? ==> q.claims[c] == Due(q.sys, c)
  {
    BeginIsOk(cfg);
    RunKeepsQuota(Begin(cfg), es);
    var q := End(Begin(cfg), es);
    assert R.RowBounded(q.tables.users[i], q.claims);
  }

  /** The file service's rows are at all times the sizes on record in the ledger. */
  lemma RowsStayTheLedgers(cfg: Config, es: seq<Event>)
    requires Usable(cfg) && cfg.rows == map[] && R.Limits(cfg.clients) <= TWO_63 && ValidRun(Begin(cfg), es)
    ensures RowsAreLedger(End(Begin(cfg), es).sys.svc.rows, End(Begin(cfg), es).tables)
  {
    BeginIsOk(cfg);
    RunKeepsQuota(Begin(cfg), es);
  }

  /** A row of the user whose files leave room for `size` bytes more within the limit. */
  predicate RoomFor(t: Tables, user: Name, size: nat)
  {
    exists i :: 0 <= i < |t.users| && t.users[i].name == user &&
                SumFor(t.files, t.users[i].id) + size <= DEFAULT_LIMIT
  }

  lemma FitsIff(t: Tables, claims: seq<Option<R.Claim>>, user: Name, size: nat, f: Faults)
    requires R.Bounded(R.Race(t, claims)) && R.Limits(|claims|) <= TWO_63 && size < TWO_63
    ensures CheckQuota(t, user, size, f) <==> !f.prepareId && !f.stepId && RoomFor(t, user, size)
  {
    forall i | 0 <= i < |t.users|
      ensures 0 <= t.users[i].used && t.users[i].limit == DEFAULT_LIMIT && t.users[i].used + size < TWO_64
    {
      assert R.RowBounded(t.users[i], claims);
    }
    CheckQuotaIff(t, user, size, f);
    KnownIff(t.users, user);
  }

  lemma ReadyForSteps(s: Sys)
    requires FlowOk(s)
    ensures WellFormed(s.ring) && |s.mgr.slots| > 0
  {
    assert TableOk(s.mgr, s.ids);
  }

  lemma LetInIff(q: Quota, c: nat, path: FL.Path, size: nat, f: Faults)
    requires FlowOk(q.sys) && R.Bounded(R.Race(q.tables, q.claims)) && R.Limits(|q.claims|) <= TWO_63
    requires c < |q.sys.clients| && q.sys.clients[c].Serving? && FL.SLASH in path && size < TWO_63
    ensures CanMove(q, StartUpload(c, path, size), f) <==>
            !f.prepareId && !f.stepId && RoomFor(q.tables, Owner(path), size)
  {
    FitsIff(q.tables, q.claims, Owner(path), size, f);
    ReadyForSteps(q.sys);
  }

  /** At any time in such a run, a client's upload is let in exactly when no query fails, the user
      is known, and the user's committed files leave room for it; claims do not count. */
  lemma UploadLetInIff(cfg: Config, es: seq<Event>, c: nat, path: FL.Path, size: nat, f: Faults)
    requires Usable(cfg) && cfg.rows == map[] && R.Limits(cfg.clients) <= TWO_63 && ValidRun(Begin(cfg), es)
    requires var s := End(Begin(cfg), es).sys; c < |s.clients| && s.clients[c].Serving?
    requires FL.SLASH in path && size < TWO_63
    ensures var q := End(Begin(cfg), es);
            CanMove(q, StartUpload(c, path, size), f) <==>
            !f.prepareId && !f.stepId && RoomFor(q.tables, Owner(path), size)
  {
    BeginIsOk(cfg);
    RunKeepsQuota(Begin(cfg), es);
    LetInIff(End(Begin(cfg), es), c, path, size, f);
  }

  lemma TransactionIsPossible(s: Sys, w: nat, x: F.Action)
    requires FlowOk(s) && w < |s.workers| && s.workers[w].Running? && x.t == w
    requires if s.svc.jobs[w].Written? then x.Commit? || x.CommitFails?
             else s.svc.jobs[w].Unlinked? && (x.CommitRemove? || x.RemoveRowFails?)
    ensures Enabled(s, Exec(w, x))
    ensures if s.svc.jobs[w].Written? then s.svc.jobs[w].op.Upload? else s.svc.jobs[w].op.Delete?
  {
    assert F.Matches(s.svc.jobs[w], s.svc.locks.phases[w]);
    ReadyForSteps(s);
  }

  /** Every transaction a worker comes to ends one way: it goes through or it fails. */
  lemma TransactionEndsOneWay(q: Quota, w: nat, f: Faults)
    requires FlowOk(q.sys) && w < |q.sys.workers| && q.sys.workers[w].Running?
    requires q.sys.svc.jobs[w].Written? || q.sys.svc.jobs[w].Unlinked?
    ensures if q.sys.svc.jobs[w].Written?
            then CanMove(q, Exec(w, F.Commit(w)), f) <==> !CanMove(q, Exec(w, F.CommitFails(w)), f)
            else CanMove(q, Exec(w, F.CommitRemove(w)), f) <==> !CanMove(q, Exec(w, F.RemoveRowFails(w)), f)
  {
    if q.sys.svc.jobs[w].Written? {
      TransactionIsPossible(q.sys, w, F.Commit(w));
      TransactionIsPossible(q.sys, w, F.CommitFails(w));
    } else {
      TransactionIsPossible(q.sys, w, F.CommitRemove(w));
      TransactionIsPossible(q.sys, w, F.RemoveRowFails(w));
    }
  }
}
