/**
 What clients of the workers may rely on: downloads return the last acknowledged upload,
 disk and metadata agree on every file nobody works on, and some worker can always move
 without help from a failing call.  `FileServiceLimits` says exactly when the safety results
 hold.
 */
module FileServiceResults {
  import opened Prelude
  import opened DiskPaths
  import opened FileLocks
  import opened FileService
  import L = LockProtocol

  // ---------------------------------------------------------------- serial histories

  /** The event made file `p` what it now is: an acknowledged upload or delete, or an upload that
      failed while writing. */
  predicate Writes(e: Event, p: Place)
  {
    || (e.op.Upload? && (e.res.Stored? || e.res.Spoiled?) && FileOf(e.op.path) == p)
    || (e.op.Delete? && e.res.Erased? && FileOf(e.op.path) == p)
  }

  /** An acknowledged upload of these bytes to file `p`, under whatever name. */
  predicate Stores(e: Event, p: Place, bytes: Bytes)
  {
    e.op.Upload? && FileOf(e.op.path) == p && e.op.data == bytes && e.res.Stored?
  }

  /** Index of the last completed operation that changed `p`. */
  function LastWrite(log: seq<Event>, p: Place): (i: Option<nat>)
    ensures i.Some? ==> i.value < |log| && Writes(log[i.value], p)
    ensures forall k :: (if i.Some? then i.value < k else 0 <= k) && k < |log| ==> !Writes(log[k], p)
  {
    if log == [] then None
    else if Writes(log[|log| - 1], p) then Some(|log| - 1)
    else LastWrite(log[..|log| - 1], p)
  }

  /** The serial file state at `p` is what the last change to `p` made of it. */
  lemma {:induction false} ReplayIsLastWrite(f: Files, log: seq<Event>, p: Place)
    ensures match LastWrite(log, p)
            case None => SameAt(Replay(f, log), f, p)
            case Some(i) =>
              if log[i].res.Stored? then p in Replay(f, log) && Replay(f, log)[p] == log[i].op.data
              else p !in Replay(f, log)
  {
    if log != [] {
      ReplayIsLastWrite(f, log[..|log| - 1], p);
    }
  }

  lemma {:induction false} SerialAt(f: Files, log: seq<Event>, i: nat)
    requires Serial(f, log) && i < |log|
    ensures Legal(Replay(f, log[..i]), log[i])
  {
    var n := |log| - 1;
    if i < n {
      SerialAt(f, log[..n], i);
      assert log[..n][..i] == log[..i];
    }
  }

  /** Serializability: with distinct homes and distinct files for keys live at the same time, no
      silent loss of data, and no lock taken on a file that another worker is about to remove, every
      interleaving is a serial run in the order the locks were given up, in which an upload
      that failed while writing removes the file; and a file nobody has business with is
      exactly what that serial run left. */
  lemma SerialInLockOrder(slots: nat, workers: nat, disk: Files, rows: map<Path, nat>, acts: seq<Action>)
    requires slots > 0 && Valid(Init(slots, workers, disk, rows), acts)
    requires SeparatedRun(Init(slots, workers, disk, rows), acts) && OrderlyRun(Init(slots, workers, disk, rows), acts)
    ensures var s := Final(Init(slots, workers, disk, rows), acts);
            && Serial(disk, s.log)
            && Settled(s.jobs, s.disk, Replay(disk, s.log))
  {
    InitIsSerialized(slots, workers, disk, rows);
    RunsStaySerialized(Init(slots, workers, disk, rows), acts, disk);
  }

  /** A fetched file is the last stored one in a serial history. */
  lemma FetchIsLastUpload(disk: Files, log: seq<Event>, i: nat)
    requires Serial(disk, log) && i < |log| && log[i].res.Fetched?
    ensures log[i].op.Download?
    ensures var p := FileOf(log[i].op.path);
            match LastWrite(log[..i], p)
            case Some(w) => Stores(log[w], p, log[i].res.bytes)
            case None => p in disk && disk[p] == log[i].res.bytes
  {
    SerialAt(disk, log, i);
    ReplayIsLastWrite(disk, log[..i], FileOf(log[i].op.path));
  }

  /** A successful download returns exactly the bytes of the last successful upload, with no
      successful delete and no failed write after it; or the bytes found at start-up if nothing
      changed the file. */
  lemma DownloadReturnsLastUpload(slots: nat, workers: nat, disk: Files, rows: map<Path, nat>,
                                  acts: seq<Action>, i: nat)
    requires slots > 0 && Valid(Init(slots, workers, disk, rows), acts)
    requires SeparatedRun(Init(slots, workers, disk, rows), acts) && OrderlyRun(Init(slots, workers, disk, rows), acts)
    requires i < |Final(Init(slots, workers, disk, rows), acts).log|
    requires Final(Init(slots, workers, disk, rows), acts).log[i].res.Fetched?
    ensures var log := Final(Init(slots, workers, disk, rows), acts).log;
            && log[i].op.Download?
            && var p := FileOf(log[i].op.path);
               match LastWrite(log[..i], p)
               case Some(w) => Stores(log[w], p, log[i].res.bytes)
               case None => p in disk && disk[p] == log[i].res.bytes
  {
    SerialInLockOrder(slots, workers, disk, rows, acts);
    FetchIsLastUpload(disk, Final(Init(slots, workers, disk, rows), acts).log, i);
  }

  // ---------------------------------------------------------------- disk and metadata

  /** The file a key reaches exists iff the key has a row, and the row has the file's size. */
  predicate AgreeAt(disk: Files, rows: map<Path, nat>, p: Path)
  {
    (FileOf(p) in disk <==> p in rows) && (FileOf(p) in disk ==> rows[p] == |disk[FileOf(p)]|)
  }

  /** Whether a worker at this point has disk and metadata of its file in step. */
  predicate InStep(j: Job)
  {
    j.Locked? || j.Opened? || j.Reading? || j.Closing?
  }

  ghost predicate AgreeWhereFree(s: Service, keys: set<Path>)
  {
    forall p :: p in keys && NobodyInside(s.jobs, FileOf(p)) ==> AgreeAt(s.disk, s.rows, p)
  }

  /** The job is on one of the keys. */
  predicate OpOn(j: Job, keys: set<Path>)
  {
    j.NoJob? || j.op.List? || j.op.path in keys
  }

  ghost predicate TasksOn(s: Service, keys: set<Path>)
  {
    forall t :: 0 <= t < |s.jobs| ==> OpOn(s.jobs[t], keys)
  }

  ghost predicate Agreed(s: Service, keys: set<Path>)
  {
    && OneNameEach(keys)
    && TasksOn(s, keys)
    && AgreeWhereFree(s, keys)
    && (forall t :: 0 <= t < |s.jobs| && InStep(s.jobs[t]) && !s.jobs[t].op.List? ==>
          AgreeAt(s.disk, s.rows, s.jobs[t].op.path))
  }

  /** A task is taken on the given keys only. */
  predicate On(a: Action, keys: set<Path>)
  {
    a.Begin? && !a.op.List? ==> a.op.path in keys
  }

  lemma JobStaysOn(s: Service, a: Action, keys: set<Path>)
    requires Enabled(s, a) && On(a, keys) && OpOn(s.jobs[a.t], keys)
    ensures OpOn(NextJob(s, a), keys)
  {
  }

  lemma TasksStayOn(s: Service, a: Action, keys: set<Path>)
    requires Enabled(s, a) && On(a, keys) && TasksOn(s, keys)
    ensures TasksOn(Apply(s, a), keys)
  {
    JobStaysOn(s, a, keys);
  }

  /** A step touches the file and the row of its own key only. */
  lemma StepLeavesOthers(s: Service, a: Action, p: Path)
    requires Enabled(s, a) && OpFits(s.jobs[a.t])
    requires s.jobs[a.t].NoJob? || s.jobs[a.t].op.List? || FileOf(p) != FileOf(s.jobs[a.t].op.path)
    requires AgreeAt(s.disk, s.rows, p)
    ensures AgreeAt(NextDisk(s, a), NextRows(s, a), p)
  {
    DiskStepIsLocal(s, a, FileOf(p));
    assert (p in NextRows(s, a) <==> p in s.rows) && (p in s.rows ==> NextRows(s, a)[p] == s.rows[p]);
  }

  /** The worker's own file is in step whenever its job says so. */
  lemma OwnFileInStep(s: Service, a: Action, f: Files, keys: set<Path>)
    requires Serialized(s, f) && NoSpoils(s) && Agreed(s, keys) && Enabled(s, a) && !WriteFault(a) && !DbFault(a)
    requires Inside(s.jobs[a.t]) && !a.Unlock? && InStep(NextJob(s, a))
    ensures AgreeAt(NextDisk(s, a), NextRows(s, a), s.jobs[a.t].op.path)
  {
    var j := s.jobs[a.t];
    assert Matches(j, s.locks.phases[a.t]);
    assert JobView(j, s.disk, Replay(f, s.log));
  }

  lemma InsideWorkKeepsFreePaths(s: Service, a: Action, f: Files, keys: set<Path>)
    requires Serialized(s, f) && NoSpoils(s) && Agreed(s, keys) && Enabled(s, a) && !WriteFault(a)
    requires Inside(s.jobs[a.t]) && !a.Unlock?
    ensures AgreeWhereFree(Apply(s, a), keys)
  {
    var s', j := Apply(s, a), s.jobs[a.t];
    assert Matches(j, s.locks.phases[a.t]);
    OwnViewIsKept(s, a, Replay(f, s.log));
    forall p | p in keys && NobodyInside(s'.jobs, FileOf(p)) ensures AgreeAt(s'.disk, s'.rows, p) {
      assert !InsideOn(s'.jobs[a.t], FileOf(p));
      forall u | 0 <= u < |s.jobs| ensures !InsideOn(s.jobs[u], FileOf(p)) {
        assert !InsideOn(s'.jobs[u], FileOf(p));
      }
      assert NobodyInside(s.jobs, FileOf(p));
      StepLeavesOthers(s, a, p);
    }
  }

  lemma InsideWorkKeepsAgreed(s: Service, a: Action, f: Files, keys: set<Path>)
    requires Serialized(s, f) && NoSpoils(s) && Agreed(s, keys) && Enabled(s, a) && !WriteFault(a) && !DbFault(a)
    requires Inside(s.jobs[a.t]) && !a.Unlock?
    ensures Agreed(Apply(s, a), keys)
  {
    var s', j := Apply(s, a), s.jobs[a.t];
    assert Matches(j, s.locks.phases[a.t]);
    TasksStayOn(s, a, keys);
    InsideWorkKeepsFreePaths(s, a, f, keys);
    forall u | 0 <= u < |s'.jobs| && InStep(s'.jobs[u]) && !s'.jobs[u].op.List?
      ensures AgreeAt(s'.disk, s'.rows, s'.jobs[u].op.path)
    {
      if u == a.t {
        OwnFileInStep(s, a, f, keys);
      } else {
        AloneInside(s, a.t, u);
        StepLeavesOthers(s, a, s.jobs[u].op.path);
      }
    }
  }

  lemma UnlockKeepsAgreed(s: Service, t: Worker, f: Files, keys: set<Path>)
    requires Serialized(s, f) && NoSpoils(s) && Agreed(s, keys) && Enabled(s, Unlock(t))
    ensures Agreed(Apply(s, Unlock(t)), keys)
  {
    var s', j := Apply(s, Unlock(t)), s.jobs[t];
    assert Matches(j, s.locks.phases[t]);
    TasksStayOn(s, Unlock(t), keys);
    forall p | p in keys && NobodyInside(s'.jobs, FileOf(p)) ensures AgreeAt(s'.disk, s'.rows, p) {
      if p != j.op.path {
        assert OpOn(j, keys) && NoAlias(p, j.op.path);
        forall u | 0 <= u < |s.jobs| ensures !InsideOn(s.jobs[u], FileOf(p)) {
          assert u != t ==> !InsideOn(s'.jobs[u], FileOf(p));
        }
        assert NobodyInside(s.jobs, FileOf(p));
      }
    }
  }

  lemma OutsideStepKeepsAgreed(s: Service, a: Action, f: Files, keys: set<Path>)
    requires Serialized(s, f) && NoSpoils(s) && Agreed(s, keys) && Enabled(s, a) && On(a, keys)
    requires !Inside(s.jobs[a.t])
    ensures Agreed(Apply(s, a), keys)
  {
    var s', j := Apply(s, a), s.jobs[a.t];
    assert NoSpoil(j) && Matches(j, s.locks.phases[a.t]);
    TasksStayOn(s, a, keys);
    if a.Lock? {
      assert OpOn(j, keys);
      assert NobodyInside(s.jobs, FileOf(j.op.path)) by {
        forall u | 0 <= u < |s.jobs| ensures !InsideOn(s.jobs[u], FileOf(j.op.path)) {
          if u != a.t && Inside(s.jobs[u]) {
            AloneInside(s, a.t, u);
          }
        }
      }
    }
    forall p | p in keys && NobodyInside(s'.jobs, FileOf(p)) ensures NobodyInside(s.jobs, FileOf(p)) {
      forall u | 0 <= u < |s.jobs| ensures !InsideOn(s.jobs[u], FileOf(p)) {
        assert !InsideOn(s'.jobs[u], FileOf(p));
      }
    }
    assert s'.disk == s.disk && s'.rows == s.rows;
  }

  /** One step without write or database fault, on keys that reach different files. */
  lemma StepKeepsAgreed(s: Service, a: Action, f: Files, keys: set<Path>)
    requires Serialized(s, f) && NoSpoils(s) && Agreed(s, keys) && Enabled(s, a) && On(a, keys)
    requires !WriteFault(a) && !DbFault(a)
    ensures Agreed(Apply(s, a), keys)
  {
    if a.Unlock? {
      UnlockKeepsAgreed(s, a.t, f, keys);
    } else if Inside(s.jobs[a.t]) {
      InsideWorkKeepsAgreed(s, a, f, keys);
    } else {
      OutsideStepKeepsAgreed(s, a, f, keys);
    }
  }

  lemma {:induction false} RunsStayAgreed(s: Service, acts: seq<Action>, f: Files, keys: set<Path>)
    requires Serialized(s, f) && NoSpoils(s) && Agreed(s, keys) && Valid(s, acts) && SeparatedRun(s, acts)
    requires NoWriteFault(acts) && NoDbFault(acts)
    requires forall k :: 0 <= k < |acts| ==> On(acts[k], keys)
    ensures Agreed(Final(s, acts), keys)
    decreases |acts|
  {
    if acts != [] {
      var a := acts[0];
      assert !WriteFault(a) && !DbFault(a) && On(a, keys);
      StepKeepsNoSpoils(s, a);
      StepKeepsUnmixed(s, a);
      StepKeepsSerialized(s, a, f);
      StepKeepsAgreed(s, a, f, keys);
      assert NoWriteFault(acts[1..]) && NoDbFault(acts[1..]);
      RunsStayAgreed(Apply(s, a), acts[1..], f, keys);
    }
  }

  // ---------------------------------------------------------------- progress

  predicate Busy(j: Job)
  {
    !j.NoJob? && !j.Done?
  }

  /** How far a job is from its end; data transfers count down separately. */
  function Stage(j: Job): nat
  {
    match j
    case NoJob => 0
    case Done(_, _) => 1
    case Sweeping(_) => 2
    case Unlocked(_, _) => 3
    case Closing(_, _) => 4
    case Unlinked(_) => 5
    case Written(_) => 5
    case Writing(_, _) => 6
    case Reading(_, _, _) => 6
    case Opened(_) => 7
    case Locked(_) => 8
    case Located(_) => 9
    case Start(_) => 10
  }

  function BytesLeft(j: Job): nat
  {
    match j
    case Writing(op, done) => if op.Upload? && done <= |op.data| then |op.data| - done else 0
    case Reading(_, size, got) => if |got| <= size then size - |got| else 0
    case _ => 0
  }

  /** Every step of a worker brings its own job closer to the end. */
  lemma StepDescends(s: Service, a: Action)
    requires Wired(s) && Enabled(s, a) && !a.Begin?
    ensures Stage(NextJob(s, a)) < Stage(s.jobs[a.t]) ||
            (Stage(NextJob(s, a)) == Stage(s.jobs[a.t]) && BytesLeft(NextJob(s, a)) < BytesLeft(s.jobs[a.t]))
  {
    assert Matches(s.jobs[a.t], s.locks.phases[a.t]);
  }

  /** A read that fails because the file is gone or has become too short. */
  predicate Excused(s: Service, a: Action)
    requires a.t < |s.jobs|
  {
    && a.ReadFails?
    && var j := s.jobs[a.t];
       && (j.Opened? || j.Reading?) && !j.op.List?
       && (FileOf(j.op.path) !in s.disk || (j.Reading? && |s.disk[FileOf(j.op.path)]| <= |j.got| < j.size))
  }

  /** A step that needs no call to fail by itself. */
  predicate Ordinary(s: Service, a: Action)
    requires a.t < |s.jobs|
  {
    Fault(a) ==> Excused(s, a)
  }

  /** The step a busy worker takes next unless it waits for a mutex. */
  function NextStep(s: Service, t: Worker): Action
    requires t < |s.jobs| && Busy(s.jobs[t]) && !s.jobs[t].Located? && OpFits(s.jobs[t])
  {
    var j := s.jobs[t];
    match j
    case Start(op) => if op.List? then AnswerList(t, []) else Locate(t)
    case Locked(op) =>
      if op.Upload? then Truncate(t)
      else if FileOf(op.path) !in s.disk then Missing(t)
      else if op.Download? then Open(t)
      else Unlink(t)
    case Writing(op, done) => if done == |op.data| then CloseWrite(t) else Write(t, 1)
    case Written(_) => Commit(t)
    case Opened(op) => if FileOf(op.path) in s.disk then MeasureSize(t) else ReadFails(t)
    case Reading(op, size, got) =>
      if |got| == size then CloseRead(t)
      else if FileOf(op.path) in s.disk && |got| < |s.disk[FileOf(op.path)]| then Read(t, 1)
      else ReadFails(t)
    case Unlinked(_) => CommitRemove(t)
    case Closing(_, _) => Unlock(t)
    case Unlocked(_, _) => Drop(t)
    case Sweeping(_) => Sweep(t)
  }

  lemma NextStepIsEnabled(s: Service, t: Worker)
    requires Wired(s) && t < |s.jobs| && Busy(s.jobs[t]) && !s.jobs[t].Located? && OpFits(s.jobs[t])
    ensures Enabled(s, NextStep(s, t)) && NextStep(s, t).t == t && Ordinary(s, NextStep(s, t))
    ensures !NextStep(s, t).Lock? && !NextStep(s, t).CloseLoses? && !NextStep(s, t).SweepFails?
  {
    assert Matches(s.jobs[t], s.locks.phases[t]) && L.ThreadOk(s.locks, t);
  }

  /** A worker that keeps the mutex another one waits for is inside its own file. */
  lemma OwnerIsInside(s: Service, t: Worker) returns (u: Worker)
    requires Wired(s) && t < |s.jobs| && s.jobs[t].Located? && !L.Enabled(s.locks, L.Grab(t))
    ensures u < |s.jobs| && Inside(s.jobs[u]) && OpFits(s.jobs[u])
  {
    assert Matches(s.jobs[t], s.locks.phases[t]) && L.ThreadOk(s.locks, t);
    var i := s.locks.phases[t].slot;
    assert L.SlotOk(s.locks, i);
    u := s.locks.owner[i].value;
    assert Matches(s.jobs[u], s.locks.phases[u]);
  }

  /** No deadlock among workers: if one is busy, some busy worker can take a step, whatever
      the paths hash to and whatever failed before; and no call has to fail for it, unless a
      file that is being read was taken away. */
  lemma SomeWorkerCanMove(s: Service, t: Worker) returns (a: Action)
    requires Wired(s) && t < |s.jobs| && Busy(s.jobs[t])
    ensures Enabled(s, a) && Busy(s.jobs[a.t]) && Ordinary(s, a)
  {
    assert Matches(s.jobs[t], s.locks.phases[t]);
    if !s.jobs[t].Located? {
      NextStepIsEnabled(s, t);
      a := NextStep(s, t);
    } else if L.Enabled(s.locks, L.Grab(t)) {
      a := Lock(t);
    } else {
      var u := OwnerIsInside(s, t);
      NextStepIsEnabled(s, u);
      a := NextStep(s, u);
    }
  }

  /** While the files are as the serial history says, reads do not run short. */
  lemma SerializedReadsSucceed(s: Service, t: Worker, f: Files)
    requires Serialized(s, f) && t < |s.jobs| && Busy(s.jobs[t]) && !s.jobs[t].Located? && OpFits(s.jobs[t])
    ensures !Fault(NextStep(s, t))
  {
    if s.jobs[t].Opened? || s.jobs[t].Reading? {
      assert JobView(s.jobs[t], s.disk, Replay(f, s.log));
    }
  }

  /** A worker that has looked up its lock and not yet finished. */
  predicate UnderWay(j: Job)
  {
    Busy(j) && !j.Start?
  }

  /** If no worker is under way, no slot of the lock table is in use. */
  lemma NobodyUnderWay(s: Service)
    requires Wired(s) && forall u :: 0 <= u < |s.jobs| ==> !UnderWay(s.jobs[u])
    ensures forall i: nat :: i < |s.locks.table| ==> !s.locks.table[i].inUse
  {
    forall u | 0 <= u < |s.jobs| ensures s.locks.phases[u].Idle? {
      assert Matches(s.jobs[u], s.locks.phases[u]);
    }
    forall i: nat | i < |s.locks.table| ensures !s.locks.table[i].inUse {
      assert L.SlotOk(s.locks, i);
      AllIdleNoUsers(s.locks.phases, i);
    }
  }

  lemma {:induction false} AllIdleNoUsers(phases: seq<L.Phase>, i: nat)
    requires forall u :: 0 <= u < |phases| ==> phases[u].Idle?
    ensures L.Users(phases, i) == 0
  {
    if phases != [] {
      AllIdleNoUsers(phases[..|phases| - 1], i);
    }
  }

  /** The waiting worker locks, or whoever keeps it waiting moves on. */
  lemma WaitingStep(s: Service, t: Worker, f: Files) returns (a: Action)
    requires Serialized(s, f) && t < |s.jobs| && s.jobs[t].Located?
    ensures Enabled(s, a) && Busy(s.jobs[a.t]) && !Fault(a) && !a.Locate? && Orderly(s, a)
  {
    assert Matches(s.jobs[t], s.locks.phases[t]);
    var p := FileOf(s.jobs[t].op.path);
    var u: Worker := t;
    if !NoSweepDue(s.jobs, p) {
      var v :| 0 <= v < |s.jobs| && SweepDueOn(s.jobs[v], p);
      u := v;
    } else if !L.Enabled(s.locks, L.Grab(t)) {
      u := OwnerIsInside(s, t);
    } else {
      a := Lock(t);
      return;
    }
    assert Matches(s.jobs[u], s.locks.phases[u]);
    NextStepIsEnabled(s, u);
    SerializedReadsSucceed(s, u, f);
    a := NextStep(s, u);
  }

  /** The same with nothing failing at all: a busy worker can move so that live keys keep distinct
      homes and files and no file is locked that is about to be removed.  A lookup waits until
      nobody else is under way. */
  lemma SomeWorkerMovesCalmly(s: Service, t: Worker, f: Files) returns (a: Action)
    requires Serialized(s, f) && t < |s.jobs| && Busy(s.jobs[t])
    ensures Enabled(s, a) && Busy(s.jobs[a.t]) && !Fault(a) && Separated(s, a) && Orderly(s, a)
  {
    var u: Worker := t;
    if v :| 0 <= v < |s.jobs| && UnderWay(s.jobs[v]) {
      u := v;
    } else {
      NobodyUnderWay(s);
    }
    assert Matches(s.jobs[u], s.locks.phases[u]);
    if s.jobs[u].Located? {
      a := WaitingStep(s, u, f);
    } else {
      NextStepIsEnabled(s, u);
      SerializedReadsSucceed(s, u, f);
      a := NextStep(s, u);
    }
  }

  /** Any call may fail when its turn comes, no other call then, and its failure decides the answer:
      a lost write sends the task to the removal of the file, a failed metadata call is only
      logged, and data may be lost silently only at the end of a write. */
  lemma AnyCallMayFail(s: Service, a: Action)
    requires Wired(s) && a.t < |s.jobs| && Fault(a) && !a.CloseLoses?
    ensures Enabled(s, a) <==>
            match s.jobs[a.t]
            case Start(_) => a.Reject?
            case Locked(_) => a.OpenFails?
            case Writing(_, _) => a.WriteFails?
            case Written(_) => a.CommitFails?
            case Opened(_) => a.ReadFails?
            case Reading(_, _, _) => a.ReadFails?
            case Unlinked(_) => a.RemoveRowFails?
            case Sweeping(_) => a.SweepFails?
            case _ => false
    ensures Enabled(s, a) ==>
            var j, s' := s.jobs[a.t], Apply(s, a);
            && s'.disk == s.disk && s'.rows == s.rows && s'.locks == s.locks && s'.log == s.log
            && s'.jobs == s.jobs[a.t := if j.Start? then Done(j.op, Failed)
                                        else if j.Sweeping? then Done(j.op, Spoiled)
                                        else Closing(j.op, if j.Writing? then Spoiled
                                                           else if j.Written? then Stored
                                                           else if j.Unlinked? then Erased
                                                           else Failed)]
  {
    assert Matches(s.jobs[a.t], s.locks.phases[a.t]);
  }

  /** The result so far is no failure. */
  predicate GoingWell(j: Job)
  {
    !j.Sweeping? && (j.Closing? || j.Unlocked? || j.Done? ==> !j.res.Failed? && !j.res.Spoiled?)
  }

  /** Without faults, and with the home slot of its path to be had, a task never fails. */
  lemma StepKeepsGoingWell(s: Service, a: Action)
    requires Wired(s) && Unmixed(s.locks.table) && Enabled(s, a) && Separated(s, a) && !Fault(a)
    requires !a.Begin? && !a.Finish? && GoingWell(s.jobs[a.t])
    ensures GoingWell(NextJob(s, a))
  {
    if a.Locate? {
      L.StepKeepsHomeOnly(s.locks, L.Lookup(a.t, s.jobs[a.t].op.path));
    }
  }
}
