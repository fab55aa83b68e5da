/**
 The file operations of src/threads/worker_thread.c as interleaved steps of any number of
 workers over one disk, one metadata table and the per-file locks.  Locks and metadata rows go
 by the key "user/file", the disk by the file that key reaches.  The log records each operation
 when its worker unlocks the file; the theorems say when the log is a serial history and when
 disk and metadata agree.
 */
module FileService {
  import opened Prelude
  import opened DiskPaths
  import opened FileLocks
  import L = LockProtocol

  type Bytes = seq<byte>
  type Files = map<Place, Bytes>
  type Worker = nat

  datatype Op = Upload(path: Path, data: Bytes) | Download(path: Path) | Delete(path: Path) | List

  datatype Outcome =
    | Stored                   // UPLOAD OK
    | Fetched(bytes: Bytes)    // DOWNLOAD OK with the payload
    | Erased                   // DELETE OK
    | Listed(reply: Bytes)     // the LIST reply
    | NotFound                 // RESPONSE_FILE_NOT_FOUND
    | Spoiled                  // UPLOAD ERROR: File write failed; the file is removed
    | Failed                   // any other RESPONSE_ERROR

  datatype Event = Event(op: Op, res: Outcome)

  /** Progress of one worker through its task. `Locked` to `Closing` own the file's mutex. */
  datatype Job =
    | NoJob
    | Start(op: Op)
    | Located(op: Op)                                // waiting for the mutex
    | Locked(op: Op)
    | Writing(op: Op, done: nat)                     // file truncated, `done` bytes written
    | Written(op: Op)                                // file closed, metadata not yet updated
    | Opened(op: Op)                                 // file open for reading
    | Reading(op: Op, size: nat, got: Bytes)
    | Unlinked(op: Op)                               // file removed, metadata not yet updated
    | Closing(op: Op, res: Outcome)                  // about to unlock
    | Unlocked(op: Op, res: Outcome)                 // mutex free, reference still counted
    | Sweeping(op: Op)                               // about to remove a half-written file
    | Done(op: Op, res: Outcome)

  datatype Service = Service(
    locks: L.Locks,
    jobs: seq<Job>,
    disk: Files,
    rows: map<Path, nat>,
    log: seq<Event>)

  datatype Action =
    | Begin(t: Worker, op: Op)
    | Reject(t: Worker)                       // unknown user, or directory not readable
    | AnswerList(t: Worker, reply: Bytes)
    | Locate(t: Worker)
    | Lock(t: Worker)
    | OpenFails(t: Worker)
    | Missing(t: Worker)
    | Truncate(t: Worker)
    | Write(t: Worker, count: nat)
    | WriteFails(t: Worker)
    | CloseWrite(t: Worker)
    | CloseLoses(t: Worker, kept: nat)        // fclose reports an error, which is only logged
    | Commit(t: Worker)
    | CommitFails(t: Worker)
    | Open(t: Worker)
    | MeasureSize(t: Worker)
    | Read(t: Worker, count: nat)
    | ReadFails(t: Worker)
    | CloseRead(t: Worker)
    | Unlink(t: Worker)
    | CommitRemove(t: Worker)
    | RemoveRowFails(t: Worker)
    | Unlock(t: Worker)
    | Drop(t: Worker)
    | Sweep(t: Worker)
    | SweepFails(t: Worker)
    | Finish(t: Worker)

  function Init(slots: nat, workers: nat, disk: Files, rows: map<Path, nat>): Service
    requires slots > 0
  {
    Service(L.Init(slots, workers), seq(workers, _ => NoJob), disk, rows, [])
  }

  /** The branch `fwrite_error || written != filesize`, and data lost at `fclose`. */
  predicate WriteFault(a: Action)
  {
    a.WriteFails? || a.CloseLoses?
  }

  /** A metadata transaction that fails after the disk was changed. */
  predicate DbFault(a: Action)
  {
    a.CommitFails? || a.RemoveRowFails?
  }

  /** A call into the operating system or the database that fails. */
  predicate Fault(a: Action)
  {
    || a.Reject? || a.OpenFails? || a.WriteFails? || a.CloseLoses? || a.CommitFails?
    || a.ReadFails? || a.RemoveRowFails? || a.SweepFails?
  }

  /** Writing `chunk` at offset `off` of a file. */
  function WriteAt(before: Bytes, off: nat, chunk: Bytes): Bytes
  {
    var padded := if off <= |before| then before else before + seq(off - |before|, _ => 0);
    padded[..off] + chunk + (if off + |chunk| < |padded| then padded[off + |chunk|..] else [])
  }

  predicate Enabled(s: Service, a: Action)
  {
    && a.t < |s.jobs| == |s.locks.phases|
    && var j := s.jobs[a.t];
       match a
       case Begin(_, _) => j.NoJob?
       case Reject(_) => j.Start?
       case AnswerList(_, _) => j.Start? && j.op.List?
       case Locate(t) => j.Start? && !j.op.List? && L.Enabled(s.locks, L.Lookup(t, j.op.path))
       case Lock(t) => j.Located? && L.Enabled(s.locks, L.Grab(t))
       case OpenFails(_) => j.Locked?
       case Missing(_) => j.Locked? && (j.op.Download? || j.op.Delete?) && FileOf(j.op.path) !in s.disk
       case Truncate(_) => j.Locked? && j.op.Upload?
       case Write(_, count) => j.Writing? && j.op.Upload? && 0 < count <= |j.op.data| - j.done
       case WriteFails(_) => j.Writing?
       case CloseWrite(_) => j.Writing? && j.op.Upload? && j.done == |j.op.data|
       case CloseLoses(_, kept) => j.Writing? && j.op.Upload? && kept < j.done == |j.op.data| &&
                                   FileOf(j.op.path) in s.disk && kept <= |s.disk[FileOf(j.op.path)]|
       case Commit(_) => j.Written? && j.op.Upload?
       case CommitFails(_) => j.Written?
       case Open(_) => j.Locked? && j.op.Download? && FileOf(j.op.path) in s.disk
       case MeasureSize(_) => j.Opened? && !j.op.List? && FileOf(j.op.path) in s.disk
       case Read(_, count) => j.Reading? && !j.op.List? && FileOf(j.op.path) in s.disk && count > 0 &&
                              |j.got| + count <= j.size && |j.got| + count <= |s.disk[FileOf(j.op.path)]|
       case ReadFails(_) => j.Opened? || j.Reading?
       case CloseRead(_) => j.Reading? && |j.got| == j.size
       case Unlink(_) => j.Locked? && j.op.Delete? && FileOf(j.op.path) in s.disk
       case CommitRemove(_) => j.Unlinked? && !j.op.List?
       case RemoveRowFails(_) => j.Unlinked?
       case Unlock(t) => j.Closing? && L.Enabled(s.locks, L.Unlock(t))
       case Drop(t) => j.Unlocked? && L.Enabled(s.locks, L.Drop(t))
       case Sweep(_) => j.Sweeping? && !j.op.List?
       case SweepFails(_) => j.Sweeping?
       case Finish(_) => j.Done?
  }

  /** The job of the acting worker after the step. */
  function NextJob(s: Service, a: Action): Job
    requires Enabled(s, a)
  {
    var j := s.jobs[a.t];
    match a
    case Begin(_, op) => Start(op)
    case Reject(_) => Done(j.op, Failed)
    case AnswerList(_, reply) => Done(j.op, Listed(reply))
    case Locate(_) => if SlotFor(s.locks.table, j.op.path).None? then Done(j.op, Failed) else Located(j.op)
    case Lock(_) => Locked(j.op)
    case OpenFails(_) => Closing(j.op, Failed)
    case Missing(_) => Closing(j.op, NotFound)
    case Truncate(_) => Writing(j.op, 0)
    case Write(_, count) => Writing(j.op, j.done + count)
    case WriteFails(_) => Closing(j.op, Spoiled)
    case CloseWrite(_) => Written(j.op)
    case CloseLoses(_, _) => Written(j.op)
    case Commit(_) => Closing(j.op, Stored)
    case CommitFails(_) => Closing(j.op, Stored)
    case Open(_) => Opened(j.op)
    case MeasureSize(_) => Reading(j.op, |s.disk[FileOf(j.op.path)]|, [])
    case Read(_, count) => Reading(j.op, j.size, j.got + s.disk[FileOf(j.op.path)][|j.got|..|j.got| + count])
    case ReadFails(_) => Closing(j.op, Failed)
    case CloseRead(_) => Closing(j.op, Fetched(j.got))
    case Unlink(_) => Unlinked(j.op)
    case CommitRemove(_) => Closing(j.op, Erased)
    case RemoveRowFails(_) => Closing(j.op, Erased)
    case Unlock(_) => Unlocked(j.op, j.res)
    case Drop(_) => if j.res.Spoiled? then Sweeping(j.op) else Done(j.op, j.res)
    case Sweep(_) => Done(j.op, Spoiled)
    case SweepFails(_) => Done(j.op, Spoiled)
    case Finish(_) => NoJob
  }

  function NextDisk(s: Service, a: Action): Files
    requires Enabled(s, a)
  {
    var j := s.jobs[a.t];
    match a
    case Truncate(_) => s.disk[FileOf(j.op.path) := []]
    case Write(_, count) =>
      if FileOf(j.op.path) in s.disk
      then s.disk[FileOf(j.op.path) := WriteAt(s.disk[FileOf(j.op.path)], j.done, j.op.data[j.done..j.done + count])]
      else s.disk
    case CloseLoses(_, kept) => s.disk[FileOf(j.op.path) := s.disk[FileOf(j.op.path)][..kept]]
    case Unlink(_) => s.disk - {FileOf(j.op.path)}
    case Sweep(_) => s.disk - {FileOf(j.op.path)}
    case _ => s.disk
  }

  function NextRows(s: Service, a: Action): map<Path, nat>
    requires Enabled(s, a)
  {
    var j := s.jobs[a.t];
    match a
    case Commit(_) => s.rows[j.op.path := |j.op.data|]
    case CommitRemove(_) => s.rows - {j.op.path}
    case _ => s.rows
  }

  function NextLocks(s: Service, a: Action): L.Locks
    requires Enabled(s, a)
  {
    match a
    case Locate(t) => L.Apply(s.locks, L.Lookup(t, s.jobs[t].op.path))
    case Lock(t) => L.Apply(s.locks, L.Grab(t))
    case Unlock(t) => L.Apply(s.locks, L.Unlock(t))
    case Drop(t) => L.Apply(s.locks, L.Drop(t))
    case _ => s.locks
  }

  function Apply(s: Service, a: Action): Service
    requires Enabled(s, a)
  {
    Service(NextLocks(s, a), s.jobs[a.t := NextJob(s, a)], NextDisk(s, a), NextRows(s, a),
            if a.Unlock? then s.log + [Event(s.jobs[a.t].op, s.jobs[a.t].res)] else s.log)
  }

  predicate Valid(s: Service, acts: seq<Action>)
    decreases |acts|
  {
    acts == [] || (Enabled(s, acts[0]) && Valid(Apply(s, acts[0]), acts[1..]))
  }

  function Final(s: Service, acts: seq<Action>): Service
    requires Valid(s, acts)
    decreases |acts|
  {
    if acts == [] then s else Final(Apply(s, acts[0]), acts[1..])
  }

  /** A key is looked up only while all other live keys have other home slots and reach other
      files. */
  ghost predicate Separated(s: Service, a: Action)
    requires Enabled(s, a)
  {
    a.Locate? ==>
      && L.Separated(s.locks, L.Lookup(a.t, s.jobs[a.t].op.path))
      && (forall i: nat :: i < |s.locks.table| && s.locks.table[i].inUse ==>
            NoAlias(s.locks.table[i].filepath, s.jobs[a.t].op.path))
  }

  ghost predicate SeparatedRun(s: Service, acts: seq<Action>)
    requires Valid(s, acts)
    decreases |acts|
  {
    acts == [] || (Separated(s, acts[0]) && SeparatedRun(Apply(s, acts[0]), acts[1..]))
  }

  predicate NoWriteFault(acts: seq<Action>)
  {
    forall k :: 0 <= k < |acts| ==> !WriteFault(acts[k])
  }

  predicate NoDbFault(acts: seq<Action>)
  {
    forall k :: 0 <= k < |acts| ==> !DbFault(acts[k])
  }

  // ---------------------------------------------------------------- jobs match lock phases

  predicate Inside(j: Job)
  {
    j.Locked? || j.Writing? || j.Written? || j.Opened? || j.Reading? || j.Unlinked? || j.Closing?
  }

  /** The worker is inside on file `p`. */
  predicate InsideOn(j: Job, p: Place)
  {
    Inside(j) && !j.op.List? && FileOf(j.op.path) == p
  }

  predicate OpFits(j: Job)
  {
    match j
    case Writing(op, done) => op.Upload? && done <= |op.data|
    case Written(op) => op.Upload?
    case Opened(op) => op.Download?
    case Reading(op, size, got) => op.Download? && |got| <= size
    case Unlinked(op) => op.Delete?
    case Sweeping(op) => op.Upload?
    case Closing(op, res) => !op.List? && (res.Spoiled? ==> op.Upload?)
    case Unlocked(op, res) => !op.List? && (res.Spoiled? ==> op.Upload?)
    case Located(op) => !op.List?
    case Locked(op) => !op.List?
    case _ => true
  }

  predicate Matches(j: Job, p: L.Phase)
  {
    && OpFits(j)
    && (if Inside(j) then p.Holding? && p.path == j.op.path
        else if j.Located? then p.Waiting? && p.path == j.op.path
        else if j.Unlocked? then p.Leaving? && p.path == j.op.path
        else p.Idle?)
  }

  /** Kept by every run, whatever fails and whatever the paths hash to. */
  ghost predicate Wired(s: Service)
  {
    && L.Inv(s.locks)
    && |s.jobs| == |s.locks.phases|
    && forall t: Worker :: t < |s.jobs| ==> Matches(s.jobs[t], s.locks.phases[t])
  }

  lemma InitIsWired(slots: nat, workers: nat, disk: Files, rows: map<Path, nat>)
    requires slots > 0
    ensures Wired(Init(slots, workers, disk, rows))
  {
    L.InitOk(slots, workers);
  }

  lemma StepKeepsLocks(s: Service, a: Action)
    requires Wired(s) && Enabled(s, a)
    ensures L.Inv(NextLocks(s, a)) && |NextLocks(s, a).phases| == |s.jobs|
    ensures forall t: Worker :: t < |s.jobs| && t != a.t ==> NextLocks(s, a).phases[t] == s.locks.phases[t]
  {
    match a {
      case Locate(t) => L.StepKeepsInv(s.locks, L.Lookup(t, s.jobs[t].op.path));
      case Lock(t) => L.StepKeepsInv(s.locks, L.Grab(t));
      case Unlock(t) => L.StepKeepsInv(s.locks, L.Unlock(t));
      case Drop(t) => L.StepKeepsInv(s.locks, L.Drop(t));
      case _ =>
    }
  }

  /** Steps that move the worker through its lock. */
  predicate LockStep(a: Action)
  {
    a.Locate? || a.Lock? || a.Unlock? || a.Drop?
  }

  lemma LockStepMatches(s: Service, a: Action)
    requires Enabled(s, a) && LockStep(a) && Matches(s.jobs[a.t], s.locks.phases[a.t])
    ensures |NextLocks(s, a).phases| == |s.jobs|
    ensures Matches(NextJob(s, a), NextLocks(s, a).phases[a.t])
  {
  }

  lemma OtherStepMatches(s: Service, a: Action)
    requires Enabled(s, a) && !LockStep(a) && Matches(s.jobs[a.t], s.locks.phases[a.t])
    ensures Matches(NextJob(s, a), s.locks.phases[a.t])
  {
  }

  lemma ActorStaysMatched(s: Service, a: Action)
    requires Wired(s) && Enabled(s, a)
    ensures |NextLocks(s, a).phases| == |s.jobs|
    ensures Matches(NextJob(s, a), NextLocks(s, a).phases[a.t])
  {
    assert Matches(s.jobs[a.t], s.locks.phases[a.t]);
    if LockStep(a) {
      LockStepMatches(s, a);
    } else {
      OtherStepMatches(s, a);
    }
  }

  lemma StepKeepsWired(s: Service, a: Action)
    requires Wired(s) && Enabled(s, a)
    ensures Wired(Apply(s, a))
  {
    StepKeepsLocks(s, a);
    ActorStaysMatched(s, a);
  }

  /** Live keys sit in their home slots, and no two of them reach one file. */
  ghost predicate Unmixed(t: Table)
  {
    && L.HomeOnly(t)
    && forall i: nat, k: nat :: i < |t| && k < |t| && t[i].inUse && t[k].inUse ==>
         NoAlias(t[i].filepath, t[k].filepath)
  }

  /** A lock is granted only when no other worker is inside on the same file. */
  lemma AloneInside(s: Service, t: Worker, u: Worker)
    requires Wired(s) && Unmixed(s.locks.table) && t < |s.jobs| && u < |s.jobs| && t != u
    requires s.jobs[t].Located? || Inside(s.jobs[t])
    requires s.jobs[t].Located? ==> L.Enabled(s.locks, L.Grab(t))
    requires Inside(s.jobs[u])
    ensures FileOf(s.jobs[t].op.path) != FileOf(s.jobs[u].op.path)
  {
    assert Matches(s.jobs[t], s.locks.phases[t]) && Matches(s.jobs[u], s.locks.phases[u]);
    assert L.ThreadOk(s.locks, t) && L.ThreadOk(s.locks, u);
  }

  // ---------------------------------------------------------------- serial histories

  /** What a completed operation does to the files. An upload whose write failed takes the old
      file with it. */
  function Effect(f: Files, e: Event): Files
  {
    if e.op.Upload? && e.res.Stored? then f[FileOf(e.op.path) := e.op.data]
    else if e.op.Delete? && e.res.Erased? then f - {FileOf(e.op.path)}
    else if e.op.Upload? && e.res.Spoiled? then f - {FileOf(e.op.path)}
    else f
  }

  /** The result an operation may report when run alone on `f`. */
  predicate Legal(f: Files, e: Event)
  {
    match e.res
    case Stored => e.op.Upload?
    case Spoiled => e.op.Upload?
    case Fetched(bytes) => e.op.Download? && FileOf(e.op.path) in f && f[FileOf(e.op.path)] == bytes
    case Erased => e.op.Delete? && FileOf(e.op.path) in f
    case NotFound => (e.op.Download? || e.op.Delete?) && FileOf(e.op.path) !in f
    case Listed(_) => false
    case Failed => true
  }

  function Replay(f: Files, log: seq<Event>): Files
  {
    if log == [] then f else Effect(Replay(f, log[..|log| - 1]), log[|log| - 1])
  }

  /** Every result in the log is what a serial execution in log order gives. */
  predicate Serial(f: Files, log: seq<Event>)
  {
    log == [] ||
    (Serial(f, log[..|log| - 1]) && Legal(Replay(f, log[..|log| - 1]), log[|log| - 1]))
  }

  lemma ReplayAppend(f: Files, log: seq<Event>, e: Event)
    ensures Replay(f, log + [e]) == Effect(Replay(f, log), e)
    ensures Serial(f, log + [e]) <==> Serial(f, log) && Legal(Replay(f, log), e)
  {
    assert (log + [e])[..|log|] == log;
  }

  predicate SameAt(f: Files, g: Files, p: Place)
  {
    (p in f <==> p in g) && (p in f ==> f[p] == g[p])
  }

  /** What the disk holds at the path of a worker inside, given the serial state `base`. */
  predicate JobView(j: Job, disk: Files, base: Files)
    requires Inside(j) && OpFits(j)
  {
    var p := FileOf(j.op.path);
    match j
    case Locked(_) => SameAt(disk, base, p)
    case Writing(op, done) => p in disk && disk[p] == op.data[..done]
    case Written(op) => p in disk && disk[p] == op.data
    case Opened(_) => SameAt(disk, base, p) && p in disk
    case Reading(_, size, got) => SameAt(disk, base, p) && p in disk && size == |disk[p]| && got == disk[p][..|got|]
    case Unlinked(_) => p !in disk && p in base
    case Closing(op, res) =>
      res.Spoiled? || (Legal(base, Event(op, res)) && SameAt(disk, Effect(base, Event(op, res)), p))
  }

  predicate NobodyInside(jobs: seq<Job>, p: Place)
  {
    forall t :: 0 <= t < |jobs| ==> !InsideOn(jobs[t], p)
  }

  /** A half-written file whose lock was given up and that is still to be removed. */
  predicate SweepDue(j: Job)
  {
    (j.Unlocked? && j.res.Spoiled? && !j.op.List?) || (j.Sweeping? && !j.op.List?)
  }

  predicate SweepDueOn(j: Job, p: Place)
  {
    SweepDue(j) && FileOf(j.op.path) == p
  }

  predicate NoSweepDue(jobs: seq<Job>, p: Place)
  {
    forall t :: 0 <= t < |jobs| ==> !SweepDueOn(jobs[t], p)
  }

  ghost predicate Views(jobs: seq<Job>, disk: Files, base: Files)
  {
    forall t :: 0 <= t < |jobs| && Inside(jobs[t]) && OpFits(jobs[t]) ==> JobView(jobs[t], disk, base)
  }

  /** Nobody has business with the file. */
  predicate Untouched(jobs: seq<Job>, p: Place)
  {
    NobodyInside(jobs, p) && NoSweepDue(jobs, p)
  }

  /** Files nobody works on are as the serial history left them. */
  ghost predicate Settled(jobs: seq<Job>, disk: Files, base: Files)
  {
    forall p :: Untouched(jobs, p) ==> SameAt(disk, base, p)
  }

  /** No worker other than `t` has business with the file. */
  predicate OthersLeave(jobs: seq<Job>, t: Worker, p: Place)
  {
    forall u :: 0 <= u < |jobs| && u != t ==> !InsideOn(jobs[u], p) && !SweepDueOn(jobs[u], p)
  }

  /** A file that is to be removed is gone from the serial state and left to its worker. */
  ghost predicate SweepsOk(jobs: seq<Job>, base: Files)
  {
    forall t :: 0 <= t < |jobs| && SweepDue(jobs[t]) ==>
      FileOf(jobs[t].op.path) !in base && OthersLeave(jobs, t, FileOf(jobs[t].op.path))
  }

  /** The serialization invariant. */
  ghost predicate Serialized(s: Service, f: Files)
  {
    && Wired(s)
    && Unmixed(s.locks.table)
    && Serial(f, s.log)
    && Views(s.jobs, s.disk, Replay(f, s.log))
    && SweepsOk(s.jobs, Replay(f, s.log))
    && Settled(s.jobs, s.disk, Replay(f, s.log))
  }

  /** No data is lost silently, and no lock is taken on a file that another worker is about to
      remove. */
  predicate Orderly(s: Service, a: Action)
    requires Enabled(s, a)
  {
    && !a.CloseLoses? && !a.SweepFails?
    && (a.Lock? && !s.jobs[a.t].op.List? ==> NoSweepDue(s.jobs, FileOf(s.jobs[a.t].op.path)))
  }

  predicate OrderlyRun(s: Service, acts: seq<Action>)
    requires Valid(s, acts)
    decreases |acts|
  {
    acts == [] || (Orderly(s, acts[0]) && OrderlyRun(Apply(s, acts[0]), acts[1..]))
  }

  lemma JobViewFrame(j: Job, disk: Files, base: Files, disk': Files, base': Files)
    requires Inside(j) && OpFits(j) && JobView(j, disk, base)
    requires SameAt(disk, disk', FileOf(j.op.path)) && SameAt(base, base', FileOf(j.op.path))
    ensures JobView(j, disk', base')
  {
  }

  /** Whoever has business with `p` keeps it, apart from worker `t`. */
  lemma UntouchedBefore(jobs: seq<Job>, t: Worker, j: Job, p: Place)
    requires t < |jobs| && Untouched(jobs[t := j], p) && !InsideOn(jobs[t], p) && !SweepDueOn(jobs[t], p)
    ensures Untouched(jobs, p)
  {
    forall u | 0 <= u < |jobs| ensures !InsideOn(jobs[u], p) && !SweepDueOn(jobs[u], p) {
      assert u != t ==> jobs[t := j][u] == jobs[u];
    }
  }

  /** A worker's business on its path shrinks or stays. */
  lemma SweepsStayOk(jobs: seq<Job>, t: Worker, j: Job, base: Files)
    requires t < |jobs| && SweepsOk(jobs, base)
    requires forall p :: (InsideOn(j, p) || SweepDueOn(j, p)) ==> (InsideOn(jobs[t], p) || SweepDueOn(jobs[t], p))
    requires SweepDue(j) ==> SweepDue(jobs[t]) && FileOf(j.op.path) == FileOf(jobs[t].op.path)
    ensures SweepsOk(jobs[t := j], base)
  {
    var jobs' := jobs[t := j];
    forall u | 0 <= u < |jobs'| && SweepDue(jobs'[u])
      ensures FileOf(jobs'[u].op.path) !in base && OthersLeave(jobs', u, FileOf(jobs'[u].op.path))
    {
      assert SweepDue(jobs[u]) && OthersLeave(jobs, u, FileOf(jobs[u].op.path));
    }
  }

  /** A worker inside changes only its own file: everyone else's view stays. */
  lemma InsideStepKeepsSerialized(s: Service, s': Service, t: Worker, f: Files)
    requires Serialized(s, f) && Wired(s') && t < |s.jobs| && Inside(s.jobs[t])
    requires s'.locks == s.locks && s'.log == s.log && |s'.jobs| == |s.jobs| && s'.jobs == s.jobs[t := s'.jobs[t]]
    requires Inside(s'.jobs[t]) && OpFits(s'.jobs[t]) && s'.jobs[t].op == s.jobs[t].op
    requires forall p :: p != FileOf(s.jobs[t].op.path) ==> SameAt(s.disk, s'.disk, p)
    requires JobView(s'.jobs[t], s'.disk, Replay(f, s.log))
    ensures Serialized(s', f)
  {
    var base := Replay(f, s.log);
    assert Matches(s.jobs[t], s.locks.phases[t]);
    SweepsStayOk(s.jobs, t, s'.jobs[t], base);
    forall u | 0 <= u < |s'.jobs| && Inside(s'.jobs[u]) && OpFits(s'.jobs[u])
      ensures JobView(s'.jobs[u], s'.disk, base)
    {
      if u != t {
        AloneInside(s, t, u);
        assert Matches(s.jobs[u], s.locks.phases[u]);
        JobViewFrame(s.jobs[u], s.disk, base, s'.disk, base);
      }
    }
    forall p | Untouched(s'.jobs, p) ensures SameAt(s'.disk, base, p) {
      assert !InsideOn(s'.jobs[t], p);
      UntouchedBefore(s.jobs, t, s'.jobs[t], p);
      assert SameAt(s.disk, base, p) && SameAt(s.disk, s'.disk, p);
    }
  }

  /** A step of a worker outside that touches neither disk nor log. */
  lemma OutsideStepKeepsSerialized(s: Service, s': Service, t: Worker, f: Files)
    requires Serialized(s, f) && Wired(s') && Unmixed(s'.locks.table) && t < |s.jobs|
    requires s'.disk == s.disk && s'.log == s.log && |s'.jobs| == |s.jobs| && s'.jobs == s.jobs[t := s'.jobs[t]]
    requires !Inside(s.jobs[t]) && !Inside(s'.jobs[t])
    requires forall p :: SweepDueOn(s'.jobs[t], p) <==> SweepDueOn(s.jobs[t], p)
    ensures Serialized(s', f)
  {
    if SweepDue(s'.jobs[t]) {
      assert SweepDueOn(s'.jobs[t], FileOf(s'.jobs[t].op.path));
    }
    SweepsStayOk(s.jobs, t, s'.jobs[t], Replay(f, s.log));
    forall p | Untouched(s'.jobs, p) ensures Untouched(s.jobs, p) {
      assert !SweepDueOn(s'.jobs[t], p);
      UntouchedBefore(s.jobs, t, s'.jobs[t], p);
    }
  }

  /** Removing a half-written file brings the disk back to the serial state. */
  lemma SweepKeepsSerialized(s: Service, t: Worker, f: Files)
    requires Serialized(s, f) && Enabled(s, Sweep(t)) && Wired(Apply(s, Sweep(t)))
    ensures Serialized(Apply(s, Sweep(t)), f)
  {
    var s', base, p := Apply(s, Sweep(t)), Replay(f, s.log), FileOf(s.jobs[t].op.path);
    assert SweepDue(s.jobs[t]) && OthersLeave(s.jobs, t, p);
    SweepsStayOk(s.jobs, t, s'.jobs[t], base);
    forall u | 0 <= u < |s'.jobs| && Inside(s'.jobs[u]) && OpFits(s'.jobs[u])
      ensures JobView(s'.jobs[u], s'.disk, base)
    {
      assert Matches(s.jobs[u], s.locks.phases[u]);
      assert !InsideOn(s.jobs[u], p);
      JobViewFrame(s.jobs[u], s.disk, base, s'.disk, base);
    }
    forall q | Untouched(s'.jobs, q) ensures SameAt(s'.disk, base, q) {
      if q != p {
        UntouchedBefore(s.jobs, t, s'.jobs[t], q);
        assert SameAt(s.disk, base, q);
      }
    }
  }

  lemma LockKeepsSerialized(s: Service, t: Worker, f: Files)
    requires Serialized(s, f) && Enabled(s, Lock(t)) && !s.jobs[t].op.List?
    requires NoSweepDue(s.jobs, FileOf(s.jobs[t].op.path))
    ensures Serialized(Apply(s, Lock(t)), f)
  {
    var s', p := Apply(s, Lock(t)), FileOf(s.jobs[t].op.path);
    StepKeepsWired(s, Lock(t));
    assert Matches(s.jobs[t], s.locks.phases[t]);
    assert Untouched(s.jobs, p) by {
      forall u | 0 <= u < |s.jobs| ensures !InsideOn(s.jobs[u], p) {
        if u != t && Inside(s.jobs[u]) {
          AloneInside(s, t, u);
        }
      }
    }
    LockKeepsSweeps(s, t, f);
    forall u | 0 <= u < |s'.jobs| && Inside(s'.jobs[u]) && OpFits(s'.jobs[u])
      ensures JobView(s'.jobs[u], s'.disk, Replay(f, s'.log))
    {
      if u != t {
        assert s'.jobs[u] == s.jobs[u];
      }
    }
    forall q | Untouched(s'.jobs, q) ensures Untouched(s.jobs, q) {
      UntouchedBefore(s.jobs, t, s'.jobs[t], q);
    }
  }

  lemma LockKeepsSweeps(s: Service, t: Worker, f: Files)
    requires Serialized(s, f) && Enabled(s, Lock(t)) && !s.jobs[t].op.List?
    requires NoSweepDue(s.jobs, FileOf(s.jobs[t].op.path))
    ensures SweepsOk(Apply(s, Lock(t)).jobs, Replay(f, s.log))
  {
    var jobs' := Apply(s, Lock(t)).jobs;
    forall u | 0 <= u < |jobs'| && SweepDue(jobs'[u])
      ensures FileOf(jobs'[u].op.path) !in Replay(f, s.log) && OthersLeave(jobs', u, FileOf(jobs'[u].op.path))
    {
      assert SweepDueOn(s.jobs[u], FileOf(s.jobs[u].op.path));
      assert OthersLeave(s.jobs, u, FileOf(s.jobs[u].op.path));
    }
  }

  /** Logging an operation changes the serial state only at its own path. */
  lemma EffectIsLocal(base: Files, e: Event, p: Place)
    requires e.op.List? || p != FileOf(e.op.path)
    requires e.op.List? ==> !e.res.Stored? && !e.res.Erased?
    ensures SameAt(base, Effect(base, e), p)
  {
  }

  lemma UnlockKeepsViews(s: Service, t: Worker, f: Files)
    requires Serialized(s, f) && Enabled(s, Unlock(t))
    ensures var s' := Apply(s, Unlock(t));
            Views(s'.jobs, s'.disk, Replay(f, s'.log))
  {
    var s' := Apply(s, Unlock(t));
    var e, base := Event(s.jobs[t].op, s.jobs[t].res), Replay(f, s.log);
    ReplayAppend(f, s.log, e);
    assert Matches(s.jobs[t], s.locks.phases[t]);
    forall u | 0 <= u < |s'.jobs| && Inside(s'.jobs[u]) && OpFits(s'.jobs[u])
      ensures JobView(s'.jobs[u], s'.disk, Effect(base, e))
    {
      AloneInside(s, t, u);
      assert Matches(s.jobs[u], s.locks.phases[u]);
      EffectIsLocal(base, e, FileOf(s.jobs[u].op.path));
      JobViewFrame(s.jobs[u], s.disk, base, s'.disk, Effect(base, e));
    }
  }

  /** A worker inside has its file to itself. */
  lemma InsideIsAlone(s: Service, t: Worker, f: Files)
    requires Serialized(s, f) && t < |s.jobs| && Inside(s.jobs[t])
    ensures !s.jobs[t].op.List? && OthersLeave(s.jobs, t, FileOf(s.jobs[t].op.path))
  {
    assert Matches(s.jobs[t], s.locks.phases[t]);
    var p := FileOf(s.jobs[t].op.path);
    assert InsideOn(s.jobs[t], p);
    forall u | 0 <= u < |s.jobs| && u != t ensures !InsideOn(s.jobs[u], p) && !SweepDueOn(s.jobs[u], p) {
      if Inside(s.jobs[u]) {
        AloneInside(s, t, u);
      }
    }
  }

  lemma UnlockKeepsSweeps(s: Service, t: Worker, f: Files)
    requires Serialized(s, f) && Enabled(s, Unlock(t))
    ensures SweepsOk(Apply(s, Unlock(t)).jobs, Replay(f, Apply(s, Unlock(t)).log))
  {
    var s', j := Apply(s, Unlock(t)), s.jobs[t];
    var e, base := Event(j.op, j.res), Replay(f, s.log);
    ReplayAppend(f, s.log, e);
    InsideIsAlone(s, t, f);
    assert Matches(j, s.locks.phases[t]);
    forall u | 0 <= u < |s'.jobs| && SweepDue(s'.jobs[u])
      ensures FileOf(s'.jobs[u].op.path) !in Effect(base, e) && OthersLeave(s'.jobs, u, FileOf(s'.jobs[u].op.path))
    {
      if u != t {
        assert SweepDueOn(s.jobs[u], FileOf(s.jobs[u].op.path));
        assert OthersLeave(s.jobs, u, FileOf(s.jobs[u].op.path));
        EffectIsLocal(base, e, FileOf(s.jobs[u].op.path));
      }
    }
  }

  /** The outcome about to be logged is legal, and the disk already shows it unless the file is
      still to be removed. */
  lemma ClosingView(s: Service, t: Worker, f: Files)
    requires Serialized(s, f) && t < |s.jobs| && s.jobs[t].Closing?
    ensures !s.jobs[t].op.List? && Legal(Replay(f, s.log), Event(s.jobs[t].op, s.jobs[t].res))
    ensures !s.jobs[t].res.Spoiled? ==>
              SameAt(s.disk, Effect(Replay(f, s.log), Event(s.jobs[t].op, s.jobs[t].res)), FileOf(s.jobs[t].op.path))
    ensures s.jobs[t].res.Spoiled? ==> s.jobs[t].op.Upload?
  {
    assert Matches(s.jobs[t], s.locks.phases[t]);
    assert JobView(s.jobs[t], s.disk, Replay(f, s.log));
  }

  lemma UnlockKeepsFreePaths(s: Service, t: Worker, f: Files, p: Place)
    requires Serialized(s, f) && Enabled(s, Unlock(t)) && Untouched(Apply(s, Unlock(t)).jobs, p)
    ensures SameAt(s.disk, Replay(f, Apply(s, Unlock(t)).log), p)
  {
    var s', j := Apply(s, Unlock(t)), s.jobs[t];
    var e, base := Event(j.op, j.res), Replay(f, s.log);
    ReplayAppend(f, s.log, e);
    ClosingView(s, t, f);
    assert !SweepDueOn(s'.jobs[t], p);
    if p != FileOf(j.op.path) {
      UntouchedBefore(s.jobs, t, s'.jobs[t], p);
      EffectIsLocal(base, e, p);
    }
  }

  lemma UnlockKeepsSerialized(s: Service, t: Worker, f: Files)
    requires Serialized(s, f) && Enabled(s, Unlock(t)) && Wired(Apply(s, Unlock(t)))
    requires Unmixed(Apply(s, Unlock(t)).locks.table)
    ensures Serialized(Apply(s, Unlock(t)), f)
  {
    UnlockKeepsViews(s, t, f);
    UnlockKeepsSerial(s, t, f);
    UnlockKeepsSweeps(s, t, f);
    UnlockKeepsSettled(s, t, f);
  }

  lemma UnlockKeepsSettled(s: Service, t: Worker, f: Files)
    requires Serialized(s, f) && Enabled(s, Unlock(t))
    ensures var s' := Apply(s, Unlock(t));
            Settled(s'.jobs, s'.disk, Replay(f, s'.log))
  {
    var s' := Apply(s, Unlock(t));
    forall p | Untouched(s'.jobs, p) ensures SameAt(s'.disk, Replay(f, s'.log), p) {
      UnlockKeepsFreePaths(s, t, f, p);
    }
  }

  lemma UnlockKeepsSerial(s: Service, t: Worker, f: Files)
    requires Serialized(s, f) && Enabled(s, Unlock(t))
    ensures Serial(f, Apply(s, Unlock(t)).log)
  {
    ClosingView(s, t, f);
    ReplayAppend(f, s.log, Event(s.jobs[t].op, s.jobs[t].res));
  }

  lemma WriteExtends(data: Bytes, done: nat, count: nat)
    requires done + count <= |data|
    ensures WriteAt(data[..done], done, data[done..done + count]) == data[..done + count]
  {
  }

  lemma OwnViewOfUpload(s: Service, a: Action, base: Files)
    requires Enabled(s, a) && !a.CloseLoses? && !a.Unlock? && Inside(s.jobs[a.t]) && s.jobs[a.t].op.Upload?
    requires OpFits(s.jobs[a.t]) && JobView(s.jobs[a.t], s.disk, base)
    ensures Inside(NextJob(s, a)) && OpFits(NextJob(s, a)) && NextJob(s, a).op == s.jobs[a.t].op
    ensures JobView(NextJob(s, a), NextDisk(s, a), base)
  {
    var j := s.jobs[a.t];
    if a.Write? {
      WriteExtends(j.op.data, j.done, a.count);
    } else if a.CloseWrite? {
      assert j.op.data[..|j.op.data|] == j.op.data;
    }
  }

  lemma OwnViewOfOther(s: Service, a: Action, base: Files)
    requires Enabled(s, a) && !a.Unlock? && Inside(s.jobs[a.t]) && !s.jobs[a.t].op.Upload?
    requires OpFits(s.jobs[a.t]) && JobView(s.jobs[a.t], s.disk, base)
    ensures Inside(NextJob(s, a)) && OpFits(NextJob(s, a)) && NextJob(s, a).op == s.jobs[a.t].op
    ensures JobView(NextJob(s, a), NextDisk(s, a), base)
  {
    var j := s.jobs[a.t];
    if a.CloseRead? {
      assert s.disk[FileOf(j.op.path)][..j.size] == s.disk[FileOf(j.op.path)];
    }
  }

  /** The worker's own view of its file stays right through each step under the mutex. */
  lemma OwnViewIsKept(s: Service, a: Action, base: Files)
    requires Enabled(s, a) && !a.CloseLoses? && !a.Unlock?
    requires Inside(s.jobs[a.t]) && OpFits(s.jobs[a.t]) && JobView(s.jobs[a.t], s.disk, base)
    ensures Inside(NextJob(s, a)) && OpFits(NextJob(s, a))
    ensures NextJob(s, a).op == s.jobs[a.t].op
    ensures JobView(NextJob(s, a), NextDisk(s, a), base)
  {
    if s.jobs[a.t].op.Upload? {
      OwnViewOfUpload(s, a, base);
    } else {
      OwnViewOfOther(s, a, base);
    }
  }

  lemma DiskStepIsLocal(s: Service, a: Action, p: Place)
    requires Enabled(s, a) && (s.jobs[a.t].NoJob? || s.jobs[a.t].op.List? || p != FileOf(s.jobs[a.t].op.path))
    requires OpFits(s.jobs[a.t])
    ensures SameAt(s.disk, NextDisk(s, a), p)
  {
  }

  /** The steps that open, write, read, remove or update metadata while holding the mutex. */
  lemma InsideWorkKeepsSerialized(s: Service, a: Action, f: Files)
    requires Serialized(s, f) && Enabled(s, a) && !a.CloseLoses? && Wired(Apply(s, a))
    requires Inside(s.jobs[a.t]) && !a.Unlock?
    ensures Serialized(Apply(s, a), f)
  {
    var j := s.jobs[a.t];
    assert Matches(j, s.locks.phases[a.t]);
    OwnViewIsKept(s, a, Replay(f, s.log));
    forall p | p != FileOf(j.op.path) ensures SameAt(s.disk, NextDisk(s, a), p) {
      DiskStepIsLocal(s, a, p);
    }
    InsideStepKeepsSerialized(s, Apply(s, a), a.t, f);
  }

  lemma StepKeepsUnmixed(s: Service, a: Action)
    requires Enabled(s, a) && Separated(s, a) && Unmixed(s.locks.table)
    ensures Unmixed(Apply(s, a).locks.table)
  {
    match a {
      case Locate(t) => L.StepKeepsHomeOnly(s.locks, L.Lookup(t, s.jobs[t].op.path));
      case Lock(t) => L.StepKeepsHomeOnly(s.locks, L.Grab(t));
      case Unlock(t) => L.StepKeepsHomeOnly(s.locks, L.Unlock(t));
      case Drop(t) => L.StepKeepsHomeOnly(s.locks, L.Drop(t));
      case _ =>
    }
  }

  lemma OutsideWorkKeepsSerialized(s: Service, a: Action, f: Files)
    requires Serialized(s, f) && Enabled(s, a) && Wired(Apply(s, a)) && Unmixed(Apply(s, a).locks.table)
    requires !Inside(s.jobs[a.t]) && !a.Lock? && !a.Sweep? && !a.SweepFails?
    ensures Serialized(Apply(s, a), f)
  {
    assert Matches(s.jobs[a.t], s.locks.phases[a.t]);
    OutsideStepKeepsSerialized(s, Apply(s, a), a.t, f);
  }

  /** One orderly step of any worker, with every live key in its home slot and one key for each
      live file. */
  lemma StepKeepsSerialized(s: Service, a: Action, f: Files)
    requires Serialized(s, f) && Enabled(s, a) && Orderly(s, a) && Unmixed(Apply(s, a).locks.table)
    ensures Serialized(Apply(s, a), f)
  {
    StepKeepsWired(s, a);
    assert Matches(s.jobs[a.t], s.locks.phases[a.t]);
    if a.Lock? {
      LockKeepsSerialized(s, a.t, f);
    } else if a.Unlock? {
      UnlockKeepsSerialized(s, a.t, f);
    } else if a.Sweep? {
      SweepKeepsSerialized(s, a.t, f);
    } else if Inside(s.jobs[a.t]) {
      InsideWorkKeepsSerialized(s, a, f);
    } else {
      OutsideWorkKeepsSerialized(s, a, f);
    }
  }

  lemma InitIsSerialized(slots: nat, workers: nat, disk: Files, rows: map<Path, nat>)
    requires slots > 0
    ensures Serialized(Init(slots, workers, disk, rows), disk)
  {
    InitIsWired(slots, workers, disk, rows);
    L.InitOk(slots, workers);
  }

  lemma {:induction false} RunsStaySerialized(s: Service, acts: seq<Action>, f: Files)
    requires Serialized(s, f) && Valid(s, acts) && SeparatedRun(s, acts) && OrderlyRun(s, acts)
    ensures Serialized(Final(s, acts), f)
    decreases |acts|
  {
    if acts != [] {
      StepKeepsUnmixed(s, acts[0]);
      StepKeepsSerialized(s, acts[0], f);
      RunsStaySerialized(Apply(s, acts[0]), acts[1..], f);
    }
  }

  // ---------------------------------------------------------------- runs without failing writes

  predicate NoSpoil(j: Job)
  {
    !j.Sweeping? && (j.Closing? ==> !j.res.Spoiled?) && (j.Unlocked? ==> !j.res.Spoiled?)
  }

  /** No upload failed while writing. */
  predicate NoSpoils(s: Service)
  {
    && (forall t :: 0 <= t < |s.jobs| ==> NoSpoil(s.jobs[t]))
    && (forall k :: 0 <= k < |s.log| ==> !s.log[k].res.Spoiled?)
  }

  lemma StepKeepsNoSpoils(s: Service, a: Action)
    requires NoSpoils(s) && Enabled(s, a) && !a.WriteFails?
    ensures NoSpoils(Apply(s, a)) && (!a.CloseLoses? ==> Orderly(s, a))
  {
    assert NoSpoil(s.jobs[a.t]);
  }

  /** Without failing writes every run is orderly. */
  lemma {:induction false} NoFaultIsOrderly(s: Service, acts: seq<Action>)
    requires NoSpoils(s) && Valid(s, acts) && NoWriteFault(acts)
    ensures OrderlyRun(s, acts) && NoSpoils(Final(s, acts))
    decreases |acts|
  {
    if acts != [] {
      assert !WriteFault(acts[0]);
      StepKeepsNoSpoils(s, acts[0]);
      assert NoWriteFault(acts[1..]);
      NoFaultIsOrderly(Apply(s, acts[0]), acts[1..]);
    }
  }
}
