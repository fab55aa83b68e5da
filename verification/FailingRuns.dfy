/**
 The runs that break serializability or the agreement of disk and metadata, one for each way
 the conditions of `FileServiceLimits` can fail.
 */
module FailingRuns {
  import opened Prelude
  import opened DiskPaths
  import opened FileLocks
  import opened Probing
  import opened FileService
  import opened FileServiceResults
  import opened FileServiceLimits
  import L = LockProtocol

  // ---------------------------------------------------------------- putting runs together

  /** `acts` leads from `s` to `s'` within the given paths and failures. */
  ghost predicate Leads(s: Service, acts: seq<Action>, s': Service, paths: set<Path>, fl: Failures)
  {
    Valid(s, acts) && Final(s, acts) == s' && Within(acts, paths, fl)
  }

  lemma {:induction false} LeadsOn(s: Service, a: seq<Action>, s1: Service, b: seq<Action>, s2: Service,
                                   paths: set<Path>, fl: Failures)
    requires Leads(s, a, s1, paths, fl) && Leads(s1, b, s2, paths, fl)
    ensures Leads(s, a + b, s2, paths, fl)
    decreases |a|
  {
    if a == [] {
      assert a + b == b;
    } else {
      assert (a + b)[0] == a[0] && (a + b)[1..] == a[1..] + b;
      assert Within(a[1..], paths, fl);
      LeadsOn(Apply(s, a[0]), a[1..], s1, b, s2, paths, fl);
      assert On(a[0], paths) && Allowed(fl, a[0]);
    }
  }

  lemma OneStep(s: Service, a: Action, paths: set<Path>, fl: Failures)
    requires Enabled(s, a) && On(a, paths) && Allowed(fl, a)
    ensures Leads(s, [a], Apply(s, a), paths, fl)
  {
    assert [a][1..] == [];
    assert Valid(Apply(s, a), []);
  }

  /** One more step at the end of a run. */
  lemma Then(s0: Service, acts: seq<Action>, s: Service, a: Action, paths: set<Path>, fl: Failures)
    returns (more: seq<Action>)
    requires Leads(s0, acts, s, paths, fl) && Enabled(s, a) && On(a, paths) && Allowed(fl, a)
    ensures Leads(s0, more, Apply(s, a), paths, fl)
  {
    OneStep(s, a, paths, fl);
    LeadsOn(s0, acts, s, [a], Apply(s, a), paths, fl);
    more := acts + [a];
  }

  lemma Nothing(s: Service, paths: set<Path>, fl: Failures)
    ensures Leads(s, [], s, paths, fl)
  {
  }

  // ---------------------------------------------------------------- work inside the lock

  predicate HasLock(s: Service, t: Worker, op: Op)
  {
    t < |s.jobs| && |s.jobs| == |s.locks.phases| && s.jobs[t] == Locked(op)
  }

  /** A write that fails after the file was truncated. */
  lemma WriteBreaks(s: Service, t: Worker, op: Op, paths: set<Path>, fl: Failures) returns (acts: seq<Action>)
    requires HasLock(s, t, op) && op.Upload? && fl.write
    ensures Leads(s, acts, s.(jobs := s.jobs[t := Closing(op, Spoiled)], disk := s.disk[FileOf(op.path) := []]),
                  paths, fl)
  {
    Nothing(s, paths, fl);
    acts := Then(s, [], s, Truncate(t), paths, fl);
    var s1 := Apply(s, Truncate(t));
    acts := Then(s, acts, s1, WriteFails(t), paths, fl);
    assert s.jobs[t := Writing(op, 0)][t := Closing(op, Spoiled)] == s.jobs[t := Closing(op, Spoiled)];
  }

  /** An upload of nothing, up to the closed file. */
  lemma WritesNothing(s: Service, t: Worker, op: Op, paths: set<Path>, fl: Failures) returns (acts: seq<Action>)
    requires HasLock(s, t, op) && op.Upload? && op.data == []
    ensures Leads(s, acts, s.(jobs := s.jobs[t := Written(op)], disk := s.disk[FileOf(op.path) := []]), paths, fl)
  {
    Nothing(s, paths, fl);
    acts := Then(s, [], s, Truncate(t), paths, fl);
    acts := Then(s, acts, Apply(s, Truncate(t)), CloseWrite(t), paths, fl);
    assert s.jobs[t := Writing(op, 0)][t := Written(op)] == s.jobs[t := Written(op)];
  }

  lemma WritesOneByte(s: Service, t: Worker, op: Op, paths: set<Path>, fl: Failures) returns (acts: seq<Action>)
    requires HasLock(s, t, op) && op.Upload? && op.data == [7]
    ensures Leads(s, acts, s.(jobs := s.jobs[t := Writing(op, 1)], disk := s.disk[FileOf(op.path) := [7]]), paths, fl)
  {
    Nothing(s, paths, fl);
    acts := Then(s, [], s, Truncate(t), paths, fl);
    var s1 := Apply(s, Truncate(t));
    acts := Then(s, acts, s1, Write(t, 1), paths, fl);
    assert WriteAt([], 0, [7]) == [7];
    assert Apply(s1, Write(t, 1)).jobs == s.jobs[t := Writing(op, 1)];
    assert Apply(s1, Write(t, 1)).disk == s.disk[FileOf(op.path) := [7]];
  }

  /** An upload of one byte that is lost when the file is closed. */
  lemma WritesInVain(s: Service, t: Worker, op: Op, paths: set<Path>, fl: Failures) returns (acts: seq<Action>)
    requires HasLock(s, t, op) && op.Upload? && op.data == [7] && fl.close
    ensures Leads(s, acts, s.(jobs := s.jobs[t := Written(op)], disk := s.disk[FileOf(op.path) := []]), paths, fl)
  {
    acts := WritesOneByte(s, t, op, paths, fl);
    var s2 := s.(jobs := s.jobs[t := Writing(op, 1)], disk := s.disk[FileOf(op.path) := [7]]);
    acts := Then(s, acts, s2, CloseLoses(t, 0), paths, fl);
    assert Apply(s2, CloseLoses(t, 0)).jobs == s.jobs[t := Written(op)];
    assert Apply(s2, CloseLoses(t, 0)).disk == s.disk[FileOf(op.path) := []];
  }

  lemma Commits(s: Service, t: Worker, op: Op, paths: set<Path>, fl: Failures) returns (acts: seq<Action>)
    requires t < |s.jobs| == |s.locks.phases| && s.jobs[t] == Written(op) && op.Upload?
    ensures Leads(s, acts, s.(jobs := s.jobs[t := Closing(op, Stored)], rows := s.rows[op.path := |op.data|]),
                  paths, fl)
  {
    OneStep(s, Commit(t), paths, fl);
    acts := [Commit(t)];
  }

  lemma CommitBreaks(s: Service, t: Worker, op: Op, paths: set<Path>, fl: Failures) returns (acts: seq<Action>)
    requires t < |s.jobs| == |s.locks.phases| && s.jobs[t] == Written(op) && op.Upload? && fl.db
    ensures Leads(s, acts, s.(jobs := s.jobs[t := Closing(op, Stored)]), paths, fl)
  {
    OneStep(s, CommitFails(t), paths, fl);
    acts := [CommitFails(t)];
  }

  /** A download of an empty file. */
  lemma FetchesNothing(s: Service, t: Worker, op: Op, paths: set<Path>, fl: Failures) returns (acts: seq<Action>)
    requires HasLock(s, t, op) && op.Download? && FileOf(op.path) in s.disk && s.disk[FileOf(op.path)] == []
    ensures Leads(s, acts, s.(jobs := s.jobs[t := Closing(op, Fetched([]))]), paths, fl)
  {
    Nothing(s, paths, fl);
    acts := Then(s, [], s, Open(t), paths, fl);
    var s1 := Apply(s, Open(t));
    acts := Then(s, acts, s1, MeasureSize(t), paths, fl);
    var s2 := Apply(s1, MeasureSize(t));
    acts := Then(s, acts, s2, CloseRead(t), paths, fl);
    assert Apply(s2, CloseRead(t)).jobs == s.jobs[t := Closing(op, Fetched([]))];
  }

  lemma FindsNothing(s: Service, t: Worker, op: Op, paths: set<Path>, fl: Failures) returns (acts: seq<Action>)
    requires HasLock(s, t, op) && (op.Download? || op.Delete?) && FileOf(op.path) !in s.disk
    ensures Leads(s, acts, s.(jobs := s.jobs[t := Closing(op, NotFound)]), paths, fl)
  {
    OneStep(s, Missing(t), paths, fl);
    acts := [Missing(t)];
  }

  lemma Erases(s: Service, t: Worker, op: Op, paths: set<Path>, fl: Failures) returns (acts: seq<Action>)
    requires HasLock(s, t, op) && op.Delete? && FileOf(op.path) in s.disk
    ensures Leads(s, acts, s.(jobs := s.jobs[t := Closing(op, Erased)], disk := s.disk - {FileOf(op.path)},
                              rows := s.rows - {op.path}), paths, fl)
  {
    Nothing(s, paths, fl);
    acts := Then(s, [], s, Unlink(t), paths, fl);
    var s1 := Apply(s, Unlink(t));
    acts := Then(s, acts, s1, CommitRemove(t), paths, fl);
    assert Apply(s1, CommitRemove(t)).jobs == s.jobs[t := Closing(op, Erased)];
  }

  // ---------------------------------------------------------------- taking and giving back locks

  /** Worker `t` holds the lock of its file in slot `i`. */
  function LockedAt(s: Service, t: Worker, op: Op, i: nat): Service
    requires t < |s.jobs| == |s.locks.phases| && i < |s.locks.table| == |s.locks.owner| && !op.List?
  {
    s.(locks := L.Locks(s.locks.table[i := LockSlot(op.path, 1, true)], s.locks.owner[i := Some(t)],
                        s.locks.phases[t := L.Holding(i, op.path)]),
       jobs := s.jobs[t := Locked(op)])
  }

  /** A worker takes a task and gets its lock in the free slot `i`. */
  lemma Enters(s: Service, t: Worker, op: Op, i: nat, paths: set<Path>, fl: Failures) returns (acts: seq<Action>)
    requires t < |s.jobs| == |s.locks.phases| && i < |s.locks.table| == |s.locks.owner|
    requires !op.List? && op.path in paths && s.jobs[t].NoJob? && s.locks.phases[t].Idle?
    requires SlotFor(s.locks.table, op.path) == Some(i) && !s.locks.table[i].inUse && s.locks.owner[i] == None
    ensures Leads(s, acts, LockedAt(s, t, op, i), paths, fl)
  {
    Nothing(s, paths, fl);
    acts := Then(s, [], s, Begin(t, op), paths, fl);
    var s1 := Apply(s, Begin(t, op));
    acts := Then(s, acts, s1, Locate(t), paths, fl);
    var s2 := Apply(s1, Locate(t));
    acts := Then(s, acts, s2, Lock(t), paths, fl);
    var s3 := Apply(s2, Lock(t));
    assert s3.jobs == s.jobs[t := Locked(op)];
    assert s3.locks.phases == s.locks.phases[t := L.Holding(i, op.path)];
  }

  /** The last reference to slot `i` is given back. */
  function LeftAt(s: Service, t: Worker, op: Op, res: Outcome, i: nat): Service
    requires t < |s.jobs| == |s.locks.phases| && i < |s.locks.table| == |s.locks.owner|
  {
    s.(locks := L.Locks(s.locks.table[i := LockSlot([], 0, false)], s.locks.owner[i := None],
                        s.locks.phases[t := L.Idle]),
       jobs := s.jobs[t := if res.Spoiled? then Sweeping(op) else Done(op, res)],
       log := s.log + [Event(op, res)])
  }

  lemma Leaves(s: Service, t: Worker, op: Op, res: Outcome, i: nat, paths: set<Path>, fl: Failures)
    returns (acts: seq<Action>)
    requires t < |s.jobs| == |s.locks.phases| && i < |s.locks.table| == |s.locks.owner|
    requires s.jobs[t] == Closing(op, res) && s.locks.phases[t].Holding? && s.locks.phases[t].slot == i
    requires s.locks.table[i].refCount == 1
    ensures Leads(s, acts, LeftAt(s, t, op, res, i), paths, fl)
  {
    Nothing(s, paths, fl);
    acts := Then(s, [], s, Unlock(t), paths, fl);
    var s1 := Apply(s, Unlock(t));
    acts := Then(s, acts, s1, Drop(t), paths, fl);
    var s2 := Apply(s1, Drop(t));
    assert s2.jobs == LeftAt(s, t, op, res, i).jobs;
    assert s2.locks.phases == s.locks.phases[t := L.Idle];
  }

  /** No lock is in use. */
  ghost predicate AllFree(l: L.Locks)
  {
    && |l.owner| == |l.table|
    && forall i :: 0 <= i < |l.table| ==> !l.table[i].inUse && l.owner[i] == None
  }

  /** Worker `t` can take a task. */
  ghost predicate Ready(s: Service, t: Worker)
  {
    t < |s.jobs| == |s.locks.phases| && s.jobs[t].NoJob? && s.locks.phases[t].Idle? && AllFree(s.locks)
  }

  /** The state once worker `t` alone has taken a task and holds its lock. */
  function Alone(s: Service, t: Worker, op: Op): Service
    requires t < |s.jobs| == |s.locks.phases| && |s.locks.table| == |s.locks.owner| && !op.List?
  {
    LockedAt(s, t, op, Home(op.path, |s.locks.table|))
  }

  /** A worker alone does one task: `inside` is what happens under the lock. */
  lemma Episode(s: Service, t: Worker, op: Op, inside: seq<Action>, res: Outcome, disk: Files, rows: map<Path, nat>,
                paths: set<Path>, fl: Failures)
    returns (acts: seq<Action>, s': Service)
    requires Ready(s, t) && !op.List? && op.path in paths
    requires var x := Alone(s, t, op);
             Leads(x, inside, x.(jobs := x.jobs[t := Closing(op, res)], disk := disk, rows := rows), paths, fl)
    ensures Leads(s, acts, s', paths, fl)
    ensures s'.jobs == s.jobs[t := if res.Spoiled? then Sweeping(op) else Done(op, res)]
    ensures s'.disk == disk && s'.rows == rows && s'.log == s.log + [Event(op, res)]
    ensures AllFree(s'.locks) && s'.locks.phases == s.locks.phases && |s'.locks.table| == |s.locks.table|
  {
    var i := Home(op.path, |s.locks.table|);
    L.TakesSlot(s.locks.table, op.path, 0);
    var enter := Enters(s, t, op, i, paths, fl);
    var x := Alone(s, t, op);
    var y := x.(jobs := x.jobs[t := Closing(op, res)], disk := disk, rows := rows);
    LeadsOn(s, enter, x, inside, y, paths, fl);
    var leave := Leaves(y, t, op, res, i, paths, fl);
    s' := LeftAt(y, t, op, res, i);
    LeadsOn(s, enter + inside, y, leave, s', paths, fl);
    acts := enter + inside + leave;
    assert s'.locks.phases == s.locks.phases;
    assert s'.jobs == s.jobs[t := if res.Spoiled? then Sweeping(op) else Done(op, res)];
  }

  // ---------------------------------------------------------------- one worker at a time

  /** An upload of `[7]` breaks while writing; the file is left empty and still to be removed. */
  lemma SpoiledUpload(s: Service, t: Worker, p: Path, paths: set<Path>, fl: Failures)
    returns (acts: seq<Action>, s': Service)
    requires Ready(s, t) && p in paths && fl.write
    ensures Leads(s, acts, s', paths, fl)
    ensures s'.jobs == s.jobs[t := Sweeping(Upload(p, [7]))] && s'.log == s.log + [Event(Upload(p, [7]), Spoiled)]
    ensures s'.disk == s.disk[FileOf(p) := []] && s'.rows == s.rows
    ensures AllFree(s'.locks) && s'.locks.phases == s.locks.phases && |s'.locks.table| == |s.locks.table|
  {
    var op := Upload(p, [7]);
    var inside := WriteBreaks(Alone(s, t, op), t, op, paths, fl);
    acts, s' := Episode(s, t, op, inside, Spoiled, s.disk[FileOf(p) := []], s.rows, paths, fl);
  }

  /** An upload that is acknowledged although its one byte was lost. */
  lemma LossyUpload(s: Service, t: Worker, p: Path, paths: set<Path>, fl: Failures)
    returns (acts: seq<Action>, s': Service)
    requires Ready(s, t) && p in paths && fl.close
    ensures Leads(s, acts, s', paths, fl)
    ensures s'.jobs == s.jobs[t := Done(Upload(p, [7]), Stored)] && s'.log == s.log + [Event(Upload(p, [7]), Stored)]
    ensures s'.disk == s.disk[FileOf(p) := []] && s'.rows == s.rows[p := 1]
    ensures AllFree(s'.locks) && s'.locks.phases == s.locks.phases && |s'.locks.table| == |s.locks.table|
  {
    var op, x := Upload(p, [7]), Alone(s, t, Upload(p, [7]));
    var write := WritesInVain(x, t, op, paths, fl);
    var y := x.(jobs := x.jobs[t := Written(op)], disk := x.disk[FileOf(p) := []]);
    var commit := Commits(y, t, op, paths, fl);
    var z := y.(jobs := y.jobs[t := Closing(op, Stored)], rows := y.rows[p := 1]);
    LeadsOn(x, write, y, commit, z, paths, fl);
    assert z == x.(jobs := x.jobs[t := Closing(op, Stored)], disk := s.disk[FileOf(p) := []], rows := s.rows[p := 1]);
    acts, s' := Episode(s, t, op, write + commit, Stored, s.disk[FileOf(p) := []], s.rows[p := 1], paths, fl);
  }

  /** An upload of nothing, acknowledged; its row is written unless the transaction fails. */
  lemma EmptyUpload(s: Service, t: Worker, p: Path, recorded: bool, paths: set<Path>, fl: Failures)
    returns (acts: seq<Action>, s': Service)
    requires Ready(s, t) && p in paths && (recorded || fl.db)
    ensures Leads(s, acts, s', paths, fl)
    ensures s'.jobs == s.jobs[t := Done(Upload(p, []), Stored)] && s'.log == s.log + [Event(Upload(p, []), Stored)]
    ensures s'.disk == s.disk[FileOf(p) := []] && s'.rows == if recorded then s.rows[p := 0] else s.rows
    ensures AllFree(s'.locks) && s'.locks.phases == s.locks.phases && |s'.locks.table| == |s.locks.table|
  {
    var op, x := Upload(p, []), Alone(s, t, Upload(p, []));
    var rows := if recorded then s.rows[p := 0] else s.rows;
    var write := WritesNothing(x, t, op, paths, fl);
    var y := x.(jobs := x.jobs[t := Written(op)], disk := x.disk[FileOf(p) := []]);
    var z := y.(jobs := y.jobs[t := Closing(op, Stored)], rows := rows);
    var commit: seq<Action>;
    if recorded {
      commit := Commits(y, t, op, paths, fl);
    } else {
      commit := CommitBreaks(y, t, op, paths, fl);
    }
    LeadsOn(x, write, y, commit, z, paths, fl);
    assert z == x.(jobs := x.jobs[t := Closing(op, Stored)], disk := s.disk[FileOf(p) := []], rows := rows);
    acts, s' := Episode(s, t, op, write + commit, Stored, s.disk[FileOf(p) := []], rows, paths, fl);
  }

  /** A download that serves the empty file it finds. */
  lemma EmptyDownload(s: Service, t: Worker, p: Path, paths: set<Path>, fl: Failures)
    returns (acts: seq<Action>, s': Service)
    requires Ready(s, t) && p in paths && FileOf(p) in s.disk && s.disk[FileOf(p)] == []
    ensures Leads(s, acts, s', paths, fl) && s'.log == s.log + [Event(Download(p), Fetched([]))]
  {
    var op := Download(p);
    var inside := FetchesNothing(Alone(s, t, op), t, op, paths, fl);
    acts, s' := Episode(s, t, op, inside, Fetched([]), s.disk, s.rows, paths, fl);
  }

  lemma MissedDownload(s: Service, t: Worker, p: Path, paths: set<Path>, fl: Failures)
    returns (acts: seq<Action>, s': Service)
    requires Ready(s, t) && p in paths && FileOf(p) !in s.disk
    ensures Leads(s, acts, s', paths, fl) && s'.log == s.log + [Event(Download(p), NotFound)]
  {
    var op := Download(p);
    var inside := FindsNothing(Alone(s, t, op), t, op, paths, fl);
    acts, s' := Episode(s, t, op, inside, NotFound, s.disk, s.rows, paths, fl);
  }

  lemma Finishes(s0: Service, acts: seq<Action>, s: Service, t: Worker, paths: set<Path>, fl: Failures)
    returns (more: seq<Action>)
    requires Leads(s0, acts, s, paths, fl) && t < |s.jobs| == |s.locks.phases| && s.jobs[t].Done?
    ensures Leads(s0, more, s.(jobs := s.jobs[t := NoJob]), paths, fl)
  {
    more := Then(s0, acts, s, Finish(t), paths, fl);
    assert Apply(s, Finish(t)) == s.(jobs := s.jobs[t := NoJob]);
  }

  // ---------------------------------------------------------------- histories that are not serial

  /** Data lost at `fclose`, with a single worker: the acknowledged byte is not there. */
  lemma LossIsNotSerial(s: Service, p: Path, paths: set<Path>, fl: Failures) returns (acts: seq<Action>, s': Service)
    requires Ready(s, 0) && p in paths && fl.close
    ensures Leads(s, acts, s', paths, fl)
    ensures s'.log == s.log + [Event(Upload(p, [7]), Stored), Event(Download(p), Fetched([]))]
  {
    var s1: Service;
    acts, s1 := LossyUpload(s, 0, p, paths, fl);
    acts := Finishes(s, acts, s1, 0, paths, fl);
    var s2 := s1.(jobs := s1.jobs[0 := NoJob]);
    var served: seq<Action>;
    served, s' := EmptyDownload(s2, 0, p, paths, fl);
    LeadsOn(s, acts, s2, served, s', paths, fl);
    acts := acts + served;
  }

  /** The race: another worker serves the truncated file before it is removed. */
  lemma PartialFileIsServed(s: Service, p: Path, paths: set<Path>, fl: Failures)
    returns (acts: seq<Action>, s': Service)
    requires Ready(s, 0) && Ready(s, 1) && p in paths && fl.write
    ensures Leads(s, acts, s', paths, fl)
    ensures s'.log == s.log + [Event(Upload(p, [7]), Spoiled), Event(Download(p), Fetched([]))]
  {
    var s1: Service;
    acts, s1 := SpoiledUpload(s, 0, p, paths, fl);
    var served: seq<Action>;
    served, s' := EmptyDownload(s1, 1, p, paths, fl);
    LeadsOn(s, acts, s1, served, s', paths, fl);
    acts := acts + served;
  }

  /** A single worker serves the half-written file when it could not be removed. */
  lemma UnsweptFileIsServed(s: Service, p: Path, paths: set<Path>, fl: Failures)
    returns (acts: seq<Action>, s': Service)
    requires Ready(s, 0) && p in paths && fl.write && fl.sweep
    ensures Leads(s, acts, s', paths, fl)
    ensures s'.log == s.log + [Event(Upload(p, [7]), Spoiled), Event(Download(p), Fetched([]))]
  {
    var s1: Service;
    acts, s1 := SpoiledUpload(s, 0, p, paths, fl);
    acts := Then(s, acts, s1, SweepFails(0), paths, fl);
    var s2 := Apply(s1, SweepFails(0));
    acts := Finishes(s, acts, s2, 0, paths, fl);
    var s3 := s2.(jobs := s2.jobs[0 := NoJob]);
    var served: seq<Action>;
    served, s' := EmptyDownload(s3, 0, p, paths, fl);
    LeadsOn(s, acts, s3, served, s', paths, fl);
    acts := acts + served;
  }

  /** A single worker's failed upload takes the old file with it. */
  lemma OldFileIsLost(s: Service, p: Path, paths: set<Path>, fl: Failures) returns (acts: seq<Action>, s': Service)
    requires Ready(s, 0) && p in paths && fl.write
    ensures Leads(s, acts, s', paths, fl)
    ensures s'.log == s.log + [Event(Upload(p, [7]), Spoiled), Event(Download(p), NotFound)]
  {
    var s1: Service;
    acts, s1 := SpoiledUpload(s, 0, p, paths, fl);
    acts := Then(s, acts, s1, Sweep(0), paths, fl);
    var s2 := Apply(s1, Sweep(0));
    acts := Finishes(s, acts, s2, 0, paths, fl);
    var s3 := s2.(jobs := s2.jobs[0 := NoJob]);
    var missed: seq<Action>;
    missed, s' := MissedDownload(s3, 0, p, paths, fl);
    LeadsOn(s, acts, s3, missed, s', paths, fl);
    acts := acts + missed;
  }

  /** The late removal hits another worker's file: its upload was acknowledged, yet the file is
      gone although nobody works on it. */
  lemma LateSweepErasesUpload(s: Service, p: Path, paths: set<Path>, fl: Failures)
    returns (acts: seq<Action>, s': Service)
    requires Ready(s, 0) && Ready(s, 1) && p in paths && fl.write
    requires forall t :: 0 <= t < |s.jobs| ==> s.jobs[t].NoJob?
    ensures Leads(s, acts, s', paths, fl)
    ensures s'.log == s.log + [Event(Upload(p, [7]), Spoiled), Event(Upload(p, []), Stored)]
    ensures FileOf(p) !in s'.disk && p in s'.rows && Untouched(s'.jobs, FileOf(p)) && AllFree(s'.locks)
  {
    var s1: Service, s2: Service;
    acts, s1 := SpoiledUpload(s, 0, p, paths, fl);
    var stores: seq<Action>;
    stores, s2 := EmptyUpload(s1, 1, p, true, paths, fl);
    LeadsOn(s, acts, s1, stores, s2, paths, fl);
    acts := SweepsNow(s, acts + stores, s2, 0, p, paths, fl);
    s' := s2.(jobs := s2.jobs[0 := Done(Upload(p, [7]), Spoiled)], disk := s2.disk - {FileOf(p)});
    ResultsTouchNothing(s'.jobs, FileOf(p));
  }

  lemma ResultsTouchNothing(jobs: seq<Job>, p: Place)
    requires forall t :: 0 <= t < |jobs| ==> jobs[t].NoJob? || jobs[t].Done?
    ensures Untouched(jobs, p)
  {
  }

  lemma SweepsNow(s0: Service, acts: seq<Action>, s: Service, t: Worker, p: Path, paths: set<Path>, fl: Failures)
    returns (more: seq<Action>)
    requires Leads(s0, acts, s, paths, fl) && t < |s.jobs| == |s.locks.phases| && s.jobs[t] == Sweeping(Upload(p, [7]))
    ensures Leads(s0, more, s.(jobs := s.jobs[t := Done(Upload(p, [7]), Spoiled)], disk := s.disk - {FileOf(p)}),
                  paths, fl)
  {
    more := Then(s0, acts, s, Sweep(t), paths, fl);
  }

  // ---------------------------------------------------------------- two locks for one file

  /** A worker that found no file gave its lock back and finished. */
  function GivenBack(s: Service, t: Worker, op: Op, i: nat): Service
    requires t < |s.jobs| == |s.locks.phases| && i < |s.locks.table| == |s.locks.owner|
  {
    LeftAt(s, t, op, NotFound, i).(jobs := s.jobs[t := NoJob])
  }

  lemma LeavesEmptyHanded(s: Service, t: Worker, op: Op, i: nat, paths: set<Path>, fl: Failures)
    returns (acts: seq<Action>)
    requires HasLock(s, t, op) && op.Delete? && FileOf(op.path) !in s.disk
    requires i < |s.locks.table| == |s.locks.owner| && s.locks.table[i].refCount == 1
    requires s.locks.phases[t].Holding? && s.locks.phases[t].slot == i
    ensures Leads(s, acts, GivenBack(s, t, op, i), paths, fl)
  {
    acts := FindsNothing(s, t, op, paths, fl);
    var s1 := s.(jobs := s.jobs[t := Closing(op, NotFound)]);
    var more := Leaves(s1, t, op, NotFound, i, paths, fl);
    var s2 := LeftAt(s1, t, op, NotFound, i);
    LeadsOn(s, acts, s1, more, s2, paths, fl);
    acts := Finishes(s, acts + more, s2, t, paths, fl);
    assert s2.(jobs := s2.jobs[t := NoJob]) == GivenBack(s, t, op, i);
  }

  /** Worker 0 has a lock in slot `i`, worker 1 takes another path into slot `k` and writes it. */
  lemma SecondLock(s: Service, q: Path, k: nat, paths: set<Path>, fl: Failures) returns (acts: seq<Action>)
    requires |s.jobs| == |s.locks.phases| >= 2 && k < |s.locks.table| == |s.locks.owner| && q in paths
    requires s.jobs[1].NoJob? && s.locks.phases[1].Idle?
    requires SlotFor(s.locks.table, q) == Some(k) && !s.locks.table[k].inUse && s.locks.owner[k] == None
    ensures Leads(s, acts, Writer(s, q, k), paths, fl)
  {
    var up, s2 := Upload(q, []), LockedAt(s, 1, Upload(q, []), k);
    acts := Enters(s, 1, up, k, paths, fl);
    var more := WritesNothing(s2, 1, up, paths, fl);
    LeadsOn(s, acts, s2, more, s2.(jobs := s2.jobs[1 := Written(up)], disk := s2.disk[FileOf(q) := []]), paths, fl);
    acts := acts + more;
    assert s2.jobs[1 := Written(up)] == s.jobs[1 := Written(up)];
  }

  function Writer(s: Service, q: Path, k: nat): Service
    requires |s.jobs| == |s.locks.phases| >= 2 && k < |s.locks.table| == |s.locks.owner|
  {
    var up := Upload(q, []);
    LockedAt(s, 1, up, k).(jobs := s.jobs[1 := Written(up)], disk := s.disk[FileOf(q) := []])
  }

  /** Paths `p` and `q` share a home slot.  While `p` is locked, `q` gets the next slot; once `p`
      is given back, `q` is looked up again and gets the home slot as well. */
  lemma TwoLocksForOneFile(s: Service, p: Path, q: Path, op: Op, paths: set<Path>, fl: Failures)
    returns (acts: seq<Action>, s': Service, i: nat, k: nat)
    requires Ready(s, 0) && Ready(s, 1) && |s.locks.table| >= 2 && p in paths && q in paths && FileOf(p) != FileOf(q)
    requires Home(p, |s.locks.table|) == Home(q, |s.locks.table|) && FileOf(p) !in s.disk && !op.List? && op.path == q
    ensures Leads(s, acts, s', paths, fl)
    ensures |s'.jobs| == |s.jobs| == |s'.locks.phases| && |s'.locks.table| == |s'.locks.owner|
    ensures s'.jobs == s.jobs[0 := Locked(op)][1 := Written(Upload(q, []))]
    ensures s'.disk == s.disk[FileOf(q) := []] && s'.rows == s.rows && s'.log == s.log + [Event(Delete(p), NotFound)]
    ensures s'.locks.phases[0] == L.Holding(i, q) && s'.locks.phases[1] == L.Holding(k, q)
    ensures i < |s'.locks.table| && k < |s'.locks.table| && i != k
    ensures s'.locks.table[i].refCount == 1 && s'.locks.table[k].refCount == 1
  {
    var n, del := |s.locks.table|, Delete(p);
    i := Home(p, n);
    k := Walk(i, 1, n);
    L.TakesSlot(s.locks.table, p, 0);
    acts := Enters(s, 0, del, i, paths, fl);
    var s1 := LockedAt(s, 0, del, i);
    L.TakesSlot(s1.locks.table, q, 1);
    var more := SecondLock(s1, q, k, paths, fl);
    var s3 := Writer(s1, q, k);
    LeadsOn(s, acts, s1, more, s3, paths, fl);
    acts := acts + more;
    more := SwapsLock(s3, del, q, op, i, paths, fl);
    s' := LockedAt(GivenBack(s3, 0, del, i), 0, op, i);
    LeadsOn(s, acts, s3, more, s', paths, fl);
    acts := acts + more;
    BothInside(s, p, q, op, i, k);
  }

  lemma BothInside(s: Service, p: Path, q: Path, op: Op, i: nat, k: nat)
    requires Ready(s, 0) && Ready(s, 1) && i < |s.locks.table| && k < |s.locks.table| && i != k
    requires !op.List? && op.path == q
    ensures var s' := LockedAt(GivenBack(Writer(LockedAt(s, 0, Delete(p), i), q, k), 0, Delete(p), i), 0, op, i);
            && s'.jobs == s.jobs[0 := Locked(op)][1 := Written(Upload(q, []))]
            && s'.disk == s.disk[FileOf(q) := []] && s'.rows == s.rows && s'.log == s.log + [Event(Delete(p), NotFound)]
            && s'.locks.phases[0] == L.Holding(i, q) && s'.locks.phases[1] == L.Holding(k, q)
            && s'.locks.table[i].refCount == 1 && s'.locks.table[k].refCount == 1
  {
  }

  /** Worker 0 gives back slot `i`, the home of `q`, and gets it again for `q`. */
  lemma SwapsLock(s: Service, del: Op, q: Path, op: Op, i: nat, paths: set<Path>, fl: Failures)
    returns (acts: seq<Action>)
    requires HasLock(s, 0, del) && del.Delete? && FileOf(del.path) !in s.disk && !op.List? && op.path == q && q in paths
    requires i < |s.locks.table| == |s.locks.owner| && s.locks.table[i].refCount == 1
    requires s.locks.phases[0].Holding? && s.locks.phases[0].slot == i && i == Home(q, |s.locks.table|)
    ensures Leads(s, acts, LockedAt(GivenBack(s, 0, del, i), 0, op, i), paths, fl)
  {
    var s4 := GivenBack(s, 0, del, i);
    acts := LeavesEmptyHanded(s, 0, del, i, paths, fl);
    L.TakesSlot(s4.locks.table, q, 0);
    var more := Enters(s4, 0, op, i, paths, fl);
    LeadsOn(s, acts, s4, more, LockedAt(s4, 0, op, i), paths, fl);
    acts := acts + more;
  }

  // ---------------------------------------------------------------- two names for one file

  /** The slot that `q` gets while `p` alone is locked in its home slot. */
  lemma SlotBeside(s: Service, p: Path, q: Path, op: Op) returns (k: nat)
    requires Ready(s, 0) && |s.locks.table| >= 2 && p != q && !op.List? && op.path == p
    ensures k < |s.locks.table| && k != Home(p, |s.locks.table|)
    ensures SlotFor(Alone(s, 0, op).locks.table, q) == Some(k)
  {
    var n := |s.locks.table|;
    var t := Alone(s, 0, op).locks.table;
    if Home(q, n) == Home(p, n) {
      k := Walk(Home(p, n), 1, n);
      L.TakesSlot(t, q, 1);
    } else {
      k := Home(q, n);
      L.TakesSlot(t, q, 0);
    }
  }

  /** Two keys reach one file and take two locks: a download by one name serves the unfinished
      upload by the other. */
  lemma AliasIsNotSerial(s: Service, p: Path, q: Path, paths: set<Path>, fl: Failures)
    returns (acts: seq<Action>, s': Service)
    requires Ready(s, 0) && Ready(s, 1) && |s.locks.table| >= 2 && p in paths && q in paths && p != q
    requires FileOf(p) == FileOf(q) && FileOf(p) !in s.disk
    ensures Leads(s, acts, s', paths, fl)
    ensures s'.log == s.log + [Event(Download(p), Fetched([]))]
  {
    var i, down := Home(p, |s.locks.table|), Download(p);
    L.TakesSlot(s.locks.table, p, 0);
    acts := Enters(s, 0, down, i, paths, fl);
    var s1 := LockedAt(s, 0, down, i);
    var k := SlotBeside(s, p, q, down);
    var more := SecondLock(s1, q, k, paths, fl);
    var s2 := Writer(s1, q, k);
    LeadsOn(s, acts, s1, more, s2, paths, fl);
    acts := acts + more;
    more := ServesAndLeaves(s2, down, i, paths, fl);
    s' := LeftAt(s2.(jobs := s2.jobs[0 := Closing(down, Fetched([]))]), 0, down, Fetched([]), i);
    LeadsOn(s, acts, s2, more, s', paths, fl);
    acts := acts + more;
  }

  lemma ServesAndLeaves(s: Service, down: Op, i: nat, paths: set<Path>, fl: Failures) returns (acts: seq<Action>)
    requires HasLock(s, 0, down) && down.Download? && FileOf(down.path) in s.disk && s.disk[FileOf(down.path)] == []
    requires i < |s.locks.table| == |s.locks.owner| && s.locks.table[i].refCount == 1
    requires s.locks.phases[0].Holding? && s.locks.phases[0].slot == i
    ensures Leads(s, acts, LeftAt(s.(jobs := s.jobs[0 := Closing(down, Fetched([]))]), 0, down, Fetched([]), i),
                  paths, fl)
  {
    acts := FetchesNothing(s, 0, down, paths, fl);
    var s1 := s.(jobs := s.jobs[0 := Closing(down, Fetched([]))]);
    var more := Leaves(s1, 0, down, Fetched([]), i, paths, fl);
    LeadsOn(s, acts, s1, more, LeftAt(s1, 0, down, Fetched([]), i), paths, fl);
    acts := acts + more;
  }

  // ---------------------------------------------------------------- runs with two locks

  /** Two workers inside one file: a download serves what the other has not yet recorded. */
  lemma CollisionIsNotSerial(s: Service, p: Path, q: Path, paths: set<Path>, fl: Failures)
    returns (acts: seq<Action>, s': Service)
    requires Ready(s, 0) && Ready(s, 1) && |s.locks.table| >= 2 && p in paths && q in paths && FileOf(p) != FileOf(q)
    requires Home(p, |s.locks.table|) == Home(q, |s.locks.table|) && FileOf(p) !in s.disk
    ensures Leads(s, acts, s', paths, fl)
    ensures s'.log == s.log + [Event(Delete(p), NotFound), Event(Download(q), Fetched([]))]
  {
    var s1: Service, i: nat, k: nat;
    var down := Download(q);
    acts, s1, i, k := TwoLocksForOneFile(s, p, q, down, paths, fl);
    var more := ServesAndLeaves(s1, down, i, paths, fl);
    s' := LeftAt(s1.(jobs := s1.jobs[0 := Closing(down, Fetched([]))]), 0, down, Fetched([]), i);
    LeadsOn(s, acts, s1, more, s', paths, fl);
    acts := acts + more;
  }

  /** Two workers inside one file: a delete removes it, then the upload records it. */
  lemma CollisionLeavesRow(s: Service, p: Path, q: Path, paths: set<Path>, fl: Failures)
    returns (acts: seq<Action>, s': Service)
    requires Ready(s, 0) && Ready(s, 1) && |s.locks.table| >= 2 && p in paths && q in paths && FileOf(p) != FileOf(q)
    requires Home(p, |s.locks.table|) == Home(q, |s.locks.table|) && FileOf(p) !in s.disk
    requires forall t :: 0 <= t < |s.jobs| ==> s.jobs[t].NoJob?
    ensures Leads(s, acts, s', paths, fl)
    ensures FileOf(q) !in s'.disk && q in s'.rows && NobodyInside(s'.jobs, FileOf(q))
  {
    var s1: Service, s3: Service, i: nat, k: nat;
    acts, s1, i, k := TwoLocksForOneFile(s, p, q, Delete(q), paths, fl);
    var more: seq<Action>;
    more, s3 := ErasesAndLeaves(s1, 0, Delete(q), i, paths, fl);
    LeadsOn(s, acts, s1, more, s3, paths, fl);
    acts := acts + more;
    more, s' := CommitsAndLeaves(s3, 1, Upload(q, []), k, paths, fl);
    LeadsOn(s, acts, s3, more, s', paths, fl);
    acts := acts + more;
    ResultsTouchNothing(s'.jobs, FileOf(q));
  }

  lemma ErasesAndLeaves(s: Service, t: Worker, op: Op, i: nat, paths: set<Path>, fl: Failures)
    returns (acts: seq<Action>, s': Service)
    requires HasLock(s, t, op) && op.Delete? && FileOf(op.path) in s.disk
    requires i < |s.locks.table| == |s.locks.owner| && s.locks.table[i].refCount == 1
    requires s.locks.phases[t].Holding? && s.locks.phases[t].slot == i
    ensures Leads(s, acts, s', paths, fl)
    ensures s'.jobs == s.jobs[t := Done(op, Erased)] && s'.disk == s.disk - {FileOf(op.path)}
    ensures |s'.locks.table| == |s.locks.table| == |s'.locks.owner| && |s'.locks.phases| == |s.locks.phases|
    ensures forall u :: 0 <= u < |s.jobs| && u != t ==> s'.locks.phases[u] == s.locks.phases[u]
    ensures forall k :: 0 <= k < |s.locks.table| && k != i ==> s'.locks.table[k] == s.locks.table[k]
  {
    acts := Erases(s, t, op, paths, fl);
    var s2 := s.(jobs := s.jobs[t := Closing(op, Erased)], disk := s.disk - {FileOf(op.path)},
                 rows := s.rows - {op.path});
    var more := Leaves(s2, t, op, Erased, i, paths, fl);
    s' := LeftAt(s2, t, op, Erased, i);
    LeadsOn(s, acts, s2, more, s', paths, fl);
    acts := acts + more;
    assert s'.jobs == s.jobs[t := Done(op, Erased)];
  }

  lemma CommitsAndLeaves(s: Service, t: Worker, op: Op, k: nat, paths: set<Path>, fl: Failures)
    returns (acts: seq<Action>, s': Service)
    requires t < |s.jobs| == |s.locks.phases| && s.jobs[t] == Written(op) && op.Upload?
    requires k < |s.locks.table| == |s.locks.owner| && s.locks.table[k].refCount == 1
    requires s.locks.phases[t].Holding? && s.locks.phases[t].slot == k
    ensures Leads(s, acts, s', paths, fl)
    ensures s'.jobs == s.jobs[t := Done(op, Stored)] && s'.disk == s.disk && s'.rows == s.rows[op.path := |op.data|]
  {
    acts := Commits(s, t, op, paths, fl);
    var s1 := s.(jobs := s.jobs[t := Closing(op, Stored)], rows := s.rows[op.path := |op.data|]);
    var more := Leaves(s1, t, op, Stored, k, paths, fl);
    s' := LeftAt(s1, t, op, Stored, k);
    LeadsOn(s, acts, s1, more, s', paths, fl);
    acts := acts + more;
    assert s'.jobs == s.jobs[t := Done(op, Stored)];
  }
}
