/**
 The conditions under which the workers serialize and keep disk and metadata in step: which
 paths the tasks are on, and which calls may fail.  `FailingRuns` has a run for each way of
 breaking them, and `FileServiceExact` puts the two together.
 */
module FileServiceLimits {
  import opened Prelude
  import opened DiskPaths
  import opened FileLocks
  import opened Probing
  import opened FileService
  import opened FileServiceResults
  import L = LockProtocol

  /** Which failures may happen: a write to an opened file, data lost at `fclose`, the removal of
      a half-written file, a metadata transaction. */
  datatype Failures = Failures(write: bool, close: bool, sweep: bool, db: bool)

  predicate Allowed(fl: Failures, a: Action)
  {
    && (a.WriteFails? ==> fl.write) && (a.CloseLoses? ==> fl.close)
    && (a.SweepFails? ==> fl.sweep) && (DbFault(a) ==> fl.db)
  }

  predicate Within(acts: seq<Action>, paths: set<Path>, fl: Failures)
  {
    forall k :: 0 <= k < |acts| ==> On(acts[k], paths) && Allowed(fl, acts[k])
  }

  ghost predicate RunOver(slots: nat, workers: nat, disk: Files, rows: map<Path, nat>, acts: seq<Action>,
                          paths: set<Path>, fl: Failures)
    requires slots > 0
  {
    Valid(Init(slots, workers, disk, rows), acts) && Within(acts, paths, fl)
  }

  /** No two keys share a home slot or a file, or no two are ever in the lock table together. */
  ghost predicate Apart(slots: nat, workers: nat, paths: set<Path>)
    requires slots > 0
  {
    slots == 1 || workers == 1 || (L.DistinctHomes(paths, slots) && OneNameEach(paths))
  }

  // ---------------------------------------------------------------- when the conditions hold

  /** Everything under way is on the given paths. */
  ghost predicate Sheltered(s: Service, paths: set<Path>)
  {
    && Wired(s)
    && TasksOn(s, paths)
    && L.LiveIn(s.locks.table, paths)
  }

  lemma LocksStayLive(s: Service, a: Action, paths: set<Path>)
    requires Sheltered(s, paths) && Enabled(s, a)
    ensures L.LiveIn(NextLocks(s, a).table, paths) && |NextLocks(s, a).table| == |s.locks.table|
  {
    assert OpOn(s.jobs[a.t], paths);
  }

  lemma StepKeepsSheltered(s: Service, a: Action, paths: set<Path>)
    requires Sheltered(s, paths) && Enabled(s, a) && On(a, paths)
    ensures Sheltered(Apply(s, a), paths)
    ensures |Apply(s, a).locks.table| == |s.locks.table| && |Apply(s, a).jobs| == |s.jobs|
  {
    StepKeepsWired(s, a);
    LocksStayLive(s, a, paths);
    TasksStayOn(s, a, paths);
  }

  /** Live keys stay in their home slots, one for each file. */
  lemma ApartKeepsUnmixed(s: Service, a: Action, paths: set<Path>)
    requires Sheltered(s, paths) && Unmixed(s.locks.table) && Enabled(s, a)
    requires Apart(|s.locks.table|, |s.jobs|, paths)
    ensures Unmixed(Apply(s, a).locks.table)
  {
    if |s.locks.table| == 1 {
      LocksStayLive(s, a, paths);
    } else {
      if a.Locate? && |s.jobs| == 1 {
        NobodyUnderWay(s);
      } else if a.Locate? {
        assert OpOn(s.jobs[a.t], paths);
      }
      StepKeepsUnmixed(s, a);
    }
  }

  /** A fault on a file needs a task on one. */
  lemma FaultNeedsPath(s: Service, a: Action, paths: set<Path>)
    requires Sheltered(s, paths) && Enabled(s, a) && (WriteFault(a) || DbFault(a) || a.SweepFails?)
    ensures paths != {}
  {
    assert OpOn(s.jobs[a.t], paths) && Matches(s.jobs[a.t], s.locks.phases[a.t]);
  }

  /** Losing data at `fclose` always hurts; a failing write hurts unless a single worker removes
      the file before anybody looks. */
  ghost predicate Tame(workers: nat, paths: set<Path>, fl: Failures)
  {
    && (fl.close ==> paths == {})
    && (fl.write ==> paths == {} || (workers == 1 && !fl.sweep))
  }

  /** Uploads may fail while writing. */
  ghost predicate Spoiling(paths: set<Path>, fl: Failures)
  {
    fl.write && paths != {}
  }

  lemma StepIsOrderly(s: Service, a: Action, paths: set<Path>, fl: Failures)
    requires Sheltered(s, paths) && Enabled(s, a) && Allowed(fl, a) && Tame(|s.jobs|, paths, fl)
    requires !Spoiling(paths, fl) ==> NoSpoils(s)
    ensures Orderly(s, a)
    ensures !Spoiling(paths, fl) ==> NoSpoils(Apply(s, a))
  {
    if WriteFault(a) || a.SweepFails? {
      FaultNeedsPath(s, a, paths);
    }
    if !Spoiling(paths, fl) {
      assert NoSpoil(s.jobs[a.t]);
      StepKeepsNoSpoils(s, a);
    } else {
      assert a.Lock? ==> forall u :: 0 <= u < |s.jobs| ==> !SweepDue(s.jobs[u]);
    }
  }

  lemma {:induction false} TameRunsStaySerialized(s: Service, acts: seq<Action>, paths: set<Path>,
                                                 fl: Failures, f: Files)
    requires Serialized(s, f) && Sheltered(s, paths) && Valid(s, acts) && Within(acts, paths, fl)
    requires Apart(|s.locks.table|, |s.jobs|, paths) && Tame(|s.jobs|, paths, fl)
    requires !Spoiling(paths, fl) ==> NoSpoils(s)
    ensures Serialized(Final(s, acts), f)
    ensures !Spoiling(paths, fl) ==> NoSpoils(Final(s, acts))
    decreases |acts|
  {
    if acts != [] {
      var a := acts[0];
      assert On(a, paths) && Allowed(fl, a);
      StepIsOrderly(s, a, paths, fl);
      ApartKeepsUnmixed(s, a, paths);
      StepKeepsSerialized(s, a, f);
      StepKeepsSheltered(s, a, paths);
      assert Within(acts[1..], paths, fl);
      TameRunsStaySerialized(Apply(s, a), acts[1..], paths, fl, f);
    }
  }

  lemma InitIsSheltered(slots: nat, workers: nat, disk: Files, rows: map<Path, nat>, paths: set<Path>)
    requires slots > 0
    ensures Sheltered(Init(slots, workers, disk, rows), paths) && Serialized(Init(slots, workers, disk, rows), disk)
    ensures NoSpoils(Init(slots, workers, disk, rows))
  {
    InitIsWired(slots, workers, disk, rows);
    InitIsSerialized(slots, workers, disk, rows);
  }

  /** Nothing goes wrong with a file. */
  ghost predicate Harmless(paths: set<Path>, fl: Failures)
  {
    paths == {} || (!fl.write && !fl.close && !fl.db)
  }

  lemma {:induction false} HarmlessRunsStayAgreed(s: Service, acts: seq<Action>, paths: set<Path>,
                                                 fl: Failures, f: Files)
    requires Serialized(s, f) && Sheltered(s, paths) && NoSpoils(s) && Agreed(s, paths)
    requires Valid(s, acts) && Within(acts, paths, fl)
    requires Apart(|s.locks.table|, |s.jobs|, paths) && Harmless(paths, fl)
    ensures Agreed(Final(s, acts), paths)
    decreases |acts|
  {
    if acts != [] {
      var a := acts[0];
      assert On(a, paths) && Allowed(fl, a);
      if WriteFault(a) || DbFault(a) {
        FaultNeedsPath(s, a, paths);
      }
      StepKeepsAgreed(s, a, f, paths);
      StepIsOrderly(s, a, paths, fl);
      ApartKeepsUnmixed(s, a, paths);
      StepKeepsSerialized(s, a, f);
      StepKeepsSheltered(s, a, paths);
      assert Within(acts[1..], paths, fl);
      HarmlessRunsStayAgreed(Apply(s, a), acts[1..], paths, fl, f);
    }
  }
}
