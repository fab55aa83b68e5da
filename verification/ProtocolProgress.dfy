/**
 Every accepted request gets answered: some worker can always act while a request is
 outstanding, without help from a failing call; every worker action lowers a lexicographic
 measure; and so workers alone bring any reachable state to one where nothing is outstanding,
 before and after shutdown.
 */
module ProtocolProgress {
  import opened Prelude
  import opened BoundedQueue
  import opened Protocol
  import opened ProtocolFlow
  import opened ProtocolBuffers
  import opened ProtocolResults
  import opened ProtocolHistory
  import F = FileService
  import R = FileServiceResults

  // ---------------------------------------------------------------- some worker can act

  /** A worker that has something to do. */
  predicate HasWork(s: Sys, w: nat)
    requires w < |s.workers|
  {
    !s.workers[w].Stopped? && (s.workers[w].Popping? ==> s.ring.size > 0)
  }

  predicate NobodyHasWork(s: Sys)
  {
    forall w :: 0 <= w < |s.workers| ==> !HasWork(s, w)
  }

  /** A worker's step in which no call fails. */
  predicate NoFault(a: Action)
  {
    WorkerAction(a) && (a.Exec? ==> !F.Fault(a.a))
  }

  predicate FaultFree(acts: seq<Action>)
  {
    forall k :: 0 <= k < |acts| ==> NoFault(acts[k])
  }

  /** No call fails by itself: at most a read, of a file that was taken away meanwhile. */
  predicate OrdinaryStep(s: Sys, a: Action)
    requires Enabled(s, a)
  {
    a.Exec? ==> R.Ordinary(s.svc, a.a)
  }

  /** What a worker does outside the file service. */
  lemma HandoverStep(s: Sys, w: nat) returns (a: Action)
    requires FlowOk(s) && w < |s.workers| && HasWork(s, w) && (s.workers[w].Running? ==> s.svc.jobs[w].Done?)
    ensures WorkerAction(a) && !a.WorkerExit? && !a.Exec? && Enabled(s, a)
  {
    assert WorkerOk(s, w);
    match s.workers[w] {
      case Popping => a := Pop(w);
      case Delivering(_, _, _, _) => a := Respond(w);
      case Freeing(_) => a := FreeUpload(w);
      case Running(_, _) => a := FindSession(w);
    }
  }

  lemma ServiceStep(s: Sys, x: F.Action)
    requires FlowOk(s) && F.Enabled(s.svc, x) && R.Busy(s.svc.jobs[x.t])
    ensures Enabled(s, Exec(x.t, x))
  {
    assert WorkerOk(s, x.t);
  }

  /** If a worker has something to do, then some worker can take an ordinary step. */
  lemma SomeWorkerActs(s: Sys, w: nat) returns (a: Action)
    requires FlowOk(s) && w < |s.workers| && HasWork(s, w)
    ensures WorkerAction(a) && !a.WorkerExit? && Enabled(s, a) && OrdinaryStep(s, a)
  {
    if s.workers[w].Running? && !s.svc.jobs[w].Done? {
      assert WorkerOk(s, w);
      var x := R.SomeWorkerCanMove(s.svc, w);
      ServiceStep(s, x);
      a := Exec(x.t, x);
    } else {
      a := HandoverStep(s, w);
    }
  }

  /** The same without any fault, keeping the file service serial. */
  lemma SomeWorkerActsCalmly(s: Sys, w: nat, f: F.Files) returns (a: Action)
    requires FlowOk(s) && F.Serialized(s.svc, f) && w < |s.workers| && HasWork(s, w)
    ensures !a.WorkerExit? && Enabled(s, a) && SafeStep(s, a) && NoFault(a)
  {
    if s.workers[w].Running? && !s.svc.jobs[w].Done? {
      assert WorkerOk(s, w);
      var x := R.SomeWorkerMovesCalmly(s.svc, w, f);
      ServiceStep(s, x);
      a := Exec(x.t, x);
    } else {
      a := HandoverStep(s, w);
    }
  }

  /** An outstanding request keeps at least one worker busy or eligible. */
  lemma OutstandingMeansWork(s: Sys, req: nat) returns (w: nat)
    requires FlowOk(s) && Outstanding(s, req) && |s.workers| > 0
    ensures w < |s.workers| && HasWork(s, w)
  {
    var spot :| Here(s, spot).Some? && Here(s, spot).value.req == req;
    match spot {
      case AtQueue(_) =>
        assert WorkerOk(s, 0);
        w := 0;
      case AtWorker(u) => w := u;
    }
  }

  // ---------------------------------------------------------------- the measure

  /** Steps left to a worker, apart from data transfers. */
  function WorkerStage(wk: Worker, j: F.Job): nat
  {
    match wk
    case Stopped => 0
    case Popping => 1
    case Freeing(_) => 2
    case Delivering(_, _, _, _) => 3
    case Running(_, _) => 3 + R.Stage(j)
  }

  function StageSum(workers: seq<Worker>, jobs: seq<F.Job>): nat
    requires |workers| == |jobs|
  {
    if workers == [] then 0
    else
      var n := |workers| - 1;
      StageSum(workers[..n], jobs[..n]) + WorkerStage(workers[n], jobs[n])
  }

  function ByteSum(jobs: seq<F.Job>): nat
  {
    if jobs == [] then 0 else ByteSum(jobs[..|jobs| - 1]) + R.BytesLeft(jobs[|jobs| - 1])
  }

  lemma {:induction false} StageSumUpdate(workers: seq<Worker>, jobs: seq<F.Job>, w: nat, wk: Worker, j: F.Job)
    requires |workers| == |jobs| && w < |workers|
    ensures StageSum(workers[w := wk], jobs[w := j]) ==
            StageSum(workers, jobs) - WorkerStage(workers[w], jobs[w]) + WorkerStage(wk, j)
  {
    var n := |workers| - 1;
    if w == n {
      assert workers[w := wk][..n] == workers[..n] && jobs[w := j][..n] == jobs[..n];
    } else {
      assert workers[w := wk][..n] == workers[..n][w := wk] && jobs[w := j][..n] == jobs[..n][w := j];
      StageSumUpdate(workers[..n], jobs[..n], w, wk, j);
    }
  }

  lemma {:induction false} ByteSumUpdate(jobs: seq<F.Job>, w: nat, j: F.Job)
    requires w < |jobs|
    ensures ByteSum(jobs[w := j]) == ByteSum(jobs) - R.BytesLeft(jobs[w]) + R.BytesLeft(j)
  {
    var n := |jobs| - 1;
    if w == n {
      assert jobs[w := j][..n] == jobs[..n];
    } else {
      assert jobs[w := j][..n] == jobs[..n][w := j];
      ByteSumUpdate(jobs[..n], w, j);
    }
  }

  ghost predicate LowerJob(wk: Worker, j: F.Job, wk': Worker, j': F.Job)
  {
    || WorkerStage(wk', j') < WorkerStage(wk, j)
    || (WorkerStage(wk', j') == WorkerStage(wk, j) && R.BytesLeft(j') < R.BytesLeft(j))
  }

  /** Strictly below in the lexicographic order (queued tasks, steps left, bytes left). */
  ghost predicate Lower(s': Sys, s: Sys)
    requires |s.workers| == |s.svc.jobs| && |s'.workers| == |s'.svc.jobs|
  {
    || s'.ring.size < s.ring.size
    || (s'.ring.size == s.ring.size && StageSum(s'.workers, s'.svc.jobs) < StageSum(s.workers, s.svc.jobs))
    || (s'.ring.size == s.ring.size && StageSum(s'.workers, s'.svc.jobs) == StageSum(s.workers, s.svc.jobs) &&
        ByteSum(s'.svc.jobs) < ByteSum(s.svc.jobs))
  }

  lemma LowerJobLowers(s: Sys, s': Sys, w: nat)
    requires |s.workers| == |s.svc.jobs| && w < |s.workers| && s'.ring == s.ring
    requires |s'.workers| == |s.workers| && |s'.svc.jobs| == |s.svc.jobs|
    requires s'.workers == s.workers[w := s'.workers[w]] && s'.svc.jobs == s.svc.jobs[w := s'.svc.jobs[w]]
    requires LowerJob(s.workers[w], s.svc.jobs[w], s'.workers[w], s'.svc.jobs[w])
    ensures Lower(s', s)
  {
    StageSumUpdate(s.workers, s.svc.jobs, w, s'.workers[w], s'.svc.jobs[w]);
    ByteSumUpdate(s.svc.jobs, w, s'.svc.jobs[w]);
  }

  lemma ExecLowers(s: Sys, w: nat, x: F.Action)
    requires FlowOk(s) && Enabled(s, Exec(w, x))
    ensures Lower(ApplyExec(s, w, x), s)
  {
    R.StepDescends(s.svc, x);
    LowerJobLowers(s, ApplyExec(s, w, x), w);
  }

  lemma HandoverLowers(s: Sys, a: Action)
    requires FlowOk(s) && WorkerAction(a) && !a.Pop? && !a.Exec? && Enabled(s, a)
    ensures |Apply(s, a).workers| == |Apply(s, a).svc.jobs|
    ensures Lower(Apply(s, a), s)
  {
    assert WorkerOk(s, a.w);
    LowerJobLowers(s, Apply(s, a), a.w);
  }

  /** Whatever a worker does lowers the measure. */
  lemma WorkerStepLowers(s: Sys, a: Action)
    requires FlowOk(s) && WorkerAction(a) && Enabled(s, a)
    ensures |Apply(s, a).workers| == |Apply(s, a).svc.jobs|
    ensures Lower(Apply(s, a), s)
  {
    if a.Pop? {
      PopEffect(s, a.w);
    } else if a.Exec? {
      ExecLowers(s, a.w, a.a);
    } else {
      HandoverLowers(s, a);
    }
  }

  // ---------------------------------------------------------------- everything gets answered

  /** Every step is one of a worker and ordinary. */
  predicate OrdinaryRun(s: Sys, acts: seq<Action>)
    requires Valid(s, acts)
    decreases |acts|
  {
    acts == [] ||
    (WorkerAction(acts[0]) && OrdinaryStep(s, acts[0]) && OrdinaryRun(Apply(s, acts[0]), acts[1..]))
  }

  lemma StepThen(s: Sys, a: Action, rest: seq<Action>)
    requires Enabled(s, a) && Valid(Apply(s, a), rest)
    ensures Valid(s, [a] + rest) && Final(s, [a] + rest) == Final(Apply(s, a), rest)
    ensures WorkerAction(a) && OrdinaryStep(s, a) && OrdinaryRun(Apply(s, a), rest) ==> OrdinaryRun(s, [a] + rest)
    ensures SafeStep(s, a) && SafeRun(Apply(s, a), rest) ==> SafeRun(s, [a] + rest)
    ensures NoFault(a) && FaultFree(rest) ==> FaultFree([a] + rest)
  {
    assert ([a] + rest)[1..] == rest;
  }

  lemma StepAdvances(s: Sys, a: Action)
    requires Sound(s) && WorkerAction(a) && Enabled(s, a)
    ensures Sound(Apply(s, a)) && Lower(Apply(s, a), s)
    ensures Apply(s, a).requests == s.requests && |Apply(s, a).workers| == |s.workers|
  {
    StepKeepsSound(s, a);
    WorkerStepLowers(s, a);
    OtherStepsIssueNothing(s, a);
    StepKeepsSizes(s, a);
  }

  /** Whatever order the workers act in: when none of them can take an ordinary step but leave,
      nothing is outstanding. */
  lemma StuckMeansAnswered(s: Sys)
    requires FlowOk(s) && |s.workers| > 0
    requires forall a: Action :: WorkerAction(a) && !a.WorkerExit? && Enabled(s, a) ==> !OrdinaryStep(s, a)
    ensures forall req: nat :: req < |s.requests| ==> Delivered(s, req)
  {
    forall req: nat | req < |s.requests| ensures Delivered(s, req) {
      if Outstanding(s, req) {
        var w := OutstandingMeansWork(s, req);
        var a := SomeWorkerActs(s, w);
      }
    }
  }

  /** Without work left, nothing is outstanding. */
  lemma IdleMeansAnswered(s: Sys)
    requires FlowOk(s) && |s.workers| > 0 && NobodyHasWork(s)
    ensures forall req: nat :: req < |s.requests| ==> Delivered(s, req)
  {
    forall req: nat | req < |s.requests| ensures Delivered(s, req) {
      if Outstanding(s, req) {
        var w := OutstandingMeansWork(s, req);
        assert false;
      }
    }
  }

  /** Workers alone, from any sound state, reach one where no worker has anything to do. */
  lemma {:induction false} WorkersFinish(s: Sys) returns (acts: seq<Action>)
    requires Sound(s)
    ensures Valid(s, acts) && OrdinaryRun(s, acts)
    ensures Sound(Final(s, acts)) && Final(s, acts).requests == s.requests
    ensures |Final(s, acts).workers| == |s.workers|
    ensures NobodyHasWork(Final(s, acts))
    decreases s.ring.size, StageSum(s.workers, s.svc.jobs), ByteSum(s.svc.jobs)
  {
    if w :| 0 <= w < |s.workers| && HasWork(s, w) {
      var a := SomeWorkerActs(s, w);
      StepAdvances(s, a);
      var rest := WorkersFinish(Apply(s, a));
      StepThen(s, a, rest);
      acts := [a] + rest;
    } else {
      acts := [];
    }
  }

  /** With at least one worker, every request accepted in a run is answered by ordinary worker
      steps alone, whatever failed before and whether or not shutdown was requested. */
  lemma EveryRequestIsAnswered(cfg: Config, acts: seq<Action>) returns (more: seq<Action>)
    requires Usable(cfg) && cfg.workers > 0 && RunFrom(cfg, acts)
    ensures Valid(After(cfg, acts), more) && OrdinaryRun(After(cfg, acts), more)
    ensures var s, s' := After(cfg, acts), Final(After(cfg, acts), more);
            s'.requests == s.requests && forall req: nat :: req < |s.requests| ==> Delivered(s', req)
  {
    AfterIsSound(cfg, acts);
    RunKeepsSizes(Start(cfg), acts);
    more := WorkersFinish(After(cfg, acts));
    IdleMeansAnswered(Final(After(cfg, acts), more));
  }

  // ---------------------------------------------------------------- answers that are no failures

  predicate Good(res: F.Outcome)
  {
    !res.Failed? && !res.Spoiled?
  }

  ghost predicate WorkerPleases(wk: Worker, j: F.Job, wanted: set<nat>)
  {
    match wk
    case Running(k, _) => k.req in wanted ==> R.GoingWell(j)
    case Delivering(k, _, res, _) => k.req in wanted ==> Good(res)
    case _ => true
  }

  /** No wanted request has met a failure. */
  ghost predicate Pleasing(s: Sys, wanted: set<nat>)
  {
    && |s.workers| == |s.svc.jobs|
    && (forall w :: 0 <= w < |s.workers| ==> WorkerPleases(s.workers[w], s.svc.jobs[w], wanted))
    && (forall d :: d in s.delivered && d.req in wanted ==> Good(d.res))
  }

  /** One worker moves; the others and their answers stay. */
  lemma OthersPlease(s: Sys, s': Sys, w: nat, wanted: set<nat>)
    requires Pleasing(s, wanted) && w < |s.workers| && |s'.workers| == |s.workers| && |s'.svc.jobs| == |s.svc.jobs|
    requires s'.workers == s.workers[w := s'.workers[w]] && s'.svc.jobs == s.svc.jobs[w := s'.svc.jobs[w]]
    requires s'.delivered == s.delivered && WorkerPleases(s'.workers[w], s'.svc.jobs[w], wanted)
    ensures Pleasing(s', wanted)
  {
    forall u | 0 <= u < |s'.workers| ensures WorkerPleases(s'.workers[u], s'.svc.jobs[u], wanted) {
      assert u != w ==> WorkerPleases(s.workers[u], s.svc.jobs[u], wanted);
    }
  }

  lemma ExecPleases(s: Sys, w: nat, x: F.Action, f: F.Files, wanted: set<nat>)
    requires F.Serialized(s.svc, f) && Pleasing(s, wanted) && Enabled(s, Exec(w, x))
    requires F.Separated(s.svc, x) && !F.Fault(x)
    ensures Pleasing(ApplyExec(s, w, x), wanted)
  {
    assert WorkerPleases(s.workers[w], s.svc.jobs[w], wanted);
    ExecShape(s, w, x);
    if R.GoingWell(s.svc.jobs[w]) {
      R.StepKeepsGoingWell(s.svc, x);
    }
    OthersPlease(s, ApplyExec(s, w, x), w, wanted);
  }

  lemma PopPleases(s: Sys, w: nat, wanted: set<nat>)
    requires FlowOk(s) && Pleasing(s, wanted) && Enabled(s, Pop(w))
    ensures Pleasing(ApplyPop(s, w), wanted)
  {
    PopEffect(s, w);
    OthersPlease(s, ApplyPop(s, w), w, wanted);
  }

  lemma RespondPleases(s: Sys, w: nat, wanted: set<nat>)
    requires FlowOk(s) && Pleasing(s, wanted) && Enabled(s, Respond(w))
    ensures Pleasing(ApplyRespond(s, w), wanted)
  {
    RespondDelivers(s, w);
    assert WorkerPleases(s.workers[w], s.svc.jobs[w], wanted);
    var s' := ApplyRespond(s, w);
    forall u | 0 <= u < |s'.workers| ensures WorkerPleases(s'.workers[u], s'.svc.jobs[u], wanted) {
      assert u != w ==> WorkerPleases(s.workers[u], s.svc.jobs[u], wanted);
    }
  }

  lemma StepPleases(s: Sys, a: Action, f: F.Files, wanted: set<nat>)
    requires FlowOk(s) && F.Serialized(s.svc, f) && Pleasing(s, wanted)
    requires NoFault(a) && Enabled(s, a) && SafeStep(s, a)
    ensures Pleasing(Apply(s, a), wanted)
  {
    if a.Exec? {
      ExecPleases(s, a.w, a.a, f, wanted);
    } else if a.Pop? {
      PopPleases(s, a.w, wanted);
    } else if a.Respond? {
      RespondPleases(s, a.w, wanted);
    } else {
      assert WorkerPleases(s.workers[a.w], s.svc.jobs[a.w], wanted);
      OthersPlease(s, Apply(s, a), a.w, wanted);
    }
  }

  lemma CalmAdvance(s: Sys, w: nat, f: F.Files, wanted: set<nat>) returns (a: Action)
    requires Sound(s) && F.Serialized(s.svc, f) && Pleasing(s, wanted) && w < |s.workers| && HasWork(s, w)
    ensures NoFault(a) && Enabled(s, a) && SafeStep(s, a)
    ensures var s' := Apply(s, a);
            && Sound(s') && F.Serialized(s'.svc, f) && Pleasing(s', wanted) && Lower(s', s)
            && s'.requests == s.requests && |s'.workers| == |s.workers|
  {
    a := SomeWorkerActsCalmly(s, w, f);
    StepAdvances(s, a);
    StepKeepsSerial(s, a, f);
    StepPleases(s, a, f, wanted);
  }

  /** The workers finish without any fault, and nothing wanted fails. */
  lemma {:induction false} WorkersFinishCalmly(s: Sys, f: F.Files, wanted: set<nat>) returns (acts: seq<Action>)
    requires Sound(s) && F.Serialized(s.svc, f) && Pleasing(s, wanted)
    ensures Valid(s, acts) && FaultFree(acts) && SafeRun(s, acts)
    ensures Sound(Final(s, acts)) && Final(s, acts).requests == s.requests
    ensures |Final(s, acts).workers| == |s.workers| && Pleasing(Final(s, acts), wanted)
    ensures NobodyHasWork(Final(s, acts))
    decreases s.ring.size, StageSum(s.workers, s.svc.jobs), ByteSum(s.svc.jobs)
  {
    if w :| 0 <= w < |s.workers| && HasWork(s, w) {
      var a := CalmAdvance(s, w, f, wanted);
      var rest := WorkersFinishCalmly(Apply(s, a), f, wanted);
      StepThen(s, a, rest);
      acts := [a] + rest;
    } else {
      acts := [];
    }
  }

  /** Requests that wait in the queue. */
  ghost predicate Queued(s: Sys, req: nat)
    requires WellFormed(s.ring)
  {
    exists i :: 0 <= i < s.ring.size && Contents(s.ring)[i].req == req
  }

  ghost function QueuedRequests(queue: seq<Task>): (r: set<nat>)
    ensures forall req :: req in r <==> exists i :: 0 <= i < |queue| && queue[i].req == req
  {
    set i | 0 <= i < |queue| :: queue[i].req
  }

  lemma QueuedRequestsAreFresh(s: Sys)
    requires FlowOk(s)
    ensures Pleasing(s, QueuedRequests(Contents(s.ring)))
  {
    var q := Contents(s.ring);
    var wanted := QueuedRequests(q);
    forall w | 0 <= w < |s.workers| ensures WorkerPleases(s.workers[w], s.svc.jobs[w], wanted) {
      if s.workers[w].Running? || s.workers[w].Delivering? {
        forall i | 0 <= i < |q| ensures q[i].req != s.workers[w].task.req {
          assert Here(s, AtQueue(i)) == Some(q[i]) && Here(s, AtWorker(w)) == Some(s.workers[w].task);
        }
      }
    }
    forall d | d in s.delivered ensures d.req !in wanted {
      var n :| 0 <= n < |s.delivered| && s.delivered[n] == d;
      forall i | 0 <= i < |q| ensures q[i].req != d.req {
        assert Here(s, AtQueue(i)) == Some(q[i]);
        assert !Outstanding(s, s.delivered[n].req);
      }
    }
  }

  /** After a run in which the file service stayed serial, the workers can answer everything with
      no fault at all, and each request that was still queued gets a proper answer: stored,
      fetched, erased, listed, or not found. */
  lemma EveryQueuedRequestSucceeds(cfg: Config, acts: seq<Action>) returns (more: seq<Action>)
    requires Usable(cfg) && cfg.workers > 0 && RunFrom(cfg, acts) && SafeRun(Start(cfg), acts)
    ensures WellFormed(After(cfg, acts).ring)
    ensures Valid(After(cfg, acts), more) && FaultFree(more) && SafeRun(After(cfg, acts), more)
    ensures var s, s' := After(cfg, acts), Final(After(cfg, acts), more);
            && s'.requests == s.requests && (forall req: nat :: req < |s.requests| ==> Delivered(s', req))
            && (forall d :: d in s'.delivered && Queued(s, d.req) ==> Good(d.res))
  {
    AfterIsSound(cfg, acts);
    RunKeepsSizes(Start(cfg), acts);
    StartIsSound(cfg);
    F.InitIsSerialized(cfg.locks, cfg.workers, cfg.disk, cfg.rows);
    RunKeepsSerial(Start(cfg), acts, cfg.disk);
    var s := After(cfg, acts);
    QueuedRequestsAreFresh(s);
    more := WorkersFinishCalmly(s, cfg.disk, QueuedRequests(Contents(s.ring)));
    IdleMeansAnswered(Final(s, more));
  }

  /** When the workers have left, nothing accepted is unanswered and nothing is queued. */
  lemma NothingLeftBehind(cfg: Config, acts: seq<Action>)
    requires Usable(cfg) && cfg.workers > 0 && RunFrom(cfg, acts)
    requires forall w :: 0 <= w < |After(cfg, acts).workers| ==> After(cfg, acts).workers[w].Stopped?
    ensures var s := After(cfg, acts);
            && s.ring.shutdown && s.ring.size == 0
            && forall req: nat :: req < |s.requests| ==> Delivered(s, req)
  {
    AfterIsSound(cfg, acts);
    RunKeepsSizes(Start(cfg), acts);
    var s := After(cfg, acts);
    assert WorkerOk(s, 0);
    IdleMeansAnswered(s);
  }
}
