/**
 The server as a linearizable file store.  Each log entry of the file service belongs to one
 request (`served`), each answer that says something about a file has its own entry, and the
 entry lies between the push of the request and its answer.  With the serial log of
 `FileServiceResults` this gives what clients observe: an acknowledged upload is seen by
 every download requested afterwards.
 */
module ProtocolHistory {
  import opened Prelude
  import opened BoundedQueue
  import opened Protocol
  import opened ProtocolFlow
  import opened ProtocolBuffers
  import opened ProtocolResults
  import F = FileService
  import R = FileServiceResults
  import D = DiskPaths

  /** An outcome that says something about a file. */
  predicate Informative(res: F.Outcome)
  {
    !res.Failed? && !res.Listed?
  }

  /** Log entry `k` is that of request `req`, with outcome `res`. */
  predicate EntryAt(served: seq<nat>, log: seq<F.Event>, k: nat, req: nat, res: F.Outcome)
  {
    k < |served| && k < |log| && served[k] == req && log[k].res == res
  }

  ghost predicate Recorded(served: seq<nat>, log: seq<F.Event>, req: nat, res: F.Outcome)
  {
    exists k: nat :: EntryAt(served, log, k, req, res)
  }

  /** The answer has its entry if it says something about a file; and what was logged for the request
      is what is answered. */
  ghost predicate Faithful(served: seq<nat>, log: seq<F.Event>, req: nat, res: F.Outcome)
  {
    Informative(res) || req in served ==> Recorded(served, log, req, res)
  }

  /** What the log holds for the task of a worker. */
  ghost predicate WorkerLog(wk: Worker, j: F.Job, served: seq<nat>, log: seq<F.Event>)
  {
    match wk
    case Running(k, _) =>
      (match j
       case Unlocked(_, res) => Recorded(served, log, k.req, res)
       case Done(_, res) => Faithful(served, log, k.req, res)
       case Sweeping(_) => Recorded(served, log, k.req, F.Spoiled)
       case _ => k.req !in served)
    case Delivering(k, _, res, _) => Faithful(served, log, k.req, res)
    case _ => true
  }

  /** Entries and requests match one to one. */
  ghost predicate EntriesOk(requests: seq<Request>, served: seq<nat>, log: seq<F.Event>)
  {
    && |served| == |log|
    && (forall k :: 0 <= k < |served| ==> served[k] < |requests| && log[k].op == requests[served[k]].op)
    && (forall k, l :: 0 <= k < l < |served| ==> served[k] != served[l])
  }

  ghost predicate AnswersOk(delivered: seq<Delivery>, served: seq<nat>, log: seq<F.Event>)
  {
    forall d :: d in delivered ==> Faithful(served, log, d.req, d.res)
  }

  ghost predicate QueueUnserved(queue: seq<Task>, served: seq<nat>)
  {
    forall k :: k in queue ==> k.req !in served
  }

  ghost predicate LogOk(s: Sys)
  {
    && WellFormed(s.ring) && |s.workers| == |s.svc.jobs|
    && EntriesOk(s.requests, s.served, s.svc.log)
    && AnswersOk(s.delivered, s.served, s.svc.log)
    && QueueUnserved(Contents(s.ring), s.served)
    && forall w :: 0 <= w < |s.workers| ==> WorkerLog(s.workers[w], s.svc.jobs[w], s.served, s.svc.log)
  }

  lemma StartLogOk(cfg: Config)
    requires Usable(cfg)
    ensures LogOk(Start(cfg))
  {
    assert Contents(Start(cfg).ring) == [];
  }

  // ---------------------------------------------------------------- steps

  lemma RecordedStays(served: seq<nat>, log: seq<F.Event>, req: nat, res: F.Outcome, r: nat, e: F.Event)
    requires Recorded(served, log, req, res)
    ensures Recorded(served + [r], log + [e], req, res)
  {
    var k: nat :| EntryAt(served, log, k, req, res);
    assert EntryAt(served + [r], log + [e], k, req, res);
  }

  lemma PushKeepsLog(s: Sys, c: nat)
    requires FlowOk(s) && LogOk(s) && Enabled(s, Push(c))
    ensures LogOk(ApplyPush(s, c))
  {
    if !s.ring.shutdown {
      PushSpots(s, c);
    }
  }

  lemma PopKeepsLog(s: Sys, w: nat)
    requires FlowOk(s) && LogOk(s) && Enabled(s, Pop(w))
    ensures LogOk(ApplyPop(s, w))
  {
    PopEffect(s, w);
    var s', q := ApplyPop(s, w), Contents(s.ring);
    assert q[0] in q && forall k :: k in q[1..] ==> k in q;
  }

  /** Steps inside the file service that do not unlock. */
  lemma QuietExecKeepsLog(s: Sys, w: nat, x: F.Action)
    requires LogOk(s) && Enabled(s, Exec(w, x)) && !x.Unlock?
    ensures LogOk(ApplyExec(s, w, x))
  {
    var s' := ApplyExec(s, w, x);
    assert WorkerLog(s.workers[w], s.svc.jobs[w], s.served, s.svc.log);
    forall u | 0 <= u < |s'.workers| ensures WorkerLog(s'.workers[u], s'.svc.jobs[u], s'.served, s'.svc.log) {
      assert u != w ==> WorkerLog(s.workers[u], s.svc.jobs[u], s.served, s.svc.log);
    }
  }

  /** A new entry for another request keeps what the log holds for a worker's task. */
  lemma WorkerLogStays(wk: Worker, j: F.Job, served: seq<nat>, log: seq<F.Event>, r: nat, e: F.Event)
    requires WorkerLog(wk, j, served, log)
    requires wk.Running? || wk.Delivering? ==> wk.task.req != r
    ensures WorkerLog(wk, j, served + [r], log + [e])
  {
    if wk.Running? || wk.Delivering? {
      forall res | Recorded(served, log, wk.task.req, res)
        ensures Recorded(served + [r], log + [e], wk.task.req, res)
      {
        RecordedStays(served, log, wk.task.req, res, r, e);
      }
    }
  }

  /** Another worker's task, or a queued one, is another request. */
  lemma OtherTasksDiffer(s: Sys, w: nat, u: nat)
    requires WellFormed(s.ring) && TasksOk(s) && w < |s.workers| && s.workers[w].Running?
    requires u < |s.workers| && u != w && (s.workers[u].Running? || s.workers[u].Delivering?)
    ensures s.workers[u].task.req != s.workers[w].task.req
  {
    assert Here(s, AtWorker(w)) == Some(s.workers[w].task) && Here(s, AtWorker(u)) == Some(s.workers[u].task);
  }

  lemma QueuedTasksDiffer(s: Sys, w: nat)
    requires WellFormed(s.ring) && TasksOk(s) && w < |s.workers| && s.workers[w].Running?
    ensures forall k :: k in Contents(s.ring) ==> k.req != s.workers[w].task.req
  {
    forall k | k in Contents(s.ring) ensures k.req != s.workers[w].task.req {
      var i :| 0 <= i < |Contents(s.ring)| && Contents(s.ring)[i] == k;
      assert Here(s, AtQueue(i)) == Some(k) && Here(s, AtWorker(w)) == Some(s.workers[w].task);
    }
  }

  lemma AnswersStay(delivered: seq<Delivery>, served: seq<nat>, log: seq<F.Event>, r: nat, e: F.Event)
    requires AnswersOk(delivered, served, log) && forall d :: d in delivered ==> d.req != r
    ensures AnswersOk(delivered, served + [r], log + [e])
  {
    forall d | d in delivered ensures Faithful(served + [r], log + [e], d.req, d.res) {
      if Recorded(served, log, d.req, d.res) {
        RecordedStays(served, log, d.req, d.res, r, e);
      }
    }
  }

  /** A worker's request has not been answered yet. */
  lemma NotDelivered(s: Sys, w: nat)
    requires FlowOk(s) && w < |s.workers| && s.workers[w].Running?
    ensures forall d :: d in s.delivered ==> d.req != s.workers[w].task.req
  {
    var k := s.workers[w].task;
    assert Here(s, AtWorker(w)) == Some(k) && Outstanding(s, k.req);
    forall i | 0 <= i < |s.delivered| ensures s.delivered[i].req != k.req {
      assert !Outstanding(s, s.delivered[i].req);
    }
  }

  /** The task of the unlocking worker has no entry yet and gets one for its own operation. */
  lemma UnlockingTask(s: Sys, w: nat)
    requires FlowOk(s) && LogOk(s) && Enabled(s, Exec(w, F.Unlock(w)))
    ensures var k := s.workers[w].task;
            && k.req < |s.requests| && s.requests[k.req].op == s.svc.jobs[w].op && k.req !in s.served
            && forall d :: d in s.delivered ==> d.req != k.req
  {
    NotDelivered(s, w);
    assert Here(s, AtWorker(w)) == Some(s.workers[w].task) && TaskOk(s, s.workers[w].task) && WorkerOk(s, w);
    assert WorkerLog(s.workers[w], s.svc.jobs[w], s.served, s.svc.log);
  }

  lemma UnlockKeepsLog(s: Sys, w: nat)
    requires FlowOk(s) && LogOk(s) && Enabled(s, Exec(w, F.Unlock(w)))
    ensures LogOk(ApplyExec(s, w, F.Unlock(w)))
  {
    var s', k, j := ApplyExec(s, w, F.Unlock(w)), s.workers[w].task, s.svc.jobs[w];
    UnlockingTask(s, w);
    QueuedTasksDiffer(s, w);
    AnswersStay(s.delivered, s.served, s.svc.log, k.req, F.Event(j.op, j.res));
    assert EntryAt(s'.served, s'.svc.log, |s.served|, k.req, j.res);
    forall u | 0 <= u < |s'.workers| ensures WorkerLog(s'.workers[u], s'.svc.jobs[u], s'.served, s'.svc.log) {
      if u != w {
        if s.workers[u].Running? || s.workers[u].Delivering? {
          OtherTasksDiffer(s, w, u);
        }
        WorkerLogStays(s.workers[u], s.svc.jobs[u], s.served, s.svc.log, k.req, F.Event(j.op, j.res));
      }
    }
  }

  lemma RespondKeepsLog(s: Sys, w: nat)
    requires FlowOk(s) && LogOk(s) && Enabled(s, Respond(w))
    ensures LogOk(ApplyRespond(s, w))
  {
    RespondDelivers(s, w);
    assert WorkerLog(s.workers[w], s.svc.jobs[w], s.served, s.svc.log);
  }

  lemma FindKeepsLog(s: Sys, w: nat)
    requires LogOk(s) && Enabled(s, FindSession(w))
    ensures LogOk(ApplyFind(s, w))
  {
    assert WorkerLog(s.workers[w], s.svc.jobs[w], s.served, s.svc.log);
  }

  /** Steps that touch neither the log nor the requests. */
  lemma OtherStepKeepsLog(s: Sys, a: Action)
    requires LogOk(s) && Enabled(s, a)
    requires !a.Push? && !a.Pop? && !a.Exec? && !a.Respond? && !a.FindSession?
    ensures LogOk(Apply(s, a))
  {
    assert Contents(Apply(s, a).ring) == Contents(s.ring);
  }

  lemma StepKeepsLog(s: Sys, a: Action)
    requires FlowOk(s) && LogOk(s) && Enabled(s, a)
    ensures LogOk(Apply(s, a))
  {
    match a {
      case Push(c) => PushKeepsLog(s, c);
      case Pop(w) => PopKeepsLog(s, w);
      case Exec(w, x) =>
        if x.Unlock? {
          UnlockKeepsLog(s, w);
        } else {
          QuietExecKeepsLog(s, w, x);
        }
      case FindSession(w) => FindKeepsLog(s, w);
      case Respond(w) => RespondKeepsLog(s, w);
      case _ => OtherStepKeepsLog(s, a);
    }
  }

  /** History only grows. */
  predicate Extends(s: Sys, s': Sys)
  {
    s.requests <= s'.requests && s.delivered <= s'.delivered && s.served <= s'.served && s.svc.log <= s'.svc.log
  }

  lemma StepExtends(s: Sys, a: Action)
    requires Enabled(s, a)
    ensures Extends(s, Apply(s, a))
  {
  }

  lemma {:induction false} RunKeepsLog(s: Sys, acts: seq<Action>)
    requires Sound(s) && LogOk(s) && Valid(s, acts) && ClearRun(s, acts)
    ensures LogOk(Final(s, acts)) && Extends(s, Final(s, acts))
    decreases |acts|
  {
    if acts != [] {
      StepKeepsSound(s, acts[0]);
      StepKeepsLog(s, acts[0]);
      StepExtends(s, acts[0]);
      RunKeepsLog(Apply(s, acts[0]), acts[1..]);
    }
  }

  // ---------------------------------------------------------------- serial log

  /** Live keys have distinct homes and reach different files, no data is lost silently, and no file is
      locked that another worker is about to remove. */
  ghost predicate SafeStep(s: Sys, a: Action)
    requires Enabled(s, a)
  {
    a.Exec? ==> F.Separated(s.svc, a.a) && F.Orderly(s.svc, a.a)
  }

  ghost predicate SafeRun(s: Sys, acts: seq<Action>)
    requires Valid(s, acts)
    decreases |acts|
  {
    acts == [] || (SafeStep(s, acts[0]) && SafeRun(Apply(s, acts[0]), acts[1..]))
  }

  lemma SvcStepKeepsSerial(svc: F.Service, x: F.Action, f: F.Files)
    requires F.Serialized(svc, f) && F.Enabled(svc, x) && F.Separated(svc, x) && F.Orderly(svc, x)
    ensures F.Serialized(F.Apply(svc, x), f)
  {
    F.StepKeepsUnmixed(svc, x);
    F.StepKeepsSerialized(svc, x, f);
  }

  lemma OtherStepKeepsSerial(s: Sys, a: Action, f: F.Files)
    requires F.Serialized(s.svc, f) && Enabled(s, a) && SafeStep(s, a) && !a.Pop?
    ensures F.Serialized(Apply(s, a).svc, f)
  {
    match a {
      case Exec(_, x) => SvcStepKeepsSerial(s.svc, x, f);
      case FindSession(w) => SvcStepKeepsSerial(s.svc, F.Finish(w), f);
      case _ =>
    }
  }

  lemma StepKeepsSerial(s: Sys, a: Action, f: F.Files)
    requires FlowOk(s) && F.Serialized(s.svc, f) && Enabled(s, a) && SafeStep(s, a)
    ensures F.Serialized(Apply(s, a).svc, f)
  {
    if a.Pop? {
      PopEffect(s, a.w);
      SvcStepKeepsSerial(s.svc, F.Begin(a.w, Contents(s.ring)[0].op), f);
    } else {
      OtherStepKeepsSerial(s, a, f);
    }
  }

  lemma {:induction false} RunKeepsSerial(s: Sys, acts: seq<Action>, f: F.Files)
    requires Sound(s) && F.Serialized(s.svc, f) && Valid(s, acts) && ClearRun(s, acts) && SafeRun(s, acts)
    ensures F.Serialized(Final(s, acts).svc, f)
    decreases |acts|
  {
    if acts != [] {
      StepKeepsSound(s, acts[0]);
      StepKeepsSerial(s, acts[0], f);
      RunKeepsSerial(Apply(s, acts[0]), acts[1..], f);
    }
  }

  // ---------------------------------------------------------------- linearizability

  /** Entry `k` of the log is the effect of the request answered by `d`. */
  predicate EffectAt(s: Sys, k: nat, d: Delivery)
  {
    && d.req < |s.requests| && k < |s.served| && k < |s.svc.log|
    && s.served[k] == d.req && s.svc.log[k] == F.Event(s.requests[d.req].op, d.res)
  }

  lemma AnswerHasEffect(s: Sys, d: Delivery) returns (k: nat)
    requires LogOk(s) && d in s.delivered && Informative(d.res)
    ensures EffectAt(s, k, d)
    ensures forall l :: 0 <= l < |s.served| && s.served[l] == d.req ==> l == k
  {
    k :| EntryAt(s.served, s.svc.log, k, d.req, d.res);
  }

  /** A stretch of a run: it starts after `a` and ends after `b` more actions. */
  ghost predicate Stretch(cfg: Config, a: seq<Action>, b: seq<Action>)
    requires Usable(cfg)
  {
    RunFrom(cfg, a) && Valid(After(cfg, a), b) && ClearRun(After(cfg, a), b)
  }

  lemma StretchKeepsLog(cfg: Config, a: seq<Action>, b: seq<Action>)
    requires Usable(cfg) && Stretch(cfg, a, b)
    ensures LogOk(After(cfg, a)) && LogOk(Final(After(cfg, a), b))
    ensures Extends(After(cfg, a), Final(After(cfg, a), b))
    ensures Sound(After(cfg, a)) && Sound(Final(After(cfg, a), b))
  {
    StartIsSound(cfg);
    StartLogOk(cfg);
    RunKeepsSound(Start(cfg), a);
    RunKeepsLog(Start(cfg), a);
    RunKeepsSound(After(cfg, a), b);
    RunKeepsLog(After(cfg, a), b);
  }

  /** Each answer about a file has exactly one entry in the log, with the operation of its
      request and the very outcome that was delivered. */
  lemma EveryAnswerHasItsEffect(cfg: Config, acts: seq<Action>, i: nat) returns (k: nat)
    requires Usable(cfg) && RunFrom(cfg, acts)
    requires i < |After(cfg, acts).delivered| && Informative(After(cfg, acts).delivered[i].res)
    ensures EffectAt(After(cfg, acts), k, After(cfg, acts).delivered[i])
    ensures forall l :: 0 <= l < |After(cfg, acts).served| ==>
              (After(cfg, acts).served[l] == After(cfg, acts).delivered[i].req <==> l == k)
  {
    StretchKeepsLog(cfg, acts, []);
    k := AnswerHasEffect(After(cfg, acts), After(cfg, acts).delivered[i]);
  }

  /** Whatever is answered, if anything was logged for the request it is that very outcome: a failure
      is never answered for an operation that was logged as done, nor the other way round. */
  lemma AnswerIsTheLoggedOne(cfg: Config, acts: seq<Action>, i: nat, k: nat)
    requires Usable(cfg) && RunFrom(cfg, acts)
    requires i < |After(cfg, acts).delivered| && k < |After(cfg, acts).served|
    requires After(cfg, acts).served[k] == After(cfg, acts).delivered[i].req
    ensures k < |After(cfg, acts).svc.log| && After(cfg, acts).svc.log[k].res == After(cfg, acts).delivered[i].res
  {
    StretchKeepsLog(cfg, acts, []);
    var s := After(cfg, acts);
    var d := s.delivered[i];
    assert Faithful(s.served, s.svc.log, d.req, d.res);
    var l: nat :| EntryAt(s.served, s.svc.log, l, d.req, d.res);
    assert l == k;
  }

  /** Real-time order: what was answered before a request was pushed took effect before it. */
  lemma EffectsFollowRealTime(cfg: Config, a: seq<Action>, b: seq<Action>, d: Delivery, k: nat, d': Delivery, k': nat)
    requires Usable(cfg) && Stretch(cfg, a, b)
    requires d in After(cfg, a).delivered && Informative(d.res)
    requires d'.req >= |After(cfg, a).requests|
    requires EffectAt(Final(After(cfg, a), b), k, d) && EffectAt(Final(After(cfg, a), b), k', d')
    ensures k < |After(cfg, a).svc.log| <= k'
  {
    StretchKeepsLog(cfg, a, b);
    var s, s' := After(cfg, a), Final(After(cfg, a), b);
    var l := AnswerHasEffect(s, d);
    assert s'.served[l] == d.req;
    forall m | 0 <= m < |s.served| ensures s'.served[m] < |s.requests| {
      assert s'.served[m] == s.served[m];
    }
  }

  lemma StretchIsSerial(cfg: Config, a: seq<Action>, b: seq<Action>)
    requires Usable(cfg) && Stretch(cfg, a, b)
    requires SafeRun(Start(cfg), a) && SafeRun(After(cfg, a), b)
    ensures F.Serial(cfg.disk, Final(After(cfg, a), b).svc.log)
  {
    StartIsSound(cfg);
    F.InitIsSerialized(cfg.locks, cfg.workers, cfg.disk, cfg.rows);
    RunKeepsSound(Start(cfg), a);
    RunKeepsSerial(Start(cfg), a, cfg.disk);
    RunKeepsSerial(After(cfg, a), b, cfg.disk);
  }

  /** An upload was acknowledged before a download of the same file was requested, perhaps under
      another name. */
  ghost predicate UploadThenDownload(cfg: Config, a: seq<Action>, b: seq<Action>, up: Delivery, down: Delivery,
                                     p: D.Place)
    requires Usable(cfg) && Stretch(cfg, a, b)
  {
    var s, s' := After(cfg, a), Final(After(cfg, a), b);
    && up in s.delivered && up.res.Stored? && down in s'.delivered && down.req >= |s.requests|
    && up.req < |s'.requests| && s'.requests[up.req].op.Upload? && D.FileOf(s'.requests[up.req].op.path) == p
    && down.req < |s'.requests| && s'.requests[down.req].op.Download? && D.FileOf(s'.requests[down.req].op.path) == p
  }

  /** What a client sees: the download returns the bytes of that upload or of one that took effect
      after it and before the download, never older or partial contents; and it answers that
      there is no such file only if a delete, or an upload that failed while writing, took
      effect in between. */
  lemma DownloadSeesAcknowledgedUpload(cfg: Config, a: seq<Action>, b: seq<Action>, up: Delivery, down: Delivery,
                                       p: D.Place)
    returns (k: nat, w: nat, r: nat)
    requires Usable(cfg) && Stretch(cfg, a, b) && UploadThenDownload(cfg, a, b, up, down, p)
    requires SafeRun(Start(cfg), a) && SafeRun(After(cfg, a), b)
    requires down.res.Fetched? || down.res.NotFound?
    ensures var s := Final(After(cfg, a), b);
            && EffectAt(s, k, up) && EffectAt(s, r, down) && k <= w < r < |s.svc.log|
            && (down.res.Fetched? ==> R.Stores(s.svc.log[w], p, down.res.bytes))
            && (down.res.NotFound? ==> k < w && TakesAway(s.svc.log[w], p))
            && R.LastWrite(s.svc.log[..r], p) == Some(w)
  {
    StretchKeepsLog(cfg, a, b);
    StretchIsSerial(cfg, a, b);
    var s := Final(After(cfg, a), b);
    k := AnswerHasEffect(s, up);
    r := AnswerHasEffect(s, down);
    EffectsFollowRealTime(cfg, a, b, up, k, down, r);
    w := LastWriteBefore(cfg.disk, s.svc.log, k, r, p);
  }

  /** The entry leaves no file at `p`. */
  predicate TakesAway(e: F.Event, p: D.Place)
  {
    || (e.op.Delete? && D.FileOf(e.op.path) == p && e.res.Erased?)
    || (e.op.Upload? && D.FileOf(e.op.path) == p && e.res.Spoiled?)
  }

  /** In a serial log, a download after an upload answers as the last change before it demands. */
  lemma LastWriteBefore(f: F.Files, log: seq<F.Event>, k: nat, r: nat, p: D.Place) returns (w: nat)
    requires F.Serial(f, log) && k < r < |log|
    requires log[k].op.Upload? && D.FileOf(log[k].op.path) == p && log[k].res.Stored?
    requires log[r].op.Download? && D.FileOf(log[r].op.path) == p && (log[r].res.Fetched? || log[r].res.NotFound?)
    ensures k <= w < r && R.LastWrite(log[..r], p) == Some(w)
    ensures log[r].res.Fetched? ==> R.Stores(log[w], p, log[r].res.bytes)
    ensures log[r].res.NotFound? ==> k < w && TakesAway(log[w], p)
  {
    R.SerialAt(f, log, r);
    R.ReplayIsLastWrite(f, log[..r], p);
    assert R.Writes(log[..r][k], p);
    w := R.LastWrite(log[..r], p).value;
    assert R.Writes(log[..r][w], p);
  }
}
