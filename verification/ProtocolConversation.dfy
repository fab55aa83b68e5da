/**
 The order of a client thread's steps over a whole run (src/threads/client_thread.c): what each
 step may be followed by; and what a shutdown brings about.
 */
module ProtocolConversation {
  import opened Prelude
  import opened BoundedQueue
  import opened Protocol
  import opened ProtocolFlow
  import opened ProtocolResults
  import opened ProtocolProgress
  import opened ProtocolRequests
  import F = FileService

  // ---------------------------------------------------------------- one step after the other

  predicate MoveOf(a: Action, c: nat)
  {
    ClientAction(a) && a.c == c
  }

  /** The last step of client `c`. */
  function LastMove(acts: seq<Action>, c: nat): (i: Option<nat>)
    ensures i.Some? ==> i.value < |acts| && MoveOf(acts[i.value], c)
    ensures forall k :: (if i.Some? then i.value < k else 0 <= k) && k < |acts| ==> !MoveOf(acts[k], c)
  {
    if acts == [] then None
    else if MoveOf(acts[|acts| - 1], c) then Some(|acts| - 1)
    else LastMove(acts[..|acts| - 1], c)
  }

  /** A client that is served gives a command or leaves. */
  predicate NextCommand(b: Action)
  {
    b.StartUpload? || b.Command? || b.Quit?
  }

  /** What a client does after step `a`; `refused` tells a push that met a shutdown. */
  predicate MayFollow(a: Action, refused: bool, b: Action)
  {
    match a
    case Connect(_, _, _) => NextCommand(b) || b.Connect? || b.ClientExit?
    case StartUpload(_, _, _) => b.UploadArrives? || b.UploadBreaks?
    case UploadArrives(_, _) => b.Reset?
    case UploadBreaks(_) => NextCommand(b)
    case Command(_, _) => b.Reset?
    case Reset(_) => b.Push?
    case Push(_) => if refused then NextCommand(b) else b.Wake?
    case Wake(_) => b.Send?
    case Send(_, ok) => if ok then NextCommand(b) else b.Mark?
    case Quit(_) => b.Mark?
    case Mark(_) => b.Destroy?
    case Destroy(_) => b.Connect? || b.ClientExit?
    case _ => false
  }

  /** Where a client stands after its step `a`. */
  predicate Stands(a: Action, refused: bool, cl: Client)
  {
    match a
    case Connect(_, _, _) => cl.Serving? || cl.Accepting?
    case StartUpload(_, _, _) => cl.Receiving?
    case UploadArrives(_, _) => cl.Ready?
    case UploadBreaks(_) => cl.Serving?
    case Command(_, _) => cl.Ready?
    case Reset(_) => cl.Cleared?
    case Push(_) => if refused then cl.Serving? else cl.Waiting?
    case Wake(_) => cl.Answered?
    case Send(_, ok) => if ok then cl.Serving? else cl.Leaving?
    case Quit(_) => cl.Leaving?
    case Mark(_) => cl.Marked?
    case Destroy(_) => cl.Accepting?
    case _ => cl.Exited?
  }

  /** The push of step `i` met a shutdown. */
  predicate Refused(cfg: Config, acts: seq<Action>, i: nat)
    requires Usable(cfg) && i <= |acts| && Valid(Start(cfg), acts[..i])
  {
    After(cfg, acts[..i]).ring.shutdown
  }

  lemma {:induction false} PrefixIsValid(s: Sys, acts: seq<Action>, n: nat)
    requires Valid(s, acts) && n <= |acts|
    ensures Valid(s, acts[..n]) && (n < |acts| ==> Enabled(Final(s, acts[..n]), acts[n]))
    decreases |acts|
  {
    if n > 0 {
      PrefixIsValid(Apply(s, acts[0]), acts[1..], n - 1);
      assert acts[1..][..n - 1] == acts[..n][1..];
    }
  }

  ghost predicate AllStand(cfg: Config, acts: seq<Action>)
    requires Usable(cfg) && Valid(Start(cfg), acts)
  {
    var s := After(cfg, acts);
    forall c: nat :: c < |s.clients| ==> ClientStands(cfg, acts, s.clients[c], c)
  }

  ghost predicate ClientStands(cfg: Config, acts: seq<Action>, cl: Client, c: nat)
    requires Usable(cfg) && Valid(Start(cfg), acts)
  {
    match LastMove(acts, c)
    case None => cl.Accepting?
    case Some(i) => Valid(Start(cfg), acts[..i]) && Stands(acts[i], Refused(cfg, acts, i), cl)
  }

  lemma ActorStands(s: Sys, a: Action)
    requires Enabled(s, a) && ClientAction(a)
    ensures |ApplyClient(s, a).clients| == |s.clients|
    ensures Stands(a, s.ring.shutdown, ApplyClient(s, a).clients[a.c])
  {
  }

  lemma {:induction false} RunStands(cfg: Config, acts: seq<Action>)
    requires Usable(cfg) && Valid(Start(cfg), acts)
    ensures AllStand(cfg, acts)
    decreases |acts|
  {
    if acts != [] {
      var n := |acts| - 1;
      var front, a := acts[..n], acts[n];
      LastStep(Start(cfg), acts);
      RunStands(cfg, front);
      var s, s' := After(cfg, front), After(cfg, acts);
      OnlyActorMoves(s, a);
      forall c: nat | c < |s'.clients| ensures ClientStands(cfg, acts, s'.clients[c], c) {
        if MoveOf(a, c) {
          ActorStands(s, a);
        } else {
          assert ClientStands(cfg, front, s.clients[c], c);
          var i := LastMove(front, c);
          if i.Some? {
            assert front[..i.value] == acts[..i.value];
          }
        }
      }
    }
  }

  /** Two steps of one client with none of it in between. */
  predicate Consecutive(acts: seq<Action>, c: nat, i: nat, j: nat)
  {
    i < j < |acts| && MoveOf(acts[i], c) && MoveOf(acts[j], c) && forall k :: i < k < j ==> !MoveOf(acts[k], c)
  }

  lemma StandingDecides(s: Sys, a: Action, refused: bool, b: Action)
    requires ClientAction(a) && ClientAction(b) && Enabled(s, b) && Stands(a, refused, s.clients[b.c])
    ensures MayFollow(a, refused, b)
  {
  }

  /** In every run a client thread goes through its loop in the order of the source, and branches
      where the source does: on a refused push, and on a failed send. */
  lemma ClientKeepsOrder(cfg: Config, acts: seq<Action>, c: nat, i: nat, j: nat)
    requires Usable(cfg) && Valid(Start(cfg), acts) && Consecutive(acts, c, i, j)
    ensures Valid(Start(cfg), acts[..i]) && MayFollow(acts[i], Refused(cfg, acts, i), acts[j])
  {
    PrefixIsValid(Start(cfg), acts, i);
    PrefixIsValid(Start(cfg), acts, j);
    var front := acts[..j];
    RunStands(cfg, front);
    assert LastMove(front, c) == Some(i);
    assert front[..i] == acts[..i];
    var s := After(cfg, front);
    assert ClientStands(cfg, front, s.clients[c], c);
    StandingDecides(s, acts[i], Refused(cfg, acts, i), acts[j]);
  }

  /** Whatever the peer sends and whichever call fails, no branch of the loop is closed to a client
      that has come to it; only the push may have to wait for room, and the wait for its answer. */
  lemma BranchesAreOpen(s: Sys, c: nat, b: Action)
    requires WellFormed(s.ring) && |s.mgr.slots| > 0 && c < |s.clients| && MoveOf(b, c)
    requires b.UploadArrives? && s.clients[c].Receiving? ==> |b.data| == s.clients[c].size
    requires b.Command? ==> !b.op.Upload?
    ensures Enabled(s, b) <==>
            match s.clients[c]
            case Accepting => b.Connect? || b.ClientExit?
            case Serving(_) => NextCommand(b)
            case Receiving(_, _, _, _) => b.UploadArrives? || b.UploadBreaks?
            case Ready(_, _, _) => b.Reset?
            case Cleared(_, _, _) => b.Push? && (s.ring.shutdown || s.ring.size < |s.ring.cells|)
            case Waiting(sid, _) => b.Wake? && sid in s.responses && s.responses[sid].ready
            case Answered(_, _) => b.Send?
            case Leaving(_) => b.Mark?
            case Marked(_) => b.Destroy?
            case Exited => false
  {
  }

  /** The same for a worker: it takes a task when there is one, else it leaves if the queue is shut
      down; any step of the task may come, failing calls included, and the answer only at its end. */
  lemma WorkerBranchesAreOpen(s: Sys, b: Action)
    requires FlowOk(s) && WorkerAction(b) && b.w < |s.workers|
    ensures Enabled(s, b) <==>
            match s.workers[b.w]
            case Popping => if s.ring.size > 0 then b.Pop? else b.WorkerExit? && s.ring.shutdown
            case Running(_, _) => if s.svc.jobs[b.w].Done? then b.FindSession?
                                  else b.Exec? && b.a.t == b.w && F.Enabled(s.svc, b.a)
            case Delivering(_, _, _, _) => b.Respond?
            case Freeing(_) => b.FreeUpload?
            case Stopped => false
  {
    assert WorkerOk(s, b.w) && F.Matches(s.svc.jobs[b.w], s.svc.locks.phases[b.w]);
    assert s.mgr.slots != [] by {
      assert TableOk(s.mgr, s.ids);
    }
  }

  // ---------------------------------------------------------------- shutdown

  /** The queue is shut down exactly when somebody asked for it. */
  lemma {:induction false} ShutdownIff(s: Sys, acts: seq<Action>)
    requires Valid(s, acts)
    ensures Final(s, acts).ring.shutdown <==> s.ring.shutdown || exists k :: 0 <= k < |acts| && acts[k].Shutdown?
    decreases |acts|
  {
    if acts != [] {
      ShutdownStep(s, acts[0]);
      ShutdownIff(Apply(s, acts[0]), acts[1..]);
      var s1 := Apply(s, acts[0]);
      if exists k :: 0 <= k < |acts| && acts[k].Shutdown? {
        var k :| 0 <= k < |acts| && acts[k].Shutdown?;
        assert k > 0 ==> acts[1..][k - 1].Shutdown?;
      }
      if exists k :: 0 <= k < |acts[1..]| && acts[1..][k].Shutdown? {
        var k :| 0 <= k < |acts[1..]| && acts[1..][k].Shutdown?;
        assert acts[k + 1].Shutdown?;
      }
    }
  }

  lemma ShutdownStep(s: Sys, a: Action)
    requires Enabled(s, a)
    ensures Apply(s, a).ring.shutdown <==> s.ring.shutdown || a.Shutdown?
    ensures s.ring.shutdown ==> Apply(s, a).requests == s.requests
  {
  }

  /** From then on no request is accepted. */
  lemma {:induction false} NothingAcceptedLater(s: Sys, acts: seq<Action>)
    requires Valid(s, acts) && s.ring.shutdown
    ensures Final(s, acts).requests == s.requests
    decreases |acts|
  {
    if acts != [] {
      ShutdownStep(s, acts[0]);
      NothingAcceptedLater(Apply(s, acts[0]), acts[1..]);
    }
  }

  /** Workers that still have not left. */
  function Staying(workers: seq<Worker>): nat
  {
    if workers == [] then 0
    else Staying(workers[..|workers| - 1]) + (if workers[|workers| - 1].Stopped? then 0 else 1)
  }

  lemma {:induction false} OneLess(workers: seq<Worker>, w: nat)
    requires w < |workers| && !workers[w].Stopped?
    ensures Staying(workers[w := Stopped]) == Staying(workers) - 1
  {
    var n := |workers| - 1;
    if w == n {
      assert workers[w := Stopped][..n] == workers[..n];
    } else {
      assert workers[w := Stopped][..n] == workers[..n][w := Stopped];
      OneLess(workers[..n], w);
    }
  }

  ghost predicate AllStopped(s: Sys)
  {
    forall w :: 0 <= w < |s.workers| ==> s.workers[w].Stopped?
  }

  lemma LeavingKeepsIdle(s: Sys, w: nat)
    requires NobodyHasWork(s) && Enabled(s, WorkerExit(w))
    ensures NobodyHasWork(Apply(s, WorkerExit(w))) && Apply(s, WorkerExit(w)).delivered == s.delivered
    ensures Apply(s, WorkerExit(w)).workers == s.workers[w := Stopped]
    ensures Apply(s, WorkerExit(w)).ring == s.ring
  {
    var s' := Apply(s, WorkerExit(w));
    forall u | 0 <= u < |s'.workers| ensures !HasWork(s', u) {
      assert !HasWork(s, u);
    }
  }

  /** With nothing left to do and the queue shut down, the workers leave. */
  lemma {:induction false} WorkersLeave(s: Sys) returns (acts: seq<Action>)
    requires Sound(s) && NobodyHasWork(s) && s.ring.shutdown
    ensures Valid(s, acts) && OrdinaryRun(s, acts) && AllStopped(Final(s, acts))
    ensures Final(s, acts).requests == s.requests && Final(s, acts).delivered == s.delivered
    decreases Staying(s.workers)
  {
    if w :| 0 <= w < |s.workers| && !s.workers[w].Stopped? {
      assert !HasWork(s, w);
      var a := WorkerExit(w);
      StepAdvances(s, a);
      OneLess(s.workers, w);
      var s1 := Apply(s, a);
      LeavingKeepsIdle(s, w);
      var rest := WorkersLeave(s1);
      StepThen(s, a, rest);
      acts := [a] + rest;
    } else {
      acts := [];
    }
  }

  lemma SameAnswers(s: Sys, s': Sys)
    requires s'.delivered == s.delivered && forall req: nat :: req < |s.requests| ==> Delivered(s, req)
    ensures forall req: nat :: req < |s.requests| ==> Delivered(s', req)
  {
    forall req: nat | req < |s.requests| ensures Delivered(s', req) {
      assert Delivered(s, req);
    }
  }

  /** One stretch of ordinary worker steps after the other. */
  ghost predicate TwoStretches(s: Sys, a: seq<Action>, b: seq<Action>)
  {
    Valid(s, a) && OrdinaryRun(s, a) && Valid(Final(s, a), b) && OrdinaryRun(Final(s, a), b)
  }

  lemma WindsDown(s: Sys) returns (finish: seq<Action>, leave: seq<Action>)
    requires Sound(s) && s.ring.shutdown && |s.workers| > 0
    ensures TwoStretches(s, finish, leave) && AllStopped(Final(Final(s, finish), leave))
    ensures Final(Final(s, finish), leave).requests == s.requests
    ensures forall req: nat :: req < |s.requests| ==> Delivered(Final(Final(s, finish), leave), req)
  {
    finish := WorkersFinish(s);
    ShutdownIff(s, finish);
    var s1 := Final(s, finish);
    IdleMeansAnswered(s1);
    leave := WorkersLeave(s1);
    SameAnswers(s1, Final(s1, leave));
  }

  /** Once a shutdown was asked for, ordinary worker steps answer everything that was accepted, and
      then all workers leave. */
  lemma ServerWindsDown(cfg: Config, acts: seq<Action>, k: nat) returns (finish: seq<Action>, leave: seq<Action>)
    requires Usable(cfg) && cfg.workers > 0 && RunFrom(cfg, acts) && k < |acts| && acts[k].Shutdown?
    ensures TwoStretches(After(cfg, acts), finish, leave)
    ensures var s, s' := After(cfg, acts), Final(Final(After(cfg, acts), finish), leave);
            && AllStopped(s') && s'.requests == s.requests
            && forall req: nat :: req < |s.requests| ==> Delivered(s', req)
  {
    AfterIsSound(cfg, acts);
    RunKeepsSizes(Start(cfg), acts);
    ShutdownIff(Start(cfg), acts);
    finish, leave := WindsDown(After(cfg, acts));
  }
}
