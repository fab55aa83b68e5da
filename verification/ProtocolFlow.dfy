/**
 Every accepted request is answered at most once, on the session that issued it, and never
 lost: the invariant that ties queue, workers, responses and waiting clients together.
 */
module ProtocolFlow {
  import opened Prelude
  import opened BoundedQueue
  import opened Protocol
  import S = SessionTable
  import F = FileService

  /** The places where an unanswered task can be. */
  datatype Spot = AtQueue(i: nat) | AtWorker(w: nat)

  function TaskAt(queue: seq<Task>, workers: seq<Worker>, spot: Spot): Option<Task>
  {
    match spot
    case AtQueue(i) => if i < |queue| then Some(queue[i]) else None
    case AtWorker(w) =>
      if w < |workers| && (workers[w].Running? || workers[w].Delivering?) then Some(workers[w].task) else None
  }

  function Here(s: Sys, spot: Spot): Option<Task>
    requires WellFormed(s.ring)
  {
    TaskAt(Contents(s.ring), s.workers, spot)
  }

  /** A task belongs to a client that waits for it on a cleared response. */
  predicate TaskOk(s: Sys, k: Task)
  {
    && k.req < |s.requests|
    && s.requests[k.req].sid == k.sid && s.requests[k.req].op == k.op
    && s.requests[k.req].client < |s.clients|
    && s.clients[s.requests[k.req].client] == Waiting(k.sid, k.req)
    && k.sid in s.responses && !s.responses[k.sid].ready
  }

  ghost predicate TasksOk(s: Sys)
    requires WellFormed(s.ring)
  {
    && (forall spot :: Here(s, spot).Some? ==> TaskOk(s, Here(s, spot).value))
    && (forall spot, spot' ::
          (Here(s, spot).Some? && Here(s, spot').Some? &&
           Here(s, spot).value.req == Here(s, spot').value.req) ==> spot == spot')
  }

  /** The response of session `sid` is the one delivered for `req`. */
  predicate AnswerIs(s: Sys, sid: nat, req: nat)
  {
    && sid in s.responses && s.responses[sid].ready && s.responses[sid].req == req
    && Delivery(req, sid, s.responses[sid].res) in s.delivered
  }

  ghost predicate Outstanding(s: Sys, req: nat)
    requires WellFormed(s.ring)
  {
    exists spot :: Here(s, spot).Some? && Here(s, spot).value.req == req
  }

  ghost predicate ClientOk(s: Sys, c: nat)
    requires c < |s.clients| && WellFormed(s.ring)
  {
    match s.clients[c]
    case Waiting(sid, req) =>
      && req < |s.requests| && s.requests[req].client == c && s.requests[req].sid == sid
      && sid in s.responses
      && (if s.responses[sid].ready then AnswerIs(s, sid, req) else Outstanding(s, req))
    case Answered(sid, req) =>
      && req < |s.requests| && s.requests[req].client == c && s.requests[req].sid == sid
      && AnswerIs(s, sid, req)
    case Cleared(sid, _, _) => sid in s.responses && !s.responses[sid].ready
    case _ => true
  }

  ghost predicate DeliveredOk(s: Sys)
    requires WellFormed(s.ring)
  {
    && (forall i, j :: 0 <= i < j < |s.delivered| ==> s.delivered[i].req != s.delivered[j].req)
    && (forall i :: 0 <= i < |s.delivered| ==>
          s.delivered[i].req < |s.requests| && s.requests[s.delivered[i].req].sid == s.delivered[i].sid &&
          !Outstanding(s, s.delivered[i].req))
    && s.dropped == []
  }

  ghost predicate Delivered(s: Sys, req: nat)
  {
    exists i :: 0 <= i < |s.delivered| && s.delivered[i].req == req
  }

  /** No accepted request is lost. */
  ghost predicate Counted(s: Sys)
    requires WellFormed(s.ring)
  {
    forall req: nat :: req < |s.requests| ==> Delivered(s, req) || Outstanding(s, req)
  }

  ghost predicate WorkerOk(s: Sys, w: nat)
    requires w < |s.workers| == |s.svc.jobs|
  {
    match s.workers[w]
    case Running(k, _) => !s.svc.jobs[w].NoJob? && s.svc.jobs[w].op == k.op
    case Delivering(_, _, _, found) => s.svc.jobs[w].NoJob? && found
    case Stopped => s.svc.jobs[w].NoJob? && s.ring.shutdown && s.ring.size == 0
    case _ => s.svc.jobs[w].NoJob?
  }

  /** A response that is not ready holds no payload. */
  ghost predicate ResponsesClean(s: Sys)
  {
    forall sid :: sid in s.responses && !s.responses[sid].ready ==> s.responses[sid].data.None?
  }

  ghost predicate FlowOk(s: Sys)
  {
    && WellFormed(s.ring)
    && SessionsOk(s)
    && F.Wired(s.svc) && |s.workers| == |s.svc.jobs|
    && TasksOk(s)
    && (forall c :: 0 <= c < |s.clients| ==> ClientOk(s, c))
    && DeliveredOk(s)
    && Counted(s)
    && (forall w :: 0 <= w < |s.workers| ==> WorkerOk(s, w))
    && ResponsesClean(s)
  }

  // ---------------------------------------------------------------- frames

  predicate Pending(cl: Client)
  {
    cl.Waiting? || cl.Answered? || cl.Cleared?
  }

  /** Everything the flow of requests depends on is unchanged. */
  ghost predicate SameFlow(s: Sys, s': Sys)
    requires WellFormed(s.ring) && WellFormed(s'.ring)
  {
    && s'.requests == s.requests && s'.delivered == s.delivered && s'.dropped == s.dropped
    && (forall spot :: Here(s', spot) == Here(s, spot))
    && |s'.clients| == |s.clients|
    && (forall c :: 0 <= c < |s.clients| && (Pending(s.clients[c]) || Pending(s'.clients[c])) ==>
          s'.clients[c] == s.clients[c])
    && (forall c :: 0 <= c < |s.clients| && Pending(s.clients[c]) ==>
          s.clients[c].sid in s.responses ==>
            s.clients[c].sid in s'.responses && s'.responses[s.clients[c].sid] == s.responses[s.clients[c].sid])
  }

  lemma FrameOutstanding(s: Sys, s': Sys)
    requires WellFormed(s.ring) && WellFormed(s'.ring) && SameFlow(s, s')
    ensures forall req :: Outstanding(s, req) <==> Outstanding(s', req)
  {
    forall req ensures Outstanding(s, req) <==> Outstanding(s', req) {
      if Outstanding(s, req) {
        var spot :| Here(s, spot).Some? && Here(s, spot).value.req == req;
        assert Here(s', spot) == Here(s, spot);
      }
      if Outstanding(s', req) {
        var spot :| Here(s', spot).Some? && Here(s', spot).value.req == req;
        assert Here(s', spot) == Here(s, spot);
      }
    }
  }

  lemma FrameFlow(s: Sys, s': Sys)
    requires FlowOk(s) && WellFormed(s'.ring) && SameFlow(s, s')
    requires SessionsOk(s') && F.Wired(s'.svc) && |s'.workers| == |s'.svc.jobs|
    requires forall w :: 0 <= w < |s'.workers| ==> WorkerOk(s', w)
    requires ResponsesClean(s')
    ensures FlowOk(s')
  {
    FrameOutstanding(s, s');
    forall c | 0 <= c < |s'.clients| ensures ClientOk(s', c) {
      assert ClientOk(s, c);
    }
    forall req: nat | req < |s'.requests| ensures Delivered(s', req) || Outstanding(s', req) {
      assert Delivered(s, req) || Outstanding(s, req);
      if Delivered(s, req) {
        var i :| 0 <= i < |s.delivered| && s.delivered[i].req == req;
        assert s'.delivered[i].req == req;
      }
    }
  }

  /** Two clients never share a session. */
  lemma SessionsDiffer(s: Sys, c: nat, d: nat)
    requires SessionsOk(s) && c < |s.clients| && d < |s.clients| && c != d
    requires SidOf(s.clients[c]).Some? && SidOf(s.clients[d]).Some?
    ensures s.clients[c].sid != s.clients[d].sid
  {
    assert ClientSession(s, c) && ClientSession(s, d);
  }

  // ---------------------------------------------------------------- client steps

  /** Only the response of session `own` may change. */
  ghost predicate OthersKeepResponses(r: map<nat, Response>, r': map<nat, Response>, own: Option<nat>)
  {
    forall sid :: sid in r && Some(sid) != own ==> sid in r' && r'[sid] == r[sid]
  }

  /** Steps of a client that neither issues a request nor consumes a response. */
  lemma QuietClientKeepsFlow(s: Sys, s': Sys, c: nat)
    requires FlowOk(s) && SessionsOk(s') && c < |s.clients|
    requires |s'.clients| == |s.clients| && s'.clients == s.clients[c := s'.clients[c]]
    requires !Pending(s.clients[c]) && !Pending(s'.clients[c])
    requires s'.ring == s.ring && s'.workers == s.workers && s'.svc == s.svc
    requires s'.requests == s.requests && s'.delivered == s.delivered && s'.dropped == s.dropped
    requires OthersKeepResponses(s.responses, s'.responses, SidOf(s.clients[c])) && ResponsesClean(s')
    ensures FlowOk(s')
  {
    forall d | 0 <= d < |s.clients| && Pending(s.clients[d])
      ensures s.clients[d].sid in s'.responses && s'.responses[s.clients[d].sid] == s.responses[s.clients[d].sid]
    {
      assert ClientSession(s, d);
      if SidOf(s.clients[c]).Some? {
        SessionsDiffer(s, c, d);
      }
    }
    forall w | 0 <= w < |s'.workers| ensures WorkerOk(s', w) {
      assert WorkerOk(s, w);
    }
    FrameFlow(s, s');
  }

  /** The same when no response changes at all. */
  lemma SilentClientKeepsFlow(s: Sys, s': Sys, c: nat)
    requires FlowOk(s) && SessionsOk(s') && c < |s.clients|
    requires |s'.clients| == |s.clients| && s'.clients == s.clients[c := s'.clients[c]]
    requires !Pending(s.clients[c]) && !Pending(s'.clients[c])
    requires s'.ring == s.ring && s'.workers == s.workers && s'.svc == s.svc && s'.responses == s.responses
    requires s'.requests == s.requests && s'.delivered == s.delivered && s'.dropped == s.dropped
    ensures FlowOk(s')
  {
    assert OthersKeepResponses(s.responses, s'.responses, SidOf(s.clients[c]));
    QuietClientKeepsFlow(s, s', c);
  }

  /** A new session with an empty response disturbs nobody. */
  lemma NewSessionKeepsFlow(s: Sys, s': Sys, c: nat, id: nat)
    requires FlowOk(s) && SessionsOk(s') && c < |s.clients| && s.clients[c].Accepting? && id !in s.responses
    requires s'.clients == s.clients || s'.clients == s.clients[c := Serving(id)]
    requires s'.responses == s.responses || s'.responses == s.responses[id := Response(c, false, 0, BLANK, None)]
    requires s'.ring == s.ring && s'.workers == s.workers && s'.svc == s.svc
    requires s'.requests == s.requests && s'.delivered == s.delivered && s'.dropped == s.dropped
    ensures FlowOk(s')
  {
    assert s'.clients == s.clients[c := s'.clients[c]];
    if s'.responses == s.responses {
      SilentClientKeepsFlow(s, s', c);
    } else {
      BlankIsClean(s, s', c, id);
      QuietClientKeepsFlow(s, s', c);
    }
  }

  lemma BlankIsClean(s: Sys, s': Sys, c: nat, id: nat)
    requires ResponsesClean(s) && s'.responses == s.responses[id := Response(c, false, 0, BLANK, None)]
    ensures ResponsesClean(s')
    ensures id !in s.responses ==> OthersKeepResponses(s.responses, s'.responses, None)
  {
  }

  lemma ConnectKeepsFlow(s: Sys, c: nat, fd: int, res: S.Resources)
    requires FlowOk(s) && Enabled(s, Connect(c, fd, res)) && ClearStep(s, Connect(c, fd, res))
    ensures FlowOk(ApplyConnect(s, c, fd, res))
  {
    ConnectKeepsSessions(s, c, fd, res);
    NewSessionKeepsFlow(s, ApplyConnect(s, c, fd, res), c, s.mgr.nextId);
  }

  lemma DestroyKeepsFlow(s: Sys, c: nat)
    requires FlowOk(s) && Enabled(s, Destroy(c)) && ClearStep(s, Destroy(c))
    ensures FlowOk(ApplyDestroy(s, c))
  {
    DestroyKeepsSessions(s, c);
    QuietClientKeepsFlow(s, ApplyDestroy(s, c), c);
  }

  lemma ResetKeepsFlow(s: Sys, c: nat)
    requires FlowOk(s) && Enabled(s, Reset(c))
    ensures FlowOk(ApplyReset(s, c))
  {
    assert ClientSession(s, c);
    var mid := ApplyReset(s, c).(clients := s.clients);
    BlankResponseKeepsFlow(s, mid, c);
    ClearedKeepsFlow(mid, c);
  }

  /** A client between requests blanks its own response. */
  lemma BlankResponseKeepsFlow(s: Sys, s': Sys, c: nat)
    requires FlowOk(s) && c < |s.clients| && s.clients[c].Ready? && s.clients[c].sid in s.responses
    requires s.responses[s.clients[c].sid].client == c
    requires s'.clients == s.clients && s'.mgr == s.mgr && s'.ids == s.ids
    requires s'.responses == s.responses[s.clients[c].sid := Response(c, false, 0, BLANK, None)]
    requires s'.ring == s.ring && s'.workers == s.workers && s'.svc == s.svc
    requires s'.requests == s.requests && s'.delivered == s.delivered && s'.dropped == s.dropped
    ensures FlowOk(s')
  {
    SessionsFrame(s, s');
    assert s'.clients == s.clients[c := s'.clients[c]];
    QuietClientKeepsFlow(s, s', c);
  }

  /** A client whose response was just reset becomes `Cleared`. */
  lemma ClearedKeepsFlow(s: Sys, c: nat)
    requires FlowOk(s) && c < |s.clients| && s.clients[c].Ready?
    requires s.clients[c].sid in s.responses && !s.responses[s.clients[c].sid].ready
    ensures FlowOk(s.(clients := s.clients[c := Cleared(s.clients[c].sid, s.clients[c].op, s.clients[c].buffer)]))
  {
    var s' := s.(clients := s.clients[c := Cleared(s.clients[c].sid, s.clients[c].op, s.clients[c].buffer)]);
    SessionsFrame(s, s');
    assert forall spot :: Here(s', spot) == Here(s, spot);
    OutstandingSame(s, s');
    forall d | 0 <= d < |s'.clients| ensures ClientOk(s', d) {
      assert ClientOk(s, d);
    }
    forall w | 0 <= w < |s'.workers| ensures WorkerOk(s', w) {
      assert WorkerOk(s, w);
    }
    CountedSame(s, s');
  }

  lemma OutstandingSame(s: Sys, s': Sys)
    requires WellFormed(s.ring) && WellFormed(s'.ring) && forall spot :: Here(s', spot) == Here(s, spot)
    ensures forall req :: Outstanding(s', req) <==> Outstanding(s, req)
  {
    forall req ensures Outstanding(s', req) <==> Outstanding(s, req) {
      if Outstanding(s, req) {
        var spot :| Here(s, spot).Some? && Here(s, spot).value.req == req;
        assert Here(s', spot).Some?;
      }
      if Outstanding(s', req) {
        var spot :| Here(s', spot).Some? && Here(s', spot).value.req == req;
        assert Here(s, spot).Some?;
      }
    }
  }

  lemma CountedSame(s: Sys, s': Sys)
    requires WellFormed(s.ring) && WellFormed(s'.ring) && Counted(s)
    requires s'.requests == s.requests && s'.delivered == s.delivered
    requires forall req :: Outstanding(s', req) <==> Outstanding(s, req)
    ensures Counted(s')
  {
    forall req: nat | req < |s'.requests| ensures Delivered(s', req) || Outstanding(s', req) {
      assert Delivered(s, req) || Outstanding(s, req);
      if Delivered(s, req) {
        var i :| 0 <= i < |s.delivered| && s.delivered[i].req == req;
        assert s'.delivered[i].req == req;
      }
    }
  }

  lemma RefusedPushKeepsFlow(s: Sys, c: nat)
    requires FlowOk(s) && Enabled(s, Push(c)) && s.ring.shutdown
    ensures FlowOk(ApplyPush(s, c))
  {
    var s' := ApplyPush(s, c);
    assert ClientSession(s, c);
    MoveKeepsSessions(s, s', c, Serving(s.clients[c].sid));
    PendingEnds(s, s', c);
  }

  /** A client leaves a pending state; no task is affected. */
  lemma PendingEnds(s: Sys, s': Sys, c: nat)
    requires FlowOk(s) && SessionsOk(s') && c < |s.clients|
    requires |s'.clients| == |s.clients| && s'.clients == s.clients[c := s'.clients[c]]
    requires !s.clients[c].Waiting?
    requires s'.clients[c].Serving? || s'.clients[c].Leaving?
    requires s'.ring == s.ring && s'.workers == s.workers && s'.svc == s.svc && s'.responses == s.responses
    requires s'.requests == s.requests && s'.delivered == s.delivered && s'.dropped == s.dropped
    ensures FlowOk(s')
  {
    assert forall spot :: Here(s', spot) == Here(s, spot);
    OutstandingSame(s, s');
    CountedSame(s, s');
    PendingEndsForTasks(s, s', c);
    forall d | 0 <= d < |s'.clients| ensures ClientOk(s', d) {
      assert ClientOk(s, d);
    }
    forall w | 0 <= w < |s'.workers| ensures WorkerOk(s', w) {
      assert WorkerOk(s, w);
    }
  }

  lemma PendingEndsForTasks(s: Sys, s': Sys, c: nat)
    requires WellFormed(s.ring) && TasksOk(s) && c < |s.clients| && !s.clients[c].Waiting?
    requires |s'.clients| == |s.clients| && s'.clients == s.clients[c := s'.clients[c]]
    requires s'.ring == s.ring && s'.workers == s.workers && s'.responses == s.responses && s'.requests == s.requests
    ensures TasksOk(s')
  {
    assert forall spot :: Here(s', spot) == Here(s, spot);
    forall spot | Here(s', spot).Some? ensures TaskOk(s', Here(s', spot).value) {
      assert TaskOk(s, Here(s, spot).value);
    }
  }

  /** No task is left for a client whose response is ready. */
  lemma WakeKeepsTasks(s: Sys, s': Sys, c: nat)
    requires WellFormed(s.ring) && TasksOk(s) && c < |s.clients| && s.clients[c].Waiting?
    requires s.clients[c].sid in s.responses && s.responses[s.clients[c].sid].ready
    requires s'.clients == s.clients[c := Answered(s.clients[c].sid, s.clients[c].req)]
    requires s'.ring == s.ring && s'.workers == s.workers
    requires s'.requests == s.requests && s'.responses == s.responses
    ensures TasksOk(s')
  {
    assert forall spot :: Here(s', spot) == Here(s, spot);
    forall spot | Here(s', spot).Some? ensures TaskOk(s', Here(s', spot).value) {
      assert TaskOk(s, Here(s, spot).value);
    }
  }

  lemma WakeKeepsClients(s: Sys, s': Sys, c: nat)
    requires WellFormed(s.ring) && c < |s.clients| && s.clients[c].Waiting?
    requires forall d :: 0 <= d < |s.clients| ==> ClientOk(s, d)
    requires s.clients[c].sid in s.responses && s.responses[s.clients[c].sid].ready
    requires s'.clients == s.clients[c := Answered(s.clients[c].sid, s.clients[c].req)]
    requires s'.ring == s.ring && s'.requests == s.requests && s'.responses == s.responses
    requires s'.delivered == s.delivered && forall req :: Outstanding(s', req) <==> Outstanding(s, req)
    ensures forall d :: 0 <= d < |s'.clients| ==> ClientOk(s', d)
  {
    assert ClientOk(s, c);
    forall d | 0 <= d < |s'.clients| ensures ClientOk(s', d) {
      assert ClientOk(s, d);
    }
  }

  lemma WakeKeepsFlow(s: Sys, c: nat)
    requires FlowOk(s) && Enabled(s, Wake(c))
    ensures FlowOk(ApplyClient(s, Wake(c)))
  {
    var s', sid, req := ApplyClient(s, Wake(c)), s.clients[c].sid, s.clients[c].req;
    MoveKeepsSessions(s, s', c, Answered(sid, req));
    assert forall spot :: Here(s', spot) == Here(s, spot);
    OutstandingSame(s, s');
    CountedSame(s, s');
    WakeKeepsTasks(s, s', c);
    WakeKeepsClients(s, s', c);
    forall w | 0 <= w < |s'.workers| ensures WorkerOk(s', w) {
      assert WorkerOk(s, w);
    }
  }

  /** The new task gets the next request number and the last place in the queue. */
  lemma PushSpots(s: Sys, c: nat)
    requires WellFormed(s.ring) && Enabled(s, Push(c)) && !s.ring.shutdown
    ensures WellFormed(ApplyPush(s, c).ring)
    ensures var s' := ApplyPush(s, c);
            var q, k := Contents(s.ring), Task(|s.requests|, s.clients[c].sid, s.clients[c].op, s.clients[c].buffer);
            && s'.ring.shutdown == s.ring.shutdown
            && s'.requests == s.requests + [Request(c, k.sid, k.op)]
            && s'.clients == s.clients[c := Waiting(k.sid, k.req)]
            && Contents(s'.ring) == q + [k]
            && (forall spot :: Here(s', spot) == if spot == AtQueue(|q|) then Some(k) else Here(s, spot))
  {
    PushAppends(s.ring, Task(|s.requests|, s.clients[c].sid, s.clients[c].op, s.clients[c].buffer));
  }

  lemma PushKeepsFlow(s: Sys, c: nat)
    requires FlowOk(s) && Enabled(s, Push(c)) && !s.ring.shutdown
    ensures FlowOk(ApplyPush(s, c))
  {
    var s', q := ApplyPush(s, c), Contents(s.ring);
    var cl, req := s.clients[c], |s.requests|;
    PushSpots(s, c);
    MoveKeepsSessions(s, s', c, Waiting(cl.sid, req));
    assert ClientOk(s, c);
    PushedOutstanding(s, s', AtQueue(|q|), req);
    PushKeepsTasks(s, s', c, AtQueue(|q|));
    PushCounts(s, s');
    forall d | 0 <= d < |s'.clients| ensures ClientOk(s', d) {
      if d != c {
        assert ClientOk(s, d);
      }
    }
    forall w | 0 <= w < |s'.workers| ensures WorkerOk(s', w) {
      assert WorkerOk(s, w);
    }
  }

  lemma PushKeepsTasks(s: Sys, s': Sys, c: nat, at: Spot)
    requires WellFormed(s.ring) && WellFormed(s'.ring) && TasksOk(s) && c < |s.clients| && s.clients[c].Cleared?
    requires var cl, req := s.clients[c], |s.requests|;
             && cl.sid in s.responses && !s.responses[cl.sid].ready
             && s'.requests == s.requests + [Request(c, cl.sid, cl.op)]
             && s'.clients == s.clients[c := Waiting(cl.sid, req)]
             && Here(s', at) == Some(Task(req, cl.sid, cl.op, cl.buffer))
    requires s'.responses == s.responses && forall spot :: spot != at ==> Here(s', spot) == Here(s, spot)
    ensures TasksOk(s')
  {
    forall spot | Here(s', spot).Some? ensures TaskOk(s', Here(s', spot).value) {
      if spot != at {
        assert TaskOk(s, Here(s, spot).value);
      }
    }
    forall spot | spot != at && Here(s, spot).Some? ensures Here(s, spot).value.req < |s.requests| {
      assert TaskOk(s, Here(s, spot).value);
    }
  }

  lemma PushCounts(s: Sys, s': Sys)
    requires WellFormed(s.ring) && WellFormed(s'.ring) && Counted(s)
    requires |s'.requests| == |s.requests| + 1 && s'.delivered == s.delivered
    requires forall r :: Outstanding(s', r) <==> Outstanding(s, r) || r == |s.requests|
    ensures Counted(s')
  {
    forall r: nat | r < |s'.requests| ensures Delivered(s', r) || Outstanding(s', r) {
      if r < |s.requests| {
        assert Delivered(s, r) || Outstanding(s, r);
        if Delivered(s, r) {
          var i :| 0 <= i < |s.delivered| && s.delivered[i].req == r;
          assert s'.delivered[i].req == r;
        }
      }
    }
  }

  lemma PushedOutstanding(s: Sys, s': Sys, at: Spot, req: nat)
    requires WellFormed(s.ring) && WellFormed(s'.ring) && Here(s, at).None?
    requires Here(s', at).Some? && Here(s', at).value.req == req
    requires forall spot :: spot != at ==> Here(s', spot) == Here(s, spot)
    ensures forall r :: Outstanding(s', r) <==> Outstanding(s, r) || r == req
  {
    forall r ensures Outstanding(s', r) <==> Outstanding(s, r) || r == req {
      if Outstanding(s, r) {
        var spot :| Here(s, spot).Some? && Here(s, spot).value.req == r;
        assert Here(s', spot).Some?;
      }
      if Outstanding(s', r) {
        var spot :| Here(s', spot).Some? && Here(s', spot).value.req == r;
        assert spot != at ==> Here(s, spot).Some?;
      }
    }
  }

  // ---------------------------------------------------------------- worker steps

  /** Where a task was before a pop. */
  function BeforePop(spot: Spot, w: nat): Spot
  {
    match spot
    case AtQueue(i) => AtQueue(i + 1)
    case AtWorker(u) => if u == w then AtQueue(0) else spot
  }

  function AfterPop(spot: Spot, w: nat): Spot
  {
    match spot
    case AtQueue(i) => if i == 0 then AtWorker(w) else AtQueue(i - 1)
    case AtWorker(_) => spot
  }

  lemma PopShiftsSpots(q: seq<Task>, workers: seq<Worker>, w: nat, spot: Spot)
    requires |q| > 0 && w < |workers| && !workers[w].Running? && !workers[w].Delivering?
    ensures TaskAt(q[1..], workers[w := Running(q[0], None)], spot) == TaskAt(q, workers, BeforePop(spot, w))
    ensures TaskAt(q, workers, spot).Some? ==> BeforePop(AfterPop(spot, w), w) == spot
  {
  }

  lemma PopEffect(s: Sys, w: nat)
    requires FlowOk(s) && Enabled(s, Pop(w))
    ensures var s', q := ApplyPop(s, w), Contents(s.ring);
            && |q| > 0 && WellFormed(s'.ring) && Contents(s'.ring) == q[1..]
            && s'.ring.shutdown == s.ring.shutdown
            && s'.workers == s.workers[w := Running(q[0], None)]
            && s'.svc == F.Apply(s.svc, F.Begin(w, q[0].op))
  {
    PopTakesOldest(s.ring);
  }

  lemma PopSpots(s: Sys, s': Sys, w: nat)
    requires WellFormed(s.ring) && WellFormed(s'.ring) && w < |s.workers| && s.workers[w].Popping?
    requires |Contents(s.ring)| > 0 && Contents(s'.ring) == Contents(s.ring)[1..]
    requires s'.workers == s.workers[w := Running(Contents(s.ring)[0], None)]
    ensures forall spot :: Here(s', spot) == Here(s, BeforePop(spot, w))
    ensures forall spot :: Here(s, spot).Some? ==> BeforePop(AfterPop(spot, w), w) == spot
  {
    forall spot
      ensures Here(s', spot) == Here(s, BeforePop(spot, w))
      ensures Here(s, spot).Some? ==> BeforePop(AfterPop(spot, w), w) == spot
    {
      PopShiftsSpots(Contents(s.ring), s.workers, w, spot);
    }
  }

  lemma PopOutstanding(s: Sys, s': Sys, w: nat)
    requires WellFormed(s.ring) && WellFormed(s'.ring)
    requires forall spot :: Here(s', spot) == Here(s, BeforePop(spot, w))
    requires forall spot :: Here(s, spot).Some? ==> BeforePop(AfterPop(spot, w), w) == spot
    ensures forall req :: Outstanding(s', req) <==> Outstanding(s, req)
  {
    forall req ensures Outstanding(s', req) <==> Outstanding(s, req) {
      if Outstanding(s, req) {
        var spot :| Here(s, spot).Some? && Here(s, spot).value.req == req;
        assert Here(s', AfterPop(spot, w)) == Here(s, spot);
      }
      if Outstanding(s', req) {
        var spot :| Here(s', spot).Some? && Here(s', spot).value.req == req;
        assert Here(s, BeforePop(spot, w)) == Here(s', spot);
      }
    }
  }

  lemma PopKeepsTasks(s: Sys, s': Sys, w: nat)
    requires WellFormed(s.ring) && WellFormed(s'.ring) && TasksOk(s)
    requires forall spot :: Here(s', spot) == Here(s, BeforePop(spot, w))
    requires s'.requests == s.requests && s'.clients == s.clients && s'.responses == s.responses
    ensures TasksOk(s')
  {
    forall spot | Here(s', spot).Some? ensures TaskOk(s', Here(s', spot).value) {
      assert TaskOk(s, Here(s, BeforePop(spot, w)).value);
    }
    forall spot, spot' | Here(s', spot).Some? && Here(s', spot').Some? &&
                         Here(s', spot).value.req == Here(s', spot').value.req
      ensures spot == spot'
    {
      assert Here(s, BeforePop(spot, w)) == Here(s', spot) && Here(s, BeforePop(spot', w)) == Here(s', spot');
      assert BeforePop(spot, w) == BeforePop(spot', w);
    }
  }

  lemma PopKeepsFlow(s: Sys, w: nat)
    requires FlowOk(s) && Enabled(s, Pop(w))
    ensures FlowOk(ApplyPop(s, w))
  {
    var s', q := ApplyPop(s, w), Contents(s.ring);
    PopEffect(s, w);
    PopSpots(s, s', w);
    PopKeepsTasks(s, s', w);
    PopOutstanding(s, s', w);
    SessionsFrame(s, s');
    F.StepKeepsWired(s.svc, F.Begin(w, q[0].op));
    CountedSame(s, s');
    forall c | 0 <= c < |s'.clients| ensures ClientOk(s', c) {
      assert ClientOk(s, c);
    }
    forall u | 0 <= u < |s'.workers| ensures WorkerOk(s', u) {
      assert WorkerOk(s, u);
    }
  }

  /** A worker moves on while keeping its task. */
  lemma WorkerMoveKeepsFlow(s: Sys, s': Sys, w: nat)
    requires FlowOk(s) && w < |s.workers|
    requires |s'.workers| == |s.workers| && s'.workers == s.workers[w := s'.workers[w]]
    requires Here(s, AtWorker(w)) == TaskAt([], s'.workers, AtWorker(w))
    requires s'.clients == s.clients && s'.ring == s.ring && s'.mgr == s.mgr && s'.ids == s.ids
    requires s'.responses == s.responses && s'.requests == s.requests
    requires s'.delivered == s.delivered && s'.dropped == s.dropped
    requires F.Wired(s'.svc) && |s'.svc.jobs| == |s.svc.jobs| && s'.svc.jobs == s.svc.jobs[w := s'.svc.jobs[w]]
    requires WorkerOk(s', w)
    ensures FlowOk(s')
  {
    SessionsFrame(s, s');
    OtherTasksStay(s, s', w);
    forall u | 0 <= u < |s'.workers| ensures WorkerOk(s', u) {
      assert WorkerOk(s, u);
    }
    FrameFlow(s, s');
  }

  lemma OtherTasksStay(s: Sys, s': Sys, w: nat)
    requires WellFormed(s.ring) && s'.ring == s.ring && w < |s.workers|
    requires |s'.workers| == |s.workers| && s'.workers == s.workers[w := s'.workers[w]]
    requires Here(s, AtWorker(w)) == TaskAt([], s'.workers, AtWorker(w))
    ensures forall spot :: Here(s', spot) == Here(s, spot)
  {
  }

  lemma ExecKeepsFlow(s: Sys, w: nat, x: F.Action)
    requires FlowOk(s) && Enabled(s, Exec(w, x))
    ensures FlowOk(ApplyExec(s, w, x))
  {
    F.StepKeepsWired(s.svc, x);
    assert WorkerOk(s, w);
    JobKeepsOp(s.svc, x);
    ExecShape(s, w, x);
    WorkerMoveKeepsFlow(s, ApplyExec(s, w, x), w);
  }

  /** A step inside the file service touches the worker's own entry and the heap only. */
  lemma ExecShape(s: Sys, w: nat, x: F.Action)
    requires Enabled(s, Exec(w, x))
    ensures var s' := ApplyExec(s, w, x);
            && |s'.workers| == |s.workers| && s'.workers == s.workers[w := s'.workers[w]]
            && s'.workers[w].Running? && s'.workers[w].task == s.workers[w].task
            && s'.clients == s.clients && s'.ring == s.ring && s'.mgr == s.mgr && s'.ids == s.ids
            && s'.responses == s.responses && s'.requests == s.requests
            && s'.delivered == s.delivered && s'.dropped == s.dropped
            && s'.svc == F.Apply(s.svc, x)
  {
  }

  lemma JobKeepsOp(svc: F.Service, x: F.Action)
    requires F.Wired(svc) && F.Enabled(svc, x) && !x.Begin? && !x.Finish?
    ensures !F.NextJob(svc, x).NoJob? && F.NextJob(svc, x).op == svc.jobs[x.t].op
  {
  }

  lemma FindKeepsFlow(s: Sys, w: nat)
    requires FlowOk(s) && Enabled(s, FindSession(w))
    ensures FlowOk(ApplyFind(s, w))
  {
    F.StepKeepsWired(s.svc, F.Finish(w));
    assert WorkerOk(s, w);
    assert Here(s, AtWorker(w)) == Some(s.workers[w].task);
    assert TaskOk(s, s.workers[w].task);
    WaitingSessionIsFound(s, s.requests[s.workers[w].task.req].client);
    WorkerMoveKeepsFlow(s, ApplyFind(s, w), w);
  }

  /** The response is set on the session of the request, which was waiting for it. */
  lemma RespondDelivers(s: Sys, w: nat)
    requires FlowOk(s) && Enabled(s, Respond(w))
    ensures var k := s.workers[w].task;
            && TaskOk(s, k)
            && s.responses[k.sid].data.None?
            && ApplyRespond(s, w) == s.(
                 workers := s.workers[w := Freeing(k.buffer)],
                 responses := s.responses[k.sid :=
                   Response(s.responses[k.sid].client, true, k.req, s.workers[w].res, s.workers[w].out)],
                 delivered := s.delivered + [Delivery(k.req, k.sid, s.workers[w].res)])
  {
    assert WorkerOk(s, w);
    assert Here(s, AtWorker(w)) == Some(s.workers[w].task);
  }

  lemma RespondSpots(s: Sys, w: nat)
    requires FlowOk(s) && Enabled(s, Respond(w))
    ensures var s', req := ApplyRespond(s, w), s.workers[w].task.req;
            && (forall spot :: Here(s', spot) == if spot == AtWorker(w) then None else Here(s, spot))
            && (forall r :: Outstanding(s', r) <==> Outstanding(s, r) && r != req)
            && Outstanding(s, req)
  {
    RespondDelivers(s, w);
    var s', req := ApplyRespond(s, w), s.workers[w].task.req;
    assert forall spot :: Here(s', spot) == if spot == AtWorker(w) then None else Here(s, spot);
    assert Here(s, AtWorker(w)) == Some(s.workers[w].task);
    forall r ensures Outstanding(s', r) <==> Outstanding(s, r) && r != req {
      if Outstanding(s', r) {
        var spot :| Here(s', spot).Some? && Here(s', spot).value.req == r;
        assert Here(s, spot) == Here(s', spot);
      }
      if Outstanding(s, r) && r != req {
        var spot :| Here(s, spot).Some? && Here(s, spot).value.req == r;
        assert spot != AtWorker(w);
        assert Here(s', spot) == Here(s, spot);
      }
    }
  }

  /** No other task or client uses that session. */
  lemma OnlyOneTaskPerSession(s: Sys, spot: Spot, spot': Spot)
    requires FlowOk(s) && Here(s, spot).Some? && Here(s, spot').Some? && spot != spot'
    ensures Here(s, spot).value.sid != Here(s, spot').value.sid
  {
    var k, k' := Here(s, spot).value, Here(s, spot').value;
    assert TaskOk(s, k) && TaskOk(s, k');
    var c, c' := s.requests[k.req].client, s.requests[k'.req].client;
    if c != c' {
      SessionsDiffer(s, c, c');
    }
  }

  lemma RespondKeepsTasks(s: Sys, w: nat)
    requires FlowOk(s) && Enabled(s, Respond(w))
    ensures TasksOk(ApplyRespond(s, w))
  {
    RespondDelivers(s, w);
    RespondSpots(s, w);
    var s' := ApplyRespond(s, w);
    forall spot | Here(s', spot).Some? ensures TaskOk(s', Here(s', spot).value) {
      assert TaskOk(s, Here(s, spot).value);
      OnlyOneTaskPerSession(s, spot, AtWorker(w));
    }
    forall spot, spot' | Here(s', spot).Some? && Here(s', spot').Some? &&
                         Here(s', spot).value.req == Here(s', spot').value.req
      ensures spot == spot'
    {
      assert Here(s, spot) == Here(s', spot) && Here(s, spot') == Here(s', spot');
    }
  }

  lemma RespondKeepsClients(s: Sys, w: nat, c: nat)
    requires FlowOk(s) && Enabled(s, Respond(w)) && c < |s.clients|
    ensures ClientOk(ApplyRespond(s, w), c)
  {
    RespondDelivers(s, w);
    RespondSpots(s, w);
    var s', k := ApplyRespond(s, w), s.workers[w].task;
    var owner := s.requests[k.req].client;
    assert ClientOk(s, c) && ClientOk(s, owner);
    if c == owner {
      assert s'.delivered[|s.delivered|] == Delivery(k.req, k.sid, s.workers[w].res);
    } else if SidOf(s.clients[c]).Some? {
      SessionsDiffer(s, c, owner);
      assert forall d :: d in s.delivered ==> d in s'.delivered;
    }
  }

  lemma RespondKeepsWorkers(s: Sys, w: nat)
    requires FlowOk(s) && Enabled(s, Respond(w))
    ensures var s' := ApplyRespond(s, w);
            && SessionsOk(s') && F.Wired(s'.svc) && |s'.workers| == |s'.svc.jobs| && ResponsesClean(s')
            && forall u :: 0 <= u < |s'.workers| ==> WorkerOk(s', u)
  {
    RespondDelivers(s, w);
    var s' := ApplyRespond(s, w);
    SessionsFrame(s, s');
    forall u | 0 <= u < |s'.workers| ensures WorkerOk(s', u) {
      assert WorkerOk(s, u);
    }
  }

  lemma RespondKeepsFlow(s: Sys, w: nat)
    requires FlowOk(s) && Enabled(s, Respond(w))
    ensures FlowOk(ApplyRespond(s, w))
  {
    RespondDelivers(s, w);
    RespondSpots(s, w);
    RespondKeepsTasks(s, w);
    var s', k := ApplyRespond(s, w), s.workers[w].task;
    RespondKeepsWorkers(s, w);
    forall c | 0 <= c < |s'.clients| ensures ClientOk(s', c) {
      RespondKeepsClients(s, w, c);
    }
    DeliveryIsNew(s, s', Delivery(k.req, k.sid, s.workers[w].res));
    DeliveryCounts(s, s', Delivery(k.req, k.sid, s.workers[w].res));
  }

  lemma DeliveryIsNew(s: Sys, s': Sys, d: Delivery)
    requires WellFormed(s.ring) && WellFormed(s'.ring) && DeliveredOk(s)
    requires Outstanding(s, d.req) && d.req < |s.requests| && s.requests[d.req].sid == d.sid
    requires s'.requests == s.requests && s'.delivered == s.delivered + [d] && s'.dropped == s.dropped
    requires forall r :: Outstanding(s', r) <==> Outstanding(s, r) && r != d.req
    ensures DeliveredOk(s')
  {
    forall i | 0 <= i < |s.delivered| ensures s.delivered[i].req != d.req {
      assert !Outstanding(s, s.delivered[i].req);
    }
  }

  lemma DeliveryCounts(s: Sys, s': Sys, d: Delivery)
    requires WellFormed(s.ring) && WellFormed(s'.ring) && Counted(s)
    requires s'.requests == s.requests && s'.delivered == s.delivered + [d]
    requires forall r :: Outstanding(s', r) <==> Outstanding(s, r) && r != d.req
    ensures Counted(s')
  {
    forall r: nat | r < |s'.requests| ensures Delivered(s', r) || Outstanding(s', r) {
      assert Delivered(s, r) || Outstanding(s, r);
      if r == d.req {
        assert s'.delivered[|s.delivered|].req == r;
      } else if Delivered(s, r) {
        var i :| 0 <= i < |s.delivered| && s.delivered[i].req == r;
        assert s'.delivered[i].req == r;
      }
    }
  }

  // ---------------------------------------------------------------- all steps

  lemma ShutdownKeepsFlow(s: Sys)
    requires FlowOk(s)
    ensures FlowOk(s.(ring := s.ring.(shutdown := true)))
  {
    var s' := s.(ring := s.ring.(shutdown := true));
    assert Contents(s'.ring) == Contents(s.ring);
    SessionsFrame(s, s');
    forall w | 0 <= w < |s'.workers| ensures WorkerOk(s', w) {
      assert WorkerOk(s, w);
    }
    FrameFlow(s, s');
  }

  lemma WorkerKeepsFlow(s: Sys, a: Action)
    requires FlowOk(s) && WorkerAction(a) && Enabled(s, a)
    ensures FlowOk(ApplyWorker(s, a))
  {
    match a {
      case Pop(w) => PopKeepsFlow(s, w);
      case Exec(w, x) => ExecKeepsFlow(s, w, x);
      case FindSession(w) => FindKeepsFlow(s, w);
      case Respond(w) => RespondKeepsFlow(s, w);
      case FreeUpload(w) =>
        assert WorkerOk(s, w);
        WorkerMoveKeepsFlow(s, ApplyWorker(s, a), w);
      case WorkerExit(w) =>
        assert WorkerOk(s, w);
        WorkerMoveKeepsFlow(s, ApplyWorker(s, a), w);
    }
  }

  lemma SendKeepsFlow(s: Sys, c: nat, ok: bool)
    requires FlowOk(s) && Enabled(s, Send(c, ok))
    ensures FlowOk(ApplyClient(s, Send(c, ok)))
  {
    ClientKeepsSessions(s, Send(c, ok));
    PendingEnds(s, ApplyClient(s, Send(c, ok)), c);
  }

  lemma MarkKeepsFlow(s: Sys, c: nat)
    requires FlowOk(s) && Enabled(s, Mark(c))
    ensures FlowOk(ApplyClient(s, Mark(c)))
  {
    MarkKeepsSessions(s, c);
    SilentClientKeepsFlow(s, ApplyClient(s, Mark(c)), c);
  }

  lemma OtherClientStepKeepsFlow(s: Sys, a: Action)
    requires FlowOk(s) && ClientAction(a) && Enabled(s, a)
    requires a.StartUpload? || a.UploadArrives? || a.UploadBreaks? || a.Command? || a.Quit? || a.ClientExit?
    ensures FlowOk(ApplyClient(s, a))
  {
    ClientKeepsSessions(s, a);
    SilentShape(s, a);
    SilentClientKeepsFlow(s, ApplyClient(s, a), a.c);
  }

  lemma SilentShape(s: Sys, a: Action)
    requires ClientAction(a) && Enabled(s, a)
    requires a.StartUpload? || a.UploadArrives? || a.UploadBreaks? || a.Command? || a.Quit? || a.ClientExit?
    ensures var s' := ApplyClient(s, a);
            && a.c < |s.clients| == |s'.clients| && s'.clients == s.clients[a.c := s'.clients[a.c]]
            && !Pending(s.clients[a.c]) && !Pending(s'.clients[a.c])
            && s'.ring == s.ring && s'.workers == s.workers && s'.svc == s.svc && s'.responses == s.responses
            && s'.requests == s.requests && s'.delivered == s.delivered && s'.dropped == s.dropped
  {
  }

  lemma ClientKeepsFlow(s: Sys, a: Action)
    requires FlowOk(s) && ClientAction(a) && Enabled(s, a) && ClearStep(s, a)
    ensures FlowOk(ApplyClient(s, a))
  {
    match a {
      case Connect(c, fd, res) => ConnectKeepsFlow(s, c, fd, res);
      case Destroy(c) => DestroyKeepsFlow(s, c);
      case Reset(c) => ResetKeepsFlow(s, c);
      case Push(c) =>
        if s.ring.shutdown {
          RefusedPushKeepsFlow(s, c);
        } else {
          PushKeepsFlow(s, c);
        }
      case Wake(c) => WakeKeepsFlow(s, c);
      case Send(c, ok) => SendKeepsFlow(s, c, ok);
      case Mark(c) => MarkKeepsFlow(s, c);
      case _ => OtherClientStepKeepsFlow(s, a);
    }
  }

  lemma StepKeepsFlow(s: Sys, a: Action)
    requires FlowOk(s) && Enabled(s, a) && ClearStep(s, a)
    ensures FlowOk(Apply(s, a))
  {
    if a.Shutdown? {
      ShutdownKeepsFlow(s);
    } else if WorkerAction(a) {
      WorkerKeepsFlow(s, a);
    } else {
      ClientKeepsFlow(s, a);
    }
  }
}
