/**
 What happens without the session-table hypothesis: if ending one session frees a slot on the
 way to the session of a waiting client, the worker that has its answer finds no session,
 drops the answer, and the client waits for ever.
 */
module ProtocolLimits {
  import opened Prelude
  import opened BoundedQueue
  import opened Protocol
  import opened ProtocolFlow
  import S = SessionTable
  import F = FileService

  // ---------------------------------------------------------------- the dropped answer

  /** Clearing slot `j` cuts off the session in slot `i`. */
  lemma CutOffIsNotFound(m: S.Manager, i: nat, j: nat)
    requires S.Coherent(m) && S.AllFindable(m) && i < |m.slots| && j < |m.slots| && i != j
    requires m.slots[i].Some? && m.slots[j].Some? && !S.OffTheWay(m, i, j)
    ensures S.Destroy(m, m.slots[j].value.id) == S.Cleared(m, j)
    ensures S.Get(S.Cleared(m, j), m.slots[i].value.id).None?
  {
    S.DestroyClears(m, j);
    S.ClearedStaysFindableIff(m, j, i);
    S.RemoveKeepsCoherent(m, j);
    S.FoundIffFindable(S.Cleared(m, j), i);
  }

  /** The session of client `c` is in a slot on the way to the session of client `d`. */
  predicate OnTheWayOf(s: Sys, c: nat, d: nat)
    requires c < |s.clients| && d < |s.clients| && SidOf(s.clients[c]).Some? && SidOf(s.clients[d]).Some?
    requires |s.mgr.slots| > 0
  {
    var j, i := S.Find(s.mgr, s.clients[c].sid), S.Find(s.mgr, s.clients[d].sid);
    j.Some? && i.Some? && i != j && !S.OffTheWay(s.mgr, i.value, j.value)
  }

  /** Worker `w` has finished the work of a request and is about to look its session up. */
  predicate Finished(s: Sys, w: nat)
  {
    Enabled(s, FindSession(w))
  }

  lemma DestroyCutsOff(s: Sys, c: nat, d: nat)
    requires FlowOk(s) && Enabled(s, Destroy(c)) && d < |s.clients| && s.clients[d].Waiting?
    requires OnTheWayOf(s, c, d)
    ensures var s' := Apply(s, Destroy(c));
            && |s'.mgr.slots| > 0 && S.Get(s'.mgr, s.clients[d].sid).None? && s'.mgr.nextId == s.mgr.nextId
            && s'.clients == s.clients[c := Accepting]
            && s'.ring == s.ring && s'.workers == s.workers && s'.svc == s.svc && s'.requests == s.requests
            && s'.delivered == s.delivered && s'.dropped == s.dropped
            && s'.responses == s.responses - {s.clients[c].sid} && s.clients[c].sid != s.clients[d].sid
  {
    var j, i := S.Find(s.mgr, s.clients[c].sid).value, S.Find(s.mgr, s.clients[d].sid).value;
    CutOffIsNotFound(s.mgr, i, j);
    SessionsDiffer(s, c, d);
  }

  /** The task is for another session and another request. */
  predicate Elsewhere(k: Task, sid: nat, req: nat)
  {
    k.sid != sid && k.req != req
  }

  /** Client `d` waits, and no task apart from that of worker `w`, if any, is for it. */
  ghost predicate WaitsFor(s: Sys, d: nat, w: Option<nat>)
  {
    && WellFormed(s.ring) && d < |s.clients| && s.clients[d].Waiting?
    && var sid, req := s.clients[d].sid, s.clients[d].req;
       && sid in s.responses && !s.responses[sid].ready && 0 < sid < s.mgr.nextId
       && req < |s.requests| && !Delivered(s, req)
       && (forall c :: 0 <= c < |s.clients| && c != d ==> SidOf(s.clients[c]) != Some(sid))
       && (forall k :: k in Contents(s.ring) ==> Elsewhere(k, sid, req))
       && (forall u :: 0 <= u < |s.workers| && (s.workers[u].Running? || s.workers[u].Delivering?) && Some(u) != w ==>
             Elsewhere(s.workers[u].task, sid, req))
  }

  /** The client waits for a request that nobody works on, and no other client has its session. */
  ghost predicate Stranded(s: Sys, d: nat)
  {
    WaitsFor(s, d, None)
  }

  lemma OneClientPerSession(s: Sys, c: nat, d: nat)
    requires SessionsOk(s) && c < |s.clients| && d < |s.clients|
    requires SidOf(s.clients[c]).Some? && SidOf(s.clients[d]) == SidOf(s.clients[c])
    ensures c == d
  {
    if c != d {
      SessionsDiffer(s, c, d);
    }
  }

  /** Nobody but the worker with the answer works for a waiting client. */
  lemma OnlyWorkerFor(s: Sys, w: nat, d: nat)
    requires FlowOk(s) && Finished(s, w) && d < |s.clients| && s.clients[d].Waiting?
    requires s.clients[d].sid == s.workers[w].task.sid
    ensures s.clients[d].req == s.workers[w].task.req
    ensures forall k :: k in Contents(s.ring) ==> Elsewhere(k, s.clients[d].sid, s.clients[d].req)
    ensures forall u :: 0 <= u < |s.workers| && (s.workers[u].Running? || s.workers[u].Delivering?) && u != w ==>
              Elsewhere(s.workers[u].task, s.clients[d].sid, s.clients[d].req)
  {
    var q, task := Contents(s.ring), s.workers[w].task;
    assert Here(s, AtWorker(w)) == Some(task);
    assert TaskOk(s, task);
    OneClientPerSession(s, s.requests[task.req].client, d);
    forall k | k in q ensures Elsewhere(k, task.sid, task.req) {
      var i :| 0 <= i < |q| && q[i] == k;
      assert Here(s, AtQueue(i)) == Some(k);
      OnlyOneTaskPerSession(s, AtQueue(i), AtWorker(w));
    }
    forall u | 0 <= u < |s.workers| && (s.workers[u].Running? || s.workers[u].Delivering?) && u != w
      ensures Elsewhere(s.workers[u].task, task.sid, task.req)
    {
      assert Here(s, AtWorker(u)) == Some(s.workers[u].task);
      OnlyOneTaskPerSession(s, AtWorker(u), AtWorker(w));
    }
  }

  lemma FlowWaitsFor(s: Sys, d: nat, w: nat)
    requires FlowOk(s) && Finished(s, w)
    requires d < |s.clients| && s.clients[d].Waiting? && s.clients[d].sid == s.workers[w].task.sid
    ensures WaitsFor(s, d, Some(w)) && s.clients[d].req == s.workers[w].task.req
  {
    OnlyWorkerFor(s, w, d);
    WaitingIsAlone(s, d);
    NotYetDelivered(s, w);
  }

  lemma WaitsForOn(s: Sys, s': Sys, c: nat, d: nat, w: nat)
    requires WaitsFor(s, d, Some(w)) && c < |s.clients| && s.clients[c].Marked? && s.clients[c].sid != s.clients[d].sid
    requires |s'.mgr.slots| > 0 && s'.mgr.nextId == s.mgr.nextId && s'.clients == s.clients[c := Accepting]
    requires s'.ring == s.ring && s'.workers == s.workers && s'.svc == s.svc
    requires s'.responses == s.responses - {s.clients[c].sid}
    requires s'.requests == s.requests && s'.delivered == s.delivered
    requires Finished(s, w)
    ensures WaitsFor(s', d, Some(w)) && Finished(s', w)
  {
  }

  lemma NotYetDelivered(s: Sys, w: nat)
    requires FlowOk(s) && Finished(s, w)
    ensures TaskOk(s, s.workers[w].task) && !Delivered(s, s.workers[w].task.req) && s.dropped == []
  {
    var k := s.workers[w].task;
    assert Here(s, AtWorker(w)) == Some(k);
    assert Outstanding(s, k.req);
    forall i | 0 <= i < |s.delivered| ensures s.delivered[i].req != k.req {
      assert !Outstanding(s, s.delivered[i].req);
    }
  }

  lemma FrontStep(s: Sys, a: Action, rest: seq<Action>)
    requires Enabled(s, a) && Valid(Apply(s, a), rest)
    ensures Valid(s, [a] + rest) && Final(s, [a] + rest) == Final(Apply(s, a), rest)
  {
    assert ([a] + rest)[1..] == rest;
  }

  lemma OnlyStep(s: Sys, a: Action)
    requires Enabled(s, a)
    ensures Valid(s, [a]) && Final(s, [a]) == Apply(s, a)
  {
    assert Valid(Apply(s, a), []);
    FrontStep(s, a, []);
    assert [a] + [] == [a];
  }

  lemma NobodyConnects(a: Action, rest: seq<Action>)
    requires !a.Connect? && forall k :: 0 <= k < |rest| ==> WorkerAction(rest[k])
    ensures forall k :: 0 <= k < |[a] + rest| ==> !([a] + rest)[k].Connect?
  {
  }

  /** After the session was cut off, the worker drops the answer. */
  lemma AnswerIsDropped(s: Sys, w: nat) returns (acts: seq<Action>, s': Sys)
    requires Finished(s, w) && S.Get(s.mgr, s.workers[w].task.sid).None?
    ensures Valid(s, acts) && Final(s, acts) == s' && forall k :: 0 <= k < |acts| ==> WorkerAction(acts[k])
    ensures s'.workers == s.workers[w := Freeing(s.workers[w].task.buffer)]
    ensures s'.dropped == s.dropped + [s.workers[w].task.req]
    ensures s'.clients == s.clients && s'.ring == s.ring && s'.responses == s.responses && s'.mgr == s.mgr
    ensures s'.delivered == s.delivered && s'.requests == s.requests
  {
    var s1 := Apply(s, FindSession(w));
    s' := Apply(s1, Respond(w));
    OnlyStep(s1, Respond(w));
    FrontStep(s, FindSession(w), [Respond(w)]);
    acts := [FindSession(w)] + [Respond(w)];
  }

  lemma CutOffStrands(s: Sys, d: nat, w: nat) returns (acts: seq<Action>)
    requires Finished(s, w) && WaitsFor(s, d, Some(w)) && S.Get(s.mgr, s.workers[w].task.sid).None?
    ensures Valid(s, acts) && forall k :: 0 <= k < |acts| ==> WorkerAction(acts[k])
    ensures Final(s, acts).dropped == s.dropped + [s.workers[w].task.req]
    ensures Stranded(Final(s, acts), d) && Final(s, acts).clients == s.clients
    ensures Final(s, acts).delivered == s.delivered && Final(s, acts).requests == s.requests
  {
    var s': Sys;
    acts, s' := AnswerIsDropped(s, w);
  }

  /** The request of client `d` was dropped, and the client waits for nothing. */
  ghost predicate Lost(s: Sys, d: nat)
  {
    Stranded(s, d) && s.dropped == [s.clients[d].req]
  }

  /** Once the session is cut off, the worker with the answer will not find it. */
  lemma AnswerComesTooLate(s: Sys, c: nat, d: nat, w: nat)
    requires FlowOk(s) && Enabled(s, Destroy(c)) && Finished(s, w)
    requires d < |s.clients| && s.clients[d].Waiting? && s.clients[d].sid == s.workers[w].task.sid
    requires OnTheWayOf(s, c, d)
    ensures var s' := Apply(s, Destroy(c));
            && Finished(s', w) && WaitsFor(s', d, Some(w)) && S.Get(s'.mgr, s'.workers[w].task.sid).None?
            && s'.workers == s.workers && s'.clients == s.clients[c := Accepting] && s'.dropped == s.dropped
  {
    FlowWaitsFor(s, d, w);
    DestroyCutsOff(s, c, d);
    WaitsForOn(s, Apply(s, Destroy(c)), c, d, w);
  }

  /** The hypothesis is needed: ending a session on the way of a waiting client's session, just
      before the worker looks that one up, drops the answer and strands the client. */
  lemma DestroyOnTheWayStrands(s: Sys, c: nat, d: nat, w: nat) returns (acts: seq<Action>)
    requires FlowOk(s) && Enabled(s, Destroy(c)) && Finished(s, w)
    requires d < |s.clients| && s.clients[d].Waiting? && s.clients[d].sid == s.workers[w].task.sid
    requires OnTheWayOf(s, c, d)
    ensures Valid(s, acts) && forall k :: 0 <= k < |acts| ==> !acts[k].Connect?
    ensures Lost(Final(s, acts), d) && Final(s, acts).clients[d] == s.clients[d]
  {
    NotYetDelivered(s, w);
    FlowWaitsFor(s, d, w);
    AnswerComesTooLate(s, c, d, w);
    var rest := CutOffStrands(Apply(s, Destroy(c)), d, w);
    FrontStep(s, Destroy(c), rest);
    NobodyConnects(Destroy(c), rest);
    acts := [Destroy(c)] + rest;
  }

  lemma WaitingIsAlone(s: Sys, d: nat)
    requires SessionsOk(s) && d < |s.clients| && s.clients[d].Waiting?
    ensures 0 < s.clients[d].sid < s.mgr.nextId
    ensures forall c :: 0 <= c < |s.clients| && c != d ==> SidOf(s.clients[c]) != Some(s.clients[d].sid)
  {
    assert ClientSession(s, d);
    assert Some(s.ids.sessions[s.clients[d].sid]) in s.mgr.slots;
    forall c | 0 <= c < |s.clients| && c != d ensures SidOf(s.clients[c]) != Some(s.clients[d].sid) {
      if SidOf(s.clients[c]).Some? {
        SessionsDiffer(s, c, d);
      }
    }
  }

  // ---------------------------------------------------------------- for ever

  lemma ConnectKeepsStranded(s: Sys, c: nat, fd: int, res: S.Resources, d: nat)
    requires Stranded(s, d) && Enabled(s, Connect(c, fd, res)) && s.mgr.nextId + 1 < TWO_64
    ensures Stranded(ApplyConnect(s, c, fd, res), d) && ApplyConnect(s, c, fd, res).clients[d] == s.clients[d]
    ensures ApplyConnect(s, c, fd, res).mgr.nextId <= s.mgr.nextId + 1
  {
    var slot := S.CreateOutcomes(s.mgr, fd, res);
  }

  lemma PushKeepsStranded(s: Sys, c: nat, d: nat)
    requires Stranded(s, d) && Enabled(s, Push(c))
    ensures Stranded(ApplyPush(s, c), d) && ApplyPush(s, c).clients[d] == s.clients[d]
  {
    if !s.ring.shutdown {
      PushSpots(s, c);
    }
  }

  lemma ClientKeepsStranded(s: Sys, a: Action, d: nat)
    requires Stranded(s, d) && ClientAction(a) && Enabled(s, a) && !a.Connect? && !a.Push?
    ensures Stranded(ApplyClient(s, a), d)
    ensures ApplyClient(s, a).clients[d] == s.clients[d] && ApplyClient(s, a).mgr.nextId == s.mgr.nextId
  {
  }

  lemma PopKeepsStranded(s: Sys, w: nat, d: nat)
    requires Stranded(s, d) && Enabled(s, Pop(w))
    ensures Stranded(ApplyPop(s, w), d) && ApplyPop(s, w).clients[d] == s.clients[d]
  {
    PopTakesOldest(s.ring);
  }

  lemma RespondKeepsStranded(s: Sys, w: nat, d: nat)
    requires Stranded(s, d) && Enabled(s, Respond(w))
    ensures Stranded(ApplyRespond(s, w), d) && ApplyRespond(s, w).clients[d] == s.clients[d]
  {
    assert s.workers[w].task.sid != s.clients[d].sid;
  }

  lemma OtherWorkerStepKeepsStranded(s: Sys, a: Action, d: nat)
    requires Stranded(s, d) && WorkerAction(a) && Enabled(s, a) && !a.Pop? && !a.Respond?
    ensures Stranded(ApplyWorker(s, a), d) && ApplyWorker(s, a).clients[d] == s.clients[d]
  {
  }

  lemma WorkerKeepsStranded(s: Sys, a: Action, d: nat)
    requires Stranded(s, d) && WorkerAction(a) && Enabled(s, a)
    ensures Stranded(ApplyWorker(s, a), d)
    ensures ApplyWorker(s, a).clients[d] == s.clients[d] && ApplyWorker(s, a).mgr == s.mgr
  {
    WorkerLeavesSessions(s, a);
    if a.Pop? {
      PopKeepsStranded(s, a.w, d);
    } else if a.Respond? {
      RespondKeepsStranded(s, a.w, d);
    } else {
      OtherWorkerStepKeepsStranded(s, a, d);
    }
  }

  lemma StepKeepsStranded(s: Sys, a: Action, d: nat)
    requires Stranded(s, d) && Enabled(s, a) && s.mgr.nextId + 1 < TWO_64
    ensures Stranded(Apply(s, a), d)
    ensures Apply(s, a).clients[d] == s.clients[d] && Apply(s, a).mgr.nextId <= s.mgr.nextId + 1
  {
    if a.Shutdown? {
      assert Contents(Apply(s, a).ring) == Contents(s.ring);
    } else if WorkerAction(a) {
      WorkerKeepsStranded(s, a, d);
    } else if a.Connect? {
      ConnectKeepsStranded(s, a.c, a.fd, a.res, d);
    } else if a.Push? {
      PushKeepsStranded(s, a.c, d);
    } else {
      ClientKeepsStranded(s, a, d);
    }
  }

  /** A stranded client never wakes up again, and its request is never answered, whatever anybody
      does. */
  lemma {:induction false} StrandedForEver(s: Sys, acts: seq<Action>, d: nat)
    requires Stranded(s, d) && Valid(s, acts) && s.mgr.nextId + |acts| < TWO_64
    ensures Stranded(Final(s, acts), d) && Final(s, acts).clients[d] == s.clients[d]
    ensures !Enabled(Final(s, acts), Wake(d)) && !Delivered(Final(s, acts), s.clients[d].req)
    decreases |acts|
  {
    if acts != [] {
      StepKeepsStranded(s, acts[0], d);
      StrandedForEver(Apply(s, acts[0]), acts[1..], d);
    }
  }
}
