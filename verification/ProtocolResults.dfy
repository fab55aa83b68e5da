/**
 What a client of the whole server may rely on, over every run from start-up: requests are
 answered exactly once, to the client that waits for them, with the outcome the file
 service recorded; buffers are freed exactly once; the task queue never fills; and nothing
 that was accepted stays unanswered, across shutdown too.
 */
module ProtocolResults {
  import opened Prelude
  import opened BoundedQueue
  import opened Protocol
  import opened ProtocolFlow
  import opened ProtocolBuffers
  import S = SessionTable
  import F = FileService
  import R = FileServiceResults
  import FL = FileLocks

  /** How the server is started: thread counts, table sizes, and what is on disk. */
  datatype Config = Config(clients: nat, workers: nat, cells: seq<Task>, slots: nat, locks: nat,
                           disk: F.Files, rows: map<FL.Path, nat>)

  predicate Usable(cfg: Config)
  {
    |cfg.cells| > 0 && cfg.slots > 0 && cfg.locks > 0
  }

  function Start(cfg: Config): Sys
    requires Usable(cfg)
  {
    Init(cfg.clients, cfg.workers, cfg.cells, cfg.slots, cfg.locks, cfg.disk, cfg.rows)
  }

  /** A run from start-up in which no session's end cuts another session off. */
  ghost predicate RunFrom(cfg: Config, acts: seq<Action>)
    requires Usable(cfg)
  {
    Valid(Start(cfg), acts) && ClearRun(Start(cfg), acts)
  }

  function After(cfg: Config, acts: seq<Action>): Sys
    requires Usable(cfg) && Valid(Start(cfg), acts)
  {
    Final(Start(cfg), acts)
  }

  /** The two invariants. */
  ghost predicate Sound(s: Sys)
  {
    FlowOk(s) && BuffersOk(s)
  }

  lemma StartIsSound(cfg: Config)
    requires Usable(cfg)
    ensures Sound(Start(cfg))
  {
    var s := Start(cfg);
    InitSessionsOk(s, cfg.slots);
    F.InitIsWired(cfg.locks, cfg.workers, cfg.disk, cfg.rows);
    assert Contents(s.ring) == [];
    assert forall spot :: Here(s, spot).None?;
    assert forall l :: BufAt(s, l).None?;
  }

  lemma StepKeepsSound(s: Sys, a: Action)
    requires Sound(s) && Enabled(s, a) && ClearStep(s, a)
    ensures Sound(Apply(s, a))
  {
    StepKeepsFlow(s, a);
    StepKeepsBuffers(s, a);
  }

  lemma {:induction false} RunKeepsSound(s: Sys, acts: seq<Action>)
    requires Sound(s) && Valid(s, acts) && ClearRun(s, acts)
    ensures Sound(Final(s, acts))
    decreases |acts|
  {
    if acts != [] {
      StepKeepsSound(s, acts[0]);
      RunKeepsSound(Apply(s, acts[0]), acts[1..]);
    }
  }

  lemma AfterIsSound(cfg: Config, acts: seq<Action>)
    requires Usable(cfg) && RunFrom(cfg, acts)
    ensures Sound(After(cfg, acts))
  {
    StartIsSound(cfg);
    RunKeepsSound(Start(cfg), acts);
  }

  // ---------------------------------------------------------------- exactly one answer

  /** Every accepted request is either still on its way or was answered once, on the session
      that issued it.  No answer was dropped. */
  ghost predicate AnsweredOnce(s: Sys)
  {
    && WellFormed(s.ring)
    && (forall req: nat :: req < |s.requests| ==> (Delivered(s, req) <==> !Outstanding(s, req)))
    && (forall i, j :: 0 <= i < j < |s.delivered| ==> s.delivered[i].req != s.delivered[j].req)
    && (forall i :: 0 <= i < |s.delivered| ==>
          s.delivered[i].req < |s.requests| && s.requests[s.delivered[i].req].sid == s.delivered[i].sid)
    && s.dropped == []
  }

  /** So it is in every run in which no session's end cuts another session off. */
  lemma AnsweredExactlyOnce(cfg: Config, acts: seq<Action>)
    requires Usable(cfg) && RunFrom(cfg, acts)
    ensures AnsweredOnce(After(cfg, acts))
  {
    AfterIsSound(cfg, acts);
  }

  /** The session is registered and active, its client waits for that very request, and the
      response holds no payload that could be overwritten; the response set is the one of this
      worker, and the client can wake. */
  predicate ReachesItsWaiter(s: Sys, w: nat)
    requires Enabled(s, Respond(w))
  {
    var k, s' := s.workers[w].task, Apply(s, Respond(w));
    && k.req < |s.requests| && s.requests[k.req].client < |s.clients|
    && var c := s.requests[k.req].client;
       && s.clients[c] == Waiting(k.sid, k.req)
       && S.Get(s.mgr, k.sid).Some?
       && k.sid in s.responses && !s.responses[k.sid].ready && s.responses[k.sid].data.None?
       && s'.delivered == s.delivered + [Delivery(k.req, k.sid, s.workers[w].res)]
       && Enabled(s', Wake(c))
       && s'.responses[k.sid] == Response(c, true, k.req, s.workers[w].res, s.workers[w].out)
  }

  /** Before the response is set. */
  ghost predicate WaiterIsThere(s: Sys, w: nat)
    requires Enabled(s, Respond(w))
  {
    var k := s.workers[w].task;
    && s.workers[w].found && k.sid in s.responses && !s.responses[k.sid].ready && s.responses[k.sid].data.None?
    && k.req < |s.requests| && s.requests[k.req].client == s.responses[k.sid].client < |s.clients|
    && s.clients[s.responses[k.sid].client] == Waiting(k.sid, k.req)
    && S.Get(s.mgr, k.sid).Some?
  }

  lemma RespondFindsWaiter(s: Sys, w: nat)
    requires FlowOk(s) && Enabled(s, Respond(w))
    ensures WaiterIsThere(s, w)
  {
    RespondDelivers(s, w);
    WaitingSessionIsFound(s, s.requests[s.workers[w].task.req].client);
    assert ClientSession(s, s.requests[s.workers[w].task.req].client);
    assert WorkerOk(s, w);
  }

  lemma RespondReaches(s: Sys, w: nat)
    requires Enabled(s, Respond(w)) && WaiterIsThere(s, w)
    ensures ReachesItsWaiter(s, w)
  {
  }

  /** Whenever a worker responds, in any run. */
  lemma ResponseReachesItsWaiter(cfg: Config, acts: seq<Action>, w: nat)
    requires Usable(cfg) && RunFrom(cfg, acts) && Enabled(After(cfg, acts), Respond(w))
    ensures ReachesItsWaiter(After(cfg, acts), w)
  {
    AfterIsSound(cfg, acts);
    RespondFindsWaiter(After(cfg, acts), w);
    RespondReaches(After(cfg, acts), w);
  }

  /** A client back from `response_wait` reads the answer to its own last request, and its
      session is still active: the branch that gives up on an inactive session is dead. */
  lemma ClientReadsItsOwnAnswer(cfg: Config, acts: seq<Action>, c: nat)
    requires Usable(cfg) && RunFrom(cfg, acts)
    requires c < |After(cfg, acts).clients| && After(cfg, acts).clients[c].Answered?
    ensures var s := After(cfg, acts);
            var sid, req := s.clients[c].sid, s.clients[c].req;
            && req < |s.requests| && s.requests[req].client == c && s.requests[req].sid == sid
            && sid in s.responses && s.responses[sid].req == req
            && Delivery(req, sid, s.responses[sid].res) in s.delivered
            && |s.mgr.slots| > 0 && S.Get(s.mgr, sid).Some?
  {
    AfterIsSound(cfg, acts);
    var s := After(cfg, acts);
    assert ClientOk(s, c) && ClientSession(s, c);
    TableLookup(s.mgr, s.ids, s.clients[c].sid);
  }

  /** The request a client waits for is the last one of its session. */
  ghost predicate Latest(s: Sys)
  {
    forall c: nat, r: nat :: c < |s.clients| && s.clients[c].Waiting? && s.clients[c].req < r < |s.requests| ==>
      s.requests[r].sid != s.clients[c].sid
  }

  lemma PushKeepsLatest(s: Sys, c: nat)
    requires SessionsOk(s) && Latest(s) && Enabled(s, Push(c))
    ensures Latest(ApplyPush(s, c))
  {
    var s' := ApplyPush(s, c);
    forall d: nat, r: nat |
      d < |s'.clients| && s'.clients[d].Waiting? && s'.clients[d].req < r < |s'.requests|
      ensures s'.requests[r].sid != s'.clients[d].sid
    {
      if d != c && r == |s.requests| {
        SessionsDiffer(s, c, d);
      }
    }
  }

  /** Only a push issues a request or makes a client wait. */
  lemma OtherStepsIssueNothing(s: Sys, a: Action)
    requires Enabled(s, a) && !a.Push?
    ensures var s' := Apply(s, a);
            && s'.requests == s.requests && |s'.clients| == |s.clients|
            && forall c :: 0 <= c < |s.clients| && s'.clients[c].Waiting? ==> s'.clients[c] == s.clients[c]
  {
  }

  lemma {:induction false} RunKeepsLatest(s: Sys, acts: seq<Action>)
    requires Sound(s) && Latest(s) && Valid(s, acts) && ClearRun(s, acts)
    ensures Latest(Final(s, acts))
    decreases |acts|
  {
    if acts != [] {
      var a := acts[0];
      StepKeepsSound(s, a);
      if a.Push? {
        PushKeepsLatest(s, a.c);
      } else {
        OtherStepsIssueNothing(s, a);
      }
      RunKeepsLatest(Apply(s, a), acts[1..]);
    }
  }

  /** A request is answered before its session issues the next one. */
  lemma AnsweredBeforeTheNext(cfg: Config, acts: seq<Action>, i: nat, j: nat)
    requires Usable(cfg) && RunFrom(cfg, acts) && i < j < |After(cfg, acts).requests|
    requires After(cfg, acts).requests[i].sid == After(cfg, acts).requests[j].sid
    ensures Delivered(After(cfg, acts), i)
  {
    StartIsSound(cfg);
    RunKeepsSound(Start(cfg), acts);
    RunKeepsLatest(Start(cfg), acts);
    var s := After(cfg, acts);
    forall spot | Here(s, spot).Some? ensures Here(s, spot).value.req != i {
      assert TaskOk(s, Here(s, spot).value);
    }
    assert Delivered(s, i) || Outstanding(s, i);
  }

  // ---------------------------------------------------------------- buffers

  /** Nobody serves a client, nothing is queued and no worker has a task. */
  predicate AtRest(s: Sys)
  {
    && (forall c :: 0 <= c < |s.clients| ==> SidOf(s.clients[c]).None?)
    && (forall w :: 0 <= w < |s.workers| ==> s.workers[w].Popping? || s.workers[w].Stopped?)
    && s.ring.size == 0
  }

  /** No buffer is freed twice or used after it was freed, at any time; and once the server is
      at rest every buffer ever allocated has been freed, exactly once. */
  lemma BuffersFreedExactlyOnce(cfg: Config, acts: seq<Action>)
    requires Usable(cfg) && RunFrom(cfg, acts)
    ensures var h := After(cfg, acts).heap;
            && (forall i, j :: 0 <= i < j < |h.freed| ==> h.freed[i] != h.freed[j])
            && (forall b :: b in h.freed ==> b !in h.live)
            && (AtRest(After(cfg, acts)) ==> h.live == {} && forall b: nat :: b < h.next <==> b in h.freed)
    ensures WellFormed(After(cfg, acts).ring)
    ensures forall l :: BufAt(After(cfg, acts), l).Some? ==>
              BufAt(After(cfg, acts), l).value in After(cfg, acts).heap.live
  {
    AfterIsSound(cfg, acts);
    var s := After(cfg, acts);
    assert forall l :: BufAt(s, l) == (x => BufAt(s, x))(l);
    if AtRest(s) {
      NoResponsesAtRest(s);
      assert forall l :: BufAt(s, l).None?;
      assert forall b :: b !in s.heap.live;
    }
  }

  lemma NoResponsesAtRest(s: Sys)
    requires SessionsOk(s) && AtRest(s)
    ensures s.responses == map[]
  {
    assert forall sid :: sid !in s.responses;
  }

  // ---------------------------------------------------------------- the task queue

  lemma {:induction false} DistinctBelow(xs: seq<nat>, n: nat)
    requires forall i, j :: 0 <= i < j < |xs| ==> xs[i] != xs[j]
    requires forall i :: 0 <= i < |xs| ==> xs[i] < n
    ensures |xs| <= n
    decreases n
  {
    if i :| 0 <= i < |xs| && xs[i] == n - 1 {
      DistinctBelow(xs[..i] + xs[i + 1..], n - 1);
    } else if xs != [] {
      assert xs[0] < n;
      DistinctBelow(xs, n - 1);
    }
  }

  /** With no more client threads than cells, a client that wants to push never has to wait:
      each queued task belongs to a different waiting client. */
  lemma PushNeverWaits(cfg: Config, acts: seq<Action>, c: nat)
    requires Usable(cfg) && RunFrom(cfg, acts) && cfg.clients <= |cfg.cells|
    requires c < |After(cfg, acts).clients| && After(cfg, acts).clients[c].Cleared?
    ensures After(cfg, acts).ring.size < |After(cfg, acts).ring.cells|
    ensures Enabled(After(cfg, acts), Push(c))
  {
    AfterIsSound(cfg, acts);
    RunKeepsSizes(Start(cfg), acts);
    QueuedClientsDiffer(After(cfg, acts), c);
  }

  lemma QueuedClientsDiffer(s: Sys, c: nat)
    requires WellFormed(s.ring) && TasksOk(s) && c < |s.clients| && s.clients[c].Cleared?
    ensures s.ring.size < |s.clients|
  {
    var q := Contents(s.ring);
    forall i | 0 <= i < |q| ensures TaskOk(s, q[i]) {
      assert Here(s, AtQueue(i)) == Some(q[i]);
    }
    forall i, j | 0 <= i < j < |q| ensures q[i].req != q[j].req {
      assert Here(s, AtQueue(i)) == Some(q[i]) && Here(s, AtQueue(j)) == Some(q[j]);
    }
    var owners: seq<nat> := seq(|q|, i requires 0 <= i < |q| => s.requests[q[i].req].client);
    DistinctBelow(owners + [c], |s.clients|);
  }

  lemma {:induction false} RunKeepsSizes(s: Sys, acts: seq<Action>)
    requires Valid(s, acts)
    ensures |Final(s, acts).clients| == |s.clients| && |Final(s, acts).ring.cells| == |s.ring.cells|
    ensures |Final(s, acts).workers| == |s.workers|
    decreases |acts|
  {
    if acts != [] {
      StepKeepsSizes(s, acts[0]);
      RunKeepsSizes(Apply(s, acts[0]), acts[1..]);
    }
  }

  lemma StepKeepsSizes(s: Sys, a: Action)
    requires Enabled(s, a)
    ensures |Apply(s, a).clients| == |s.clients| && |Apply(s, a).ring.cells| == |s.ring.cells|
    ensures |Apply(s, a).workers| == |s.workers|
  {
  }
}
