/**
 A run of the whole server, from start-up, that loses a request: a long session in the home slot
 of a younger one ends just before the younger one's answer is delivered.  It exists for every
 table of two slots or more, with two client threads and a worker.
 */
module LostRequests {
  import opened Prelude
  import opened Probing
  import opened BoundedQueue
  import opened Protocol
  import opened ProtocolFlow
  import opened ProtocolResults
  import opened ProtocolLimits
  import S = SessionTable
  import F = FileService

  // ---------------------------------------------------------------- reachable states

  /** The server can get into this state without cutting a session off. */
  ghost predicate Reached(cfg: Config, s: Sys)
    requires Usable(cfg)
  {
    exists acts :: RunFrom(cfg, acts) && After(cfg, acts) == s
  }

  lemma OneMoreStep(s: Sys, acts: seq<Action>, a: Action)
    requires Valid(s, acts) && ClearRun(s, acts) && Enabled(Final(s, acts), a) && ClearStep(Final(s, acts), a)
    ensures Valid(s, acts + [a]) && ClearRun(s, acts + [a]) && Final(s, acts + [a]) == Apply(Final(s, acts), a)
  {
    OnlyStep(Final(s, acts), a);
    assert ClearRun(Final(s, acts), [a]) by {
      assert [a][1..] == [] && ClearRun(Apply(Final(s, acts), a), []);
    }
    RunsJoin(s, acts, [a]);
  }

  lemma ReachedOn(cfg: Config, s: Sys, a: Action)
    requires Usable(cfg) && Reached(cfg, s) && Enabled(s, a) && ClearStep(s, a)
    ensures Reached(cfg, Apply(s, a))
  {
    var acts :| RunFrom(cfg, acts) && After(cfg, acts) == s;
    OneMoreStep(Start(cfg), acts, a);
    assert RunFrom(cfg, acts + [a]) && After(cfg, acts + [a]) == Apply(s, a);
  }

  lemma ReachedIsSound(cfg: Config, s: Sys)
    requires Usable(cfg) && Reached(cfg, s)
    ensures Sound(s)
  {
    var acts :| RunFrom(cfg, acts) && After(cfg, acts) == s;
    AfterIsSound(cfg, acts);
  }

  lemma ReachedIsCoherent(cfg: Config, s: Sys)
    requires Usable(cfg) && Reached(cfg, s)
    ensures S.Coherent(s.mgr)
  {
    ReachedIsSound(cfg, s);
  }

  lemma StartIsReached(cfg: Config)
    requires Usable(cfg)
    ensures Reached(cfg, Start(cfg))
  {
    assert RunFrom(cfg, []) && After(cfg, []) == Start(cfg);
  }

  /** The counter of session ids does not wrap. */
  ghost predicate IdsFit(s: Sys, acts: seq<Action>)
    requires Valid(s, acts)
    decreases |acts|
  {
    acts == [] ||
    ((acts[0].Connect? ==> s.mgr.nextId + 1 < TWO_64) && IdsFit(Apply(s, acts[0]), acts[1..]))
  }

  lemma {:induction false} ClearIdsFit(s: Sys, acts: seq<Action>)
    requires Valid(s, acts) && ClearRun(s, acts)
    ensures IdsFit(s, acts)
    decreases |acts|
  {
    if acts != [] {
      ClearIdsFit(Apply(s, acts[0]), acts[1..]);
    }
  }

  lemma {:induction false} NoConnectFits(s: Sys, acts: seq<Action>)
    requires Valid(s, acts) && forall k :: 0 <= k < |acts| ==> !acts[k].Connect?
    ensures IdsFit(s, acts)
    decreases |acts|
  {
    if acts != [] {
      assert !acts[0].Connect?;
      NoConnectFits(Apply(s, acts[0]), acts[1..]);
    }
  }

  lemma {:induction false} IdsFitOn(s: Sys, acts: seq<Action>, more: seq<Action>)
    requires Valid(s, acts) && IdsFit(s, acts) && Valid(Final(s, acts), more) && IdsFit(Final(s, acts), more)
    ensures Valid(s, acts + more) && IdsFit(s, acts + more)
    decreases |acts|
  {
    if acts == [] {
      assert acts + more == more;
    } else {
      assert (acts + more)[0] == acts[0] && (acts + more)[1..] == acts[1..] + more;
      IdsFitOn(Apply(s, acts[0]), acts[1..], more);
    }
  }

  // ---------------------------------------------------------------- sessions come and go

  /** Two clients stand as given, and worker 0 has nothing to do. */
  predicate Quiet(s: Sys, first: Client, second: Client)
  {
    && WellFormed(s.ring) && s.ring.size == 0 && !s.ring.shutdown && |s.mgr.slots| > 0
    && |s.clients| >= 2 && s.clients[0] == first && s.clients[1] == second
    && 0 < |s.workers| == |s.svc.jobs| == |s.svc.locks.phases|
    && s.workers[0].Popping? && s.svc.jobs[0].NoJob?
  }

  /** A session in its home slot can be found there. */
  function HomeOf(k: nat, n: nat): (home: nat)
    requires 0 < k <= n
    ensures home < n && home == k % n
  {
    S.SmallModulus(k, n);
    if k == n then 0 else k
  }

  /** Session 1 stays with the first client; session `k` of the second client is in its home slot. */
  ghost predicate Visiting(s: Sys, n: nat, k: nat, second: Client, active: bool)
    requires 2 <= k <= n
  {
    && Quiet(s, Serving(1), second)
    && TwoAtHome(s.mgr, n, k, active)
  }

  ghost predicate TwoAtHome(m: S.Manager, n: nat, k: nat, active: bool)
    requires 2 <= k <= n
  {
    && |m.slots| == n && m.nextId == k + 1
    && forall i :: 0 <= i < n ==>
         m.slots[i] == if i == 1 then Some(S.Entry(1, 3, true))
                       else if i == HomeOf(k, n) then Some(S.Entry(k, 3, active))
                       else None
  }

  lemma VisitorLeavesTable(m: S.Manager, n: nat, k: nat)
    requires 2 <= k <= n && TwoAtHome(m, n, k, false)
    ensures S.OnlySessionOne(S.Destroy(m, k), n, k + 1) && S.Find(m, k).Some?
  {
    S.DestroyAtHome(m, k, HomeOf(k, n));
  }

  ghost predicate Vacant(s: Sys, n: nat, k: nat)
  {
    Quiet(s, Serving(1), Accepting) && S.OnlySessionOne(s.mgr, n, k)
  }

  lemma VisitorComes(cfg: Config, s: Sys, n: nat, k: nat)
    requires Usable(cfg) && Reached(cfg, s) && 2 <= k <= n < TWO_63 && Vacant(s, n, k)
    ensures var s' := Apply(s, Connect(1, 3, S.Available));
            Reached(cfg, s') && Visiting(s', n, k, Serving(k), true)
  {
    ReachedIsSound(cfg, s);
    S.CreateAtHome(s.mgr, HomeOf(k, n));
    ConnectSucceeds(s, 1, 3, S.Available);
    ReachedOn(cfg, s, Connect(1, 3, S.Available));
  }

  lemma VisitorLeaves(cfg: Config, s: Sys, n: nat, k: nat)
    requires Usable(cfg) && Reached(cfg, s) && 2 <= k <= n < TWO_63 && Visiting(s, n, k, Serving(k), true)
    ensures var s' := Apply(s, Quit(1));
            && Enabled(s', Mark(1)) && Reached(cfg, Apply(s', Mark(1)))
            && Visiting(Apply(s', Mark(1)), n, k, Marked(k), false)
  {
    var s1 := Apply(s, Quit(1));
    ReachedOn(cfg, s, Quit(1));
    S.DestroyAtHome(s1.mgr, k, HomeOf(k, n));
    ReachedOn(cfg, s1, Mark(1));
  }

  lemma VisitorIsClear(s: Sys, n: nat, k: nat)
    requires 2 <= k <= n && Visiting(s, n, k, Marked(k), false) && S.Coherent(s.mgr)
    ensures S.CutsNobodyOff(s.mgr, k)
  {
    S.SmallModulus(1, n);
    S.HomeIsClear(s.mgr, k);
  }

  lemma VisitorIsCleared(s: Sys, n: nat, k: nat)
    requires 2 <= k <= n && Visiting(s, n, k, Marked(k), false)
    ensures Vacant(Apply(s, Destroy(1)), n, k + 1)
  {
    VisitorLeavesTable(s.mgr, n, k);
  }

  lemma VisitorIsGone(cfg: Config, s: Sys, n: nat, k: nat)
    requires Usable(cfg) && Reached(cfg, s) && 2 <= k <= n < TWO_63 && Visiting(s, n, k, Marked(k), false)
    ensures Reached(cfg, Apply(s, Destroy(1))) && Vacant(Apply(s, Destroy(1)), n, k + 1)
  {
    ReachedIsCoherent(cfg, s);
    VisitorIsClear(s, n, k);
    ReachedOn(cfg, s, Destroy(1));
    VisitorIsCleared(s, n, k);
  }

  lemma OneVisit(cfg: Config, s: Sys, n: nat, k: nat) returns (s': Sys)
    requires Usable(cfg) && Reached(cfg, s) && 2 <= k <= n < TWO_63 && Vacant(s, n, k)
    ensures Reached(cfg, s') && Vacant(s', n, k + 1)
  {
    VisitorComes(cfg, s, n, k);
    var s1 := Apply(s, Connect(1, 3, S.Available));
    VisitorLeaves(cfg, s1, n, k);
    var s2 := Apply(Apply(s1, Quit(1)), Mark(1));
    VisitorIsGone(cfg, s2, n, k);
    s' := Apply(s2, Destroy(1));
  }

  /** One short session after the other. */
  lemma {:induction false} VisitorsComeAndGo(cfg: Config, s: Sys, n: nat, k: nat) returns (s': Sys)
    requires Usable(cfg) && Reached(cfg, s) && 2 <= k <= n + 1 && 2 <= n < TWO_63 && Vacant(s, n, k)
    ensures Reached(cfg, s') && Vacant(s', n, n + 1)
    decreases n + 1 - k
  {
    if k == n + 1 {
      s' := s;
    } else {
      var s1 := OneVisit(cfg, s, n, k);
      s' := VisitorsComeAndGo(cfg, s1, n, k + 1);
    }
  }

  lemma FirstClientComes(cfg: Config)
    requires Usable(cfg) && cfg.clients >= 2 && cfg.workers > 0 && 2 <= cfg.slots < TWO_63
    ensures Enabled(Start(cfg), Connect(0, 3, S.Available))
    ensures Reached(cfg, Apply(Start(cfg), Connect(0, 3, S.Available)))
    ensures Vacant(Apply(Start(cfg), Connect(0, 3, S.Available)), cfg.slots, 2)
  {
    var s := Start(cfg);
    StartIsReached(cfg);
    ReachedIsSound(cfg, s);
    S.SmallModulus(1, cfg.slots);
    S.CreateAtHome(s.mgr, 1);
    ConnectSucceeds(s, 0, 3, S.Available);
    ReachedOn(cfg, s, Connect(0, 3, S.Available));
  }

  // ---------------------------------------------------------------- the last session

  /** Session 1 is in its home slot, and session `n + 1` in the slot behind, though its home is the
      same. */
  ghost predicate Displaced(m: S.Manager, n: nat, active: bool)
    requires n >= 2
  {
    && |m.slots| == n && m.nextId == n + 2
    && m.slots[1] == Some(S.Entry(1, 3, active)) && m.slots[Walk(1, 1, n)] == Some(S.Entry(n + 1, 3, true))
  }

  lemma LastClientComes(cfg: Config, s: Sys, n: nat)
    requires Usable(cfg) && Reached(cfg, s) && 2 <= n < TWO_63 && Vacant(s, n, n + 1)
    ensures var s' := Apply(s, Connect(1, 3, S.Available));
            Reached(cfg, s') && Quiet(s', Serving(1), Serving(n + 1)) && Displaced(s'.mgr, n, true)
  {
    ReachedIsSound(cfg, s);
    S.SmallModulus(1, n);
    S.CreatePastSessionOne(s.mgr, n, Walk(1, 1, n));
    ConnectSucceeds(s, 1, 3, S.Available);
    ReachedOn(cfg, s, Connect(1, 3, S.Available));
  }

  /** The second client asks for a listing. */
  lemma ClientAsks(cfg: Config, s: Sys, sid: nat) returns (s': Sys)
    requires Usable(cfg) && Reached(cfg, s) && Quiet(s, Serving(1), Serving(sid))
    ensures Reached(cfg, s') && Quiet(s', Serving(1), Cleared(sid, F.List, None)) && s'.mgr == s.mgr
  {
    var s1 := Apply(s, Command(1, F.List));
    ReachedOn(cfg, s, Command(1, F.List));
    s' := Apply(s1, Reset(1));
    ReachedOn(cfg, s1, Reset(1));
  }

  /** Worker 0 has the task of the second client, and no other worker's step matters. */
  ghost predicate Working(s: Sys, first: Client, sid: nat)
  {
    && WellFormed(s.ring) && |s.mgr.slots| > 0 && |s.clients| >= 2 && s.clients[0] == first
    && s.clients[1].Waiting? && s.clients[1].sid == sid
    && 0 < |s.workers| == |s.svc.jobs| == |s.svc.locks.phases|
    && s.workers[0].Running? && s.workers[0].task.sid == sid
  }

  lemma WorkerTakesTask(cfg: Config, s: Sys, sid: nat) returns (s': Sys)
    requires Usable(cfg) && Reached(cfg, s) && Quiet(s, Serving(1), Cleared(sid, F.List, None))
    ensures Reached(cfg, s') && Working(s', Serving(1), sid) && s'.mgr == s.mgr && s'.svc.jobs[0] == F.Start(F.List)
  {
    var s1 := Apply(s, Push(1));
    PushSpots(s, 1);
    assert s1.ring.size > 0 by {
      assert |Contents(s1.ring)| == 1;
    }
    ReachedOn(cfg, s, Push(1));
    assert Contents(s1.ring)[0].sid == sid && Contents(s1.ring)[0].op == F.List;
    s' := Apply(s1, Pop(0));
    PopTakesOldest(s1.ring);
    ReachedOn(cfg, s1, Pop(0));
  }

  lemma AnswersList(svc: F.Service)
    requires 0 < |svc.jobs| == |svc.locks.phases| && svc.jobs[0] == F.Start(F.List)
    ensures F.Enabled(svc, F.AnswerList(0, []))
    ensures var svc' := F.Apply(svc, F.AnswerList(0, []));
            F.Enabled(svc', F.Finish(0)) && |svc'.jobs| == |svc.jobs| == |svc'.locks.phases|
  {
  }

  lemma ListingStep(s: Sys, first: Client, sid: nat)
    requires Working(s, first, sid) && s.svc.jobs[0] == F.Start(F.List)
    ensures Enabled(s, Exec(0, F.AnswerList(0, [])))
    ensures var s' := Apply(s, Exec(0, F.AnswerList(0, [])));
            Working(s', first, sid) && s'.mgr == s.mgr && Finished(s', 0)
  {
    AnswersList(s.svc);
  }

  lemma WorkerFinishes(cfg: Config, s: Sys, sid: nat) returns (s': Sys)
    requires Usable(cfg) && Reached(cfg, s) && Working(s, Serving(1), sid)
    requires s.svc.jobs[0] == F.Start(F.List)
    ensures Reached(cfg, s') && Working(s', Serving(1), sid) && s'.mgr == s.mgr && Finished(s', 0)
  {
    ListingStep(s, Serving(1), sid);
    s' := Apply(s, Exec(0, F.AnswerList(0, [])));
    ReachedOn(cfg, s, Exec(0, F.AnswerList(0, [])));
  }

  /** The worker does not notice what the first client does. */
  lemma FirstClientMoves(s: Sys, s': Sys, first: Client, next: Client, sid: nat)
    requires Working(s, first, sid) && Finished(s, 0) && |s'.mgr.slots| > 0
    requires s'.clients == s.clients[0 := next] && s'.ring == s.ring && s'.workers == s.workers && s'.svc == s.svc
    ensures Working(s', next, sid) && Finished(s', 0)
  {
  }

  lemma FirstClientQuits(cfg: Config, s: Sys, n: nat)
    requires Usable(cfg) && Reached(cfg, s) && 2 <= n < TWO_63
    requires Working(s, Serving(1), n + 1) && Displaced(s.mgr, n, true) && Finished(s, 0)
    ensures var s' := Apply(s, Quit(0));
            && Reached(cfg, s') && Working(s', Leaving(1), n + 1) && Displaced(s'.mgr, n, true) && Finished(s', 0)
  {
    ReachedOn(cfg, s, Quit(0));
    FirstClientMoves(s, Apply(s, Quit(0)), Serving(1), Leaving(1), n + 1);
  }

  lemma MarksFirst(m: S.Manager, n: nat)
    requires 2 <= n && Displaced(m, n, true)
    ensures Displaced(S.MarkInactive(m, 1), n, false)
  {
    S.SmallModulus(1, n);
    S.DestroyAtHome(m, 1, 1);
  }

  lemma FirstClientIsMarked(cfg: Config, s: Sys, n: nat)
    requires Usable(cfg) && Reached(cfg, s) && 2 <= n < TWO_63
    requires Working(s, Leaving(1), n + 1) && Displaced(s.mgr, n, true) && Finished(s, 0)
    ensures var s' := Apply(s, Mark(0));
            && Reached(cfg, s') && Working(s', Marked(1), n + 1) && Displaced(s'.mgr, n, false) && Finished(s', 0)
  {
    MarksFirst(s.mgr, n);
    ReachedOn(cfg, s, Mark(0));
    FirstClientMoves(s, Apply(s, Mark(0)), Leaving(1), Marked(1), n + 1);
  }

  lemma FirstIsOnTheWay(s: Sys, n: nat)
    requires FlowOk(s) && 2 <= n < TWO_63 && Working(s, Marked(1), n + 1) && Displaced(s.mgr, n, false)
    ensures OnTheWayOf(s, 0, 1)
  {
    var j := Walk(1, 1, n);
    S.SmallModulus(1, n);
    S.DestroyAtHome(s.mgr, 1, 1);
    assert S.Findable(s.mgr, j);
    S.FoundIffFindable(s.mgr, j);
    assert Distance(1, j, n) == 1 && Distance(1, 1, n) == 0;
  }

  /** The second client has the session behind the first client's. */
  lemma SessionsCollide(cfg: Config) returns (s: Sys)
    requires Usable(cfg) && cfg.clients >= 2 && cfg.workers > 0 && 2 <= cfg.slots < TWO_63
    ensures Reached(cfg, s) && Displaced(s.mgr, cfg.slots, true) && Quiet(s, Serving(1), Serving(cfg.slots + 1))
  {
    FirstClientComes(cfg);
    s := VisitorsComeAndGo(cfg, Apply(Start(cfg), Connect(0, 3, S.Available)), cfg.slots, 2);
    LastClientComes(cfg, s, cfg.slots);
    s := Apply(s, Connect(1, 3, S.Available));
  }

  /** The second client's request has been worked on. */
  lemma WorkIsDone(cfg: Config, s: Sys, sid: nat) returns (s': Sys)
    requires Usable(cfg) && Reached(cfg, s) && Quiet(s, Serving(1), Serving(sid))
    ensures Reached(cfg, s') && Working(s', Serving(1), sid) && Finished(s', 0) && s'.mgr == s.mgr
  {
    s' := ClientAsks(cfg, s, sid);
    s' := WorkerTakesTask(cfg, s', sid);
    s' := WorkerFinishes(cfg, s', sid);
  }

  /** Just before the first client's session ends. */
  lemma AnswerIsUnderWay(cfg: Config) returns (s: Sys)
    requires Usable(cfg) && cfg.clients >= 2 && cfg.workers > 0 && 2 <= cfg.slots < TWO_63
    ensures Reached(cfg, s) && Displaced(s.mgr, cfg.slots, false)
    ensures Working(s, Marked(1), cfg.slots + 1) && Finished(s, 0)
  {
    s := SessionsCollide(cfg);
    s := WorkIsDone(cfg, s, cfg.slots + 1);
    FirstClientQuits(cfg, s, cfg.slots);
    s := Apply(s, Quit(0));
    FirstClientIsMarked(cfg, s, cfg.slots);
    s := Apply(s, Mark(0));
  }

  /** The run from there on. */
  lemma AnswerGetsLost(s: Sys, n: nat) returns (acts: seq<Action>)
    requires FlowOk(s) && 2 <= n < TWO_63
    requires Working(s, Marked(1), n + 1) && Displaced(s.mgr, n, false) && Finished(s, 0)
    ensures Valid(s, acts) && IdsFit(s, acts) && Lost(Final(s, acts), 1)
  {
    FirstIsOnTheWay(s, n);
    acts := DestroyOnTheWayStrands(s, 0, 1, 0);
    NoConnectFits(s, acts);
  }

  /** A run from start-up that drops the answer to the second client's request and leaves the
      client waiting for ever. Up to the end of the first client's session it cuts nobody off. */
  lemma RequestIsLost(cfg: Config) returns (acts: seq<Action>)
    requires Usable(cfg) && cfg.clients >= 2 && cfg.workers > 0 && 2 <= cfg.slots < TWO_63
    ensures Valid(Start(cfg), acts) && IdsFit(Start(cfg), acts)
    ensures Lost(After(cfg, acts), 1)
  {
    var s := AnswerIsUnderWay(cfg);
    var before :| RunFrom(cfg, before) && After(cfg, before) == s;
    AfterIsSound(cfg, before);
    var rest := AnswerGetsLost(s, cfg.slots);
    RunsJoin(Start(cfg), before, rest);
    ClearIdsFit(Start(cfg), before);
    IdsFitOn(Start(cfg), before, rest);
    acts := before + rest;
  }
}
