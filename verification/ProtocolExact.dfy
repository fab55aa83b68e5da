/**
 Exactly which servers answer every request.  The results on the whole server assume runs in
 which no session's end cuts another off; here the only assumption is that ids do not wrap, and
 the condition is one on the server's sizes: the numbers of client threads, workers and session
 slots.
 */
module ProtocolExact {
  import opened Prelude
  import opened BoundedQueue
  import opened Protocol
  import opened ProtocolFlow
  import opened ProtocolResults
  import opened ProtocolLimits
  import opened ProtocolProgress
  import opened LostRequests
  import S = SessionTable
  import F = FileService

  /** Any run from start-up in which ids do not wrap. */
  ghost predicate AnyRun(cfg: Config, acts: seq<Action>)
    requires Usable(cfg)
  {
    Valid(Start(cfg), acts) && IdsFit(Start(cfg), acts)
  }

  /** No session can be in the way of another. */
  predicate NobodyInTheWay(cfg: Config)
  {
    cfg.clients <= 1 || cfg.slots == 1
  }

  // ---------------------------------------------------------------- one client or one slot

  /** All stored sessions, at most one, are that of the only client. */
  ghost predicate OnlyClientsSession(s: Sys)
  {
    forall i :: 0 <= i < |s.mgr.slots| && s.mgr.slots[i].Some? ==>
      0 < |s.clients| && SidOf(s.clients[0]) == Some(s.mgr.slots[i].value.id)
  }

  ghost predicate Unobstructed(s: Sys)
  {
    SessionsOk(s) && (|s.mgr.slots| == 1 || (|s.clients| <= 1 && OnlyClientsSession(s)))
  }

  lemma TwoSlotsTwoIds(m: S.Manager, i: nat, j: nat)
    requires S.Coherent(m) && i < |m.slots| && j < |m.slots| && m.slots[i].Some? && m.slots[j].Some?
    requires m.slots[i].value.id == m.slots[j].value.id
    ensures i == j
  {
    assert S.Ids(m.slots)[i] == S.Ids(m.slots)[j];
  }

  lemma AtMostOneSession(s: Sys)
    requires SessionsOk(s) && OnlyClientsSession(s)
    ensures forall i: nat, j: nat ::
              i < |s.mgr.slots| && j < |s.mgr.slots| && s.mgr.slots[i].Some? && s.mgr.slots[j].Some? ==> i == j
  {
    var m := s.mgr;
    forall i: nat, j: nat | i < |m.slots| && j < |m.slots| && m.slots[i].Some? && m.slots[j].Some? ensures i == j {
      TwoSlotsTwoIds(m, i, j);
    }
  }

  lemma UnobstructedIsClear(s: Sys, a: Action)
    requires Unobstructed(s) && Enabled(s, a) && (a.Connect? ==> s.mgr.nextId + 1 < TWO_64)
    ensures ClearStep(s, a)
  {
    if a.Destroy? && |s.mgr.slots| > 1 {
      AtMostOneSession(s);
    }
  }

  lemma ConnectKeepsOnlySession(s: Sys, c: nat, fd: int, res: S.Resources)
    requires SessionsOk(s) && |s.clients| <= 1 && OnlyClientsSession(s)
    requires Enabled(s, Connect(c, fd, res)) && ClearStep(s, Connect(c, fd, res))
    ensures OnlyClientsSession(ApplyConnect(s, c, fd, res))
    ensures |ApplyConnect(s, c, fd, res).mgr.slots| == |s.mgr.slots|
  {
    var slot := S.CreateOutcomes(s.mgr, fd, res);
    if S.Create(s.mgr, fd, res).1 != 0 {
      ConnectSucceeds(s, c, fd, res);
    }
  }

  lemma DestroyKeepsOnlySession(s: Sys, c: nat)
    requires SessionsOk(s) && |s.clients| <= 1 && OnlyClientsSession(s)
    requires Enabled(s, Destroy(c)) && ClearStep(s, Destroy(c))
    ensures OnlyClientsSession(ApplyDestroy(s, c)) && |ApplyDestroy(s, c).mgr.slots| == |s.mgr.slots|
  {
    DestroyKeepsSessions(s, c);
    AtMostOneSession(s);
    assert forall i :: 0 <= i < |s.mgr.slots| ==> ApplyDestroy(s, c).mgr.slots[i].None?;
  }

  lemma OtherStepKeepsOnlySession(s: Sys, a: Action)
    requires |s.clients| <= 1 && OnlyClientsSession(s) && Enabled(s, a)
    requires ClientAction(a) && !a.Connect? && !a.Destroy?
    ensures OnlyClientsSession(ApplyClient(s, a)) && |ApplyClient(s, a).mgr.slots| == |s.mgr.slots|
  {
  }

  lemma StepKeepsUnobstructed(s: Sys, a: Action)
    requires Unobstructed(s) && Enabled(s, a) && ClearStep(s, a)
    ensures Unobstructed(Apply(s, a))
  {
    StepKeepsSessions(s, a);
    StepKeepsSizes(s, a);
    if |s.mgr.slots| == 1 {
      StepKeepsSlots(s, a);
    } else if WorkerAction(a) {
      WorkerLeavesSessions(s, a);
    } else if a.Connect? {
      ConnectKeepsOnlySession(s, a.c, a.fd, a.res);
    } else if a.Destroy? {
      DestroyKeepsOnlySession(s, a.c);
    } else if !a.Shutdown? {
      OtherStepKeepsOnlySession(s, a);
    }
  }

  lemma StepKeepsSlots(s: Sys, a: Action)
    requires Enabled(s, a)
    ensures |Apply(s, a).mgr.slots| == |s.mgr.slots|
  {
  }

  lemma {:induction false} UnobstructedRunsAreClear(s: Sys, acts: seq<Action>)
    requires Unobstructed(s) && Valid(s, acts) && IdsFit(s, acts)
    ensures ClearRun(s, acts)
    decreases |acts|
  {
    if acts != [] {
      UnobstructedIsClear(s, acts[0]);
      StepKeepsUnobstructed(s, acts[0]);
      UnobstructedRunsAreClear(Apply(s, acts[0]), acts[1..]);
    }
  }

  /** With one client thread or one slot, all results on clear runs hold of all runs. */
  lemma AllRunsAreClear(cfg: Config, acts: seq<Action>)
    requires Usable(cfg) && NobodyInTheWay(cfg) && AnyRun(cfg, acts)
    ensures RunFrom(cfg, acts)
  {
    StartIsSound(cfg);
    UnobstructedRunsAreClear(Start(cfg), acts);
  }

  // ---------------------------------------------------------------- no workers

  /** All requests wait in the queue, in order. */
  ghost predicate AllQueued(s: Sys)
  {
    && WellFormed(s.ring) && |s.workers| == 0 && s.delivered == [] && s.dropped == []
    && |Contents(s.ring)| == |s.requests|
    && forall i :: 0 <= i < |s.requests| ==> Contents(s.ring)[i].req == i
  }

  /** Only a push adds to the queue, and only a worker takes from it. */
  lemma ClientLeavesQueue(s: Sys, a: Action)
    requires ClientAction(a) && Enabled(s, a) && !(a.Push? && !s.ring.shutdown)
    ensures var s' := ApplyClient(s, a);
            && s'.ring == s.ring && s'.workers == s.workers && s'.requests == s.requests
            && s'.delivered == s.delivered && s'.dropped == s.dropped
  {
  }

  lemma StepKeepsAllQueued(s: Sys, a: Action)
    requires AllQueued(s) && Enabled(s, a)
    ensures AllQueued(Apply(s, a))
  {
    if a.Shutdown? {
      assert Contents(Apply(s, a).ring) == Contents(s.ring);
    } else if a.Push? && !s.ring.shutdown {
      PushSpots(s, a.c);
    } else {
      ClientLeavesQueue(s, a);
    }
  }

  lemma {:induction false} RunKeepsAllQueued(s: Sys, acts: seq<Action>)
    requires AllQueued(s) && Valid(s, acts)
    ensures AllQueued(Final(s, acts))
    decreases |acts|
  {
    if acts != [] {
      StepKeepsAllQueued(s, acts[0]);
      RunKeepsAllQueued(Apply(s, acts[0]), acts[1..]);
    }
  }

  lemma QueuedIsOutstanding(s: Sys)
    requires AllQueued(s)
    ensures AnsweredOnce(s)
  {
    forall req: nat | req < |s.requests| ensures Outstanding(s, req) && !Delivered(s, req) {
      assert Here(s, AtQueue(req)) == Some(Contents(s.ring)[req]);
    }
  }

  // ---------------------------------------------------------------- no request is lost

  /** No run drops an answer. */
  ghost predicate NeverDrops(cfg: Config)
    requires Usable(cfg)
  {
    forall acts :: AnyRun(cfg, acts) ==> After(cfg, acts).dropped == []
  }

  /** In every run each accepted request is on its way or was answered once, on its own session. */
  ghost predicate AlwaysAnsweredOnce(cfg: Config)
    requires Usable(cfg)
  {
    forall acts :: AnyRun(cfg, acts) ==> AnsweredOnce(After(cfg, acts))
  }

  lemma SmallServersAnswerOnce(cfg: Config, acts: seq<Action>)
    requires Usable(cfg) && (NobodyInTheWay(cfg) || cfg.workers == 0) && AnyRun(cfg, acts)
    ensures AnsweredOnce(After(cfg, acts))
  {
    if NobodyInTheWay(cfg) {
      AllRunsAreClear(cfg, acts);
      AnsweredExactlyOnce(cfg, acts);
    } else {
      assert Contents(Start(cfg).ring) == [];
      RunKeepsAllQueued(Start(cfg), acts);
      QueuedIsOutstanding(After(cfg, acts));
    }
  }

  /** Exactly the servers that never drop an answer: one client thread, one session slot, or no
      worker. */
  lemma NeverDropsIff(cfg: Config)
    requires Usable(cfg) && cfg.slots < TWO_63
    ensures NeverDrops(cfg) <==> NobodyInTheWay(cfg) || cfg.workers == 0
  {
    if NobodyInTheWay(cfg) || cfg.workers == 0 {
      forall acts | AnyRun(cfg, acts) ensures After(cfg, acts).dropped == [] {
        SmallServersAnswerOnce(cfg, acts);
      }
    } else {
      var acts := RequestIsLost(cfg);
      assert AnyRun(cfg, acts) && After(cfg, acts).dropped != [];
    }
  }

  /** They are also the servers that account for every request. */
  lemma AlwaysAnsweredOnceIff(cfg: Config)
    requires Usable(cfg) && cfg.slots < TWO_63
    ensures AlwaysAnsweredOnce(cfg) <==> NobodyInTheWay(cfg) || cfg.workers == 0
  {
    if NobodyInTheWay(cfg) || cfg.workers == 0 {
      forall acts | AnyRun(cfg, acts) ensures AnsweredOnce(After(cfg, acts)) {
        SmallServersAnswerOnce(cfg, acts);
      }
    } else {
      var acts := RequestIsLost(cfg);
      assert AnyRun(cfg, acts) && !AnsweredOnce(After(cfg, acts));
    }
  }

  // ---------------------------------------------------------------- every request can be answered

  ghost predicate AllDelivered(s: Sys)
  {
    forall req: nat :: req < |s.requests| ==> Delivered(s, req)
  }

  /** Ordinary worker steps `more` answer everything. */
  ghost predicate Settles(s: Sys, more: seq<Action>)
  {
    Valid(s, more) && OrdinaryRun(s, more) && AllDelivered(Final(s, more))
  }

  /** From wherever a run gets, the workers can answer everything accepted. */
  ghost predicate AlwaysSettles(cfg: Config)
    requires Usable(cfg)
  {
    forall acts :: AnyRun(cfg, acts) ==> exists more :: Settles(After(cfg, acts), more)
  }

  /** What workers do on their own leaves a stranded client stranded. */
  lemma {:induction false} WorkersCannotHelp(s: Sys, more: seq<Action>, d: nat)
    requires Stranded(s, d) && Valid(s, more) && OrdinaryRun(s, more)
    ensures Stranded(Final(s, more), d) && Final(s, more).clients[d] == s.clients[d]
    decreases |more|
  {
    if more != [] {
      WorkerKeepsStranded(s, more[0], d);
      WorkersCannotHelp(Apply(s, more[0]), more[1..], d);
    }
  }

  lemma StrandedNeverSettles(s: Sys, more: seq<Action>, d: nat)
    requires Stranded(s, d)
    ensures !Settles(s, more)
  {
    if Valid(s, more) && OrdinaryRun(s, more) {
      WorkersCannotHelp(s, more, d);
      assert !Delivered(Final(s, more), s.clients[d].req);
    }
  }

  /** The first client is served, and nothing else has happened. */
  predicate Fresh(s: Sys, first: Client)
  {
    && WellFormed(s.ring) && s.ring.size == 0 && !s.ring.shutdown && |s.mgr.slots| > 0
    && |s.clients| > 0 && s.clients[0] == first && s.requests == []
  }

  lemma FirstClientConnects(cfg: Config) returns (s: Sys)
    requires Usable(cfg) && cfg.clients > 0
    ensures Reached(cfg, s) && Fresh(s, Serving(1))
  {
    var s0 := Start(cfg);
    StartIsReached(cfg);
    ReachedIsSound(cfg, s0);
    S.CreateAtHome(s0.mgr, 1 % cfg.slots);
    ConnectSucceeds(s0, 0, 3, S.Available);
    ReachedOn(cfg, s0, Connect(0, 3, S.Available));
    s := Apply(s0, Connect(0, 3, S.Available));
  }

  lemma FirstClientAsks(cfg: Config) returns (s: Sys)
    requires Usable(cfg) && cfg.clients > 0
    ensures Reached(cfg, s) && Fresh(s, Cleared(1, F.List, None)) && Enabled(s, Push(0))
  {
    var s1 := FirstClientConnects(cfg);
    ReachedOn(cfg, s1, Command(0, F.List));
    var s2 := Apply(s1, Command(0, F.List));
    ReachedOn(cfg, s2, Reset(0));
    s := Apply(s2, Reset(0));
  }

  /** Without workers the first request of a client stays in the queue. */
  lemma FirstRequest(cfg: Config) returns (acts: seq<Action>)
    requires Usable(cfg) && cfg.clients > 0 && cfg.workers == 0
    ensures AnyRun(cfg, acts) && |After(cfg, acts).requests| == 1 && AllQueued(After(cfg, acts))
  {
    var s := FirstClientAsks(cfg);
    PushSpots(s, 0);
    var before :| RunFrom(cfg, before) && After(cfg, before) == s;
    OneMoreStep(Start(cfg), before, Push(0));
    acts := before + [Push(0)];
    ClearIdsFit(Start(cfg), acts);
    assert Contents(Start(cfg).ring) == [];
    RunKeepsAllQueued(Start(cfg), acts);
  }

  lemma NoWorkersNeverSettle(s: Sys, more: seq<Action>)
    requires AllQueued(s) && |s.requests| > 0
    ensures !Settles(s, more)
  {
    if Valid(s, more) && OrdinaryRun(s, more) {
      assert more == [];
      assert !Delivered(s, 0);
    }
  }

  /** Exactly the servers on which every accepted request can always still be answered: nobody to
      ask, or a worker and nobody in the way. */
  lemma AlwaysSettlesIff(cfg: Config)
    requires Usable(cfg) && cfg.slots < TWO_63
    ensures AlwaysSettles(cfg) <==> cfg.clients == 0 || (cfg.workers > 0 && NobodyInTheWay(cfg))
  {
    if cfg.clients > 0 && cfg.workers == 0 {
      var acts := FirstRequest(cfg);
      forall more ensures !Settles(After(cfg, acts), more) {
        NoWorkersNeverSettle(After(cfg, acts), more);
      }
    } else if !NobodyInTheWay(cfg) {
      var acts := RequestIsLost(cfg);
      forall more ensures !Settles(After(cfg, acts), more) {
        StrandedNeverSettles(After(cfg, acts), more, 1);
      }
    } else {
      forall acts | AnyRun(cfg, acts) ensures exists more :: Settles(After(cfg, acts), more) {
        var more := SettlingRun(cfg, acts);
        assert Settles(After(cfg, acts), more);
      }
    }
  }

  lemma SettlingRun(cfg: Config, acts: seq<Action>) returns (more: seq<Action>)
    requires Usable(cfg) && NobodyInTheWay(cfg) && (cfg.clients == 0 || cfg.workers > 0) && AnyRun(cfg, acts)
    ensures Settles(After(cfg, acts), more)
  {
    AllRunsAreClear(cfg, acts);
    if cfg.workers > 0 {
      more := EveryRequestIsAnswered(cfg, acts);
    } else {
      NobodyAsks(Start(cfg), acts);
      more := [];
    }
  }

  lemma {:induction false} NobodyAsks(s: Sys, acts: seq<Action>)
    requires Valid(s, acts) && s.clients == [] && s.requests == []
    ensures Final(s, acts).requests == []
    decreases |acts|
  {
    if acts != [] {
      NobodyAsks(Apply(s, acts[0]), acts[1..]);
    }
  }
}
