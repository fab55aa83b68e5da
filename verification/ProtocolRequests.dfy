/**
 From what clients send to what workers do: each request is the command, or the upload with the
 very bytes, that its client sent last before it pushed; so a download returns bytes that some
 client sent, and a listing is the one a worker built for that request.
 */
module ProtocolRequests {
  import opened Prelude
  import opened BoundedQueue
  import opened Protocol
  import opened ProtocolFlow
  import opened ProtocolBuffers
  import opened ProtocolResults
  import opened ProtocolHistory
  import D = DiskPaths
  import F = FileService
  import FL = FileLocks
  import R = FileServiceResults

  // ---------------------------------------------------------------- runs, one step at the end

  lemma {:induction false} LastStep(s: Sys, acts: seq<Action>)
    requires Valid(s, acts) && acts != []
    ensures var front, last := acts[..|acts| - 1], acts[|acts| - 1];
            Valid(s, front) && Enabled(Final(s, front), last) && Final(s, acts) == Apply(Final(s, front), last)
    decreases |acts|
  {
    var n := |acts| - 1;
    if n > 0 {
      LastStep(Apply(s, acts[0]), acts[1..]);
      assert acts[1..][..n - 1] == acts[..n][1..];
    }
  }

  // ---------------------------------------------------------------- what a client has said

  /** Client `c` gives a command or a part of one. */
  predicate Says(a: Action, c: nat)
  {
    (a.Command? || a.StartUpload? || a.UploadArrives?) && a.c == c
  }

  /** The client says nothing from step `i` to step `j`. */
  predicate Silent(acts: seq<Action>, c: nat, i: nat, j: nat)
  {
    forall k :: i <= k < j && k < |acts| ==> !Says(acts[k], c)
  }

  /** Step `q` begins an upload, the last thing the client said before step `n`. */
  predicate StartAt(acts: seq<Action>, c: nat, n: nat, path: FL.Path, size: nat, q: nat)
  {
    q < n <= |acts| && acts[q] == StartUpload(c, path, size) && Silent(acts, c, q + 1, n)
  }

  ghost predicate Started(acts: seq<Action>, c: nat, n: nat, path: FL.Path, size: nat)
  {
    exists q: nat :: StartAt(acts, c, n, path, size, q)
  }

  /** Step `q` names the operation, the last thing the client said before step `n`: a command, or the
      bytes of an upload, as many as the client announced for that path just before. */
  ghost predicate NamedAt(acts: seq<Action>, c: nat, n: nat, op: F.Op, q: nat)
  {
    && q < n <= |acts| && Silent(acts, c, q + 1, n)
    && (if op.Upload? then acts[q] == UploadArrives(c, op.data) && Started(acts, c, q, op.path, |op.data|)
        else acts[q] == Command(c, op))
  }

  ghost predicate Asked(acts: seq<Action>, c: nat, n: nat, op: F.Op)
  {
    exists q: nat :: NamedAt(acts, c, n, op, q)
  }

  /** Step `p` is the push that made request `k`, for the operation its client asked for. */
  ghost predicate PushedAt(cfg: Config, acts: seq<Action>, r: Request, k: nat, p: nat)
    requires Usable(cfg)
  {
    && p < |acts| && acts[p] == Push(r.client)
    && Valid(Start(cfg), acts[..p]) && |After(cfg, acts[..p]).requests| == k
    && Asked(acts, r.client, p, r.op)
  }

  ghost predicate Issued(cfg: Config, acts: seq<Action>, r: Request, k: nat)
    requires Usable(cfg)
  {
    exists p: nat :: PushedAt(cfg, acts, r, k, p)
  }

  lemma StartedOn(acts: seq<Action>, a: Action, c: nat, n: nat, path: FL.Path, size: nat)
    requires Started(acts, c, n, path, size)
    ensures Started(acts + [a], c, n, path, size)
    ensures n == |acts| && !Says(a, c) ==> Started(acts + [a], c, n + 1, path, size)
  {
    var q: nat :| StartAt(acts, c, n, path, size, q);
    assert StartAt(acts + [a], c, n, path, size, q);
    if n == |acts| && !Says(a, c) {
      assert StartAt(acts + [a], c, n + 1, path, size, q);
    }
  }

  lemma AskedOn(acts: seq<Action>, a: Action, c: nat, n: nat, op: F.Op)
    requires Asked(acts, c, n, op)
    ensures Asked(acts + [a], c, n, op)
    ensures n == |acts| && !Says(a, c) ==> Asked(acts + [a], c, n + 1, op)
  {
    var q: nat :| NamedAt(acts, c, n, op, q);
    if op.Upload? {
      StartedOn(acts, a, c, q, op.path, |op.data|);
    }
    assert NamedAt(acts + [a], c, n, op, q);
    if n == |acts| && !Says(a, c) {
      assert NamedAt(acts + [a], c, n + 1, op, q);
    }
  }

  lemma IssuedOn(cfg: Config, acts: seq<Action>, a: Action, r: Request, k: nat)
    requires Usable(cfg) && Issued(cfg, acts, r, k)
    ensures Issued(cfg, acts + [a], r, k)
  {
    var p: nat :| PushedAt(cfg, acts, r, k, p);
    AskedOn(acts, a, r.client, p, r.op);
    assert (acts + [a])[..p] == acts[..p];
    assert PushedAt(cfg, acts + [a], r, k, p);
  }

  /** What a client is busy with is what it said last. */
  ghost predicate BusyWith(acts: seq<Action>, c: nat, cl: Client)
  {
    match cl
    case Receiving(_, path, size, _) => Started(acts, c, |acts|, path, size)
    case Ready(_, op, _) => Asked(acts, c, |acts|, op)
    case Cleared(_, op, _) => Asked(acts, c, |acts|, op)
    case _ => true
  }

  ghost predicate AllBusyWith(acts: seq<Action>, clients: seq<Client>)
  {
    forall c: nat :: c < |clients| ==> BusyWith(acts, c, clients[c])
  }

  ghost predicate AllIssued(cfg: Config, acts: seq<Action>, requests: seq<Request>)
    requires Usable(cfg)
  {
    forall k: nat :: k < |requests| ==> Issued(cfg, acts, requests[k], k)
  }

  lemma BusyOn(acts: seq<Action>, a: Action, c: nat, cl: Client)
    requires BusyWith(acts, c, cl) && !Says(a, c)
    ensures BusyWith(acts + [a], c, cl)
  {
    match cl {
      case Receiving(_, path, size, _) => StartedOn(acts, a, c, |acts|, path, size);
      case Ready(_, op, _) => AskedOn(acts, a, c, |acts|, op);
      case Cleared(_, op, _) => AskedOn(acts, a, c, |acts|, op);
      case _ =>
    }
  }

  /** A new word of the client, at the end of the run. */
  lemma SaysNow(acts: seq<Action>, a: Action, s: Sys)
    requires Enabled(s, a) && (a.Command? || a.StartUpload? || a.UploadArrives?)
    requires BusyWith(acts, a.c, s.clients[a.c])
    ensures BusyWith(acts + [a], a.c, ApplyClient(s, a).clients[a.c])
  {
    var all, n := acts + [a], |acts|;
    match a {
      case Command(c, op) => assert NamedAt(all, c, n + 1, op, n);
      case StartUpload(c, path, size) => assert StartAt(all, c, n + 1, path, size, n);
      case UploadArrives(c, data) =>
        StartedOn(acts, a, c, n, s.clients[c].path, s.clients[c].size);
        assert NamedAt(all, c, n + 1, F.Upload(s.clients[c].path, data), n);
    }
  }

  /** The acting client, for all its other steps. */
  lemma MovesOn(acts: seq<Action>, a: Action, s: Sys)
    requires Enabled(s, a) && ClientAction(a) && !a.Command? && !a.StartUpload? && !a.UploadArrives?
    requires BusyWith(acts, a.c, s.clients[a.c])
    ensures a.c < |ApplyClient(s, a).clients| && BusyWith(acts + [a], a.c, ApplyClient(s, a).clients[a.c])
  {
    BusyOn(acts, a, a.c, s.clients[a.c]);
  }

  /** A step of a client changes no other client. */
  lemma OnlyActorMoves(s: Sys, a: Action)
    requires Enabled(s, a)
    ensures |Apply(s, a).clients| == |s.clients|
    ensures forall c: nat :: c < |s.clients| && !(ClientAction(a) && a.c == c) ==>
              Apply(s, a).clients[c] == s.clients[c]
    ensures !a.Push? ==> Apply(s, a).requests == s.requests
  {
  }

  lemma StepKeepsBusy(acts: seq<Action>, a: Action, s: Sys)
    requires AllBusyWith(acts, s.clients) && Enabled(s, a)
    ensures AllBusyWith(acts + [a], Apply(s, a).clients)
  {
    var clients' := Apply(s, a).clients;
    OnlyActorMoves(s, a);
    forall c: nat | c < |clients'| ensures BusyWith(acts + [a], c, clients'[c]) {
      if ClientAction(a) && a.c == c {
        if Says(a, c) {
          SaysNow(acts, a, s);
        } else {
          MovesOn(acts, a, s);
        }
      } else {
        BusyOn(acts, a, c, s.clients[c]);
      }
    }
  }

  /** A push makes a request of what its client is busy with, or none. */
  lemma PushIssues(s: Sys, c: nat)
    requires Enabled(s, Push(c))
    ensures var requests := ApplyPush(s, c).requests;
            requests == s.requests || requests == s.requests + [Request(c, s.clients[c].sid, s.clients[c].op)]
  {
  }

  lemma StepKeepsIssued(cfg: Config, acts: seq<Action>, a: Action)
    requires Usable(cfg) && Valid(Start(cfg), acts) && Enabled(After(cfg, acts), a)
    requires AllBusyWith(acts, After(cfg, acts).clients) && AllIssued(cfg, acts, After(cfg, acts).requests)
    ensures AllIssued(cfg, acts + [a], Apply(After(cfg, acts), a).requests)
  {
    var s, all := After(cfg, acts), acts + [a];
    var requests' := Apply(s, a).requests;
    if a.Push? {
      PushIssues(s, a.c);
    } else {
      OnlyActorMoves(s, a);
    }
    forall k: nat | k < |requests'| ensures Issued(cfg, all, requests'[k], k) {
      if k < |s.requests| {
        IssuedOn(cfg, acts, a, s.requests[k], k);
      } else {
        assert BusyWith(acts, a.c, s.clients[a.c]);
        AskedOn(acts, a, a.c, |acts|, s.clients[a.c].op);
        assert all[..|acts|] == acts;
        assert PushedAt(cfg, all, requests'[k], k, |acts|);
      }
    }
  }

  lemma {:induction false} RunKeepsIssued(cfg: Config, acts: seq<Action>)
    requires Usable(cfg) && Valid(Start(cfg), acts)
    ensures AllBusyWith(acts, After(cfg, acts).clients) && AllIssued(cfg, acts, After(cfg, acts).requests)
    decreases |acts|
  {
    if acts != [] {
      var front, a := acts[..|acts| - 1], acts[|acts| - 1];
      LastStep(Start(cfg), acts);
      assert front + [a] == acts;
      RunKeepsIssued(cfg, front);
      StepKeepsBusy(front, a, After(cfg, front));
      StepKeepsIssued(cfg, front, a);
    }
  }

  /** In every run, each request is for what its client asked last before it pushed: the command it
      gave, or the path it announced with the bytes that arrived. */
  lemma RequestsAreAsked(cfg: Config, acts: seq<Action>, k: nat) returns (p: nat)
    requires Usable(cfg) && Valid(Start(cfg), acts) && k < |After(cfg, acts).requests|
    ensures PushedAt(cfg, acts, After(cfg, acts).requests[k], k, p)
  {
    RunKeepsIssued(cfg, acts);
    assert Issued(cfg, acts, After(cfg, acts).requests[k], k);
    p :| PushedAt(cfg, acts, After(cfg, acts).requests[k], k, p);
  }

  // ---------------------------------------------------------------- downloads return what was sent

  /** Step `q`: client `c` has sent these bytes for that path. */
  ghost predicate BytesSent(acts: seq<Action>, c: nat, path: FL.Path, bytes: F.Bytes, q: nat)
  {
    q < |acts| && acts[q] == UploadArrives(c, bytes) && Started(acts, c, q, path, |bytes|)
  }

  ghost predicate SentFor(acts: seq<Action>, p: D.Place, bytes: F.Bytes)
  {
    exists c: nat, path: FL.Path, q: nat :: D.FileOf(path) == p && BytesSent(acts, c, path, bytes, q)
  }

  /** The bytes of an upload request are those that arrived from its client. */
  lemma UploadWasSent(cfg: Config, acts: seq<Action>, k: nat)
    requires Usable(cfg) && Valid(Start(cfg), acts) && k < |After(cfg, acts).requests|
    requires After(cfg, acts).requests[k].op.Upload?
    ensures var op := After(cfg, acts).requests[k].op;
            SentFor(acts, D.FileOf(op.path), op.data)
  {
    var r := After(cfg, acts).requests[k];
    var p := RequestsAreAsked(cfg, acts, k);
    var q: nat :| NamedAt(acts, r.client, p, r.op, q);
    assert BytesSent(acts, r.client, r.op.path, r.op.data, q);
  }

  /** A log entry that stored bytes stored what some client had sent. */
  lemma StoredWasSent(cfg: Config, acts: seq<Action>, w: nat, p: D.Place, bytes: F.Bytes)
    requires Usable(cfg) && RunFrom(cfg, acts) && w < |After(cfg, acts).svc.log|
    requires R.Stores(After(cfg, acts).svc.log[w], p, bytes)
    ensures SentFor(acts, p, bytes)
  {
    StretchKeepsLog(cfg, acts, []);
    UploadWasSent(cfg, acts, After(cfg, acts).served[w]);
  }

  /** Every download returns bytes that some client sent for that file, or those found there at
      start-up; under whatever names. */
  lemma DownloadReturnsBytesSent(cfg: Config, acts: seq<Action>, i: nat)
    requires Usable(cfg) && RunFrom(cfg, acts) && SafeRun(Start(cfg), acts)
    requires i < |After(cfg, acts).delivered| && After(cfg, acts).delivered[i].res.Fetched?
    ensures var s := After(cfg, acts);
            var d := s.delivered[i];
            && d.req < |s.requests| && s.requests[d.req].op.Download?
            && var p := D.FileOf(s.requests[d.req].op.path);
               (p in cfg.disk && cfg.disk[p] == d.res.bytes) || SentFor(acts, p, d.res.bytes)
  {
    var s := After(cfg, acts);
    var k := EveryAnswerHasItsEffect(cfg, acts, i);
    StretchIsSerial(cfg, acts, []);
    R.FetchIsLastUpload(cfg.disk, s.svc.log, k);
    var p := D.FileOf(s.svc.log[k].op.path);
    var w := R.LastWrite(s.svc.log[..k], p);
    if w.Some? {
      StoredWasSent(cfg, acts, w.value, p, s.delivered[i].res.bytes);
    }
  }

  /** After an acknowledged upload a download returns the bytes that its client sent, or bytes that
      a client sent for an upload that took effect later. */
  lemma DownloadReturnsLatestSent(cfg: Config, a: seq<Action>, b: seq<Action>, up: Delivery, down: Delivery,
                                  p: D.Place)
    returns (k: nat, w: nat, r: nat)
    requires Usable(cfg) && Stretch(cfg, a, b) && UploadThenDownload(cfg, a, b, up, down, p)
    requires SafeRun(Start(cfg), a) && SafeRun(After(cfg, a), b) && down.res.Fetched?
    ensures Valid(Start(cfg), a + b) && After(cfg, a + b) == Final(After(cfg, a), b)
    ensures var s := After(cfg, a + b);
            && EffectAt(s, k, up) && EffectAt(s, r, down) && k <= w < r < |s.svc.log|
            && R.LastWrite(s.svc.log[..r], p) == Some(w)
            && SentFor(a + b, p, down.res.bytes)
            && (w == k ==> down.res.bytes == s.requests[up.req].op.data)
  {
    RunsJoin(Start(cfg), a, b);
    k, w, r := DownloadSeesAcknowledgedUpload(cfg, a, b, up, down, p);
    StoredWasSent(cfg, a + b, w, p, down.res.bytes);
  }

  // ---------------------------------------------------------------- listings

  /** At step `p` a worker built this reply for request `req`. */
  ghost predicate ListedAt(cfg: Config, acts: seq<Action>, req: nat, reply: F.Bytes, p: nat)
    requires Usable(cfg)
  {
    && p < |acts| && acts[p].Exec? && acts[p].a == F.AnswerList(acts[p].w, reply) && Valid(Start(cfg), acts[..p])
    && var s := After(cfg, acts[..p]);
       acts[p].w < |s.workers| && s.workers[acts[p].w].Running? && s.workers[acts[p].w].task.req == req
  }

  ghost predicate Listed(cfg: Config, acts: seq<Action>, req: nat, res: F.Outcome)
    requires Usable(cfg)
  {
    res.Listed? ==> exists p: nat :: ListedAt(cfg, acts, req, res.reply, p)
  }

  ghost predicate WorkerListed(cfg: Config, acts: seq<Action>, wk: Worker, j: F.Job)
    requires Usable(cfg)
  {
    match wk
    case Running(k, _) =>
      (match j
       case Closing(_, res) => !res.Listed?
       case Unlocked(_, res) => !res.Listed?
       case Done(op, res) => (res.Listed? ==> op.List?) && Listed(cfg, acts, k.req, res)
       case _ => true)
    case Delivering(k, _, res, _) => (res.Listed? ==> k.op.List?) && Listed(cfg, acts, k.req, res)
    case _ => true
  }

  ghost predicate ListingsOk(cfg: Config, acts: seq<Action>, s: Sys)
    requires Usable(cfg)
  {
    && |s.workers| == |s.svc.jobs|
    && (forall w: nat :: w < |s.workers| ==> WorkerListed(cfg, acts, s.workers[w], s.svc.jobs[w]))
    && (forall d :: d in s.delivered ==> Listed(cfg, acts, d.req, d.res))
    && (forall d :: d in s.delivered && d.res.Listed? ==> d.req < |s.requests| && s.requests[d.req].op.List?)
  }

  lemma ListedOn(cfg: Config, acts: seq<Action>, a: Action, req: nat, res: F.Outcome)
    requires Usable(cfg) && Listed(cfg, acts, req, res)
    ensures Listed(cfg, acts + [a], req, res)
  {
    if res.Listed? {
      var p: nat :| ListedAt(cfg, acts, req, res.reply, p);
      assert (acts + [a])[..p] == acts[..p];
      assert ListedAt(cfg, acts + [a], req, res.reply, p);
    }
  }

  lemma WorkerListedOn(cfg: Config, acts: seq<Action>, a: Action, wk: Worker, j: F.Job)
    requires Usable(cfg) && WorkerListed(cfg, acts, wk, j)
    ensures WorkerListed(cfg, acts + [a], wk, j)
  {
    match wk {
      case Running(k, _) =>
        if j.Done? {
          ListedOn(cfg, acts, a, k.req, j.res);
        }
      case Delivering(k, _, res, _) => ListedOn(cfg, acts, a, k.req, res);
      case _ =>
    }
  }

  predicate NoListing(j: F.Job)
  {
    j.Closing? || j.Unlocked? || j.Done? ==> !j.res.Listed?
  }

  /** No other step of the file service ends with a listing. */
  lemma OnlyListingLists(svc: F.Service, x: F.Action)
    requires F.Enabled(svc, x) && !x.AnswerList? && !x.Begin? && !x.Finish?
    requires var j := svc.jobs[x.t];
             j.Closing? || j.Unlocked? ==> !j.res.Listed?
    ensures NoListing(F.NextJob(svc, x))
  {
  }

  /** A worker's own job under a step of the file service. */
  lemma ExecLists(cfg: Config, acts: seq<Action>, s: Sys, w: nat, x: F.Action)
    requires Usable(cfg) && Valid(Start(cfg), acts) && s == After(cfg, acts) && Enabled(s, Exec(w, x))
    requires WorkerListed(cfg, acts, s.workers[w], s.svc.jobs[w])
    ensures WorkerListed(cfg, acts + [Exec(w, x)], s.workers[w], F.NextJob(s.svc, x))
  {
    var all := acts + [Exec(w, x)];
    if x.AnswerList? {
      assert all[..|acts|] == acts;
      assert ListedAt(cfg, all, s.workers[w].task.req, x.reply, |acts|);
    } else {
      OnlyListingLists(s.svc, x);
    }
  }

  /** Worker `w` moves, the others and the answers stay. */
  lemma OthersKeepListings(cfg: Config, acts: seq<Action>, a: Action, s: Sys, s': Sys, w: nat)
    requires Usable(cfg) && ListingsOk(cfg, acts, s) && w < |s.workers|
    requires |s'.workers| == |s'.svc.jobs| == |s.workers|
    requires s'.workers == s.workers[w := s'.workers[w]] && s'.svc.jobs == s.svc.jobs[w := s'.svc.jobs[w]]
    requires s'.delivered == s.delivered && s'.requests == s.requests
    requires WorkerListed(cfg, acts + [a], s'.workers[w], s'.svc.jobs[w])
    ensures ListingsOk(cfg, acts + [a], s')
  {
    forall u: nat | u < |s'.workers| ensures WorkerListed(cfg, acts + [a], s'.workers[u], s'.svc.jobs[u]) {
      if u != w {
        WorkerListedOn(cfg, acts, a, s.workers[u], s.svc.jobs[u]);
      }
    }
    forall d | d in s'.delivered ensures Listed(cfg, acts + [a], d.req, d.res) {
      ListedOn(cfg, acts, a, d.req, d.res);
    }
  }

  /** No worker moves. */
  lemma IdleKeepsListings(cfg: Config, acts: seq<Action>, a: Action, s: Sys, s': Sys)
    requires Usable(cfg) && ListingsOk(cfg, acts, s)
    requires s'.workers == s.workers && s'.svc == s.svc && s'.delivered == s.delivered && s.requests <= s'.requests
    ensures ListingsOk(cfg, acts + [a], s')
  {
    forall u: nat | u < |s'.workers| ensures WorkerListed(cfg, acts + [a], s'.workers[u], s'.svc.jobs[u]) {
      WorkerListedOn(cfg, acts, a, s.workers[u], s.svc.jobs[u]);
    }
    forall d | d in s'.delivered ensures Listed(cfg, acts + [a], d.req, d.res) {
      ListedOn(cfg, acts, a, d.req, d.res);
    }
  }

  lemma ExecKeepsListings(cfg: Config, acts: seq<Action>, s: Sys, w: nat, x: F.Action)
    requires Usable(cfg) && Valid(Start(cfg), acts) && s == After(cfg, acts) && Enabled(s, Exec(w, x))
    requires ListingsOk(cfg, acts, s)
    ensures ListingsOk(cfg, acts + [Exec(w, x)], Apply(s, Exec(w, x)))
  {
    ExecLists(cfg, acts, s, w, x);
    ExecShape(s, w, x);
    OthersKeepListings(cfg, acts, Exec(w, x), s, ApplyExec(s, w, x), w);
  }

  lemma FindKeepsListings(cfg: Config, acts: seq<Action>, s: Sys, w: nat)
    requires Usable(cfg) && FlowOk(s) && Enabled(s, FindSession(w)) && ListingsOk(cfg, acts, s)
    ensures ListingsOk(cfg, acts + [FindSession(w)], Apply(s, FindSession(w)))
  {
    assert WorkerOk(s, w);
    assert WorkerListed(cfg, acts, s.workers[w], s.svc.jobs[w]);
    ListedOn(cfg, acts, FindSession(w), s.workers[w].task.req, s.svc.jobs[w].res);
    OthersKeepListings(cfg, acts, FindSession(w), s, ApplyFind(s, w), w);
  }

  lemma AnswerKeepsListings(cfg: Config, acts: seq<Action>, s: Sys, s': Sys, d: Delivery)
    requires Usable(cfg) && ListingsOk(cfg, acts, s) && Listed(cfg, acts, d.req, d.res)
    requires d.res.Listed? ==> d.req < |s.requests| && s.requests[d.req].op.List?
    requires s'.workers == s.workers && s'.svc == s.svc && s'.requests == s.requests
    requires s'.delivered == s.delivered + [d]
    ensures ListingsOk(cfg, acts, s')
  {
  }

  lemma RespondKeepsListings(cfg: Config, acts: seq<Action>, s: Sys, w: nat)
    requires Usable(cfg) && FlowOk(s) && Enabled(s, Respond(w)) && ListingsOk(cfg, acts, s)
    ensures ListingsOk(cfg, acts + [Respond(w)], Apply(s, Respond(w)))
  {
    var k, res := s.workers[w].task, s.workers[w].res;
    RespondDelivers(s, w);
    assert WorkerListed(cfg, acts, s.workers[w], s.svc.jobs[w]);
    var before := s.(workers := s.workers[w := Freeing(k.buffer)]);
    OthersKeepListings(cfg, acts, Respond(w), s, before, w);
    ListedOn(cfg, acts, Respond(w), k.req, res);
    AnswerKeepsListings(cfg, acts + [Respond(w)], before, ApplyRespond(s, w), Delivery(k.req, k.sid, res));
  }

  lemma PopKeepsListings(cfg: Config, acts: seq<Action>, s: Sys, w: nat)
    requires Usable(cfg) && FlowOk(s) && Enabled(s, Pop(w)) && ListingsOk(cfg, acts, s)
    ensures ListingsOk(cfg, acts + [Pop(w)], Apply(s, Pop(w)))
  {
    PopEffect(s, w);
    OthersKeepListings(cfg, acts, Pop(w), s, ApplyPop(s, w), w);
  }

  lemma IdleWorkerKeepsListings(cfg: Config, acts: seq<Action>, a: Action, s: Sys)
    requires Usable(cfg) && Enabled(s, a) && (a.FreeUpload? || a.WorkerExit?) && ListingsOk(cfg, acts, s)
    ensures ListingsOk(cfg, acts + [a], Apply(s, a))
  {
    OthersKeepListings(cfg, acts, a, s, Apply(s, a), a.w);
  }

  lemma ClientsKeepListings(cfg: Config, acts: seq<Action>, a: Action, s: Sys)
    requires Usable(cfg) && Enabled(s, a) && !WorkerAction(a) && ListingsOk(cfg, acts, s)
    ensures ListingsOk(cfg, acts + [a], Apply(s, a))
  {
    if a.Push? {
      PushIssues(s, a.c);
    }
    IdleKeepsListings(cfg, acts, a, s, Apply(s, a));
  }

  lemma StepKeepsListings(cfg: Config, acts: seq<Action>, a: Action, s: Sys)
    requires Usable(cfg) && Valid(Start(cfg), acts) && s == After(cfg, acts) && FlowOk(s) && Enabled(s, a)
    requires ListingsOk(cfg, acts, s)
    ensures ListingsOk(cfg, acts + [a], Apply(s, a))
  {
    if a.Pop? {
      PopKeepsListings(cfg, acts, s, a.w);
    } else if a.Exec? {
      ExecKeepsListings(cfg, acts, s, a.w, a.a);
    } else if a.FindSession? {
      FindKeepsListings(cfg, acts, s, a.w);
    } else if a.Respond? {
      RespondKeepsListings(cfg, acts, s, a.w);
    } else if WorkerAction(a) {
      IdleWorkerKeepsListings(cfg, acts, a, s);
    } else {
      ClientsKeepListings(cfg, acts, a, s);
    }
  }

  lemma {:induction false} RunKeepsListings(cfg: Config, acts: seq<Action>)
    requires Usable(cfg) && RunFrom(cfg, acts)
    ensures ListingsOk(cfg, acts, After(cfg, acts))
    decreases |acts|
  {
    if acts != [] {
      var front, a := acts[..|acts| - 1], acts[|acts| - 1];
      LastStep(Start(cfg), acts);
      ClearFront(Start(cfg), acts);
      assert front + [a] == acts;
      RunKeepsListings(cfg, front);
      AfterIsSound(cfg, front);
      StepKeepsListings(cfg, front, a, After(cfg, front));
    }
  }

  lemma {:induction false} ClearFront(s: Sys, acts: seq<Action>)
    requires Valid(s, acts) && ClearRun(s, acts) && acts != []
    ensures Valid(s, acts[..|acts| - 1]) && ClearRun(s, acts[..|acts| - 1])
    decreases |acts|
  {
    var n := |acts| - 1;
    if n > 0 {
      ClearFront(Apply(s, acts[0]), acts[1..]);
      assert acts[1..][..n - 1] == acts[..n][1..];
    }
  }

  /** The listing a client gets is one that a worker built for that very request, which asked for
      one. */
  lemma ListingsAreBuilt(cfg: Config, acts: seq<Action>, i: nat) returns (p: nat)
    requires Usable(cfg) && RunFrom(cfg, acts)
    requires i < |After(cfg, acts).delivered| && After(cfg, acts).delivered[i].res.Listed?
    ensures var s := After(cfg, acts);
            var d := s.delivered[i];
            && d.req < |s.requests| && s.requests[d.req].op.List?
            && ListedAt(cfg, acts, d.req, d.res.reply, p)
  {
    RunKeepsListings(cfg, acts);
    var d := After(cfg, acts).delivered[i];
    assert Listed(cfg, acts, d.req, d.res);
    p :| ListedAt(cfg, acts, d.req, d.res.reply, p);
  }

  // ---------------------------------------------------------------- payloads

  /** An outcome with contents for the client. */
  predicate HasContents(res: F.Outcome)
  {
    res.Fetched? || res.Listed?
  }

  /** The worker holds a payload buffer at this point. */
  predicate Holds(j: F.Job)
  {
    j.Reading? || ((j.Closing? || j.Unlocked? || j.Done?) && HasContents(j.res))
  }

  predicate WorkerPayload(wk: Worker, j: F.Job)
  {
    match wk
    case Running(_, out) => out.Some? <==> Holds(j)
    case Delivering(_, out, res, _) => out.Some? <==> HasContents(res)
    case _ => true
  }

  predicate ResponsePayload(r: Response)
  {
    if r.ready then r.data.Some? <==> HasContents(r.res) else r.data.None?
  }

  ghost predicate PayloadsFit(s: Sys)
  {
    && |s.workers| == |s.svc.jobs|
    && (forall w :: 0 <= w < |s.workers| ==> WorkerPayload(s.workers[w], s.svc.jobs[w]))
    && (forall sid :: sid in s.responses ==> ResponsePayload(s.responses[sid]))
  }

  lemma ExecPayload(s: Sys, w: nat, x: F.Action)
    requires Enabled(s, Exec(w, x)) && WorkerPayload(s.workers[w], s.svc.jobs[w])
    ensures |ApplyExec(s, w, x).workers| == |s.workers| && |ApplyExec(s, w, x).svc.jobs| == |s.svc.jobs|
    ensures WorkerPayload(ApplyExec(s, w, x).workers[w], F.NextJob(s.svc, x))
    ensures ApplyExec(s, w, x).svc.jobs == s.svc.jobs[w := F.NextJob(s.svc, x)]
  {
  }

  lemma WorkerKeepsPayloads(s: Sys, a: Action)
    requires PayloadsFit(s) && Enabled(s, a) && WorkerAction(a) && !a.Respond?
    ensures PayloadsFit(ApplyWorker(s, a))
  {
    assert WorkerPayload(s.workers[a.w], s.svc.jobs[a.w]);
    if a.Exec? {
      ExecPayload(s, a.w, a.a);
      ExecShape(s, a.w, a.a);
    }
  }

  lemma RespondKeepsPayloads(s: Sys, w: nat)
    requires PayloadsFit(s) && Enabled(s, Respond(w))
    ensures PayloadsFit(ApplyRespond(s, w))
  {
    assert WorkerPayload(s.workers[w], s.svc.jobs[w]);
  }

  lemma ClientKeepsPayloads(s: Sys, a: Action)
    requires PayloadsFit(s) && Enabled(s, a) && !WorkerAction(a)
    ensures PayloadsFit(Apply(s, a))
  {
  }

  lemma {:induction false} RunKeepsPayloads(s: Sys, acts: seq<Action>)
    requires PayloadsFit(s) && Valid(s, acts)
    ensures PayloadsFit(Final(s, acts))
    decreases |acts|
  {
    if acts != [] {
      var a := acts[0];
      if a.Respond? {
        RespondKeepsPayloads(s, a.w);
      } else if WorkerAction(a) {
        WorkerKeepsPayloads(s, a);
      } else {
        ClientKeepsPayloads(s, a);
      }
      RunKeepsPayloads(Apply(s, a), acts[1..]);
    }
  }

  /** In every run a ready response has a payload exactly when its outcome has contents: a fetched
      file or a listing. */
  lemma AnswersCarryTheirPayload(cfg: Config, acts: seq<Action>, sid: nat)
    requires Usable(cfg) && Valid(Start(cfg), acts)
    requires sid in After(cfg, acts).responses && After(cfg, acts).responses[sid].ready
    ensures var r := After(cfg, acts).responses[sid];
            r.data.Some? <==> r.res.Fetched? || r.res.Listed?
  {
    RunKeepsPayloads(Start(cfg), acts);
    assert ResponsePayload(After(cfg, acts).responses[sid]);
  }
}
