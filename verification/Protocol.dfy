/**
 The request/response protocol between client threads and workers (src/threads/client_thread.c,
 src/threads/worker_thread.c, src/session/response_queue.c), on top of the task ring, the
 session table and the file service.  Any number of client threads and workers; each
 mutex-protected section is one step.  Sequences `requests`, `delivered`, `dropped` and
 `served`, the numbers in tasks and responses, and the map `ids` are history: no branch
 depends on them.
 */
module Protocol {
  import opened Prelude
  import opened BoundedQueue
  import S = SessionTable
  import F = FileService
  import FL = FileLocks

  type BufId = nat

  datatype Task = Task(req: nat, sid: nat, op: F.Op, buffer: Option<BufId>)

  /** An accepted push. */
  datatype Request = Request(client: nat, sid: nat, op: F.Op)

  /** One `response_set`. */
  datatype Delivery = Delivery(req: nat, sid: nat, res: F.Outcome)

  /** The response inside a session. */
  datatype Response = Response(client: nat, ready: bool, req: nat, res: F.Outcome, data: Option<BufId>)

  /** Where a client thread stands. */
  datatype Client =
    | Accepting                                                   // in client_queue_pop
    | Serving(sid: nat)                                           // waiting for a command
    | Receiving(sid: nat, path: FL.Path, size: nat, upload: BufId)
    | Ready(sid: nat, op: F.Op, buffer: Option<BufId>)            // command complete
    | Cleared(sid: nat, op: F.Op, buffer: Option<BufId>)          // response reset
    | Waiting(sid: nat, req: nat)                                 // in response_wait
    | Answered(sid: nat, req: nat)                                // response_wait returned
    | Leaving(sid: nat)
    | Marked(sid: nat)                                            // session marked inactive
    | Exited

  datatype Worker =
    | Popping
    | Running(task: Task, out: Option<BufId>)
    | Delivering(task: Task, out: Option<BufId>, res: F.Outcome, found: bool)  // session_get returned
    | Freeing(buffer: Option<BufId>)                                           // response set
    | Stopped

  datatype Heap = Heap(live: set<BufId>, freed: seq<BufId>, next: nat)

  datatype Sys = Sys(
    clients: seq<Client>,
    workers: seq<Worker>,
    ring: Ring<Task>,
    mgr: S.Manager,
    ids: S.IdMap,
    responses: map<nat, Response>,
    svc: F.Service,
    heap: Heap,
    requests: seq<Request>,
    delivered: seq<Delivery>,
    dropped: seq<nat>,
    served: seq<nat>)

  datatype Action =
    | Connect(c: nat, fd: int, res: S.Resources)
    | StartUpload(c: nat, path: FL.Path, size: nat)   // quota checked, buffer allocated
    | UploadArrives(c: nat, data: F.Bytes)
    | UploadBreaks(c: nat)
    | Command(c: nat, op: F.Op)                       // DOWNLOAD, DELETE or LIST
    | Reset(c: nat)
    | Push(c: nat)
    | Wake(c: nat)
    | Send(c: nat, ok: bool)
    | Quit(c: nat)
    | Mark(c: nat)
    | Destroy(c: nat)
    | ClientExit(c: nat)
    | Shutdown
    | Pop(w: nat)
    | Exec(w: nat, a: F.Action)
    | FindSession(w: nat)
    | Respond(w: nat)
    | FreeUpload(w: nat)
    | WorkerExit(w: nat)

  predicate ClientAction(a: Action)
  {
    !a.Shutdown? && !WorkerAction(a)
  }

  predicate WorkerAction(a: Action)
  {
    a.Pop? || a.Exec? || a.FindSession? || a.Respond? || a.FreeUpload? || a.WorkerExit?
  }

  const BLANK: F.Outcome := F.Failed

  function Init(clients: nat, workers: nat, cells: seq<Task>, slots: nat, locks: nat,
                disk: F.Files, rows: map<FL.Path, nat>): Sys
    requires |cells| > 0 && slots > 0 && locks > 0
  {
    Sys(seq(clients, _ => Accepting), seq(workers, _ => Popping), Ring(cells, 0, 0, 0, false),
        S.EmptyManager(slots), S.IdMap(map[], 1), map[], F.Init(locks, workers, disk, rows),
        Heap({}, [], 0), [], [], [], [])
  }

  function Free(h: Heap, b: Option<BufId>): Heap
  {
    if b.None? then h else Heap(h.live - {b.value}, h.freed + [b.value], h.next)
  }

  function Alloc(h: Heap): Heap
  {
    Heap(h.live + {h.next}, h.freed, h.next + 1)
  }

  function SidOf(cl: Client): Option<nat>
  {
    match cl
    case Accepting => None
    case Exited => None
    case _ => Some(cl.sid)
  }

  function DataOf(s: Sys, sid: nat): Option<BufId>
  {
    if sid in s.responses then s.responses[sid].data else None
  }

  predicate Enabled(s: Sys, a: Action)
  {
    && WellFormed(s.ring) && |s.mgr.slots| > 0
    && (ClientAction(a) ==> a.c < |s.clients|)
    && (WorkerAction(a) ==> a.w < |s.workers| == |s.svc.jobs|)
    && match a
       case Connect(c, _, _) => s.clients[c].Accepting?
       case StartUpload(c, _, _) => s.clients[c].Serving?
       case UploadArrives(c, data) => s.clients[c].Receiving? && |data| == s.clients[c].size
       case UploadBreaks(c) => s.clients[c].Receiving?
       case Command(c, op) => s.clients[c].Serving? && !op.Upload?
       case Reset(c) => s.clients[c].Ready?
       case Push(c) => s.clients[c].Cleared? && (s.ring.shutdown || s.ring.size < |s.ring.cells|)
       case Wake(c) => s.clients[c].Waiting? && s.clients[c].sid in s.responses && s.responses[s.clients[c].sid].ready
       case Send(c, _) => s.clients[c].Answered?
       case Quit(c) => s.clients[c].Serving?
       case Mark(c) => s.clients[c].Leaving?
       case Destroy(c) => s.clients[c].Marked?
       case ClientExit(c) => s.clients[c].Accepting?
       case Shutdown => true
       case Pop(w) => s.workers[w].Popping? && s.ring.size > 0 && s.svc.jobs[w].NoJob? && w < |s.svc.locks.phases| &&
                      |s.svc.jobs| == |s.svc.locks.phases|
       case Exec(w, x) => s.workers[w].Running? && x.t == w && !x.Begin? && !x.Finish? && F.Enabled(s.svc, x)
       case FindSession(w) => s.workers[w].Running? && F.Enabled(s.svc, F.Finish(w))
       case Respond(w) => s.workers[w].Delivering?
       case FreeUpload(w) => s.workers[w].Freeing?
       case WorkerExit(w) => s.workers[w].Popping? && s.ring.size == 0 && s.ring.shutdown
  }

  /** `session_create` followed by `session_get`; a session that cannot be found is destroyed. */
  function ApplyConnect(s: Sys, c: nat, fd: int, res: S.Resources): Sys
    requires Enabled(s, Connect(c, fd, res))
  {
    var (mgr, id) := S.Create(s.mgr, fd, res);
    if id == 0 then s.(mgr := mgr, ids := s.ids.(nextId := mgr.nextId))
    else if S.Get(mgr, id).None? then
      s.(mgr := S.Destroy(mgr, id), ids := s.ids.(nextId := mgr.nextId))
    else
      s.(mgr := mgr, ids := S.IdMap(s.ids.sessions[id := S.Entry(id, fd, true)], mgr.nextId),
         clients := s.clients[c := Serving(id)],
         responses := s.responses[id := Response(c, false, 0, BLANK, None)])
  }

  function ApplyReset(s: Sys, c: nat): Sys
    requires Enabled(s, Reset(c))
  {
    var cl := s.clients[c];
    s.(clients := s.clients[c := Cleared(cl.sid, cl.op, cl.buffer)],
       heap := Free(s.heap, DataOf(s, cl.sid)),
       responses := s.responses[cl.sid := Response(c, false, 0, BLANK, None)])
  }

  function ApplyPush(s: Sys, c: nat): Sys
    requires Enabled(s, Push(c))
  {
    var cl, req := s.clients[c], |s.requests|;
    var (ring, o) := PushSection(s.ring, Task(req, cl.sid, cl.op, cl.buffer));
    if o.Refused? then
      s.(clients := s.clients[c := Serving(cl.sid)], heap := Free(s.heap, cl.buffer))
    else
      s.(clients := s.clients[c := Waiting(cl.sid, req)], ring := ring,
         requests := s.requests + [Request(c, cl.sid, cl.op)])
  }

  function ApplyDestroy(s: Sys, c: nat): Sys
    requires Enabled(s, Destroy(c))
  {
    var sid := s.clients[c].sid;
    var s' := s.(mgr := S.Destroy(s.mgr, sid), ids := S.MapStep(s.ids, S.DestroyOp(sid)).0,
                 clients := s.clients[c := Accepting]);
    if S.Find(s.mgr, sid).None? then s'
    else s'.(heap := Free(s.heap, DataOf(s, sid)), responses := s.responses - {sid})
  }

  function ApplyClient(s: Sys, a: Action): Sys
    requires ClientAction(a) && Enabled(s, a)
  {
    var cl := s.clients[a.c];
    match a
    case Connect(c, fd, res) => ApplyConnect(s, c, fd, res)
    case StartUpload(c, path, size) =>
      s.(clients := s.clients[c := Receiving(cl.sid, path, size, s.heap.next)], heap := Alloc(s.heap))
    case UploadArrives(c, data) =>
      s.(clients := s.clients[c := Ready(cl.sid, F.Upload(cl.path, data), Some(cl.upload))])
    case UploadBreaks(c) =>
      s.(clients := s.clients[c := Serving(cl.sid)], heap := Free(s.heap, Some(cl.upload)))
    case Command(c, op) => s.(clients := s.clients[c := Ready(cl.sid, op, None)])
    case Reset(c) => ApplyReset(s, c)
    case Push(c) => ApplyPush(s, c)
    case Wake(c) => s.(clients := s.clients[c := Answered(cl.sid, cl.req)])
    case Send(c, ok) => s.(clients := s.clients[c := if ok then Serving(cl.sid) else Leaving(cl.sid)])
    case Quit(c) => s.(clients := s.clients[c := Leaving(cl.sid)])
    case Mark(c) =>
      s.(clients := s.clients[c := Marked(cl.sid)], mgr := S.MarkInactive(s.mgr, cl.sid),
         ids := S.MapStep(s.ids, S.InactiveOp(cl.sid)).0)
    case Destroy(c) => ApplyDestroy(s, c)
    case ClientExit(c) => s.(clients := s.clients[c := Exited])
  }

  function ApplyPop(s: Sys, w: nat): Sys
    requires Enabled(s, Pop(w))
  {
    var (ring, o) := PopSection(s.ring);
    s.(ring := ring, workers := s.workers[w := Running(o.item, None)],
       svc := F.Apply(s.svc, F.Begin(w, o.item.op)))
  }

  /** Reading a file and answering LIST allocate the payload; a failed read frees it.
      `served` names the request behind each entry of the file service's log. */
  function ApplyExec(s: Sys, w: nat, x: F.Action): Sys
    requires Enabled(s, Exec(w, x))
  {
    var wk, svc := s.workers[w], F.Apply(s.svc, x);
    if x.MeasureSize? || x.AnswerList? then
      s.(svc := svc, heap := Alloc(s.heap), workers := s.workers[w := Running(wk.task, Some(s.heap.next))])
    else if x.ReadFails? then
      s.(svc := svc, heap := Free(s.heap, wk.out), workers := s.workers[w := Running(wk.task, None)])
    else if x.Unlock? then s.(svc := svc, served := s.served + [wk.task.req])
    else s.(svc := svc)
  }

  /** `deliver_response`, first half: finish the file work and look the session up. */
  function ApplyFind(s: Sys, w: nat): Sys
    requires Enabled(s, FindSession(w))
  {
    var wk := s.workers[w];
    s.(svc := F.Apply(s.svc, F.Finish(w)),
       workers := s.workers[w := Delivering(wk.task, wk.out, s.svc.jobs[w].res, S.Get(s.mgr, wk.task.sid).Some?)])
  }

  /** `deliver_response`, second half: set the response, or drop it and free the payload. */
  function ApplyRespond(s: Sys, w: nat): Sys
    requires Enabled(s, Respond(w))
  {
    var wk := s.workers[w];
    var sid := wk.task.sid;
    var s' := s.(workers := s.workers[w := Freeing(wk.task.buffer)]);
    if wk.found && sid in s.responses then
      s'.(responses := s.responses[sid := Response(s.responses[sid].client, true, wk.task.req, wk.res, wk.out)],
          delivered := s.delivered + [Delivery(wk.task.req, sid, wk.res)])
    else
      s'.(heap := Free(s.heap, wk.out), dropped := s.dropped + [wk.task.req])
  }

  function ApplyWorker(s: Sys, a: Action): Sys
    requires WorkerAction(a) && Enabled(s, a)
  {
    match a
    case Pop(w) => ApplyPop(s, w)
    case Exec(w, x) => ApplyExec(s, w, x)
    case FindSession(w) => ApplyFind(s, w)
    case Respond(w) => ApplyRespond(s, w)
    case FreeUpload(w) => s.(workers := s.workers[w := Popping], heap := Free(s.heap, s.workers[w].buffer))
    case WorkerExit(w) => s.(workers := s.workers[w := Stopped])
  }

  function Apply(s: Sys, a: Action): Sys
    requires Enabled(s, a)
  {
    if a.Shutdown? then s.(ring := s.ring.(shutdown := true))
    else if WorkerAction(a) then ApplyWorker(s, a)
    else ApplyClient(s, a)
  }

  predicate Valid(s: Sys, acts: seq<Action>)
    decreases |acts|
  {
    acts == [] || (Enabled(s, acts[0]) && Valid(Apply(s, acts[0]), acts[1..]))
  }

  function Final(s: Sys, acts: seq<Action>): Sys
    requires Valid(s, acts)
    decreases |acts|
  {
    if acts == [] then s else Final(Apply(s, acts[0]), acts[1..])
  }

  /** The session-table hypothesis: ending a session frees no slot on another session's way,
      and ids do not wrap. */
  ghost predicate ClearStep(s: Sys, a: Action)
    requires Enabled(s, a)
  {
    && (a.Connect? ==> s.mgr.nextId + 1 < TWO_64)
    && (a.Destroy? ==> S.CutsNobodyOff(s.mgr, s.clients[a.c].sid))
  }

  ghost predicate ClearRun(s: Sys, acts: seq<Action>)
    requires Valid(s, acts)
    decreases |acts|
  {
    acts == [] || (ClearStep(s, acts[0]) && ClearRun(Apply(s, acts[0]), acts[1..]))
  }

  lemma {:induction false} RunsJoin(s: Sys, a: seq<Action>, b: seq<Action>)
    requires Valid(s, a) && Valid(Final(s, a), b)
    ensures Valid(s, a + b) && Final(s, a + b) == Final(Final(s, a), b)
    ensures ClearRun(s, a) && ClearRun(Final(s, a), b) ==> ClearRun(s, a + b)
    decreases |a|
  {
    if a == [] {
      assert a + b == b;
    } else {
      assert (a + b)[0] == a[0] && (a + b)[1..] == a[1..] + b;
      RunsJoin(Apply(s, a[0]), a[1..], b);
    }
  }

  // ---------------------------------------------------------------- sessions

  ghost predicate TableOk(mgr: S.Manager, ids: S.IdMap)
  {
    S.Coherent(mgr) && S.AllFindable(mgr) && S.Represents(mgr, ids)
  }

  /** The table is a map holding one session per connected client. */
  ghost predicate SessionsOk(s: Sys)
  {
    && TableOk(s.mgr, s.ids)
    && (forall c :: 0 <= c < |s.clients| && SidOf(s.clients[c]).Some? ==> ClientSession(s, c))
    && (forall sid :: sid in s.responses ==> ResponseOwner(s, sid))
  }

  ghost predicate ClientSession(s: Sys, c: nat)
    requires c < |s.clients| && SidOf(s.clients[c]).Some?
  {
    var sid := s.clients[c].sid;
    && sid in s.responses && s.responses[sid].client == c
    && sid in s.ids.sessions && sid > 0
    && (s.ids.sessions[sid].active <==> !s.clients[c].Marked?)
  }

  ghost predicate ResponseOwner(s: Sys, sid: nat)
    requires sid in s.responses
  {
    var c := s.responses[sid].client;
    c < |s.clients| && SidOf(s.clients[c]) == Some(sid)
  }

  lemma InitSessionsOk(s: Sys, slots: nat)
    requires slots > 0 && s.mgr == S.EmptyManager(slots) && s.ids == S.IdMap(map[], 1)
    requires s.responses == map[] && forall c :: 0 <= c < |s.clients| ==> s.clients[c].Accepting?
    ensures SessionsOk(s)
  {
    S.EmptyIsCoherent(slots);
  }

  /** Nothing about sessions changes and clients keep theirs. */
  lemma SessionsFrame(s: Sys, s': Sys)
    requires SessionsOk(s)
    requires s'.mgr == s.mgr && s'.ids == s.ids && |s'.clients| == |s.clients|
    requires forall c :: 0 <= c < |s.clients| ==>
               SidOf(s'.clients[c]) == SidOf(s.clients[c]) && (s'.clients[c].Marked? <==> s.clients[c].Marked?)
    requires s'.responses.Keys == s.responses.Keys
    requires forall sid :: sid in s.responses ==> s'.responses[sid].client == s.responses[sid].client
    ensures SessionsOk(s')
  {
    forall c | 0 <= c < |s'.clients| && SidOf(s'.clients[c]).Some? ensures ClientSession(s', c) {
      assert ClientSession(s, c);
    }
    forall sid | sid in s'.responses ensures ResponseOwner(s', sid) {
      assert ResponseOwner(s, sid);
    }
  }

  lemma TableLookup(mgr: S.Manager, ids: S.IdMap, id: nat)
    requires TableOk(mgr, ids)
    ensures S.Find(mgr, id).Some? <==> id in ids.sessions
    ensures S.Get(mgr, id).Some? <==> id in ids.sessions && ids.sessions[id].active
  {
    S.FindableSearchIsLookup(mgr, ids, id);
  }

  /** A new session gets a fresh id, so no other client is affected. */
  lemma ConnectKeepsSessions(s: Sys, c: nat, fd: int, res: S.Resources)
    requires SessionsOk(s) && Enabled(s, Connect(c, fd, res)) && ClearStep(s, Connect(c, fd, res))
    ensures SessionsOk(ApplyConnect(s, c, fd, res))
    ensures s.mgr.nextId !in s.responses
    ensures ApplyConnect(s, c, fd, res).clients == s.clients ||
            ApplyConnect(s, c, fd, res).clients == s.clients[c := Serving(s.mgr.nextId)]
    ensures s.mgr.nextId <= ApplyConnect(s, c, fd, res).mgr.nextId <= s.mgr.nextId + 1
    ensures ApplyConnect(s, c, fd, res).responses == s.responses ||
            ApplyConnect(s, c, fd, res).responses == s.responses[s.mgr.nextId := Response(c, false, 0, BLANK, None)]
  {
    var (mgr, id) := S.Create(s.mgr, fd, res);
    S.CreateKeepsCoherent(s.mgr, fd, res);
    S.FindableCreate(s.mgr, s.ids, fd, res);
    NewIdIsFresh(s);
    if id == 0 {
      SessionsWithTable(s, mgr, s.ids.(nextId := mgr.nextId));
    } else {
      var ids := S.IdMap(s.ids.sessions[id := S.Entry(id, fd, true)], mgr.nextId);
      TableLookup(mgr, ids, id);
      SessionAdded(s, c, fd, mgr, ids);
    }
  }

  /** A creation that yields an id gives the client a session. */
  lemma ConnectSucceeds(s: Sys, c: nat, fd: int, res: S.Resources)
    requires SessionsOk(s) && Enabled(s, Connect(c, fd, res)) && ClearStep(s, Connect(c, fd, res))
    requires S.Create(s.mgr, fd, res).1 != 0
    ensures var id, mgr := s.mgr.nextId, S.Create(s.mgr, fd, res).0;
            ApplyConnect(s, c, fd, res) ==
            s.(mgr := mgr, ids := S.IdMap(s.ids.sessions[id := S.Entry(id, fd, true)], mgr.nextId),
               clients := s.clients[c := Serving(id)],
               responses := s.responses[id := Response(c, false, 0, BLANK, None)])
  {
    var (mgr, id) := S.Create(s.mgr, fd, res);
    S.CreateKeepsCoherent(s.mgr, fd, res);
    S.FindableCreate(s.mgr, s.ids, fd, res);
    TableLookup(mgr, S.IdMap(s.ids.sessions[id := S.Entry(id, fd, true)], mgr.nextId), id);
  }

  /** A failed creation leaves the sessions as they are. */
  lemma SessionsWithTable(s: Sys, mgr: S.Manager, ids: S.IdMap)
    requires SessionsOk(s) && TableOk(mgr, ids) && ids.sessions == s.ids.sessions
    ensures SessionsOk(s.(mgr := mgr, ids := ids))
  {
    var s' := s.(mgr := mgr, ids := ids);
    forall d | 0 <= d < |s'.clients| && SidOf(s'.clients[d]).Some? ensures ClientSession(s', d) {
      assert ClientSession(s, d);
    }
    forall sid | sid in s'.responses ensures ResponseOwner(s', sid) {
      assert ResponseOwner(s, sid);
    }
  }

  lemma SessionAdded(s: Sys, c: nat, fd: int, mgr: S.Manager, ids: S.IdMap)
    requires SessionsOk(s) && TableOk(mgr, ids) && c < |s.clients| && s.clients[c].Accepting?
    requires s.ids.nextId == s.mgr.nextId && s.mgr.nextId !in s.responses && s.mgr.nextId > 0
    requires ids.sessions == s.ids.sessions[s.mgr.nextId := S.Entry(s.mgr.nextId, fd, true)]
    ensures SessionsOk(s.(mgr := mgr, ids := ids, clients := s.clients[c := Serving(s.mgr.nextId)],
                          responses := s.responses[s.mgr.nextId := Response(c, false, 0, BLANK, None)]))
  {
    var id := s.mgr.nextId;
    var s' := s.(mgr := mgr, ids := ids, clients := s.clients[c := Serving(id)],
                 responses := s.responses[id := Response(c, false, 0, BLANK, None)]);
    forall d | 0 <= d < |s'.clients| && SidOf(s'.clients[d]).Some? ensures ClientSession(s', d) {
      if d != c {
        assert ClientSession(s, d);
      }
    }
    forall sid | sid in s'.responses ensures ResponseOwner(s', sid) {
      if sid != id {
        assert ResponseOwner(s, sid);
      }
    }
  }

  lemma NewIdIsFresh(s: Sys)
    requires SessionsOk(s)
    ensures s.mgr.nextId !in s.responses && s.mgr.nextId !in s.ids.sessions
  {
    assert forall sid :: sid in s.ids.sessions ==> Some(s.ids.sessions[sid]) in s.mgr.slots;
    forall sid | sid in s.responses ensures sid in s.ids.sessions {
      assert ResponseOwner(s, sid);
      assert ClientSession(s, s.responses[sid].client);
    }
  }

  lemma MarkKeepsSessions(s: Sys, c: nat)
    requires SessionsOk(s) && Enabled(s, Mark(c))
    ensures SessionsOk(ApplyClient(s, Mark(c))) && ApplyClient(s, Mark(c)).mgr.nextId == s.mgr.nextId
  {
    var sid := s.clients[c].sid;
    assert sid in s.ids.sessions by {
      assert ClientSession(s, c);
    }
    TableMark(s.mgr, s.ids, sid);
    MarkedMap(s.ids, sid);
    SessionMarked(s, c, S.MarkInactive(s.mgr, sid), S.MapStep(s.ids, S.InactiveOp(sid)).0);
  }

  lemma MarkedMap(ids: S.IdMap, sid: nat)
    requires sid in ids.sessions
    ensures S.MapStep(ids, S.InactiveOp(sid)).0.sessions ==
            ids.sessions[sid := ids.sessions[sid].(active := false)]
  {
  }

  lemma TableMark(mgr: S.Manager, ids: S.IdMap, id: nat)
    requires TableOk(mgr, ids)
    ensures TableOk(S.MarkInactive(mgr, id), S.MapStep(ids, S.InactiveOp(id)).0)
    ensures S.MarkInactive(mgr, id).nextId == mgr.nextId
  {
    S.FindableInactive(mgr, ids, id);
    var slot := S.Find(mgr, id);
    if slot.Some? {
      S.EntryUpdateKeepsCoherent(mgr, slot.value, mgr.slots[slot.value].value.(active := false));
    }
  }

  lemma TableDestroy(mgr: S.Manager, ids: S.IdMap, id: nat)
    requires TableOk(mgr, ids) && S.CutsNobodyOff(mgr, id)
    ensures TableOk(S.Destroy(mgr, id), S.MapStep(ids, S.DestroyOp(id)).0)
    ensures S.Destroy(mgr, id).nextId == mgr.nextId
  {
    S.FindableDestroy(mgr, ids, id);
    var slot := S.Find(mgr, id);
    if slot.Some? {
      S.RemoveKeepsCoherent(mgr, slot.value);
    }
  }

  lemma SessionMarked(s: Sys, c: nat, mgr: S.Manager, ids: S.IdMap)
    requires SessionsOk(s) && TableOk(mgr, ids) && c < |s.clients| && s.clients[c].Leaving?
    requires s.clients[c].sid in s.ids.sessions
    requires var sid := s.clients[c].sid;
             ids.sessions == s.ids.sessions[sid := s.ids.sessions[sid].(active := false)]
    ensures SessionsOk(s.(mgr := mgr, ids := ids, clients := s.clients[c := Marked(s.clients[c].sid)]))
  {
    var s' := s.(mgr := mgr, ids := ids, clients := s.clients[c := Marked(s.clients[c].sid)]);
    assert ClientSession(s, c);
    forall d | 0 <= d < |s'.clients| && SidOf(s'.clients[d]).Some? ensures ClientSession(s', d) {
      assert ClientSession(s, d);
    }
    forall x | x in s'.responses ensures ResponseOwner(s', x) {
      assert ResponseOwner(s, x);
    }
  }

  lemma DestroyKeepsSessions(s: Sys, c: nat)
    requires SessionsOk(s) && Enabled(s, Destroy(c)) && ClearStep(s, Destroy(c))
    ensures SessionsOk(ApplyDestroy(s, c)) && ApplyDestroy(s, c).mgr.nextId == s.mgr.nextId
    ensures S.Find(s.mgr, s.clients[c].sid).Some?
  {
    assert ClientSession(s, c);
    var sid := s.clients[c].sid;
    TableDestroy(s.mgr, s.ids, sid);
    TableLookup(s.mgr, s.ids, sid);
    SessionRemoved(s, c, S.Destroy(s.mgr, sid), S.MapStep(s.ids, S.DestroyOp(sid)).0, Free(s.heap, DataOf(s, sid)));
  }

  lemma SessionRemoved(s: Sys, c: nat, mgr: S.Manager, ids: S.IdMap, heap: Heap)
    requires SessionsOk(s) && TableOk(mgr, ids) && c < |s.clients| && s.clients[c].Marked?
    requires ids.sessions == s.ids.sessions - {s.clients[c].sid}
    ensures SessionsOk(s.(mgr := mgr, ids := ids, clients := s.clients[c := Accepting], heap := heap,
                          responses := s.responses - {s.clients[c].sid}))
  {
    var s' := s.(mgr := mgr, ids := ids, clients := s.clients[c := Accepting], heap := heap,
                 responses := s.responses - {s.clients[c].sid});
    assert ClientSession(s, c);
    forall d | 0 <= d < |s'.clients| && SidOf(s'.clients[d]).Some? ensures ClientSession(s', d) {
      assert ClientSession(s, d);
    }
    forall x | x in s'.responses ensures ResponseOwner(s', x) {
      assert ResponseOwner(s, x);
    }
  }

  /** A waiting client's session is registered and active, so the worker finds it. */
  lemma WaitingSessionIsFound(s: Sys, c: nat)
    requires SessionsOk(s) && c < |s.clients| && s.clients[c].Waiting?
    ensures S.Get(s.mgr, s.clients[c].sid).Some?
  {
    assert ClientSession(s, c);
    TableLookup(s.mgr, s.ids, s.clients[c].sid);
  }

  lemma WorkerKeepsSessions(s: Sys, a: Action)
    requires SessionsOk(s) && WorkerAction(a) && Enabled(s, a)
    ensures SessionsOk(ApplyWorker(s, a)) && ApplyWorker(s, a).mgr == s.mgr
  {
    WorkerLeavesSessions(s, a);
    SessionsFrame(s, ApplyWorker(s, a));
  }

  /** Workers set responses; they never add, remove or reassign one. */
  lemma WorkerLeavesSessions(s: Sys, a: Action)
    requires WorkerAction(a) && Enabled(s, a)
    ensures var s' := ApplyWorker(s, a);
            && s'.mgr == s.mgr && s'.ids == s.ids && s'.clients == s.clients
            && s'.responses.Keys == s.responses.Keys
            && forall sid :: sid in s.responses ==> s'.responses[sid].client == s.responses[sid].client
  {
  }

  /** A client moves on within its session; only its own response may be rewritten. */
  lemma MoveKeepsSessions(s: Sys, s': Sys, c: nat, cl: Client)
    requires SessionsOk(s) && c < |s.clients| && s'.clients == s.clients[c := cl]
    requires SidOf(cl) == SidOf(s.clients[c]) && !cl.Marked? && !s.clients[c].Marked?
    requires s'.mgr == s.mgr && s'.ids == s.ids && s'.responses.Keys == s.responses.Keys
    requires forall sid :: sid in s.responses ==> s'.responses[sid].client == s.responses[sid].client
    ensures SessionsOk(s')
  {
    SessionsFrame(s, s');
  }

  lemma ResetKeepsSessions(s: Sys, c: nat)
    requires SessionsOk(s) && Enabled(s, Reset(c))
    ensures SessionsOk(ApplyReset(s, c))
  {
    assert ClientSession(s, c);
    MoveKeepsSessions(s, ApplyReset(s, c), c, ApplyReset(s, c).clients[c]);
  }

  lemma ClientKeepsSessions(s: Sys, a: Action)
    requires SessionsOk(s) && ClientAction(a) && Enabled(s, a) && !a.Connect? && !a.Mark? && !a.Destroy?
    ensures SessionsOk(ApplyClient(s, a)) && ApplyClient(s, a).mgr == s.mgr
  {
    if a.Reset? {
      ResetKeepsSessions(s, a.c);
    } else {
      MoveKeepsSessions(s, ApplyClient(s, a), a.c, ApplyClient(s, a).clients[a.c]);
    }
  }

  lemma StepKeepsSessions(s: Sys, a: Action)
    requires SessionsOk(s) && Enabled(s, a) && ClearStep(s, a)
    ensures SessionsOk(Apply(s, a))
    ensures s.mgr.nextId <= Apply(s, a).mgr.nextId <= s.mgr.nextId + (if a.Connect? then 1 else 0)
  {
    if WorkerAction(a) {
      WorkerKeepsSessions(s, a);
    } else if a.Shutdown? {
      SessionsFrame(s, Apply(s, a));
    } else if a.Connect? {
      ConnectKeepsSessions(s, a.c, a.fd, a.res);
    } else if a.Mark? {
      MarkKeepsSessions(s, a.c);
    } else if a.Destroy? {
      DestroyKeepsSessions(s, a.c);
    } else {
      ClientKeepsSessions(s, a);
    }
  }

  // ---------------------------------------------------------------- young sessions

  /** A simple way to meet the hypothesis: live ids are recent at each creation. */
  ghost predicate RecentStep(s: Sys, a: Action)
  {
    a.Connect? ==> S.Recent(s.mgr) && s.mgr.nextId + 1 < TWO_64
  }

  ghost predicate RecentRun(s: Sys, acts: seq<Action>)
    requires Valid(s, acts)
    decreases |acts|
  {
    acts == [] || (RecentStep(s, acts[0]) && RecentRun(Apply(s, acts[0]), acts[1..]))
  }

  lemma StepKeepsHome(s: Sys, a: Action)
    requires SessionsOk(s) && S.AllHome(s.mgr) && Enabled(s, a) && RecentStep(s, a)
    ensures ClearStep(s, a) && S.AllHome(Apply(s, a).mgr)
  {
    if a.Connect? {
      S.CreateRefines(s.mgr, s.ids, a.fd, a.res);
      S.CreateKeepsCoherent(s.mgr, a.fd, a.res);
      S.FindableCreate(s.mgr, s.ids, a.fd, a.res);
      TableLookup(S.Create(s.mgr, a.fd, a.res).0, S.MapStep(s.ids, S.CreateOp(a.fd, a.res)).0, s.mgr.nextId);
    } else if a.Mark? {
      S.InactiveRefines(s.mgr, s.ids, s.clients[a.c].sid);
    } else if a.Destroy? {
      S.HomeIsClear(s.mgr, s.clients[a.c].sid);
      S.DestroyRefines(s.mgr, s.ids, s.clients[a.c].sid);
    }
  }

  /** Runs whose live ids are recent at each creation free no slot on anybody's way. */
  lemma {:induction false} RecentRunsAreClear(s: Sys, acts: seq<Action>)
    requires SessionsOk(s) && S.AllHome(s.mgr) && Valid(s, acts) && RecentRun(s, acts)
    ensures ClearRun(s, acts)
    decreases |acts|
  {
    if acts != [] {
      StepKeepsHome(s, acts[0]);
      StepKeepsSessions(s, acts[0]);
      RecentRunsAreClear(Apply(s, acts[0]), acts[1..]);
    }
  }
}
