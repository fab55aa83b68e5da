/**
 Ownership of heap buffers: the upload buffer a client thread allocates and hands to a worker
 through the queue, and the payload a worker allocates and hands to a client through the
 response.  Each has one owner at any time and is freed exactly once.
 */
module ProtocolBuffers {
  import opened Prelude
  import opened BoundedQueue
  import opened Protocol
  import opened ProtocolFlow
  import S = SessionTable
  import F = FileService

  /** The pointers that can hold a buffer. */
  datatype Loc =
    | OfClient(c: nat)
    | OfQueue(i: nat)
    | OfTask(w: nat)        // the task a worker is on, or the upload buffer it still has to free
    | OfPayload(w: nat)     // data read from disk or the LIST reply
    | OfResponse(sid: nat)

  function BufAt(s: Sys, loc: Loc): Option<BufId>
    requires WellFormed(s.ring)
  {
    match loc
    case OfClient(c) =>
      if c >= |s.clients| then None
      else (match s.clients[c]
            case Receiving(_, _, _, b) => Some(b)
            case Ready(_, _, b) => b
            case Cleared(_, _, b) => b
            case _ => None)
    case OfQueue(i) => if i < s.ring.size then Contents(s.ring)[i].buffer else None
    case OfTask(w) =>
      if w >= |s.workers| then None
      else (match s.workers[w]
            case Running(k, _) => k.buffer
            case Delivering(k, _, _, _) => k.buffer
            case Freeing(b) => b
            case _ => None)
    case OfPayload(w) =>
      if w >= |s.workers| then None
      else (match s.workers[w]
            case Running(_, out) => out
            case Delivering(_, out, _, _) => out
            case _ => None)
    case OfResponse(sid) => DataOf(s, sid)
  }

  // ---------------------------------------------------------------- heaps and holders

  /** Live buffers have exactly one holder; freed ones none, and each was freed once. */
  ghost predicate Owned(at: Loc -> Option<BufId>, h: Heap)
  {
    && (forall l, l' :: at(l).Some? && at(l) == at(l') ==> l == l')
    && (forall l :: at(l).Some? ==> at(l).value in h.live)
    && (forall b :: b in h.live ==> exists l :: at(l) == Some(b))
    && (forall i, j :: 0 <= i < j < |h.freed| ==> h.freed[i] != h.freed[j])
    && (forall b :: b in h.freed ==> b < h.next && b !in h.live)
    && (forall b :: b in h.live ==> b < h.next)
    && (forall b: nat :: b < h.next ==> b in h.live || b in h.freed)
  }

  lemma NothingMoves(at: Loc -> Option<BufId>, at': Loc -> Option<BufId>, h: Heap)
    requires Owned(at, h) && forall l :: at'(l) == at(l)
    ensures Owned(at', h)
  {
    forall b | b in h.live ensures exists l :: at'(l) == Some(b) {
      var l :| at(l) == Some(b);
      assert at'(l) == Some(b);
    }
  }

  /** A buffer changes hands: `to` was empty and `from` is cleared. */
  lemma BufferMoves(at: Loc -> Option<BufId>, at': Loc -> Option<BufId>, h: Heap, from: Loc, to: Loc)
    requires Owned(at, h) && from != to && at(to) == None && at'(from) == None && at'(to) == at(from)
    requires forall l :: l != from && l != to ==> at'(l) == at(l)
    ensures Owned(at', h)
  {
    forall b | b in h.live ensures exists l :: at'(l) == Some(b) {
      var l :| at(l) == Some(b);
      assert at'(if l == from then to else l) == Some(b);
    }
    forall l, l' | at'(l).Some? && at'(l) == at'(l') ensures l == l' {
      var o, o' := if l == to then from else l, if l' == to then from else l';
      assert at(o) == at'(l) && at(o') == at'(l');
    }
  }

  lemma BufferFreed(at: Loc -> Option<BufId>, at': Loc -> Option<BufId>, h: Heap, from: Loc)
    requires Owned(at, h) && at'(from) == None && forall l :: l != from ==> at'(l) == at(l)
    ensures Owned(at', Free(h, at(from)))
  {
    if at(from).None? {
      NothingMoves(at, at', h);
    } else {
      var h' := Free(h, at(from));
      forall b | b in h'.live ensures exists l :: at'(l) == Some(b) {
        var l :| at(l) == Some(b);
        assert at'(l) == Some(b);
      }
      forall l | at'(l).Some? ensures at'(l).value in h'.live {
        assert at(l) == at'(l);
      }
      forall b: nat | b < h'.next ensures b in h'.live || b in h'.freed {
        if b == at(from).value {
          assert h'.freed[|h.freed|] == b;
        } else if b in h.freed {
          var i :| 0 <= i < |h.freed| && h.freed[i] == b;
          assert h'.freed[i] == b;
        }
      }
    }
  }

  lemma BufferAllocated(at: Loc -> Option<BufId>, at': Loc -> Option<BufId>, h: Heap, to: Loc)
    requires Owned(at, h) && at(to) == None && at'(to) == Some(h.next) && forall l :: l != to ==> at'(l) == at(l)
    ensures Owned(at', Alloc(h))
  {
    forall b | b in Alloc(h).live ensures exists l :: at'(l) == Some(b) {
      if b == h.next {
        assert at'(to) == Some(b);
      } else {
        var l :| at(l) == Some(b);
        assert at'(l) == Some(b);
      }
    }
  }

  /** Holders are renamed one to one. */
  lemma HoldersRenamed(at: Loc -> Option<BufId>, at': Loc -> Option<BufId>, h: Heap,
                       before: Loc -> Loc, after: Loc -> Loc)
    requires Owned(at, h)
    requires forall l :: at'(l) == at(before(l))
    requires forall l :: at(l).Some? ==> before(after(l)) == l
    requires forall l, l' :: before(l) == before(l') ==> l == l'
    ensures Owned(at', h)
  {
    forall b | b in h.live ensures exists l :: at'(l) == Some(b) {
      var l :| at(l) == Some(b);
      assert at'(after(l)) == Some(b);
    }
    forall l, l' | at'(l).Some? && at'(l) == at'(l') ensures l == l' {
      assert at(before(l)) == at(before(l'));
    }
  }

  // ---------------------------------------------------------------- the invariant

  /** A worker has a payload only once it read one. */
  predicate PayloadFits(s: Sys, w: nat)
    requires w < |s.workers| == |s.svc.jobs|
  {
    s.workers[w].Running? && s.workers[w].out.Some? ==>
      var j := s.svc.jobs[w];
      j.Reading? || (j.Closing? && !j.res.Spoiled?) || (j.Unlocked? && !j.res.Spoiled?) || j.Done?
  }

  ghost predicate Holds(s: Sys)
    requires WellFormed(s.ring)
  {
    Owned(l => BufAt(s, l), s.heap)
  }

  ghost predicate BuffersOk(s: Sys)
  {
    && WellFormed(s.ring) && |s.workers| == |s.svc.jobs|
    && Holds(s)
    && (forall w :: 0 <= w < |s.workers| ==> PayloadFits(s, w))
  }

  lemma ClientKeepsPayloads(s: Sys, s': Sys)
    requires BuffersOk(s) && s'.workers == s.workers && s'.svc == s.svc && WellFormed(s'.ring) && Holds(s')
    ensures BuffersOk(s')
  {
    forall w | 0 <= w < |s'.workers| ensures PayloadFits(s', w) {
      assert PayloadFits(s, w);
    }
  }

  // ---------------------------------------------------------------- client steps

  /** Apart from an empty response, nothing that holds a buffer changes. */
  lemma EmptyResponseKeepsBuffers(s: Sys, s': Sys, c: nat, sid: nat)
    requires BuffersOk(s) && c < |s.clients| && |s'.clients| == |s.clients|
    requires s'.clients == s.clients[c := s'.clients[c]]
    requires s.clients[c].Accepting? && (s'.clients[c].Accepting? || s'.clients[c].Serving?)
    requires s'.ring == s.ring && s'.workers == s.workers && s'.svc == s.svc && s'.heap == s.heap
    requires sid !in s.responses
    requires s'.responses == s.responses || s'.responses == s.responses[sid := Response(c, false, 0, BLANK, None)]
    ensures BuffersOk(s')
  {
    assert forall l :: BufAt(s', l) == BufAt(s, l);
    NothingMoves(l => BufAt(s, l), l => BufAt(s', l), s.heap);
    ClientKeepsPayloads(s, s');
  }

  lemma ConnectKeepsBuffers(s: Sys, c: nat, fd: int, res: S.Resources)
    requires FlowOk(s) && BuffersOk(s) && Enabled(s, Connect(c, fd, res)) && ClearStep(s, Connect(c, fd, res))
    ensures BuffersOk(ApplyConnect(s, c, fd, res))
  {
    ConnectKeepsSessions(s, c, fd, res);
    EmptyResponseKeepsBuffers(s, ApplyConnect(s, c, fd, res), c, s.mgr.nextId);
  }

  lemma StartUploadKeepsBuffers(s: Sys, c: nat, s': Sys)
    requires BuffersOk(s) && c < |s.clients| && s.clients[c].Serving?
    requires |s'.clients| == |s.clients| && s'.clients[c].Receiving? && s'.clients[c].upload == s.heap.next
    requires s' == s.(clients := s.clients[c := s'.clients[c]], heap := Alloc(s.heap))
    ensures BuffersOk(s')
  {
    assert forall l :: l != OfClient(c) ==> BufAt(s', l) == BufAt(s, l);
    BufferAllocated(l => BufAt(s, l), l => BufAt(s', l), s.heap, OfClient(c));
    ClientKeepsPayloads(s, s');
  }

  /** The client gives up its upload buffer. */
  lemma ClientFreeKeepsBuffers(s: Sys, c: nat, s': Sys)
    requires BuffersOk(s) && c < |s.clients|
    requires |s'.clients| == |s.clients| && s'.clients[c].Serving?
    requires s' == s.(clients := s.clients[c := s'.clients[c]], heap := Free(s.heap, BufAt(s, OfClient(c))))
    ensures BuffersOk(s')
  {
    assert forall l :: l != OfClient(c) ==> BufAt(s', l) == BufAt(s, l);
    BufferFreed(l => BufAt(s, l), l => BufAt(s', l), s.heap, OfClient(c));
    ClientKeepsPayloads(s, s');
  }

  /** The client moves on with the buffer it has. */
  lemma ClientMoveKeepsBuffers(s: Sys, c: nat, s': Sys)
    requires BuffersOk(s) && c < |s.clients| && |s'.clients| == |s.clients|
    requires s'.clients == s.clients[c := s'.clients[c]]
    requires s'.ring == s.ring && s'.workers == s.workers && s'.svc == s.svc
    requires s'.responses == s.responses && s'.heap == s.heap
    requires BufAt(s', OfClient(c)) == BufAt(s, OfClient(c))
    ensures BuffersOk(s')
  {
    assert forall l :: BufAt(s', l) == BufAt(s, l);
    NothingMoves(l => BufAt(s, l), l => BufAt(s', l), s.heap);
    ClientKeepsPayloads(s, s');
  }

  /** The payload of a response is freed and its pointer cleared or dropped. */
  lemma ResponseFreeKeepsBuffers(s: Sys, s': Sys, c: nat, sid: nat)
    requires BuffersOk(s) && c < |s.clients| && |s'.clients| == |s.clients|
    requires s'.clients == s.clients[c := s'.clients[c]]
    requires s'.ring == s.ring && s'.workers == s.workers && s'.svc == s.svc
    requires BufAt(s', OfClient(c)) == BufAt(s, OfClient(c))
    requires s'.heap == Free(s.heap, DataOf(s, sid)) && DataOf(s', sid).None?
    requires forall x :: x != sid ==> DataOf(s', x) == DataOf(s, x)
    ensures BuffersOk(s')
  {
    assert forall l :: l != OfResponse(sid) ==> BufAt(s', l) == BufAt(s, l);
    BufferFreed(l => BufAt(s, l), l => BufAt(s', l), s.heap, OfResponse(sid));
    ClientKeepsPayloads(s, s');
  }

  lemma ResetKeepsBuffers(s: Sys, c: nat)
    requires BuffersOk(s) && Enabled(s, Reset(c))
    ensures BuffersOk(ApplyReset(s, c))
  {
    ResponseFreeKeepsBuffers(s, ApplyReset(s, c), c, s.clients[c].sid);
  }

  lemma DestroyKeepsBuffers(s: Sys, c: nat)
    requires BuffersOk(s) && SessionsOk(s) && Enabled(s, Destroy(c)) && ClearStep(s, Destroy(c))
    ensures BuffersOk(ApplyDestroy(s, c))
  {
    DestroyKeepsSessions(s, c);
    ResponseFreeKeepsBuffers(s, ApplyDestroy(s, c), c, s.clients[c].sid);
  }

  lemma PushKeepsBuffers(s: Sys, c: nat)
    requires FlowOk(s) && BuffersOk(s) && Enabled(s, Push(c))
    ensures BuffersOk(ApplyPush(s, c))
  {
    var s' := ApplyPush(s, c);
    if s.ring.shutdown {
      ClientFreeKeepsBuffers(s, c, s');
    } else {
      PushSpots(s, c);
      TaskQueued(s, s', c);
    }
  }

  /** The upload buffer goes from the client to the end of the queue. */
  lemma TaskQueued(s: Sys, s': Sys, c: nat)
    requires BuffersOk(s) && WellFormed(s'.ring) && c < |s.clients| && |s'.clients| == |s.clients|
    requires s'.clients == s.clients[c := s'.clients[c]] && s'.clients[c].Waiting?
    requires |Contents(s'.ring)| == |Contents(s.ring)| + 1 && Contents(s.ring) == Contents(s'.ring)[..s.ring.size]
    requires Contents(s'.ring)[s.ring.size].buffer == BufAt(s, OfClient(c))
    requires s'.workers == s.workers && s'.svc == s.svc && s'.responses == s.responses && s'.heap == s.heap
    ensures BuffersOk(s')
  {
    var i := s.ring.size;
    assert forall l :: l != OfClient(c) && l != OfQueue(i) ==> BufAt(s', l) == BufAt(s, l);
    BufferMoves(l => BufAt(s, l), l => BufAt(s', l), s.heap, OfClient(c), OfQueue(i));
    ClientKeepsPayloads(s, s');
  }

  lemma OtherClientStepKeepsBuffers(s: Sys, a: Action)
    requires BuffersOk(s) && ClientAction(a) && Enabled(s, a)
    requires !a.Connect? && !a.Reset? && !a.Push? && !a.Destroy?
    ensures BuffersOk(ApplyClient(s, a))
  {
    if a.StartUpload? {
      StartUploadKeepsBuffers(s, a.c, ApplyClient(s, a));
    } else if a.UploadBreaks? {
      ClientFreeKeepsBuffers(s, a.c, ApplyClient(s, a));
    } else {
      ClientMoveKeepsBuffers(s, a.c, ApplyClient(s, a));
    }
  }

  lemma ClientKeepsBuffers(s: Sys, a: Action)
    requires FlowOk(s) && BuffersOk(s) && ClientAction(a) && Enabled(s, a) && ClearStep(s, a)
    ensures BuffersOk(ApplyClient(s, a))
  {
    match a {
      case Connect(c, fd, res) => ConnectKeepsBuffers(s, c, fd, res);
      case Reset(c) => ResetKeepsBuffers(s, c);
      case Push(c) => PushKeepsBuffers(s, c);
      case Destroy(c) => DestroyKeepsBuffers(s, c);
      case _ => OtherClientStepKeepsBuffers(s, a);
    }
  }

  // ---------------------------------------------------------------- worker steps

  function QueueBefore(l: Loc, w: nat): Loc
  {
    match l
    case OfQueue(i) => OfQueue(i + 1)
    case OfTask(u) => if u == w then OfQueue(0) else l
    case _ => l
  }

  function QueueAfter(l: Loc, w: nat): Loc
  {
    match l
    case OfQueue(i) => if i == 0 then OfTask(w) else OfQueue(i - 1)
    case _ => l
  }

  lemma PopKeepsBuffers(s: Sys, w: nat)
    requires FlowOk(s) && BuffersOk(s) && Enabled(s, Pop(w))
    ensures BuffersOk(ApplyPop(s, w))
  {
    PopEffect(s, w);
    TaskHandedOver(s, ApplyPop(s, w), w);
  }

  /** The oldest task and its buffer go from the queue to the worker. */
  lemma TaskHandedOver(s: Sys, s': Sys, w: nat)
    requires BuffersOk(s) && WellFormed(s'.ring) && w < |s.workers| && s.workers[w].Popping?
    requires |Contents(s.ring)| > 0 && Contents(s'.ring) == Contents(s.ring)[1..]
    requires s'.workers == s.workers[w := Running(Contents(s.ring)[0], None)]
    requires |s'.svc.jobs| == |s.svc.jobs| && s'.svc.jobs == s.svc.jobs[w := s'.svc.jobs[w]]
    requires s'.clients == s.clients && s'.responses == s.responses && s'.heap == s.heap
    ensures BuffersOk(s')
  {
    var q := Contents(s.ring);
    forall l ensures BufAt(s', l) == BufAt(s, QueueBefore(l, w)) {
      if l.OfQueue? && l.i < s'.ring.size {
        assert Contents(s'.ring)[l.i] == q[l.i + 1];
      }
    }
    HoldersRenamed(l => BufAt(s, l), l => BufAt(s', l), s.heap, l => QueueBefore(l, w), l => QueueAfter(l, w));
    forall u | 0 <= u < |s'.workers| ensures PayloadFits(s', u) {
      assert PayloadFits(s, u);
    }
  }

  /** Worker `w` takes a step; every other worker is where it was. */
  lemma OthersKeepPayloads(s: Sys, s': Sys, w: nat)
    requires BuffersOk(s) && WellFormed(s'.ring) && Holds(s')
    requires |s'.workers| == |s.workers| && |s'.svc.jobs| == |s.svc.jobs| && w < |s.workers|
    requires s'.workers == s.workers[w := s'.workers[w]] && s'.svc.jobs == s.svc.jobs[w := s'.svc.jobs[w]]
    requires PayloadFits(s', w)
    ensures BuffersOk(s')
  {
    forall u | 0 <= u < |s'.workers| ensures PayloadFits(s', u) {
      assert PayloadFits(s, u);
    }
  }

  /** A worker step that allocates, frees or keeps what location `l0` holds. */
  lemma WorkerHeapStep(s: Sys, s': Sys, w: nat, l0: Loc)
    requires BuffersOk(s) && WellFormed(s'.ring)
    requires |s'.workers| == |s.workers| && |s'.svc.jobs| == |s.svc.jobs| && w < |s.workers|
    requires s'.workers == s.workers[w := s'.workers[w]] && s'.svc.jobs == s.svc.jobs[w := s'.svc.jobs[w]]
    requires PayloadFits(s', w)
    requires forall l :: l != l0 ==> BufAt(s', l) == BufAt(s, l)
    requires
      || (BufAt(s, l0).None? && BufAt(s', l0) == Some(s.heap.next) && s'.heap == Alloc(s.heap))
      || (BufAt(s', l0).None? && s'.heap == Free(s.heap, BufAt(s, l0)))
      || (BufAt(s', l0) == BufAt(s, l0) && s'.heap == s.heap)
    ensures BuffersOk(s')
  {
    if BufAt(s', l0) == BufAt(s, l0) && s'.heap == s.heap {
      NothingMoves(l => BufAt(s, l), l => BufAt(s', l), s.heap);
    } else if BufAt(s', l0).None? {
      BufferFreed(l => BufAt(s, l), l => BufAt(s', l), s.heap, l0);
    } else {
      BufferAllocated(l => BufAt(s, l), l => BufAt(s', l), s.heap, l0);
    }
    OthersKeepPayloads(s, s', w);
  }

  /** Reading or listing allocates, a failed read frees, and nothing else changes hands. */
  lemma ExecHeap(s: Sys, w: nat, x: F.Action)
    requires Enabled(s, Exec(w, x)) && |s.workers| == |s.svc.jobs| && PayloadFits(s, w)
    ensures var s', l0 := ApplyExec(s, w, x), OfPayload(w);
            && WellFormed(s'.ring) && |s'.workers| == |s.workers| && |s'.svc.jobs| == |s.svc.jobs|
            && s'.workers == s.workers[w := s'.workers[w]] && s'.svc.jobs == s.svc.jobs[w := s'.svc.jobs[w]]
            && (forall l :: l != l0 ==> BufAt(s', l) == BufAt(s, l))
            && (|| (BufAt(s, l0).None? && BufAt(s', l0) == Some(s.heap.next) && s'.heap == Alloc(s.heap))
                || (BufAt(s', l0).None? && s'.heap == Free(s.heap, BufAt(s, l0)))
                || (BufAt(s', l0) == BufAt(s, l0) && s'.heap == s.heap))
  {
  }

  lemma ExecKeepsBuffers(s: Sys, w: nat, x: F.Action)
    requires BuffersOk(s) && Enabled(s, Exec(w, x))
    ensures BuffersOk(ApplyExec(s, w, x))
  {
    assert PayloadFits(s, w);
    PayloadStaysFit(s, w, x);
    ExecHeap(s, w, x);
    WorkerHeapStep(s, ApplyExec(s, w, x), w, OfPayload(w));
  }

  lemma FreeUploadKeepsBuffers(s: Sys, w: nat)
    requires BuffersOk(s) && Enabled(s, FreeUpload(w))
    ensures BuffersOk(ApplyWorker(s, FreeUpload(w)))
  {
    WorkerHeapStep(s, ApplyWorker(s, FreeUpload(w)), w, OfTask(w));
  }

  lemma FindKeepsBuffers(s: Sys, w: nat)
    requires BuffersOk(s) && Enabled(s, FindSession(w))
    ensures BuffersOk(ApplyFind(s, w))
  {
    WorkerHeapStep(s, ApplyFind(s, w), w, OfTask(w));
  }

  lemma WorkerExitKeepsBuffers(s: Sys, w: nat)
    requires BuffersOk(s) && Enabled(s, WorkerExit(w))
    ensures BuffersOk(ApplyWorker(s, WorkerExit(w)))
  {
    WorkerHeapStep(s, ApplyWorker(s, WorkerExit(w)), w, OfTask(w));
  }

  lemma PayloadStaysFit(s: Sys, w: nat, x: F.Action)
    requires |s.workers| == |s.svc.jobs| && Enabled(s, Exec(w, x)) && PayloadFits(s, w)
    ensures PayloadFits(ApplyExec(s, w, x), w)
  {
  }

  lemma RespondKeepsBuffers(s: Sys, w: nat)
    requires FlowOk(s) && BuffersOk(s) && Enabled(s, Respond(w))
    ensures BuffersOk(ApplyRespond(s, w))
  {
    RespondDelivers(s, w);
    PayloadHandedOver(s, ApplyRespond(s, w), w, s.workers[w].task.sid);
  }

  /** The payload goes from the worker to a response that held none. */
  lemma PayloadHandedOver(s: Sys, s': Sys, w: nat, sid: nat)
    requires BuffersOk(s) && w < |s.workers| && s.workers[w].Delivering? && DataOf(s, sid).None?
    requires s'.workers == s.workers[w := Freeing(s.workers[w].task.buffer)]
    requires s'.clients == s.clients && s'.ring == s.ring && s'.svc == s.svc && s'.heap == s.heap
    requires DataOf(s', sid) == s.workers[w].out && forall x :: x != sid ==> DataOf(s', x) == DataOf(s, x)
    ensures BuffersOk(s')
  {
    assert forall l :: l != OfPayload(w) && l != OfResponse(sid) ==> BufAt(s', l) == BufAt(s, l);
    BufferMoves(l => BufAt(s, l), l => BufAt(s', l), s.heap, OfPayload(w), OfResponse(sid));
    OthersKeepPayloads(s, s', w);
  }

  lemma WorkerKeepsBuffers(s: Sys, a: Action)
    requires FlowOk(s) && BuffersOk(s) && WorkerAction(a) && Enabled(s, a)
    ensures BuffersOk(ApplyWorker(s, a))
  {
    match a {
      case Pop(w) => PopKeepsBuffers(s, w);
      case Exec(w, x) => ExecKeepsBuffers(s, w, x);
      case FindSession(w) => FindKeepsBuffers(s, w);
      case Respond(w) => RespondKeepsBuffers(s, w);
      case FreeUpload(w) => FreeUploadKeepsBuffers(s, w);
      case WorkerExit(w) => WorkerExitKeepsBuffers(s, w);
    }
  }

  lemma ShutdownKeepsBuffers(s: Sys)
    requires BuffersOk(s)
    ensures BuffersOk(s.(ring := s.ring.(shutdown := true)))
  {
    var s' := s.(ring := s.ring.(shutdown := true));
    assert Contents(s'.ring) == Contents(s.ring);
    assert forall l :: BufAt(s', l) == BufAt(s, l);
    NothingMoves(l => BufAt(s, l), l => BufAt(s', l), s.heap);
    ClientKeepsPayloads(s, s');
  }

  lemma StepKeepsBuffers(s: Sys, a: Action)
    requires FlowOk(s) && BuffersOk(s) && Enabled(s, a) && ClearStep(s, a)
    ensures BuffersOk(Apply(s, a))
  {
    if a.Shutdown? {
      ShutdownKeepsBuffers(s);
    } else if WorkerAction(a) {
      WorkerKeepsBuffers(s, a);
    } else {
      ClientKeepsBuffers(s, a);
    }
  }
}
