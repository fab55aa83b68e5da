/**
 All interleavings of threads pushing to and popping from one bounded queue, with the
 semantics POSIX.1-2017 gives `pthread_cond_wait` and `pthread_cond_signal`: a signal wakes
 at least one waiter if there is one, a waiter may wake spuriously, and a woken thread
 competes for the mutex with newcomers.
 */
module QueueMonitor {
  import opened Prelude
  import opened BoundedQueue

  datatype Thread<T> =
    | Outside                // not in a queue call
    | Pushing(x: T)          // about to lock the mutex in a push
    | PushBlocked(x: T)      // waiting on not_full
    | PushWoken(x: T)        // woken, must lock the mutex again
    | Popping
    | PopBlocked             // waiting on not_empty
    | PopWoken
    | Gone                   // pop reported shutdown; the thread left its loop

  datatype Monitor<T> = Monitor(
    ring: Ring<T>,
    threads: seq<Thread<T>>,
    accepted: seq<T>,        // every element a push accepted, in order
    popped: seq<T>)          // every element a pop returned, in order

  datatype Action<T> =
    | StartPush(t: nat, x: T)
    | StartPop(t: nat)
    | PushStep(t: nat, woken: set<nat>)
    | PopStep(t: nat, woken: set<nat>)
    | Spurious(t: nat)
    | Shutdown

  ghost predicate Init<T>(s: Monitor<T>)
  {
    && WellFormed(s.ring) && Contents(s.ring) == [] && !s.ring.shutdown
    && (forall t :: 0 <= t < |s.threads| ==> s.threads[t].Outside?)
    && s.accepted == s.popped == []
  }

  /** The legal effects of `pthread_cond_signal`: some waiters wake, at least one if any. */
  ghost predicate WakesConsumers<T>(threads: seq<Thread<T>>, woken: set<nat>)
  {
    && (forall t :: t in woken ==> t < |threads| && threads[t].PopBlocked?)
    && ((exists t :: 0 <= t < |threads| && threads[t].PopBlocked?) ==> woken != {})
  }

  ghost predicate WakesProducers<T>(threads: seq<Thread<T>>, woken: set<nat>)
  {
    && (forall t :: t in woken ==> t < |threads| && threads[t].PushBlocked?)
    && ((exists t :: 0 <= t < |threads| && threads[t].PushBlocked?) ==> woken != {})
  }

  function Wake<T>(th: Thread<T>): Thread<T>
  {
    match th
    case PushBlocked(x) => PushWoken(x)
    case PopBlocked => PopWoken
    case _ => th
  }

  function WakeThreads<T>(threads: seq<Thread<T>>, woken: set<nat>): (r: seq<Thread<T>>)
    ensures |r| == |threads|
  {
    seq(|threads|, t requires 0 <= t < |threads| => if t in woken then Wake(threads[t]) else threads[t])
  }

  function WakeAll<T>(threads: seq<Thread<T>>): (r: seq<Thread<T>>)
    ensures |r| == |threads|
  {
    seq(|threads|, t requires 0 <= t < |threads| => Wake(threads[t]))
  }

  ghost predicate Enabled<T>(s: Monitor<T>, a: Action<T>)
  {
    && WellFormed(s.ring)
    && (!a.Shutdown? ==> a.t < |s.threads|)
    && match a
       case StartPush(t, _) => s.threads[t].Outside?
       case StartPop(t) => s.threads[t].Outside?
       case PushStep(t, woken) =>
         && (s.threads[t].Pushing? || s.threads[t].PushWoken?)
         && (if PushSection(s.ring, s.threads[t].x).1.Accepted?
             then WakesConsumers(s.threads, woken) else woken == {})
       case PopStep(t, woken) =>
         && (s.threads[t].Popping? || s.threads[t].PopWoken?)
         && (if PopSection(s.ring).1.Popped? then WakesProducers(s.threads, woken) else woken == {})
       case Spurious(t) => s.threads[t].PushBlocked? || s.threads[t].PopBlocked?
       case Shutdown => true
  }

  ghost function Apply<T>(s: Monitor<T>, a: Action<T>): Monitor<T>
    requires Enabled(s, a)
  {
    match a
    case StartPush(t, x) => s.(threads := s.threads[t := Pushing(x)])
    case StartPop(t) => s.(threads := s.threads[t := Popping])
    case PushStep(t, woken) =>
      var x := s.threads[t].x;
      var (ring, o) := PushSection(s.ring, x);
      (match o
       case PushMustWait => s.(threads := s.threads[t := PushBlocked(x)])
       case Refused => s.(threads := s.threads[t := Outside])
       case Accepted => s.(ring := ring, accepted := s.accepted + [x],
                           threads := WakeThreads(s.threads, woken)[t := Outside]))
    case PopStep(t, woken) =>
      var (ring, o) := PopSection(s.ring);
      (match o
       case PopMustWait => s.(threads := s.threads[t := PopBlocked])
       case Closed => s.(threads := s.threads[t := Gone])
       case Popped(item) => s.(ring := ring, popped := s.popped + [item],
                               threads := WakeThreads(s.threads, woken)[t := Outside]))
    case Spurious(t) => s.(threads := s.threads[t := Wake(s.threads[t])])
    case Shutdown => s.(ring := s.ring.(shutdown := true), threads := WakeAll(s.threads))
  }

  ghost predicate Valid<T>(s: Monitor<T>, acts: seq<Action<T>>)
    decreases |acts|
  {
    acts == [] || (Enabled(s, acts[0]) && Valid(Apply(s, acts[0]), acts[1..]))
  }

  ghost function Final<T>(s: Monitor<T>, acts: seq<Action<T>>): Monitor<T>
    requires Valid(s, acts)
    decreases |acts|
  {
    if acts == [] then s else Final(Apply(s, acts[0]), acts[1..])
  }

  // ---------------------------------------------------------------- counting threads

  datatype Kind = BlockedPush | WokenPush | BlockedPop | WokenPop | Left | Other

  function KindOf<T>(th: Thread<T>): Kind
  {
    match th
    case PushBlocked(_) => BlockedPush
    case PushWoken(_) => WokenPush
    case PopBlocked => BlockedPop
    case PopWoken => WokenPop
    case Gone => Left
    case _ => Other
  }

  function Count<T>(threads: seq<Thread<T>>, k: Kind): nat
  {
    if threads == [] then 0
    else Count(threads[..|threads| - 1], k) + (if KindOf(threads[|threads| - 1]) == k then 1 else 0)
  }

  lemma {:induction false} CountUpdate<T>(threads: seq<Thread<T>>, t: nat, th: Thread<T>, k: Kind)
    requires t < |threads|
    ensures Count(threads[t := th], k) ==
            Count(threads, k) - (if KindOf(threads[t]) == k then 1 else 0) + (if KindOf(th) == k then 1 else 0)
  {
    var n := |threads| - 1;
    if t == n {
      assert threads[t := th][..n] == threads[..n];
    } else {
      assert threads[t := th][..n] == threads[..n][t := th];
      CountUpdate(threads[..n], t, th, k);
    }
  }

  lemma {:induction false} CountZeroIff<T>(threads: seq<Thread<T>>, k: Kind)
    ensures Count(threads, k) == 0 <==> forall t :: 0 <= t < |threads| ==> KindOf(threads[t]) != k
  {
    if threads != [] {
      var front := threads[..|threads| - 1];
      CountZeroIff(front, k);
      assert forall t :: 0 <= t < |front| ==> threads[t] == front[t];
    }
  }

  /** Waking moves threads from blocked to woken, one for one. */
  lemma {:induction false} CountWake<T>(threads: seq<Thread<T>>, woken: set<nat>)
    ensures var r := WakeThreads(threads, woken);
            && Count(r, BlockedPop) + Count(r, WokenPop) == Count(threads, BlockedPop) + Count(threads, WokenPop)
            && Count(r, BlockedPush) + Count(r, WokenPush) == Count(threads, BlockedPush) + Count(threads, WokenPush)
            && Count(r, BlockedPop) <= Count(threads, BlockedPop)
            && Count(r, BlockedPush) <= Count(threads, BlockedPush)
            && Count(r, Left) == Count(threads, Left)
            && ((forall t :: t in woken && t < |threads| ==> !threads[t].PushBlocked?) ==>
                  Count(r, BlockedPush) == Count(threads, BlockedPush))
            && ((forall t :: t in woken && t < |threads| ==> !threads[t].PopBlocked?) ==>
                  Count(r, BlockedPop) == Count(threads, BlockedPop))
            && ((exists t :: t in woken && t < |threads| && threads[t].PopBlocked?) ==>
                  Count(r, BlockedPop) < Count(threads, BlockedPop))
            && ((exists t :: t in woken && t < |threads| && threads[t].PushBlocked?) ==>
                  Count(r, BlockedPush) < Count(threads, BlockedPush))
  {
    if threads != [] {
      var n := |threads| - 1;
      assert WakeThreads(threads, woken)[..n] == WakeThreads(threads[..n], woken);
      CountWake(threads[..n], woken);
    }
  }

  // ---------------------------------------------------------------- the invariant

  /** Enough threads are awake for the elements and for the free cells. */
  ghost predicate Balanced<T>(threads: seq<Thread<T>>, size: nat, capacity: nat, shutdown: bool)
  {
    && (Count(threads, BlockedPop) > 0 ==> size <= Count(threads, WokenPop))
    && (Count(threads, BlockedPush) > 0 ==> capacity - size <= Count(threads, WokenPush))
    && (shutdown ==> Count(threads, BlockedPop) == 0 && Count(threads, BlockedPush) == 0)
    && (Count(threads, Left) > 0 ==> shutdown && size == 0)
  }

  ghost predicate Inv<T>(s: Monitor<T>)
  {
    && WellFormed(s.ring)
    && s.popped + Contents(s.ring) == s.accepted
    && Balanced(s.threads, s.ring.size, |s.ring.cells|, s.ring.shutdown)
  }

  lemma InitOk<T>(s: Monitor<T>)
    requires Init(s)
    ensures Inv(s)
  {
    CountZeroIff(s.threads, BlockedPop);
    CountZeroIff(s.threads, BlockedPush);
    CountZeroIff(s.threads, Left);
  }

  lemma MoveKeepsCounts<T>(threads: seq<Thread<T>>, t: nat, th: Thread<T>)
    requires t < |threads|
    ensures forall k :: Count(threads[t := th], k) ==
              Count(threads, k) - (if KindOf(threads[t]) == k then 1 else 0) + (if KindOf(th) == k then 1 else 0)
  {
    forall k {
      CountUpdate(threads, t, th, k);
    }
  }

  /** A push adds an element and signals a consumer. */
  lemma PushBalances<T>(threads: seq<Thread<T>>, t: nat, woken: set<nat>, size: nat, capacity: nat)
    requires Balanced(threads, size, capacity, false) && size < capacity && t < |threads|
    requires (threads[t].Pushing? || threads[t].PushWoken?) && WakesConsumers(threads, woken)
    ensures Balanced(WakeThreads(threads, woken)[t := Outside], size + 1, capacity, false)
  {
    var awake := WakeThreads(threads, woken);
    CountWake(threads, woken);
    CountZeroIff(threads, BlockedPop);
    assert awake[t] == threads[t];
    MoveKeepsCounts(awake, t, Outside);
    if Count(threads, BlockedPop) > 0 {
      assert exists u :: u in woken && u < |threads| && threads[u].PopBlocked?;
    }
  }

  /** A pop frees a cell and signals a producer. */
  lemma PopBalances<T>(threads: seq<Thread<T>>, t: nat, woken: set<nat>, size: nat, capacity: nat, shutdown: bool)
    requires Balanced(threads, size, capacity, shutdown) && 0 < size <= capacity && t < |threads|
    requires (threads[t].Popping? || threads[t].PopWoken?) && WakesProducers(threads, woken)
    ensures Balanced(WakeThreads(threads, woken)[t := Outside], size - 1, capacity, shutdown)
  {
    var awake := WakeThreads(threads, woken);
    CountWake(threads, woken);
    CountZeroIff(threads, BlockedPush);
    assert awake[t] == threads[t];
    MoveKeepsCounts(awake, t, Outside);
    if Count(threads, BlockedPush) > 0 {
      assert exists u :: u in woken && u < |threads| && threads[u].PushBlocked?;
    }
  }

  lemma ShutdownBalances<T>(threads: seq<Thread<T>>, size: nat, capacity: nat, shutdown: bool)
    requires Balanced(threads, size, capacity, shutdown)
    ensures Balanced(WakeAll(threads), size, capacity, true)
  {
    var all := Below(|threads|);
    assert WakeAll(threads) == WakeThreads(threads, all);
    CountWake(threads, all);
    CountZeroIff(WakeAll(threads), BlockedPop);
    CountZeroIff(WakeAll(threads), BlockedPush);
  }

  lemma PushKeepsInv<T>(s: Monitor<T>, t: nat, woken: set<nat>)
    requires Inv(s) && Enabled(s, PushStep(t, woken))
    ensures Inv(Apply(s, PushStep(t, woken)))
  {
    var x := s.threads[t].x;
    PushAppends(s.ring, x);
    var (ring, o) := PushSection(s.ring, x);
    match o {
      case PushMustWait =>
        MoveKeepsCounts(s.threads, t, PushBlocked(x));
      case Refused =>
        MoveKeepsCounts(s.threads, t, Outside);
      case Accepted =>
        assert s.popped + Contents(ring) == s.accepted + [x];
        PushBalances(s.threads, t, woken, s.ring.size, |s.ring.cells|);
    }
  }

  lemma PopKeepsInv<T>(s: Monitor<T>, t: nat, woken: set<nat>)
    requires Inv(s) && Enabled(s, PopStep(t, woken))
    ensures Inv(Apply(s, PopStep(t, woken)))
  {
    PopTakesOldest(s.ring);
    var (ring, o) := PopSection(s.ring);
    match o {
      case PopMustWait =>
        MoveKeepsCounts(s.threads, t, PopBlocked);
      case Closed =>
        MoveKeepsCounts(s.threads, t, Gone);
      case Popped(item) =>
        assert s.popped + [item] + Contents(ring) == s.popped + ([item] + Contents(ring));
        PopBalances(s.threads, t, woken, s.ring.size, |s.ring.cells|, s.ring.shutdown);
    }
  }

  lemma ShutdownKeepsInv<T>(s: Monitor<T>)
    requires Inv(s)
    ensures Inv(Apply(s, Shutdown))
  {
    ShutdownBalances(s.threads, s.ring.size, |s.ring.cells|, s.ring.shutdown);
    assert Contents(s.ring.(shutdown := true)) == Contents(s.ring);
  }

  lemma StepKeepsInv<T>(s: Monitor<T>, a: Action<T>)
    requires Inv(s) && Enabled(s, a)
    ensures Inv(Apply(s, a))
  {
    match a {
      case StartPush(t, x) => MoveKeepsCounts(s.threads, t, Pushing(x));
      case StartPop(t) => MoveKeepsCounts(s.threads, t, Popping);
      case PushStep(t, woken) => PushKeepsInv(s, t, woken);
      case PopStep(t, woken) => PopKeepsInv(s, t, woken);
      case Spurious(t) => MoveKeepsCounts(s.threads, t, Wake(s.threads[t]));
      case Shutdown => ShutdownKeepsInv(s);
    }
  }

  lemma {:induction false} RunsKeepInv<T>(s: Monitor<T>, acts: seq<Action<T>>)
    requires Inv(s) && Valid(s, acts)
    ensures Inv(Final(s, acts))
    decreases |acts|
  {
    if acts != [] {
      StepKeepsInv(s, acts[0]);
      RunsKeepInv(Apply(s, acts[0]), acts[1..]);
    }
  }

  // ---------------------------------------------------------------- main results

  /** First in, first out, in every reachable state: what was popped followed by what is
      queued is exactly what was accepted. */
  lemma Fifo<T>(s: Monitor<T>, acts: seq<Action<T>>)
    requires Init(s) && Valid(s, acts)
    ensures WellFormed(Final(s, acts).ring)
    ensures Final(s, acts).popped + Contents(Final(s, acts).ring) == Final(s, acts).accepted
  {
    InitOk(s);
    RunsKeepInv(s, acts);
  }

  /** No lost wakeup: in every reachable state a consumer still waits only if there are at
      least as many woken consumers as elements, a producer still waits only if there are at
      least as many woken producers as free cells, and nobody waits after shutdown. */
  lemma NoLostWakeup<T>(s: Monitor<T>, acts: seq<Action<T>>)
    requires Init(s) && Valid(s, acts)
    ensures var f := Final(s, acts);
            && ((exists t :: 0 <= t < |f.threads| && f.threads[t].PopBlocked?) ==>
                  f.ring.size <= Count(f.threads, WokenPop))
            && ((exists t :: 0 <= t < |f.threads| && f.threads[t].PushBlocked?) ==>
                  |f.ring.cells| - f.ring.size <= Count(f.threads, WokenPush))
            && (f.ring.shutdown ==>
                  forall t :: 0 <= t < |f.threads| ==> !f.threads[t].PopBlocked? && !f.threads[t].PushBlocked?)
  {
    InitOk(s);
    RunsKeepInv(s, acts);
    var f := Final(s, acts);
    CountZeroIff(f.threads, BlockedPop);
    CountZeroIff(f.threads, BlockedPush);
    assert forall t :: 0 <= t < |f.threads| && f.threads[t].PopBlocked? ==> KindOf(f.threads[t]) == BlockedPop;
    assert forall t :: 0 <= t < |f.threads| && f.threads[t].PushBlocked? ==> KindOf(f.threads[t]) == BlockedPush;
  }

  /** The queue cannot deadlock: whenever both a producer and a consumer wait, some thread
      has been woken and can take its next section. */
  lemma NeverAllAsleep<T>(s: Monitor<T>, acts: seq<Action<T>>, p: nat, c: nat)
    requires Init(s) && Valid(s, acts)
    requires p < |Final(s, acts).threads| && c < |Final(s, acts).threads|
    requires Final(s, acts).threads[p].PushBlocked? && Final(s, acts).threads[c].PopBlocked?
    ensures exists t :: 0 <= t < |Final(s, acts).threads| &&
              (Final(s, acts).threads[t].PopWoken? || Final(s, acts).threads[t].PushWoken?)
  {
    NoLostWakeup(s, acts);
    Fifo(s, acts);
    var f := Final(s, acts);
    CountZeroIff(f.threads, WokenPop);
    CountZeroIff(f.threads, WokenPush);
  }

  lemma ShutdownStepAcceptsNothing<T>(s: Monitor<T>, a: Action<T>)
    requires Enabled(s, a) && s.ring.shutdown
    ensures Apply(s, a).ring.shutdown && Apply(s, a).accepted == s.accepted
  {
  }

  /** Nothing is accepted once shutdown was signalled. */
  lemma {:induction false} NothingAcceptedAfterShutdown<T>(s: Monitor<T>, acts: seq<Action<T>>)
    requires Valid(s, acts) && s.ring.shutdown
    ensures Final(s, acts).ring.shutdown && Final(s, acts).accepted == s.accepted
    decreases |acts|
  {
    if acts != [] {
      ShutdownStepAcceptsNothing(s, acts[0]);
      NothingAcceptedAfterShutdown(Apply(s, acts[0]), acts[1..]);
    }
  }

  /** Consumers drain the queue: as soon as one of them has left, everything ever accepted has
      been popped, in order, and nothing can be accepted any more. */
  lemma DrainedWhenConsumerLeaves<T>(s: Monitor<T>, acts: seq<Action<T>>, t: nat)
    requires Init(s) && Valid(s, acts)
    requires t < |Final(s, acts).threads| && Final(s, acts).threads[t].Gone?
    ensures Final(s, acts).popped == Final(s, acts).accepted && Final(s, acts).ring.shutdown
  {
    InitOk(s);
    RunsKeepInv(s, acts);
    var f := Final(s, acts);
    CountZeroIff(f.threads, Left);
    assert KindOf(f.threads[t]) == Left;
    assert Contents(f.ring) == [];
  }

  predicate Sleeps<T>(th: Thread<T>, producer: bool)
  {
    if producer then th.PushBlocked? else th.PopBlocked?
  }

  /** All threads that wait for room, or all that wait for an element. */
  function Sleepers<T>(threads: seq<Thread<T>>, producers: bool): (r: set<nat>)
    ensures if producers then WakesProducers(threads, r) else WakesConsumers(threads, r)
  {
    var r := set u: nat | u < |threads| && Sleeps(threads[u], producers);
    assert forall u :: 0 <= u < |threads| && Sleeps(threads[u], producers) ==> u in r;
    r
  }

  /** A waiter may wake at any time and then goes round its loop again: it is back asleep, with
      nothing changed, or its section goes through. */
  lemma SpuriousWakeupChecksAgain<T>(s: Monitor<T>, t: nat) returns (a: Action<T>)
    requires WellFormed(s.ring) && t < |s.threads| && (s.threads[t].PushBlocked? || s.threads[t].PopBlocked?)
    ensures Enabled(s, Spurious(t)) && Enabled(Apply(s, Spurious(t)), a)
    ensures var size, s' := s.ring.size, Apply(Apply(s, Spurious(t)), a);
            if s.threads[t].PushBlocked?
            then a.PushStep? && a.t == t && (if size == |s.ring.cells| && !s.ring.shutdown then s' == s
                                             else s'.threads[t].Outside?)
            else a.PopStep? && a.t == t && (if size == 0 && !s.ring.shutdown then s' == s
                                            else s'.threads[t] == if size == 0 then Gone else Outside)
  {
    var s1 := Apply(s, Spurious(t));
    if s.threads[t].PushBlocked? {
      var woken := Sleepers(s1.threads, false);
      a := PushStep(t, if PushSection(s.ring, s.threads[t].x).1.Accepted? then woken else {});
    } else {
      var woken := Sleepers(s1.threads, true);
      a := PopStep(t, if PopSection(s.ring).1.Popped? then woken else {});
    }
    assert s1.threads[t := s.threads[t]] == s.threads;
  }
}
