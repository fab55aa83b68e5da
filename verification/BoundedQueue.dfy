/**
 The bounded queue behind src/queue/task_queue.c and src/queue/client_queue.c, which are one
 algorithm: a ring array guarded by a mutex, condition variables `not_empty` and `not_full`,
 and a shutdown flag.  A call is a series of mutex-protected sections separated by waits; a
 section is one function on ring values here, one method of the class below, and one atomic
 step of the monitor in `QueueMonitor`.
 */
module BoundedQueue {
  import opened Prelude

  datatype Ring<T> = Ring(cells: seq<T>, head: nat, tail: nat, size: nat, shutdown: bool)

  /** What one section of a push or a pop decides. */
  datatype PushOutcome = Accepted | Refused | PushMustWait
  datatype PopOutcome<T> = Popped(item: T) | Closed | PopMustWait

  /** `(i + 1) % capacity` for an index of the ring. */
  function Next(i: nat, capacity: nat): nat
    requires capacity > 0
  {
    (i + 1) % capacity
  }

  lemma NextIs(i: nat, capacity: nat)
    requires i < capacity
    ensures Next(i, capacity) == if i + 1 == capacity then 0 else i + 1
  {
  }

  /** Cell of the `k`-th oldest element. */
  function CellOf<T>(r: Ring<T>, k: nat): nat
    requires r.head < |r.cells| && k <= |r.cells|
  {
    if r.head + k < |r.cells| then r.head + k else r.head + k - |r.cells|
  }

  predicate WellFormed<T>(r: Ring<T>)
  {
    && r.head < |r.cells|
    && r.size <= |r.cells|
    && r.tail == CellOf(r, r.size)
  }

  /** The queue's elements, oldest first. */
  function Contents<T>(r: Ring<T>): (c: seq<T>)
    requires WellFormed(r)
    ensures |c| == r.size
    ensures forall k :: 0 <= k < r.size ==> c[k] == r.cells[CellOf(r, k)]
  {
    seq(r.size, k requires 0 <= k < r.size => r.cells[CellOf(r, k)])
  }

  function PushSection<T>(r: Ring<T>, x: T): (Ring<T>, PushOutcome)
    requires WellFormed(r)
  {
    if r.size == |r.cells| && !r.shutdown then (r, PushMustWait)
    else if r.shutdown then (r, Refused)
    else (r.(cells := r.cells[r.tail := x], tail := Next(r.tail, |r.cells|), size := r.size + 1), Accepted)
  }

  function PopSection<T>(r: Ring<T>): (Ring<T>, PopOutcome<T>)
    requires WellFormed(r)
  {
    if r.size == 0 && !r.shutdown then (r, PopMustWait)
    else if r.size == 0 then (r, Closed)
    else (r.(head := Next(r.head, |r.cells|), size := r.size - 1), Popped(r.cells[r.head]))
  }

  /** An accepted element goes to the end, behind everything already queued. */
  lemma PushAppends<T>(r: Ring<T>, x: T)
    requires WellFormed(r)
    ensures WellFormed(PushSection(r, x).0)
    ensures var (r', o) := PushSection(r, x);
            && (o.Accepted? <==> !r.shutdown && |Contents(r)| < |r.cells|)
            && (o.Refused? <==> r.shutdown)
            && |r'.cells| == |r.cells| && r'.shutdown == r.shutdown
            && Contents(r') == if o.Accepted? then Contents(r) + [x] else Contents(r)
  {
    if r.size < |r.cells| {
      NextIs(r.tail, |r.cells|);
    }
  }

  /** A pop takes the oldest element and leaves the others in order. */
  lemma PopTakesOldest<T>(r: Ring<T>)
    requires WellFormed(r)
    ensures WellFormed(PopSection(r).0)
    ensures var (r', o) := PopSection(r);
            && (o.Popped? <==> Contents(r) != [])
            && (o.Closed? <==> Contents(r) == [] && r.shutdown)
            && |r'.cells| == |r.cells| && r'.shutdown == r.shutdown
            && (o.Popped? ==> Contents(r) == [o.item] + Contents(r'))
            && (!o.Popped? ==> r' == r)
  {
    NextIs(r.head, |r.cells|);
  }

  /** The queue object. `Init` refuses a non-positive capacity, as the source does. */
  class Queue<T(0)> {
    var cells: array<T>
    var capacity: int
    var head: int
    var tail: int
    var size: int
    var shutdown: bool

    ghost predicate Valid()
      reads this, cells
    {
      && capacity == cells.Length > 0
      && 0 <= head && 0 <= tail && 0 <= size
      && WellFormed(State())
    }

    ghost function State(): Ring<T>
      requires 0 <= head && 0 <= tail && 0 <= size
      reads this, cells
    {
      Ring(cells[..], head, tail, size, shutdown)
    }

    constructor ()
      ensures capacity == 0 && fresh(cells)
    {
      cells := new T[0];
      capacity, head, tail, size, shutdown := 0, 0, 0, 0, false;
    }

    /** `memory` and `primitives` say whether the ring can be allocated and the mutex and condition
        variables initialised; a failure leaves no ring behind.  `task_queue_init` does not look at
        the primitives. */
    method Init(capacity: int, memory: bool, primitives: bool) returns (rc: int)
      modifies this
      ensures rc == if capacity <= 0 || !memory || !primitives then -1 else 0
      ensures rc == 0 ==> Valid() && fresh(cells) && cells.Length == capacity && !shutdown && Contents(State()) == []
      ensures rc != 0 ==> cells == old(cells) || (fresh(cells) && cells.Length == 0)
      ensures capacity <= 0 || !memory ==> unchanged(this)
    {
      if capacity <= 0 || !memory {
        return -1;
      }
      cells := new T[capacity];
      this.capacity := capacity;
      head, tail, size, shutdown := 0, 0, 0, false;
      if !primitives {
        cells := new T[0];
        return -1;
      }
      return 0;
    }

    /** From taking the mutex (or waking up) to unlocking it or waiting again. */
    method Push(x: T) returns (o: PushOutcome)
      requires Valid()
      modifies this, cells
      ensures Valid() && cells == old(cells)
      ensures (State(), o) == PushSection(old(State()), x)
      ensures Contents(State()) == if o.Accepted? then old(Contents(State())) + [x] else old(Contents(State()))
    {
      PushAppends(State(), x);
      if size == capacity && !shutdown {
        return PushMustWait;
      }
      if shutdown {
        return Refused;
      }
      cells[tail] := x;
      tail := (tail + 1) % capacity;
      size := size + 1;
      return Accepted;
    }

    method Pop() returns (o: PopOutcome<T>)
      requires Valid()
      modifies this
      ensures Valid() && cells == old(cells)
      ensures (State(), o) == PopSection(old(State()))
      ensures o.Popped? ==> old(Contents(State())) == [o.item] + Contents(State())
    {
      PopTakesOldest(State());
      if size == 0 && !shutdown {
        return PopMustWait;
      }
      if size == 0 && shutdown {
        return Closed;
      }
      o := Popped(cells[head]);
      head := (head + 1) % capacity;
      size := size - 1;
    }

    method SignalShutdown()
      requires Valid()
      modifies this
      ensures Valid() && cells == old(cells)
      ensures State() == old(State()).(shutdown := true)
    {
      shutdown := true;
    }
  }
}
