/**
 The single-slot hand-off of src/session/response_queue.c: who frees the payload, when one is
 lost, and why the one waiter never sleeps through a delivery.  `Protocol` composes these
 sections with the threads that call them.
 */
module Responses {
  import opened Prelude

  type BufId = nat

  const MESSAGE_SIZE: nat := 512

  datatype Status = Success | Error | FileNotFound

  datatype State = State(status: Status, message: string, data: Option<BufId>, size: nat, ready: bool)

  const BLANK: State := State(Success, "", None, 0, false)

  datatype Op = Set(status: Status, message: Option<string>, data: Option<BufId>, size: nat) | Reset | Destroy

  /** `strncpy` into the message field keeps at most 511 characters. */
  function Clipped(message: string): string
  {
    if |message| < MESSAGE_SIZE then message else message[..MESSAGE_SIZE - 1]
  }

  function Step(st: State, op: Op): State
  {
    match op
    case Set(status, message, data, size) =>
      State(status, if message.Some? then Clipped(message.value) else st.message, data, size, true)
    case Reset => BLANK
    case Destroy => st.(data := None)
  }

  /** The pointer an operation passes to `free`. */
  function Freed(st: State, op: Op): Option<BufId>
  {
    if op.Set? then None else st.data
  }

  class Response {
    var status: Status
    var message: string
    var data: Option<BufId>
    var dataSize: nat
    var ready: bool

    function View(): State
      reads this
    {
      State(status, message, data, dataSize, ready)
    }

    /** `response_init`, with the pthread initialisers taken to succeed. */
    constructor ()
      ensures View() == BLANK
    {
      status, message, data, dataSize, ready := Success, "", None, 0, false;
    }

    method Set(status: Status, message: Option<string>, data: Option<BufId>, size: nat)
      modifies this
      ensures View() == Step(old(View()), Op.Set(status, message, data, size))
      ensures this.status == status && this.data == data && this.dataSize == size && this.ready
      ensures message.Some? ==>
                && this.message == message.value[..Min(|message.value|, MESSAGE_SIZE - 1)]
      ensures message.None? ==> this.message == old(this.message)
    {
      this.status := status;
      if message.Some? {
        this.message := Clipped(message.value);
      }
      this.data := data;
      this.dataSize := size;
      this.ready := true;
    }

    /** The client thread's reset before it pushes a task. */
    method Reset() returns (freed: Option<BufId>)
      modifies this
      ensures View() == Step(old(View()), Op.Reset) && freed == Freed(old(View()), Op.Reset)
      ensures status == Success && message == "" && data == None && dataSize == 0 && !ready && freed == old(data)
    {
      ready := false;
      status := Success;
      message := "";
      freed := data;
      if data.Some? {
        data := None;
      }
      dataSize := 0;
    }

    method Destroy() returns (freed: Option<BufId>)
      modifies this
      ensures View() == Step(old(View()), Op.Destroy) && freed == Freed(old(View()), Op.Destroy)
      ensures data == None && freed == old(data) && ready == old(ready)
    {
      freed := data;
      if data.Some? {
        data := None;
      }
    }
  }

  // ---------------------------------------------------------------- payloads over a lifetime

  function Run(st: State, ops: seq<Op>): State
    decreases |ops|
  {
    if ops == [] then st else Run(Step(st, ops[0]), ops[1..])
  }

  function One(b: Option<BufId>): multiset<BufId>
  {
    if b.Some? then multiset{b.value} else multiset{}
  }

  /** Payloads handed in, given to `free`, and overwritten while still held. */
  function AllGiven(ops: seq<Op>): multiset<BufId>
    decreases |ops|
  {
    if ops == [] then multiset{}
    else One(if ops[0].Set? then ops[0].data else None) + AllGiven(ops[1..])
  }

  function AllFreed(st: State, ops: seq<Op>): multiset<BufId>
    decreases |ops|
  {
    if ops == [] then multiset{} else One(Freed(st, ops[0])) + AllFreed(Step(st, ops[0]), ops[1..])
  }

  function AllLost(st: State, ops: seq<Op>): multiset<BufId>
    decreases |ops|
  {
    if ops == [] then multiset{}
    else One(if ops[0].Set? then st.data else None) + AllLost(Step(st, ops[0]), ops[1..])
  }

  lemma {:induction false} PayloadIsConserved(st: State, ops: seq<Op>, b: BufId)
    ensures One(st.data)[b] + AllGiven(ops)[b] ==
            AllFreed(st, ops)[b] + AllLost(st, ops)[b] + One(Run(st, ops).data)[b]
    decreases |ops|
  {
    if ops != [] {
      PayloadIsConserved(Step(st, ops[0]), ops[1..], b);
    }
  }

  /** Every payload handed in is freed once, lost once, or still held. */
  lemma PayloadsAreConserved(st: State, ops: seq<Op>)
    ensures One(st.data) + AllGiven(ops) == AllFreed(st, ops) + AllLost(st, ops) + One(Run(st, ops).data)
  {
    forall b: BufId
      ensures (One(st.data) + AllGiven(ops))[b] ==
              (AllFreed(st, ops) + AllLost(st, ops) + One(Run(st, ops).data))[b]
    {
      PayloadIsConserved(st, ops, b);
    }
  }

  /** No two deliveries with a payload in the first without a reset in between. */
  predicate Disciplined(held: bool, ops: seq<Op>)
    decreases |ops|
  {
    ops == [] ||
    (if ops[0].Set? then !held && Disciplined(ops[0].data.Some?, ops[1..]) else Disciplined(false, ops[1..]))
  }

  /** Exactly when nothing is lost: when each payload is cleared before the next delivery. */
  lemma {:induction false} NothingLostIff(st: State, ops: seq<Op>)
    ensures AllLost(st, ops) == multiset{} <==> Disciplined(st.data.Some?, ops)
    decreases |ops|
  {
    if ops != [] {
      NothingLostIff(Step(st, ops[0]), ops[1..]);
      if ops[0].Set? && st.data.Some? {
        assert st.data.value in AllLost(st, ops);
      }
    }
  }

  /** A session's lifetime under the discipline: after `response_destroy` every payload has been
      freed exactly as often as it was handed in. */
  lemma LifetimeFreesAll(ops: seq<Op>)
    requires Disciplined(false, ops)
    ensures AllFreed(BLANK, ops + [Destroy]) == AllGiven(ops)
  {
    var all := ops + [Destroy];
    DestroyAtEnd(BLANK, ops);
    NothingLostIff(BLANK, all);
    forall b: BufId ensures AllFreed(BLANK, all)[b] == AllGiven(ops)[b] {
      PayloadIsConserved(BLANK, all, b);
    }
  }

  lemma {:induction false} DestroyAtEnd(st: State, ops: seq<Op>)
    ensures Run(st, ops + [Destroy]).data.None?
    ensures AllGiven(ops + [Destroy]) == AllGiven(ops)
    ensures forall held :: Disciplined(held, ops + [Destroy]) == Disciplined(held, ops)
    decreases |ops|
  {
    if ops == [] {
      assert ops + [Destroy] == [Destroy] && [Destroy][1..] == [];
    } else {
      assert (ops + [Destroy])[0] == ops[0] && (ops + [Destroy])[1..] == ops[1..] + [Destroy];
      DestroyAtEnd(Step(st, ops[0]), ops[1..]);
    }
  }

  // ---------------------------------------------------------------- what the client reads

  /** After a delivery the fields are what was delivered, and the response is ready. */
  lemma SetStores(st: State, op: Op)
    requires op.Set?
    ensures var st' := Step(st, op);
            && st'.status == op.status && st'.data == op.data && st'.size == op.size && st'.ready
            && (op.message.Some? ==> st'.message <= op.message.value)
            && (op.message.Some? ==> |st'.message| == Min(|op.message.value|, MESSAGE_SIZE - 1))
            && (op.message.None? ==> st'.message == st.message)
  {
  }

  /** The last operation but clean-ups was a delivery. */
  predicate DeliveredLast(ready: bool, ops: seq<Op>)
  {
    if ops == [] then ready
    else
      var last := ops[|ops| - 1];
      last.Set? || (last.Destroy? && DeliveredLast(ready, ops[..|ops| - 1]))
  }

  lemma {:induction false} RunThen(st: State, ops: seq<Op>, op: Op)
    ensures Run(st, ops + [op]) == Step(Run(st, ops), op)
    decreases |ops|
  {
    if ops == [] {
      assert [] + [op] == [op] && [op][1..] == [];
    } else {
      assert (ops + [op])[0] == ops[0] && (ops + [op])[1..] == ops[1..] + [op];
      RunThen(Step(st, ops[0]), ops[1..], op);
    }
  }

  /** The response is ready exactly when a delivery came after the last reset. */
  lemma {:induction false} ReadyIff(st: State, ops: seq<Op>)
    ensures Run(st, ops).ready <==> DeliveredLast(st.ready, ops)
  {
    if ops != [] {
      var front := ops[..|ops| - 1];
      RunThen(st, front, ops[|ops| - 1]);
      assert front + [ops[|ops| - 1]] == ops;
      ReadyIff(st, front);
    }
  }

  /** A client that finds the response ready reads the last delivery, whatever came before. */
  lemma LastDeliveryIsRead(st: State, ops: seq<Op>, op: Op)
    requires op.Set? && op.message.Some?
    ensures Run(st, ops + [op]) ==
            State(op.status, op.message.value[..Min(|op.message.value|, MESSAGE_SIZE - 1)], op.data, op.size, true)
  {
    RunThen(st, ops, op);
    assert op.message.value[..|op.message.value|] == op.message.value;
  }

  // ---------------------------------------------------------------- the waiting client

  /** The one thread that calls `response_wait`. */
  datatype Waiter = Away | Checking | Asleep | Woken

  datatype Handoff = Handoff(response: State, waiter: Waiter)

  /** `Deliver` is `response_set` with its signal, `Clear` the client's own reset. */
  datatype Action = Arrive | Section | Spurious | Deliver(op: Op) | Clear

  predicate Enabled(h: Handoff, a: Action)
  {
    match a
    case Arrive => h.waiter.Away?
    case Section => h.waiter.Checking? || h.waiter.Woken?
    case Spurious => h.waiter.Asleep?
    case Deliver(op) => op.Set?
    case Clear => h.waiter.Away?
  }

  function Apply(h: Handoff, a: Action): Handoff
    requires Enabled(h, a)
  {
    match a
    case Arrive => h.(waiter := Checking)
    case Section => h.(waiter := if h.response.ready then Away else Asleep)
    case Spurious => h.(waiter := Woken)
    case Deliver(op) => Handoff(Step(h.response, op), if h.waiter.Asleep? then Woken else h.waiter)
    case Clear => h.(response := Step(h.response, Reset))
  }

  predicate Valid(h: Handoff, acts: seq<Action>)
    decreases |acts|
  {
    acts == [] || (Enabled(h, acts[0]) && Valid(Apply(h, acts[0]), acts[1..]))
  }

  function Final(h: Handoff, acts: seq<Action>): Handoff
    requires Valid(h, acts)
    decreases |acts|
  {
    if acts == [] then h else Final(Apply(h, acts[0]), acts[1..])
  }

  /** The client never sleeps while an answer is ready, whether the delivery came before it
      arrived, between its check and its sleep, or while it slept. */
  lemma {:induction false} NeverSleepsOnAnAnswer(h: Handoff, acts: seq<Action>)
    requires Valid(h, acts) && (h.waiter.Asleep? ==> !h.response.ready)
    ensures Final(h, acts).waiter.Asleep? ==> !Final(h, acts).response.ready
    decreases |acts|
  {
    if acts != [] {
      NeverSleepsOnAnAnswer(Apply(h, acts[0]), acts[1..]);
    }
  }

  /** After a delivery the client, wherever it is in its wait, leaves it with its next section. */
  lemma DeliveryEndsTheWait(h: Handoff, op: Op)
    requires op.Set? && !h.waiter.Away?
    ensures var h' := Apply(h, Deliver(op));
            && Enabled(h', Section) && Apply(h', Section).waiter == Away
            && Apply(h', Section).response == Step(h.response, op)
  {
  }

  function OperationOf(a: Action): (ops: seq<Op>)
    ensures |ops| <= 1
  {
    match a
    case Deliver(op) => [op]
    case Clear => [Reset]
    case _ => []
  }

  /** The operations on the response among the steps. */
  function Operations(acts: seq<Action>): seq<Op>
    decreases |acts|
  {
    if acts == [] then [] else OperationOf(acts[0]) + Operations(acts[1..])
  }

  /** A step takes one operation to the response, or none. */
  lemma StepFollows(h: Handoff, a: Action, ops: seq<Op>)
    requires Enabled(h, a) && h.response == Run(BLANK, ops)
    ensures Apply(h, a).response == Run(BLANK, ops + OperationOf(a))
  {
    match a {
      case Deliver(op) => RunThen(BLANK, ops, op);
      case Clear => RunThen(BLANK, ops, Reset);
      case _ => assert ops + [] == ops;
    }
  }

  lemma OneMoreStep(ops: seq<Op>, acts: seq<Action>)
    requires acts != []
    ensures ops + Operations(acts) == (ops + OperationOf(acts[0])) + Operations(acts[1..])
  {
  }

  lemma {:induction false} ResponseFollows(h: Handoff, acts: seq<Action>, ops: seq<Op>)
    requires Valid(h, acts) && h.response == Run(BLANK, ops)
    ensures Final(h, acts).response == Run(BLANK, ops + Operations(acts))
    decreases |acts|
  {
    if acts == [] {
      assert ops + Operations(acts) == ops;
    } else {
      var ops' := ops + OperationOf(acts[0]);
      StepFollows(h, acts[0], ops);
      ResponseFollows(Apply(h, acts[0]), acts[1..], ops');
      OneMoreStep(ops, acts);
    }
  }

  /** The client leaves its wait only to read a delivery: the operations that reached the response
      since it was reset end with one. */
  lemma WaitEndsWithDelivery(h: Handoff, acts: seq<Action>, ops: seq<Op>)
    requires Valid(h, acts) && h.response == Run(BLANK, ops)
    requires Enabled(Final(h, acts), Section) && Apply(Final(h, acts), Section).waiter.Away?
    ensures DeliveredLast(false, ops + Operations(acts))
  {
    ResponseFollows(h, acts, ops);
    ReadyIff(BLANK, ops + Operations(acts));
  }
}
