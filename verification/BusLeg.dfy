/** One leg of a bus: a queue under a mutex that wakes its reader when it turns non-empty (src/bus/leg.rs). */
module BusLegs {
  import opened Options
  import opened DynamicDeques

  datatype BusEventSource<+ChannelId> =
    | Channel(leg: nat, channel: ChannelId)
    | Broadcast(leg: nat)
    | Direct(leg: nat)
    | External

  // An unsafe message is taken only while the queue is shorter than its stack part.
  predicate Accepts(length: nat, capacity: nat, safe: bool) {
    safe || length < capacity
  }

  function Sent<E>(queue: seq<E>, capacity: nat, safe: bool, e: E): seq<E> {
    if Accepts(|queue|, capacity, safe) then queue + [e] else queue
  }

  // What a receive hands out: the oldest message, but only from a queue that has a stack part.
  function Oldest<E>(queue: seq<E>, capacity: nat): Option<E> {
    if queue == [] || capacity == 0 then None else Some(queue[0])
  }

  /** The reader's flag and the pending notification of its poller (src/backend/polling.rs, PollingAwaker). */
  class PollingAwaker {
    var flag: bool
    var notified: bool

    constructor ()
      ensures !flag && !notified
    {
      flag, notified := false, false;
    }

    // Already awake, nothing happens; otherwise the flag goes up and the poller is notified.
    method Awake()
      modifies this
      ensures flag && notified == (old(notified) || !old(flag))
    {
      if flag {
        return;
      }
      flag := true;
      notified := true;
    }
  }

  class QueueInternal<ChannelId, MSG> {
    var awaker: PollingAwaker?
    const queue: DynamicDeque<(BusEventSource<ChannelId>, MSG)>

    ghost predicate Valid()
      reads queue
    {
      queue.Valid()
    }

    ghost function Contents(): seq<(BusEventSource<ChannelId>, MSG)>
      reads queue
    {
      queue.Contents()
    }

    constructor (stackSize: nat)
      ensures Valid() && fresh(queue) && Contents() == [] && awaker == null && queue.STACK_SIZE == stackSize
    {
      queue := new DynamicDeque(stackSize);
      awaker := null;
    }

    method SetAwaker(awaker: PollingAwaker)
      requires Valid()
      modifies this
      ensures this.awaker == awaker
    {
      this.awaker := awaker;
    }

    // The reader is woken exactly when the queue goes from empty to one message: a refused one wakes nobody.
    method PushGeneric(safe: bool, source: BusEventSource<ChannelId>, msg: MSG) returns (after: Option<nat>)
      requires Valid()
      modifies queue, awaker
      ensures Valid()
      ensures Contents() == Sent(old(Contents()), queue.STACK_SIZE, safe, (source, msg))
      ensures after == if Accepts(|old(Contents())|, queue.STACK_SIZE, safe) then Some(|Contents()|) else None
      ensures awaker != null ==> awaker.flag == (old(awaker.flag) || (after.Some? && old(Contents()) == []))
      ensures awaker != null ==>
                awaker.notified == (old(awaker.notified) || (after.Some? && old(Contents()) == [] && !old(awaker.flag)))
    {
      if safe {
        queue.PushBack((source, msg));
      } else {
        var ok := queue.PushBackStack((source, msg));
        if !ok {
          return None;
        }
      }
      var n := queue.Len();
      if n == 1 && awaker != null {
        awaker.Awake();
      }
      after := Some(n);
    }

    method PushSafe(source: BusEventSource<ChannelId>, msg: MSG) returns (after: nat)
      requires Valid()
      modifies queue, awaker
      ensures Valid() && Contents() == old(Contents()) + [(source, msg)] && after == |Contents()|
      ensures awaker != null ==> awaker.flag == (old(awaker.flag) || old(Contents()) == [])
                                 && awaker.notified
                                    == (old(awaker.notified) || (old(Contents()) == [] && !old(awaker.flag)))
    {
      queue.PushBack((source, msg));
      after := queue.Len();
      if after == 1 && awaker != null {
        awaker.Awake();
      }
    }

    // A queue without a stack part never hands anything out.
    method PopFront() returns (item: Option<(BusEventSource<ChannelId>, MSG)>)
      requires Valid()
      modifies queue
      ensures Valid()
      ensures item == Oldest(old(Contents()), queue.STACK_SIZE)
      ensures Contents() == if item.Some? then old(Contents())[1..] else old(Contents())
    {
      item := queue.PopFront();
    }
  }

  // What any number of senders and the one reader do to a leg, in the order in which they get its lock.
  datatype LegOp<+E> = Send(safe: bool, e: E) | Receive

  // The queue, and the history of what was taken in, handed out and turned away.
  datatype LegRun<+E> = LegRun(queue: seq<E>, accepted: seq<E>, received: seq<E>, rejected: seq<nat>)

  function RunLeg<E>(capacity: nat, ops: seq<LegOp<E>>): LegRun<E> {
    if ops == [] then LegRun([], [], [], [])
    else
      var n := |ops| - 1;
      var r := RunLeg(capacity, ops[..n]);
      match ops[n]
      case Send(safe, e) =>
        if Accepts(|r.queue|, capacity, safe) then
          r.(queue := Sent(r.queue, capacity, safe, e), accepted := r.accepted + [e])
        else r.(rejected := r.rejected + [n])
      case Receive =>
        if Oldest(r.queue, capacity).None? then r else r.(queue := r.queue[1..], received := r.received + [r.queue[0]])
  }

  // The messages of the sends that were not turned away, in the order of the operations.
  function Offered<E>(ops: seq<LegOp<E>>, skip: seq<nat>): seq<E> {
    if ops == [] then []
    else
      var n := |ops| - 1;
      Offered(ops[..n], skip) + if ops[n].Send? && n !in skip then [ops[n].e] else []
  }

  lemma {:induction false} NothingOvertakes<E>(capacity: nat, ops: seq<LegOp<E>>)
    ensures RunLeg(capacity, ops).received + RunLeg(capacity, ops).queue == RunLeg(capacity, ops).accepted
  {
    if ops != [] {
      NothingOvertakes(capacity, ops[..|ops| - 1]);
    }
  }

  // Operation k was an unsafe send that met a queue of at least the capacity.
  predicate MetFullQueue<E>(capacity: nat, ops: seq<LegOp<E>>, k: nat) {
    k < |ops| && ops[k].Send? && !ops[k].safe && |RunLeg(capacity, ops[..k]).queue| >= capacity
  }

  lemma {:induction false} TurnedAway<E>(capacity: nat, ops: seq<LegOp<E>>, k: nat)
    ensures k in RunLeg(capacity, ops).rejected <==> MetFullQueue(capacity, ops, k)
  {
    if ops != [] {
      var n := |ops| - 1;
      TurnedAway(capacity, ops[..n], k);
      if k < n {
        assert ops[..n][..k] == ops[..k];
      }
    }
  }

  lemma {:induction false} OfferedExtend<E>(ops: seq<LegOp<E>>, skip: seq<nat>, skip': seq<nat>)
    requires forall k :: 0 <= k < |ops| ==> (k in skip <==> k in skip')
    ensures Offered(ops, skip) == Offered(ops, skip')
  {
    if ops != [] {
      OfferedExtend(ops[..|ops| - 1], skip, skip');
    }
  }

  lemma {:induction false} AcceptedAreOffered<E>(capacity: nat, ops: seq<LegOp<E>>)
    ensures RunLeg(capacity, ops).accepted == Offered(ops, RunLeg(capacity, ops).rejected)
  {
    if ops != [] {
      var n := |ops| - 1;
      var before, after := RunLeg(capacity, ops[..n]), RunLeg(capacity, ops);
      AcceptedAreOffered(capacity, ops[..n]);
      TurnedAway(capacity, ops[..n], n);
      TurnedAway(capacity, ops, n);
      OfferedExtend(ops[..n], before.rejected, after.rejected);
    }
  }

  /** A leg is a lossy first-in-first-out queue: what was received, followed by what is queued, is exactly what was
      offered and not turned away, in order; only unsafe messages are turned away, exactly those that met a queue of
      at least the capacity. */
  lemma LegIsLossyFifo<E>(capacity: nat, ops: seq<LegOp<E>>)
    ensures var r := RunLeg(capacity, ops);
            r.received + r.queue == Offered(ops, r.rejected)
            && forall k: nat :: k in r.rejected <==> MetFullQueue(capacity, ops, k)
  {
    NothingOvertakes(capacity, ops);
    AcceptedAreOffered(capacity, ops);
    forall k: nat
      ensures k in RunLeg(capacity, ops).rejected <==> MetFullQueue(capacity, ops, k)
    {
      TurnedAway(capacity, ops, k);
    }
  }
}
