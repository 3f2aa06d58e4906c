/** The legs and channels that all workers of a bus share (src/bus.rs). */
module BusTables {
  import opened Options
  import opened Lists
  import opened BusLegs

  type Channels<ChannelId> = map<ChannelId, seq<nat>>

  function Listed<ChannelId>(channels: Channels<ChannelId>, channel: ChannelId): seq<nat> {
    if channel in channels then channels[channel] else []
  }

  function TableSubscribed<ChannelId>(channels: Channels<ChannelId>, leg: nat, channel: ChannelId)
    : Channels<ChannelId>
  {
    var entry := Listed(channels, channel);
    channels[channel := if leg in entry then entry else entry + [leg]]
  }

  // An emptied list stays in the table.
  function TableUnsubscribed<ChannelId>(channels: Channels<ChannelId>, leg: nat, channel: ChannelId)
    : Channels<ChannelId>
  {
    var entry := Listed(channels, channel);
    match Position(entry, leg)
    case None => channels
    case Some(pos) => channels[channel := SwapRemove(entry, pos)]
  }

  // Every number in the list is that of an existing leg.
  ghost predicate Within(targets: seq<nat>, legs: nat) {
    forall k :: 0 <= k < |targets| ==> targets[k] < legs
  }

  ghost predicate TableTidy<ChannelId>(channels: Channels<ChannelId>, legs: nat) {
    forall c :: c in channels ==> NoDup(channels[c]) && Within(channels[c], legs)
  }

  lemma TidyWithMore<ChannelId>(channels: Channels<ChannelId>, legs: nat)
    requires TableTidy(channels, legs)
    ensures TableTidy(channels, legs + 1)
  {
  }

  lemma TableSubscribedMeaning<ChannelId>(channels: Channels<ChannelId>, legs: nat, leg: nat, channel: ChannelId)
    requires TableTidy(channels, legs) && leg < legs
    ensures var t := TableSubscribed(channels, leg, channel);
            TableTidy(t, legs)
            && (forall c, l :: l in Listed(t, c) <==> l in Listed(channels, c) || (c == channel && l == leg))
            && (forall c :: Listed(channels, c) <= Listed(t, c))
  {
    if leg !in Listed(channels, channel) {
      AppendNoDup(Listed(channels, channel), leg);
    }
  }

  lemma TableUnsubscribedMeaning<ChannelId>(channels: Channels<ChannelId>, legs: nat, leg: nat, channel: ChannelId)
    requires TableTidy(channels, legs)
    ensures var t := TableUnsubscribed(channels, leg, channel);
            TableTidy(t, legs)
            && (forall c, l :: l in Listed(t, c) <==> l in Listed(channels, c) && !(c == channel && l == leg))
  {
    var entry := Listed(channels, channel);
    if leg in entry {
      SwapRemoveElements(entry, Position(entry, leg).value);
    }
  }

  // One copy for each leg in `targets`, in that order, into queues that take it or not.
  function SendAll<E>(queues: seq<seq<E>>, capacity: nat, targets: seq<nat>, safe: bool, e: E): (r: seq<seq<E>>)
    requires Within(targets, |queues|)
    ensures |r| == |queues|
  {
    if targets == [] then queues
    else
      var q := SendAll(queues, capacity, targets[..|targets| - 1], safe, e);
      var l := targets[|targets| - 1];
      q[l := Sent(q[l], capacity, safe, e)]
  }

  function AllLegs(n: nat): (r: seq<nat>)
    ensures |r| == n && NoDup(r) && Within(r, n)
  {
    seq(n, i requires 0 <= i < n => i)
  }

  /** A list without duplicates gives each of its legs exactly one copy, and the others none. */
  lemma {:induction false} OneCopyEach<E>(queues: seq<seq<E>>, capacity: nat, targets: seq<nat>, safe: bool, e: E)
    requires NoDup(targets) && Within(targets, |queues|)
    ensures forall l :: 0 <= l < |queues| ==>
              SendAll(queues, capacity, targets, safe, e)[l]
              == if l in targets then Sent(queues[l], capacity, safe, e) else queues[l]
  {
    if targets != [] {
      var n := |targets| - 1;
      OneCopyEach(queues, capacity, targets[..n], safe, e);
      assert forall l :: l in targets <==> l in targets[..n] || l == targets[n];
    }
  }

  ghost function PartsOf<ChannelId, MSG>(legs: seq<QueueInternal<ChannelId, MSG>>): set<object> {
    (set l: object | l in legs) + (set l | l in legs :: l.queue as object)
  }

  lemma PartsOfMore<ChannelId, MSG>(legs: seq<QueueInternal<ChannelId, MSG>>, leg: QueueInternal<ChannelId, MSG>)
    ensures PartsOf(legs + [leg]) == PartsOf(legs) + {leg as object, leg.queue as object}
  {
    assert forall l :: l in legs + [leg] <==> l in legs || l == leg;
  }

  /** The two tables behind their locks. */
  class BusShared<ChannelId(==), MSG> {
    var legs: seq<QueueInternal<ChannelId, MSG>>
    var channels: map<ChannelId, seq<nat>>
    const CAPACITY: nat

    ghost predicate Valid()
      reads this, legs, set l | l in legs :: l.queue
    {
      (forall i :: 0 <= i < |legs| ==> legs[i].Valid() && legs[i].queue.STACK_SIZE == CAPACITY)
      && (forall i, j :: 0 <= i < j < |legs| ==> legs[i] != legs[j] && legs[i].queue != legs[j].queue)
      && TableTidy(channels, |legs|)
    }

    ghost function Queues(): (r: seq<seq<(BusEventSource<ChannelId>, MSG)>>)
      reads `legs, legs, set l | l in legs :: l.queue
      ensures |r| == |legs|
    {
      var all := legs;
      seq(|all|, i requires 0 <= i < |all| reads all, set l | l in all :: l.queue => all[i].Contents())
    }

    // The objects it is made of, its readers' awakers apart.
    ghost function Parts(): set<object>
      reads `legs
    {
      {this as object} + PartsOf(legs)
    }

    constructor (capacity: nat)
      ensures Valid() && legs == [] && channels == map[] && CAPACITY == capacity
      ensures Queues() == [] && Parts() == {this}
    {
      legs, channels, CAPACITY := [], map[], capacity;
    }

    // BusSystemBuilder::new_worker: legs are numbered in the order of their creation.
    method NewWorker() returns (worker: BusWorker<ChannelId, MSG>)
      requires Valid()
      modifies this`legs
      ensures Valid() && worker.shared == this
      ensures worker.legIndex == |old(legs)| && |legs| == |old(legs)| + 1 && legs[..|old(legs)|] == old(legs)
      ensures var leg := legs[|old(legs)|];
              fresh(leg) && fresh(leg.queue) && leg.awaker == null
              && Parts() == old(Parts()) + {leg as object, leg.queue as object}
      ensures Queues() == old(Queues()) + [[]]
    {
      var leg := new QueueInternal(CAPACITY);
      worker := new BusWorker(|legs|, this);
      PartsOfMore(legs, leg);
      hide PartsOf, TableTidy;
      TidyWithMore(channels, |legs|);
      legs := legs + [leg];
      assert forall i :: 0 <= i < |legs| ==> legs[i] == if i < |old(legs)| then old(legs)[i] else leg;
    }

    // BusSystemBuilder::send: without a leg of its own it is an external source. An unknown leg is a panic.
    method Send(leg: nat, safe: bool, msg: MSG) returns (after: Option<nat>)
      requires Valid() && leg < |legs|
      modifies legs[leg].queue, legs[leg].awaker
      ensures Valid()
      ensures Queues() == old(Queues())[leg := Sent(old(Queues())[leg], CAPACITY, safe, (External, msg))]
      ensures after == if Accepts(|old(Queues())[leg]|, CAPACITY, safe) then Some(|Queues()[leg]|) else None
    {
      after := legs[leg].PushGeneric(safe, External, msg);
    }
  }

  class BusWorker<ChannelId(==), MSG> {
    const legIndex: nat
    const shared: BusShared<ChannelId, MSG>

    constructor (legIndex: nat, shared: BusShared<ChannelId, MSG>)
      ensures this.legIndex == legIndex && this.shared == shared
    {
      this.legIndex, this.shared := legIndex, shared;
    }

    method Subscribe(channel: ChannelId)
      modifies shared`channels
      ensures shared.channels == TableSubscribed(old(shared.channels), legIndex, channel)
    {
      var entry := if channel in shared.channels then shared.channels[channel] else [];
      shared.channels := shared.channels[channel := entry];
      if legIndex in entry {
        return;
      }
      shared.channels := shared.channels[channel := entry + [legIndex]];
    }

    method Unsubscribe(channel: ChannelId)
      modifies shared`channels
      ensures shared.channels == TableUnsubscribed(old(shared.channels), legIndex, channel)
    {
      if channel in shared.channels {
        var pos := Position(shared.channels[channel], legIndex);
        if pos.Some? {
          shared.channels := shared.channels[channel := SwapRemove(shared.channels[channel], pos.value)];
        }
      }
    }

    // One leg's queue changes, and no other.
    method SendTo(leg: nat, source: BusEventSource<ChannelId>, safe: bool, msg: MSG)
      requires shared.Valid() && leg < |shared.legs|
      modifies shared.legs[leg].queue, shared.legs[leg].awaker
      ensures shared.Valid()
      ensures shared.Queues()
           == old(shared.Queues())[leg := Sent(old(shared.Queues())[leg], shared.CAPACITY, safe, (source, msg))]
    {
      var after := shared.legs[leg].PushGeneric(safe, source, msg);
    }

    // The loops of publish and broadcast.
    method SendToEach(targets: seq<nat>, source: BusEventSource<ChannelId>, safe: bool, msg: MSG)
      requires shared.Valid() && Within(targets, |shared.legs|)
      modifies set l | l in shared.legs :: l.queue, set l | l in shared.legs :: l.awaker
      ensures shared.Valid()
      ensures shared.Queues() == SendAll(old(shared.Queues()), shared.CAPACITY, targets, safe, (source, msg))
    {
      hide Sent, NoDup;
      ghost var before := shared.Queues();
      for i := 0 to |targets|
        invariant shared.Valid() && shared.legs == old(shared.legs)
        invariant shared.Queues() == SendAll(before, shared.CAPACITY, targets[..i], safe, (source, msg))
      {
        SendTo(targets[i], source, safe, msg);
        assert targets[..i + 1][..i] == targets[..i];
      }
      assert targets[..|targets|] == targets;
    }

    // Each listed leg gets one copy; a full queue may turn an unsafe one away.
    method Publish(channel: ChannelId, safe: bool, msg: MSG)
      requires shared.Valid()
      modifies set l | l in shared.legs :: l.queue, set l | l in shared.legs :: l.awaker
      ensures shared.Valid()
      ensures shared.Queues() == SendAll(old(shared.Queues()), shared.CAPACITY, Listed(shared.channels, channel), safe,
                                         (Channel(legIndex, channel), msg))
    {
      if channel in shared.channels {
        var entry := shared.channels[channel];
        if |entry| == 1 {
          SendTo(entry[0], Channel(legIndex, channel), safe, msg);
          assert entry[..0] == [];
        } else {
          SendToEach(entry, Channel(legIndex, channel), safe, msg);
        }
      }
    }

    // Every leg gets one copy, the sender's own included.
    method Broadcast(safe: bool, msg: MSG)
      requires shared.Valid()
      modifies set l | l in shared.legs :: l.queue, set l | l in shared.legs :: l.awaker
      ensures shared.Valid()
      ensures shared.Queues() == SendAll(old(shared.Queues()), shared.CAPACITY, AllLegs(|shared.legs|), safe,
                                         (BusEventSource.Broadcast(legIndex), msg))
    {
      var n := |shared.legs|;
      match n {
        case 0 =>
        case 1 =>
          SendTo(0, BusEventSource.Broadcast(legIndex), safe, msg);
          assert AllLegs(1) == [0] && [0][..0] == [];
        case _ =>
          SendToEach(AllLegs(n), BusEventSource.Broadcast(legIndex), safe, msg);
      }
    }

    // A message for one leg. The result is the new length of its queue, or nothing if it was turned away.
    method Send(leg: nat, safe: bool, msg: MSG) returns (after: Option<nat>)
      requires shared.Valid() && leg < |shared.legs|
      modifies shared.legs[leg].queue, shared.legs[leg].awaker
      ensures shared.Valid()
      ensures shared.Queues() == old(shared.Queues())[leg := Sent(old(shared.Queues())[leg], shared.CAPACITY, safe,
                                                                  (Direct(legIndex), msg))]
      ensures after == if Accepts(|old(shared.Queues())[leg]|, shared.CAPACITY, safe) then Some(|shared.Queues()[leg]|)
                       else None
    {
      after := shared.legs[leg].PushGeneric(safe, Direct(legIndex), msg);
    }

    // The oldest message of the worker's own leg.
    method Recv() returns (item: Option<(BusEventSource<ChannelId>, MSG)>)
      requires shared.Valid() && legIndex < |shared.legs|
      modifies shared.legs[legIndex].queue
      ensures shared.Valid() && item == Oldest(old(shared.Queues())[legIndex], shared.CAPACITY)
      ensures shared.Queues()
           == if item.Some? then old(shared.Queues())[legIndex := old(shared.Queues())[legIndex][1..]]
              else old(shared.Queues())
    {
      item := shared.legs[legIndex].PopFront();
    }
  }

  // No reader has installed an awaker.
  ghost predicate NoAwakers<ChannelId, MSG>(bus: BusShared<ChannelId, MSG>)
    reads bus, bus.legs
  {
    forall i :: 0 <= i < |bus.legs| ==> bus.legs[i].awaker == null
  }

  lemma BusMembers<ChannelId, MSG>(bus: BusShared<ChannelId, MSG>, o: object)
    ensures o in bus.Parts() ==>
              o == bus || exists i :: 0 <= i < |bus.legs| && (o == bus.legs[i] || o == bus.legs[i].queue)
  {
  }

  twostate lemma StillNoAwakers<ChannelId, MSG>(bus: BusShared<ChannelId, MSG>)
    requires old(NoAwakers(bus)) && unchanged(old(bus.legs)) && |bus.legs| == |old(bus.legs)| + 1
    requires bus.legs[..|old(bus.legs)|] == old(bus.legs) && bus.legs[|old(bus.legs)|].awaker == null
    ensures NoAwakers(bus)
  {
    assert forall i :: 0 <= i < |old(bus.legs)| ==> bus.legs[i] == old(bus.legs)[i];
  }

  lemma PartsExist<ChannelId, MSG>(bus: BusShared<ChannelId, MSG>)
    ensures bus in bus.Parts() && forall o :: o in bus.Parts() ==> allocated(o)
  {
  }

  lemma LegMembers<ChannelId, MSG>(bus: BusShared<ChannelId, MSG>, i: nat)
    requires i < |bus.legs|
    ensures bus.legs[i].queue in bus.Parts() && (NoAwakers(bus) ==> bus.legs[i].awaker == null)
  {
  }

  // A bus that has the same legs as before, whatever waits on them.
  twostate lemma SameParts<ChannelId, MSG>(bus: BusShared<ChannelId, MSG>)
    requires unchanged(bus) && unchanged(old(bus.legs))
    ensures bus.Parts() == old(bus.Parts()) && NoAwakers(bus) == old(NoAwakers(bus))
  {
  }

  // A bus none of whose objects changed is as it was.
  twostate lemma BusUndisturbed<ChannelId, MSG>(bus: BusShared<ChannelId, MSG>)
    requires old(bus.Valid()) && unchanged(old(bus.Parts()))
    ensures bus.Valid() && bus.Queues() == old(bus.Queues()) && bus.Parts() == old(bus.Parts())
            && bus.legs == old(bus.legs)
    ensures NoAwakers(bus) == old(NoAwakers(bus))
  {
    assert bus in old(bus.Parts());
    assert forall l :: l in old(bus.legs) ==> l in old(bus.Parts()) && l.queue in old(bus.Parts());
    assert bus.Valid();
  }
}
