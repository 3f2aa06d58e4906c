/** Any number of workers on one inner bus, interleaved at every lock they take
    (src/worker.rs, src/bus.rs, src/bus/local_hub.rs, src/bus/leg.rs). */
module BusWorlds {
  import opened BusLegs
  import opened LocalHubs
  import opened BusTables

  /** A message on a leg. `tag` is history: the number of the publish or broadcast of its worker it stems from. */
  datatype Msg<+C, +M> = Msg(source: BusEventSource<C>, body: M, tag: nat)

  // What a worker sends, and to which legs: history, too.
  datatype Target<+C> = ToChannel(channel: C) | ToAll
  datatype Pub<+C, +M> = Pub(target: Target<C>, safe: bool, body: M, legs: seq<nat>)

  // Events that reach the worker's inner part from the bus.
  datatype BusEvent<+O, +C, +M> = ChannelEvent(owner: O, channel: C, body: M) | BroadcastEvent(from: nat, body: M)

  // A message taken off the leg, with the hub of that instant.
  datatype Receipt<C, O, +M> = Receipt(msg: Msg<C, M>, hub: Hub<C, O>)

  // Where a worker stands between two locks: after the hub has changed and before the shared table has, or inside a
  // send with its first `next` legs served.
  datatype Doing<+C> = Idle | Linking(channel: C) | Unlinking(channel: C) | Sending(next: nat)

  datatype Node<C, O, M> = Node(
    hub: Hub<C, O>, doing: Doing<C>, pubs: seq<Pub<C, M>>,
    queue: seq<Msg<C, M>>, accepted: seq<Msg<C, M>>,
    receipts: seq<Receipt<C, O, M>>, pending: seq<BusEvent<O, C, M>>, events: seq<BusEvent<O, C, M>>)

  datatype World<C, O, M> = World(capacity: nat, table: Channels<C>, nodes: seq<Node<C, O, M>>)

  datatype Act<+C, +O, +M> =
    | AddWorker
    | Subscribe(o: O, c: C)
    | Link
    | Unsubscribe(o: O, c: C)
    | Unlink
    | Publish(target: Target<C>, safe: bool, body: M)
    | SendNext
    | Finish
    | Receive
    | Deliver

  function NewNode<C, O, M>(): Node<C, O, M> {
    Node(map[], Idle, [], [], [], [], [], [])
  }

  function Source<C>(w: nat, target: Target<C>): BusEventSource<C> {
    match target
    case ToChannel(c) => Channel(w, c)
    case ToAll => BusEventSource.Broadcast(w)
  }

  // The legs a send goes to: those listed at that moment, or all.
  function Legs<C>(table: Channels<C>, n: nat, target: Target<C>): seq<nat> {
    match target
    case ToChannel(c) => Listed(table, c)
    case ToAll => AllLegs(n)
  }

  // What one message means to the worker: an event per subscriber in list order, or one event for a broadcast, whose
  // origin is cut down to 16 bits.
  function Meaning<C, O, M>(r: Receipt<C, O, M>): seq<BusEvent<O, C, M>> {
    match r.msg.source
    case Channel(_, c) =>
      var owners := Subscribers(r.hub, c);
      seq(|owners|, i requires 0 <= i < |owners| => ChannelEvent(owners[i], c, r.msg.body))
    case Broadcast(from) => [BroadcastEvent(from % 0x1_0000, r.msg.body)]
    case _ => []
  }

  // What a send of worker p is to become at a worker with this hub: one event for each follower, in list order, or one
  // event for everybody, which names p by a number of 16 bits that equals p modulo 2^16.
  ghost predicate Announces<C, O, M>(
    events: seq<BusEvent<O, C, M>>, target: Target<C>, body: M, p: nat, hub: Hub<C, O>)
  {
    match target
    case ToChannel(c) =>
      |events| == |Subscribers(hub, c)|
      && forall k :: 0 <= k < |events| ==> events[k] == ChannelEvent(Subscribers(hub, c)[k], c, body)
    case ToAll =>
      |events| == 1 && events[0].BroadcastEvent? && events[0].body == body
      && events[0].from < 0x1_0000 && (p - events[0].from) % 0x1_0000 == 0
  }

  lemma MeaningAnnounces<C, O, M>(r: Receipt<C, O, M>, target: Target<C>, p: nat)
    requires r.msg.source == match target case ToChannel(c) => Channel(p, c) case ToAll => BusEventSource.Broadcast(p)
    ensures Announces(Meaning(r), target, r.msg.body, p, r.hub)
  {
    if target.ToAll? {
      assert p == 0x1_0000 * (p / 0x1_0000) + p % 0x1_0000;
    }
  }

  // The send a worker is in.
  function Current<C, O, M>(node: Node<C, O, M>): Pub<C, M>
    requires node.pubs != []
  {
    node.pubs[|node.pubs| - 1]
  }

  // No reader is inside the channel table.
  predicate TableFree<C, O, M>(s: World<C, O, M>) {
    forall v :: 0 <= v < |s.nodes| && s.nodes[v].doing.Sending? ==>
      s.nodes[v].pubs != [] && Current(s.nodes[v]).target.ToAll?
  }

  // The state change of one worker alone, when it concerns nobody else.
  ghost predicate Local<C, O, M>(s: World<C, O, M>, w: nat, node: Node<C, O, M>, t: World<C, O, M>) {
    w < |s.nodes| && t == s.(nodes := s.nodes[w := node])
  }

  ghost predicate Next<C, O, M>(s: World<C, O, M>, w: nat, act: Act<C, O, M>, t: World<C, O, M>) {
    if act.AddWorker? then
      (forall v :: 0 <= v < |s.nodes| ==> !s.nodes[v].doing.Sending?)
      && t == s.(nodes := s.nodes + [NewNode()])
    else
      w < |s.nodes| &&
      var node := s.nodes[w];
      match act
      case Subscribe(o, c) =>
        node.doing == Idle
        && var (hub, first) := Subscribed(node.hub, o, c);
           Local(s, w, node.(hub := hub, doing := if first then Linking(c) else Idle), t)
      case Link =>
        node.doing.Linking? && TableFree(s)
        && t == s.(table := TableSubscribed(s.table, w, node.doing.channel),
                   nodes := s.nodes[w := node.(doing := Idle)])
      case Unsubscribe(o, c) =>
        node.doing == Idle
        && var (hub, last) := Unsubscribed(node.hub, o, c);
           Local(s, w, node.(hub := hub, doing := if last then Unlinking(c) else Idle), t)
      case Unlink =>
        node.doing.Unlinking? && TableFree(s)
        && t == s.(table := TableUnsubscribed(s.table, w, node.doing.channel),
                   nodes := s.nodes[w := node.(doing := Idle)])
      case Publish(target, safe, body) =>
        node.doing == Idle
        && var pub := Pub(target, safe, body, Legs(s.table, |s.nodes|, target));
           Local(s, w, node.(doing := Sending(0), pubs := node.pubs + [pub]), t)
      case SendNext =>
        node.doing.Sending? && node.pubs != [] && node.doing.next < |Current(node).legs|
        && var l := Current(node).legs[node.doing.next];
           l < |s.nodes|
           && var m := Msg(Source(w, Current(node).target), Current(node).body, |node.pubs| - 1);
           var taken := Accepts(|s.nodes[l].queue|, s.capacity, Current(node).safe);
           var after := s.nodes[l].(queue := s.nodes[l].queue + [m], accepted := s.nodes[l].accepted + [m]);
           var nodes := if taken then s.nodes[l := after] else s.nodes;
           t == s.(nodes := nodes[w := nodes[w].(doing := Sending(node.doing.next + 1))])
      case Finish =>
        node.doing.Sending? && node.pubs != [] && node.doing.next == |Current(node).legs|
        && Local(s, w, node.(doing := Idle), t)
      case Receive =>
        node.doing == Idle && node.pending == [] && Oldest(node.queue, s.capacity).Some?
        && var r := Receipt(node.queue[0], node.hub);
           Local(s, w, node.(queue := node.queue[1..], receipts := node.receipts + [r], pending := Meaning(r)), t)
      case Deliver =>
        node.doing == Idle && node.pending != []
        && Local(s, w, node.(pending := node.pending[1..], events := node.events + [node.pending[0]]), t)
      case AddWorker => false
  }

  ghost predicate Init<C, O, M>(s: World<C, O, M>) {
    s.table == map[] && s.nodes == []
  }

  /** A run: worlds joined by acts of the named workers. */
  ghost predicate Run<C, O, M>(worlds: seq<World<C, O, M>>, who: seq<nat>, acts: seq<Act<C, O, M>>) {
    |worlds| == |acts| + 1 && |who| == |acts| && Init(worlds[0])
    && forall i :: 0 <= i < |acts| ==> Next(worlds[i], who[i], acts[i], worlds[i + 1])
  }
}
