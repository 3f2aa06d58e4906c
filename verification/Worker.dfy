/** One worker: its inner part, its hub and its leg of the inner bus (src/worker.rs). */
module Workers {
  import opened Options
  import opened Lists
  import opened BusLegs
  import opened LocalHubs
  import opened BusTables
  import opened BusWorlds

  datatype BusControl<+O, +C, +M> =
    | Subscribe(owner: O, channel: C)
    | Unsubscribe(owner: O, channel: C)
    | Publish(owner: O, channel: C, safe: bool, body: M)
    | Broadcast(safe: bool, body: M)

  datatype Output<+O, +C, +M, +Action, +Ext, +SCfg> =
    | Net(owner: O, action: Action)
    | Bus(control: BusControl<O, C, M>)
    | Ext(safe: bool, ext: Ext)
    | Spawn(cfg: SCfg)
    | Continue

  /** The inner part is an arbitrary state machine; `pending` bounds the outputs it has ready. */
  datatype InnerApi<!S, !O, !C, !M, !Action, !Ext, !SCfg> = InnerApi(
    pop: S -> (S, Option<Output<O, C, M, Action, Ext, SCfg>>),
    onEvent: (S, BusEvent<O, C, M>) -> S,
    pending: S -> nat)

  ghost predicate RunsDry<S(!new), O, C, M, Action, Ext, SCfg>(api: InnerApi<S, O, C, M, Action, Ext, SCfg>) {
    forall s :: api.pop(s).1.Some? ==> api.pending(api.pop(s).0) < api.pending(s)
  }

  datatype ToController<+Ext, +SCfg> = ExtOut(safe: bool, ext: Ext) | SpawnOut(cfg: SCfg)

  /** What a worker sees and changes: its hub, the shared table and queues, and what it hands to its backend and to the
      controller, in order. */
  datatype View<C, O, +M, +Action, +Ext, +SCfg> = View(
    hub: Hub<C, O>, table: Channels<C>, queues: seq<seq<(BusEventSource<C>, M)>>,
    actions: seq<(O, Action)>, control: seq<ToController<Ext, SCfg>>)

  ghost predicate Seated<C, O, M, Action, Ext, SCfg>(v: View<C, O, M, Action, Ext, SCfg>, leg: nat) {
    leg < |v.queues| && TableTidy(v.table, |v.queues|)
  }

  // One output of the inner part. The shared table is told of first and last followers only.
  ghost function Processed<C, O, M, Action, Ext, SCfg>(
    v: View<C, O, M, Action, Ext, SCfg>, leg: nat, capacity: nat, out: Output<O, C, M, Action, Ext, SCfg>)
    : (r: View<C, O, M, Action, Ext, SCfg>)
    requires Seated(v, leg)
    ensures Seated(r, leg) && |r.queues| == |v.queues|
  {
    match out
    case Net(owner, action) => v.(actions := v.actions + [(owner, action)])
    case Ext(safe, ext) => v.(control := v.control + [ExtOut(safe, ext)])
    case Spawn(cfg) => v.(control := v.control + [SpawnOut(cfg)])
    case Continue => v
    case Bus(Subscribe(owner, channel)) =>
      var (hub, first) := Subscribed(v.hub, owner, channel);
      TableSubscribedMeaning(v.table, |v.queues|, leg, channel);
      v.(hub := hub, table := if first then TableSubscribed(v.table, leg, channel) else v.table)
    case Bus(Unsubscribe(owner, channel)) =>
      var (hub, last) := Unsubscribed(v.hub, owner, channel);
      TableUnsubscribedMeaning(v.table, |v.queues|, leg, channel);
      v.(hub := hub, table := if last then TableUnsubscribed(v.table, leg, channel) else v.table)
    case Bus(Publish(_, channel, safe, body)) =>
      v.(queues := SendAll(v.queues, capacity, Listed(v.table, channel), safe, (Channel(leg, channel), body)))
    case Bus(Broadcast(safe, body)) =>
      v.(queues := SendAll(v.queues, capacity, AllLegs(|v.queues|), safe, (BusEventSource.Broadcast(leg), body)))
  }

  // All outputs the inner part has ready.
  ghost function Popped<S(!new), C, O, M, Action, Ext, SCfg>(
    api: InnerApi<S, O, C, M, Action, Ext, SCfg>, leg: nat, capacity: nat, s: S, v: View<C, O, M, Action, Ext, SCfg>)
    : (r: (S, View<C, O, M, Action, Ext, SCfg>))
    requires RunsDry(api) && Seated(v, leg)
    ensures Seated(r.1, leg) && |r.1.queues| == |v.queues|
    decreases api.pending(s)
  {
    var (next, out) := api.pop(s);
    if out.Some? then Popped(api, leg, capacity, next, Processed(v, leg, capacity, out.value)) else (next, v)
  }

  // A row of bus events, each followed by all outputs it gives rise to.
  ghost function Handed<S(!new), C, O, M, Action, Ext, SCfg>(
    api: InnerApi<S, O, C, M, Action, Ext, SCfg>, leg: nat, capacity: nat, s: S, v: View<C, O, M, Action, Ext, SCfg>,
    events: seq<BusEvent<O, C, M>>)
    : (r: (S, View<C, O, M, Action, Ext, SCfg>))
    requires RunsDry(api) && Seated(v, leg)
    ensures Seated(r.1, leg) && |r.1.queues| == |v.queues|
    decreases |events|
  {
    if events == [] then (s, v)
    else
      var n := |events| - 1;
      var (s', v') := Handed(api, leg, capacity, s, v, events[..n]);
      Popped(api, leg, capacity, api.onEvent(s', events[n]), v')
  }

  // What the leg holds came by publish or broadcast; on_awake panics on anything else.
  ghost predicate FromBus<C, M>(queue: seq<(BusEventSource<C>, M)>) {
    forall k :: 0 <= k < |queue| ==> queue[k].0.Channel? || queue[k].0.Broadcast?
  }

  ghost function HeadTaken<C, O, M, Action, Ext, SCfg>(v: View<C, O, M, Action, Ext, SCfg>, leg: nat)
    : (r: View<C, O, M, Action, Ext, SCfg>)
    requires Seated(v, leg) && v.queues[leg] != []
    ensures Seated(r, leg)
  {
    v.(queues := v.queues[leg := v.queues[leg][1..]])
  }

  // The worker's next receive will find a message.
  ghost predicate Waits<C, O, M, Action, Ext, SCfg>(v: View<C, O, M, Action, Ext, SCfg>, leg: nat, capacity: nat)
    requires Seated(v, leg)
  {
    Oldest(v.queues[leg], capacity).Some?
  }

  // The events the oldest message stands for.
  ghost function HeadEvents<C, O, M, Action, Ext, SCfg>(v: View<C, O, M, Action, Ext, SCfg>, leg: nat)
    : seq<BusEvent<O, C, M>>
    requires Seated(v, leg) && v.queues[leg] != []
  {
    Meaning(Receipt(Msg(v.queues[leg][0].0, v.queues[leg][0].1, 0), v.hub))
  }

  lemma HandedNone<S(!new), C, O, M, Action, Ext, SCfg>(
    api: InnerApi<S, O, C, M, Action, Ext, SCfg>, leg: nat, capacity: nat, s: S, v: View<C, O, M, Action, Ext, SCfg>)
    requires RunsDry(api) && Seated(v, leg)
    ensures Handed(api, leg, capacity, s, v, []) == (s, v)
  {
  }

  lemma HandedOne<S(!new), C, O, M, Action, Ext, SCfg>(
    api: InnerApi<S, O, C, M, Action, Ext, SCfg>, leg: nat, capacity: nat, s: S, v: View<C, O, M, Action, Ext, SCfg>,
    event: BusEvent<O, C, M>)
    requires RunsDry(api) && Seated(v, leg)
    ensures Handed(api, leg, capacity, s, v, [event]) == Popped(api, leg, capacity, api.onEvent(s, event), v)
  {
    assert [event][..0] == [];
  }

  // --- What each kind of output does ---

  /** A publish puts one marked copy at the end of exactly the listed legs that take it, a broadcast at the end of
      every leg that takes it: any leg takes a safe copy, one shorter than the capacity an unsafe one. Nothing else
      changes. */
  lemma SendEffect<C, O, M, Action, Ext, SCfg>(
    v: View<C, O, M, Action, Ext, SCfg>, leg: nat, capacity: nat, out: Output<O, C, M, Action, Ext, SCfg>, l: nat)
    requires Seated(v, leg) && out.Bus? && (out.control.Publish? || out.control.Broadcast?) && l < |v.queues|
    ensures var r, send := Processed(v, leg, capacity, out), out.control;
            r == v.(queues := r.queues) && |r.queues| == |v.queues|
            && var meant := send.Broadcast? || (send.channel in v.table && l in v.table[send.channel]);
               var taken := send.safe || |v.queues[l]| < capacity;
               if meant && taken then
                 |r.queues[l]| == |v.queues[l]| + 1 && v.queues[l] <= r.queues[l]
                 && r.queues[l][|v.queues[l]|].1 == send.body
                 && match r.queues[l][|v.queues[l]|].0
                    case Channel(from, channel) => send.Publish? && from == leg && channel == send.channel
                    case Broadcast(from) => send.Broadcast? && from == leg
                    case _ => false
               else r.queues[l] == v.queues[l]
  {
    match out.control
    case Publish(_, channel, safe, body) =>
      EmptyNoDup<nat>();
      OneCopyEach(v.queues, capacity, Listed(v.table, channel), safe, (Channel(leg, channel), body));
    case Broadcast(safe, body) =>
      assert AllLegs(|v.queues|)[l] == l;
      OneCopyEach(v.queues, capacity, AllLegs(|v.queues|), safe, (BusEventSource.Broadcast(leg), body));
    case _ =>
  }

  /** A subscription changes the hub by exactly this follower of this channel, and the table by exactly this leg when
      the channel is new to the worker; it sends nothing. */
  lemma SubscribeEffect<C(!new), O, M, Action, Ext, SCfg>(
    v: View<C, O, M, Action, Ext, SCfg>, leg: nat, capacity: nat, owner: O, channel: C)
    requires Seated(v, leg) && Tidy(v.hub)
    ensures var r := Processed(v, leg, capacity, Bus(BusControl.Subscribe(owner, channel)));
            r == v.(hub := r.hub, table := r.table)
            && (forall c, o ::
                  o in Subscribers(r.hub, c) <==> o in Subscribers(v.hub, c) || (c == channel && o == owner))
            && (forall c, l :: l in Listed(r.table, c)
                  <==> l in Listed(v.table, c) || (c == channel && l == leg && channel !in v.hub))
  {
    SubscribedMeaning(v.hub, owner, channel);
    TableSubscribedMeaning(v.table, |v.queues|, leg, channel);
  }

  /** Likewise for the end of one, which touches the table when nobody in the worker follows the channel any more. */
  lemma UnsubscribeEffect<C(!new), O, M, Action, Ext, SCfg>(
    v: View<C, O, M, Action, Ext, SCfg>, leg: nat, capacity: nat, owner: O, channel: C)
    requires Seated(v, leg) && Tidy(v.hub)
    ensures var r := Processed(v, leg, capacity, Bus(BusControl.Unsubscribe(owner, channel)));
            r == v.(hub := r.hub, table := r.table)
            && (forall c, o ::
                  o in Subscribers(r.hub, c) <==> o in Subscribers(v.hub, c) && !(c == channel && o == owner))
            && (forall c, l :: l in Listed(r.table, c)
                  <==> l in Listed(v.table, c)
                       && !(c == channel && l == leg && Subscribers(v.hub, channel) == [owner]))
  {
    UnsubscribedMeaning(v.hub, owner, channel);
    TableUnsubscribedMeaning(v.table, |v.queues|, leg, channel);
  }

  // A request to the backend, and one to the controller, as what it is to arrive as.
  function ActionsOf<O, C, M, Action, Ext, SCfg>(outs: seq<Output<O, C, M, Action, Ext, SCfg>>): seq<(O, Action)> {
    if outs == [] then []
    else
      var last := outs[|outs| - 1];
      ActionsOf(outs[..|outs| - 1]) + if last.Net? then [(last.owner, last.action)] else []
  }

  function ControlOf<O, C, M, Action, Ext, SCfg>(outs: seq<Output<O, C, M, Action, Ext, SCfg>>)
    : seq<ToController<Ext, SCfg>>
  {
    if outs == [] then []
    else
      var last := outs[|outs| - 1];
      ControlOf(outs[..|outs| - 1])
      + if last.Ext? then [ExtOut(last.safe, last.ext)] else if last.Spawn? then [SpawnOut(last.cfg)] else []
  }

  /** Every other output appends exactly its request, and changes nothing else; bus outputs append none. */
  lemma RequestEffect<C, O, M, Action, Ext, SCfg>(
    v: View<C, O, M, Action, Ext, SCfg>, leg: nat, capacity: nat, out: Output<O, C, M, Action, Ext, SCfg>)
    requires Seated(v, leg)
    ensures var r := Processed(v, leg, capacity, out);
            r.actions == v.actions + (if out.Net? then [(out.owner, out.action)] else [])
            && r.control == v.control + (if out.Ext? then [ExtOut(out.safe, out.ext)]
                                         else if out.Spawn? then [SpawnOut(out.cfg)] else [])
            && (!out.Bus? ==> r == v.(actions := r.actions, control := r.control))
  {
  }

  // States of the inner part and outputs between them: one poll after the other, up to the first that yields nothing.
  ghost predicate PolledDry<S, C, O, M, Action, Ext, SCfg>(
    api: InnerApi<S, O, C, M, Action, Ext, SCfg>, states: seq<S>, outs: seq<Output<O, C, M, Action, Ext, SCfg>>, end: S)
  {
    |states| == |outs| + 1
    && (forall k :: 0 <= k < |outs| ==> api.pop(states[k]) == (states[k + 1], Some(outs[k])))
    && api.pop(states[|outs|]) == (end, None)
  }

  // Views, each the effect of one output on the one before.
  ghost predicate InARow<C, O, M, Action, Ext, SCfg>(
    views: seq<View<C, O, M, Action, Ext, SCfg>>, leg: nat, capacity: nat,
    outs: seq<Output<O, C, M, Action, Ext, SCfg>>)
  {
    |views| == |outs| + 1
    && (forall k :: 0 <= k < |views| ==> Seated(views[k], leg))
    && (forall k :: 0 <= k < |outs| ==> views[k + 1] == Processed(views[k], leg, capacity, outs[k]))
  }

  /** A drain of the inner part is a row of polls up to the first None, whose outputs take effect one after the other.
      */
  lemma {:induction false} PoppedIsARow<S(!new), C, O, M, Action, Ext, SCfg>(
    api: InnerApi<S, O, C, M, Action, Ext, SCfg>, leg: nat, capacity: nat, s: S, v: View<C, O, M, Action, Ext, SCfg>)
    returns (states: seq<S>, outs: seq<Output<O, C, M, Action, Ext, SCfg>>,
             views: seq<View<C, O, M, Action, Ext, SCfg>>)
    requires RunsDry(api) && Seated(v, leg)
    ensures var (end, r) := Popped(api, leg, capacity, s, v);
            PolledDry(api, states, outs, end) && states[0] == s
            && InARow(views, leg, capacity, outs) && views[0] == v && views[|outs|] == r
    decreases api.pending(s)
  {
    var (next, out) := api.pop(s);
    if out.None? {
      states, outs, views := [s], [], [v];
    } else {
      var v' := Processed(v, leg, capacity, out.value);
      var states', outs', views' := PoppedIsARow(api, leg, capacity, next, v');
      hide Processed, Popped;
      states, outs, views := [s] + states', [out.value] + outs', [v] + views';
    }
  }

  /** In such a row, the backend and the controller get exactly the requests among the outputs, in order. */
  lemma {:induction false} RowRequests<C, O, M, Action, Ext, SCfg>(
    views: seq<View<C, O, M, Action, Ext, SCfg>>, leg: nat, capacity: nat,
    outs: seq<Output<O, C, M, Action, Ext, SCfg>>)
    requires InARow(views, leg, capacity, outs)
    ensures views[|outs|].actions == views[0].actions + ActionsOf(outs)
    ensures views[|outs|].control == views[0].control + ControlOf(outs)
    decreases |outs|
  {
    hide Processed;
    if outs != [] {
      var n := |outs| - 1;
      RowRequests(views[..n + 1], leg, capacity, outs[..n]);
      RequestEffect(views[n], leg, capacity, outs[n]);
    }
  }

  /** A row of events is handed to the inner part one after the other, each followed by a drain. */
  lemma {:induction false} HandedIsARow<S(!new), C, O, M, Action, Ext, SCfg>(
    api: InnerApi<S, O, C, M, Action, Ext, SCfg>, leg: nat, capacity: nat, s: S, v: View<C, O, M, Action, Ext, SCfg>,
    events: seq<BusEvent<O, C, M>>)
    returns (row: seq<(S, View<C, O, M, Action, Ext, SCfg>)>)
    requires RunsDry(api) && Seated(v, leg)
    ensures |row| == |events| + 1 && row[0] == (s, v) && row[|events|] == Handed(api, leg, capacity, s, v, events)
    ensures forall k :: 0 <= k < |row| ==> Seated(row[k].1, leg)
    ensures forall k :: 0 <= k < |events| ==>
              row[k + 1] == Popped(api, leg, capacity, api.onEvent(row[k].0, events[k]), row[k].1)
    decreases |events|
  {
    hide Popped;
    row := [(s, v)];
    if events != [] {
      var n := |events| - 1;
      row := HandedIsARow(api, leg, capacity, s, v, events[..n]);
      row := row + [Handed(api, leg, capacity, s, v, events)];
    }
  }

  // --- What a worker's own steps keep ---

  /** The worker is listed for exactly the channels its hub knows, and only bus messages wait on any leg. */
  ghost predicate Standing<C(!new), O, M, Action, Ext, SCfg>(v: View<C, O, M, Action, Ext, SCfg>, leg: nat) {
    Seated(v, leg) && Tidy(v.hub)
    && (forall c :: leg in Listed(v.table, c) <==> c in v.hub)
    && (forall l :: 0 <= l < |v.queues| ==> FromBus(v.queues[l]))
  }

  // Every other worker is listed as before, and nothing that waits on a leg is lost or overtaken.
  ghost predicate Harmless<C(!new), O, M, Action, Ext, SCfg>(
    v: View<C, O, M, Action, Ext, SCfg>, r: View<C, O, M, Action, Ext, SCfg>, leg: nat)
  {
    |r.queues| == |v.queues|
    && (forall l: nat, c :: l != leg ==> (l in Listed(r.table, c) <==> l in Listed(v.table, c)))
    && (forall l :: 0 <= l < |v.queues| ==> v.queues[l] <= r.queues[l])
    && v.actions <= r.actions && v.control <= r.control
  }

  lemma SentKeeps<C(!new), O, M, Action, Ext, SCfg>(
    v: View<C, O, M, Action, Ext, SCfg>, leg: nat, capacity: nat, out: Output<O, C, M, Action, Ext, SCfg>)
    requires Standing(v, leg) && out.Bus? && (out.control.Publish? || out.control.Broadcast?)
    ensures Standing(Processed(v, leg, capacity, out), leg) && Harmless(v, Processed(v, leg, capacity, out), leg)
  {
    hide Tidy, NoDup;
    match out.control
    case Publish(_, channel, safe, body) =>
      assert NoDup(Listed(v.table, channel)) by { EmptyNoDup<nat>(); }
      OneCopyEach(v.queues, capacity, Listed(v.table, channel), safe, (Channel(leg, channel), body));
    case Broadcast(safe, body) =>
      OneCopyEach(v.queues, capacity, AllLegs(|v.queues|), safe, (BusEventSource.Broadcast(leg), body));
    case _ =>
  }

  lemma ProcessedKeeps<C(!new), O, M, Action, Ext, SCfg>(
    v: View<C, O, M, Action, Ext, SCfg>, leg: nat, capacity: nat, out: Output<O, C, M, Action, Ext, SCfg>)
    requires Standing(v, leg)
    ensures Standing(Processed(v, leg, capacity, out), leg) && Harmless(v, Processed(v, leg, capacity, out), leg)
  {
    if out.Bus? && (out.control.Publish? || out.control.Broadcast?) {
      SentKeeps(v, leg, capacity, out);
    } else {
      match out
      case Bus(Subscribe(owner, channel)) =>
        SubscribedMeaning(v.hub, owner, channel);
        TableSubscribedMeaning(v.table, |v.queues|, leg, channel);
      case Bus(Unsubscribe(owner, channel)) =>
        UnsubscribedMeaning(v.hub, owner, channel);
        TableUnsubscribedMeaning(v.table, |v.queues|, leg, channel);
      case _ =>
    }
  }

  lemma {:induction false} PoppedKeeps<S(!new), C(!new), O, M, Action, Ext, SCfg>(
    api: InnerApi<S, O, C, M, Action, Ext, SCfg>, leg: nat, capacity: nat, s: S, v: View<C, O, M, Action, Ext, SCfg>)
    requires RunsDry(api) && Standing(v, leg)
    ensures var r := Popped(api, leg, capacity, s, v).1; Standing(r, leg) && Harmless(v, r, leg)
    decreases api.pending(s)
  {
    var (next, out) := api.pop(s);
    if out.Some? {
      ProcessedKeeps(v, leg, capacity, out.value);
      PoppedKeeps(api, leg, capacity, next, Processed(v, leg, capacity, out.value));
    }
  }

  /** Whatever the inner part does in answer to a row of events, one after the other, hub and shared table come out in
      agreement, no other worker's listing changes, and queues only grow at their ends. */
  lemma {:induction false} HandedKeeps<S(!new), C(!new), O, M, Action, Ext, SCfg>(
    api: InnerApi<S, O, C, M, Action, Ext, SCfg>, leg: nat, capacity: nat, s: S, v: View<C, O, M, Action, Ext, SCfg>,
    events: seq<BusEvent<O, C, M>>)
    requires RunsDry(api) && Standing(v, leg)
    ensures var r := Handed(api, leg, capacity, s, v, events).1; Standing(r, leg) && Harmless(v, r, leg)
    decreases |events|
  {
    if events != [] {
      var n := |events| - 1;
      HandedKeeps(api, leg, capacity, s, v, events[..n]);
      var (s', v') := Handed(api, leg, capacity, s, v, events[..n]);
      PoppedKeeps(api, leg, capacity, api.onEvent(s', events[n]), v');
    }
  }

  // One turn of the loop over the leg, and any number of them.
  ghost function Turned<S(!new), C, O, M, Action, Ext, SCfg>(
    api: InnerApi<S, O, C, M, Action, Ext, SCfg>, leg: nat, capacity: nat, s: S, v: View<C, O, M, Action, Ext, SCfg>)
    : (r: (S, View<C, O, M, Action, Ext, SCfg>))
    requires RunsDry(api) && Seated(v, leg)
    ensures Seated(r.1, leg)
  {
    if Waits(v, leg, capacity) then Handed(api, leg, capacity, s, HeadTaken(v, leg), HeadEvents(v, leg)) else (s, v)
  }

  /** A turn on a waiting publish or broadcast takes that message off the leg and hands on exactly the events it stands
      for in the hub of this moment. */
  lemma TurnAnnounces<S(!new), C, O, M, Action, Ext, SCfg>(
    api: InnerApi<S, O, C, M, Action, Ext, SCfg>, leg: nat, capacity: nat, s: S, v: View<C, O, M, Action, Ext, SCfg>,
    target: Target<C>, p: nat)
    returns (rest: View<C, O, M, Action, Ext, SCfg>, events: seq<BusEvent<O, C, M>>)
    requires RunsDry(api) && Seated(v, leg) && v.queues[leg] != [] && capacity > 0
    requires v.queues[leg][0].0
          == match target case ToChannel(c) => Channel(p, c) case ToAll => BusEventSource.Broadcast(p)
    ensures rest == v.(queues := rest.queues) && Seated(rest, leg) && |rest.queues| == |v.queues|
    ensures forall l :: 0 <= l < |v.queues| ==>
              if l == leg then [v.queues[l][0]] + rest.queues[l] == v.queues[l] else rest.queues[l] == v.queues[l]
    ensures Announces(events, target, v.queues[leg][0].1, p, v.hub)
    ensures Turned(api, leg, capacity, s, v) == Handed(api, leg, capacity, s, rest, events)
  {
    rest, events := HeadTaken(v, leg), HeadEvents(v, leg);
    MeaningAnnounces(Receipt(Msg(v.queues[leg][0].0, v.queues[leg][0].1, 0), v.hub), target, p);
  }

  // A turn on a broadcast: one event, then all outputs it gives rise to.
  lemma BroadcastTurn<S(!new), C, O, M, Action, Ext, SCfg>(
    api: InnerApi<S, O, C, M, Action, Ext, SCfg>, leg: nat, capacity: nat, s: S, v: View<C, O, M, Action, Ext, SCfg>)
    returns (rest: View<C, O, M, Action, Ext, SCfg>, from: nat)
    requires RunsDry(api) && Seated(v, leg) && v.queues[leg] != [] && v.queues[leg][0].0.Broadcast? && capacity > 0
    ensures rest == v.(queues := rest.queues) && Seated(rest, leg)
    ensures [v.queues[leg][0]] + rest.queues[leg] == v.queues[leg]
    ensures from < 0x1_0000 && (v.queues[leg][0].0.leg - from) % 0x1_0000 == 0
    ensures Turned(api, leg, capacity, s, v)
         == Popped(api, leg, capacity, api.onEvent(s, BroadcastEvent(from, v.queues[leg][0].1)), rest)
  {
    var events;
    rest, events := TurnAnnounces(api, leg, capacity, s, v, ToAll, v.queues[leg][0].0.leg);
    from := events[0].from;
    assert events == [BroadcastEvent(from, v.queues[leg][0].1)];
    HandedOne(api, leg, capacity, s, rest, events[0]);
  }

  ghost function TurnedTimes<S(!new), C, O, M, Action, Ext, SCfg>(
    api: InnerApi<S, O, C, M, Action, Ext, SCfg>, leg: nat, capacity: nat, s: S, v: View<C, O, M, Action, Ext, SCfg>,
    turns: nat)
    : (r: (S, View<C, O, M, Action, Ext, SCfg>))
    requires RunsDry(api) && Seated(v, leg)
    ensures Seated(r.1, leg)
    decreases turns
  {
    if turns == 0 then (s, v)
    else
      var (s', v') := Turned(api, leg, capacity, s, v);
      TurnedTimes(api, leg, capacity, s', v', turns - 1)
  }

  /** A turn keeps hub and shared table in agreement, and every waiting message from a source that on_awake
      knows. */
  lemma TurnKeeps<S(!new), C(!new), O, M, Action, Ext, SCfg>(
    api: InnerApi<S, O, C, M, Action, Ext, SCfg>, leg: nat, capacity: nat, s: S, v: View<C, O, M, Action, Ext, SCfg>)
    requires RunsDry(api) && Standing(v, leg)
    ensures FromBus(v.queues[leg]) && Standing(Turned(api, leg, capacity, s, v).1, leg)
  {
    if Waits(v, leg, capacity) {
      assert Standing(HeadTaken(v, leg), leg);
      HandedKeeps(api, leg, capacity, s, HeadTaken(v, leg), HeadEvents(v, leg));
    }
  }

  // With nothing waiting, further turns change nothing; otherwise the first of them comes first.
  lemma {:induction false} FirstTurn<S(!new), C, O, M, Action, Ext, SCfg>(
    api: InnerApi<S, O, C, M, Action, Ext, SCfg>, leg: nat, capacity: nat, s: S, v: View<C, O, M, Action, Ext, SCfg>,
    turns: nat)
    requires RunsDry(api) && Seated(v, leg)
    ensures !Waits(v, leg, capacity) ==>
              Turned(api, leg, capacity, s, v) == TurnedTimes(api, leg, capacity, s, v, turns) == (s, v)
    ensures if turns == 0 then TurnedTimes(api, leg, capacity, s, v, turns) == (s, v)
            else var (s', v') := Turned(api, leg, capacity, s, v);
              TurnedTimes(api, leg, capacity, s, v, turns) == TurnedTimes(api, leg, capacity, s', v', turns - 1)
    decreases turns
  {
    if turns > 0 {
      FirstTurn(api, leg, capacity, s, v, turns - 1);
    }
  }

  class Worker<S(!new), C(==,!new), O(==), M, Action, Ext, SCfg> {
    const api: InnerApi<S, O, C, M, Action, Ext, SCfg>
    const hub: BusLocalHub<O, C>
    const bus: BusWorker<C, M>
    var inner: S
    var actions: seq<(O, Action)>
    var control: seq<ToController<Ext, SCfg>>

    ghost predicate Valid()
      reads this, bus.shared, bus.shared.legs, set l | l in bus.shared.legs :: l.queue
    {
      RunsDry(api) && bus.shared.Valid() && bus.legIndex < |bus.shared.legs|
    }

    ghost function Seen(): (v: View<C, O, M, Action, Ext, SCfg>)
      requires Valid()
      reads this, hub, bus.shared, bus.shared.legs, set l | l in bus.shared.legs :: l.queue
      ensures Seated(v, bus.legIndex)
    {
      View(hub.channels, bus.shared.channels, bus.shared.Queues(), actions, control)
    }

    constructor (api: InnerApi<S, O, C, M, Action, Ext, SCfg>, inner: S, bus: BusWorker<C, M>)
      requires RunsDry(api) && bus.shared.Valid() && bus.legIndex < |bus.shared.legs|
      ensures Valid() && this.api == api && this.inner == inner && this.bus == bus && hub.channels == map[]
      ensures actions == [] && control == []
    {
      this.api, this.inner, this.bus, actions, control := api, inner, bus, [], [];
      hub := new BusLocalHub();
    }

    // The shared table is told of the worker's first follower of a channel,
    method Follow(owner: O, channel: C)
      requires Valid()
      modifies hub, bus.shared`channels
      ensures Valid()
      ensures Seen() == Processed(old(Seen()), bus.legIndex, bus.shared.CAPACITY,
              Bus(BusControl.Subscribe(owner, channel)))
    {
      hide TableTidy, Subscribed, TableSubscribed;
      TableSubscribedMeaning(bus.shared.channels, |bus.shared.legs|, bus.legIndex, channel);
      var first := hub.Subscribe(owner, channel);
      if first {
        bus.Subscribe(channel);
      }
    }

    // and of its last one.
    method Unfollow(owner: O, channel: C)
      requires Valid()
      modifies hub, bus.shared`channels
      ensures Valid()
      ensures Seen() == Processed(old(Seen()), bus.legIndex, bus.shared.CAPACITY,
              Bus(BusControl.Unsubscribe(owner, channel)))
    {
      hide TableTidy, Unsubscribed, TableUnsubscribed;
      TableUnsubscribedMeaning(bus.shared.channels, |bus.shared.legs|, bus.legIndex, channel);
      var last := hub.Unsubscribe(owner, channel);
      if last {
        bus.Unsubscribe(channel);
      }
    }

    method ProcessInnerOutput(out: Output<O, C, M, Action, Ext, SCfg>)
      requires Valid()
      modifies `actions, `control, hub, bus.shared`channels,
               set l | l in bus.shared.legs :: l.queue, set l | l in bus.shared.legs :: l.awaker
      ensures Valid() && Seen() == Processed(old(Seen()), bus.legIndex, bus.shared.CAPACITY, out)
    {
      hide TableTidy, SendAll, Subscribed, Unsubscribed, TableSubscribed, TableUnsubscribed;
      match out {
        case Spawn(cfg) => control := control + [SpawnOut(cfg)];
        case Net(owner, action) => actions := actions + [(owner, action)];
        case Bus(Subscribe(owner, channel)) => Follow(owner, channel);
        case Bus(Unsubscribe(owner, channel)) => Unfollow(owner, channel);
        case Bus(Publish(_, channel, safe, body)) => bus.Publish(channel, safe, body);
        case Bus(Broadcast(safe, body)) => bus.Broadcast(safe, body);
        case Ext(safe, ext) => control := control + [ExtOut(safe, ext)];
        case Continue =>
      }
    }

    method PopInner()
      requires Valid()
      modifies `inner, `actions, `control, hub, bus.shared`channels,
               set l | l in bus.shared.legs :: l.queue, set l | l in bus.shared.legs :: l.awaker
      ensures Valid() && (inner, Seen()) == old(Popped(api, bus.legIndex, bus.shared.CAPACITY, inner, Seen()))
    {
      var more := true;
      while more
        invariant Valid() && bus.shared.legs == old(bus.shared.legs)
        invariant if more then
                    Popped(api, bus.legIndex, bus.shared.CAPACITY, inner, Seen())
                    == old(Popped(api, bus.legIndex, bus.shared.CAPACITY, inner, Seen()))
                  else (inner, Seen()) == old(Popped(api, bus.legIndex, bus.shared.CAPACITY, inner, Seen()))
        decreases more, api.pending(inner)
      {
        var (next, out) := api.pop(inner);
        inner := next;
        match out {
          case Some(output) => ProcessInnerOutput(output);
          case None => more := false;
        }
      }
    }

    method OnBusEvent(event: BusEvent<O, C, M>)
      requires Valid()
      modifies `inner, `actions, `control, hub, bus.shared`channels,
               set l | l in bus.shared.legs :: l.queue, set l | l in bus.shared.legs :: l.awaker
      ensures Valid()
      ensures (inner, Seen()) == old(Popped(api, bus.legIndex, bus.shared.CAPACITY, api.onEvent(inner, event), Seen()))
    {
      inner := api.onEvent(inner, event);
      PopInner();
    }

    // `events` names the events to come.
    method HandToAll(owners: seq<O>, channel: C, body: M, ghost events: seq<BusEvent<O, C, M>>)
      requires Valid()
      requires |events| == |owners|
      requires forall k :: 0 <= k < |owners| ==> events[k] == ChannelEvent(owners[k], channel, body)
      modifies `inner, `actions, `control, hub, bus.shared`channels,
               set l | l in bus.shared.legs :: l.queue, set l | l in bus.shared.legs :: l.awaker
      ensures Valid()
      ensures (inner, Seen()) == old(Handed(api, bus.legIndex, bus.shared.CAPACITY, inner, Seen(), events))
    {
      hide TableTidy, Popped, RunsDry;
      ghost var leg, capacity, inner0, seen0 := bus.legIndex, bus.shared.CAPACITY, inner, Seen();
      for i := 0 to |owners|
        invariant Valid() && bus.shared.legs == old(bus.shared.legs)
        invariant (inner, Seen()) == Handed(api, leg, capacity, inner0, seen0, events[..i])
      {
        OnBusEvent(ChannelEvent(owners[i], channel, body));
        assert events[..i + 1][..i] == events[..i];
      }
      assert events[..|owners|] == events;
    }

    /** One turn of the loop that empties the leg after a wake-up: the oldest message becomes one event for each task
        that follows its channel at this instant, in list order, whatever the outputs of the first events do to the
        hub. */
    method AwakeTurn() returns (more: bool)
      requires Valid() && FromBus(Seen().queues[bus.legIndex])
      modifies `inner, `actions, `control, hub, bus.shared`channels,
               set l | l in bus.shared.legs :: l.queue, set l | l in bus.shared.legs :: l.awaker
      ensures Valid() && more == old(Waits(Seen(), bus.legIndex, bus.shared.CAPACITY))
      ensures (inner, Seen()) == old(Turned(api, bus.legIndex, bus.shared.CAPACITY, inner, Seen()))
    {
      hide TableTidy, Popped, RunsDry, Handed;
      ghost var leg, capacity, seen0 := bus.legIndex, bus.shared.CAPACITY, Seen();
      ghost var target := Turned(api, leg, capacity, inner, seen0);
      var item := bus.Recv();
      if item.None? {
        assert Seen() == seen0;
        return false;
      }
      var (source, body) := item.value;
      ghost var events := HeadEvents(seen0, leg);
      assert Seen() == HeadTaken(seen0, leg);
      assert target == Handed(api, leg, capacity, inner, Seen(), events);
      more := true;
      match source {
        case Channel(_, channel) =>
          var subscribers := hub.GetSubscribers(channel);
          if subscribers.Some? {
            HandToAll(subscribers.value, channel, body, events);
          } else {
            HandedNone(api, leg, capacity, inner, Seen());
            assert events == [];
          }
        case Broadcast(origin) =>
          HandedOne(api, leg, capacity, inner, Seen(), BroadcastEvent(origin % 0x1_0000, body));
          OnBusEvent(BroadcastEvent(origin % 0x1_0000, body));
        case _ => assert false;
      }
    }

    /** The whole loop. It need not end, since a task may publish to its own worker for ever; if it does, after any
        number of turns, its leg is empty, and hub and shared table agree. */
    method OnAwake(ghost turns: nat)
      requires Valid() && Standing(Seen(), bus.legIndex)
      requires var (_, v) := TurnedTimes(api, bus.legIndex, bus.shared.CAPACITY, inner, Seen(), turns);
               !Waits(v, bus.legIndex, bus.shared.CAPACITY)
      modifies `inner, `actions, `control, hub, bus.shared`channels,
               set l | l in bus.shared.legs :: l.queue, set l | l in bus.shared.legs :: l.awaker
      ensures Valid() && Standing(Seen(), bus.legIndex) && !Waits(Seen(), bus.legIndex, bus.shared.CAPACITY)
      ensures (inner, Seen()) == old(TurnedTimes(api, bus.legIndex, bus.shared.CAPACITY, inner, Seen(), turns))
    {
      hide Standing, Turned, TurnedTimes, Waits, FromBus, RunsDry;
      ghost var leg, capacity, inner0, seen0, left := bus.legIndex, bus.shared.CAPACITY, inner, Seen(), turns;
      while true
        invariant Valid() && Standing(Seen(), leg) && bus.shared.legs == old(bus.shared.legs)
        invariant TurnedTimes(api, leg, capacity, inner, Seen(), left)
                  == TurnedTimes(api, leg, capacity, inner0, seen0, turns)
        decreases left
      {
        TurnKeeps(api, leg, capacity, inner, Seen());
        FirstTurn(api, leg, capacity, inner, Seen(), left);
        var more := AwakeTurn();
        if !more {
          return;
        }
        left := left - 1;
      }
    }
  }
}
