/** What a publish delivers, from the table down to the subscribers, under every interleaving. */
module BusDelivery {
  import opened Lists
  import opened BusLegs
  import opened LocalHubs
  import opened BusTables
  import opened BusWorlds
  import opened BusAgreement

  // --- Each worker's own path: leg, receipts, events ---

  function Messages<C, O, M>(receipts: seq<Receipt<C, O, M>>): (r: seq<Msg<C, M>>)
    ensures |r| == |receipts|
  {
    seq(|receipts|, i requires 0 <= i < |receipts| => receipts[i].msg)
  }

  // The events that a row of receipts means, one receipt after the other.
  function Planned<C, O, M>(receipts: seq<Receipt<C, O, M>>): seq<BusEvent<O, C, M>> {
    if receipts == [] then [] else Planned(receipts[..|receipts| - 1]) + Meaning(receipts[|receipts| - 1])
  }

  ghost predicate NodeFlow<C, O, M>(node: Node<C, O, M>) {
    Messages(node.receipts) + node.queue == node.accepted
    && Planned(node.receipts) == node.events + node.pending
    && forall i :: 0 <= i < |node.receipts| ==> Tidy(node.receipts[i].hub)
  }

  ghost predicate Flow<C, O, M>(s: World<C, O, M>) {
    forall w :: 0 <= w < |s.nodes| ==> NodeFlow(s.nodes[w])
  }

  lemma ReceiveFlow<C, O, M>(node: Node<C, O, M>, r: Receipt<C, O, M>)
    requires NodeFlow(node) && node.pending == [] && node.queue != [] && r.msg == node.queue[0] && Tidy(r.hub)
    ensures NodeFlow(node.(queue := node.queue[1..], receipts := node.receipts + [r], pending := Meaning(r)))
  {
    var receipts := node.receipts + [r];
    assert receipts[..|receipts| - 1] == node.receipts;
    assert Messages(receipts) == Messages(node.receipts) + [r.msg];
    assert Messages(receipts) + node.queue[1..] == Messages(node.receipts) + node.queue;
    assert node.events + [] == node.events;
  }

  lemma DeliverFlow<C, O, M>(node: Node<C, O, M>)
    requires NodeFlow(node) && node.pending != []
    ensures NodeFlow(node.(pending := node.pending[1..], events := node.events + [node.pending[0]]))
  {
  }

  lemma AcceptFlow<C, O, M>(node: Node<C, O, M>, m: Msg<C, M>)
    requires NodeFlow(node)
    ensures NodeFlow(node.(queue := node.queue + [m], accepted := node.accepted + [m]))
  {
    assert Messages(node.receipts) + (node.queue + [m]) == (Messages(node.receipts) + node.queue) + [m];
  }

  // The flow does not look at hub, position or sends.
  lemma StandingFlows<C, O, M>(node: Node<C, O, M>, doing: Doing<C>, hub: Hub<C, O>, pubs: seq<Pub<C, M>>)
    requires NodeFlow(node)
    ensures NodeFlow(node.(doing := doing, hub := hub, pubs := pubs))
    ensures NodeFlow(node.(doing := doing))
  {
  }

  lemma NewNodeFlows<C, O, M>()
    ensures NodeFlow(NewNode<C, O, M>())
  {
  }

  lemma FlowStep<C(!new), O, M>(s: World<C, O, M>, w: nat, act: Act<C, O, M>, t: World<C, O, M>)
    requires Agreement(s) && Flow(s) && Next(s, w, act, t)
    ensures Flow(t)
  {
    hide NodeFlow;
    match act
    case AddWorker => NewNodeFlows<C, O, M>();
    case Receive => ReceiveFlow(s.nodes[w], Receipt(s.nodes[w].queue[0], s.nodes[w].hub));
    case Deliver => DeliverFlow(s.nodes[w]);
    case SendNext =>
      var node := s.nodes[w];
      var l := Current(node).legs[node.doing.next];
      var m := Msg(Source(w, Current(node).target), Current(node).body, |node.pubs| - 1);
      AcceptFlow(s.nodes[l], m);
      StandingFlows(node, Sending(node.doing.next + 1), node.hub, node.pubs);
      StandingFlows(s.nodes[l].(queue := s.nodes[l].queue + [m], accepted := s.nodes[l].accepted + [m]),
                    Sending(node.doing.next + 1), node.hub, node.pubs);
    case _ => StandingFlows(s.nodes[w], t.nodes[w].doing, t.nodes[w].hub, t.nodes[w].pubs);
  }

  // --- Between workers: which copies of which send are where ---

  function Sender<C>(source: BusEventSource<C>): nat {
    match source
    case Channel(l, _) => l
    case Broadcast(l) => l
    case Direct(l) => l
    case External => 0
  }

  // How many of the legs of send t have been served.
  function Served<C, O, M>(node: Node<C, O, M>, t: nat): nat
    requires t < |node.pubs|
  {
    if node.doing.Sending? && t == |node.pubs| - 1 then node.doing.next else |node.pubs[t].legs|
  }

  function Copy<C, O, M>(s: World<C, O, M>, p: nat, t: nat): Msg<C, M>
    requires p < |s.nodes| && t < |s.nodes[p].pubs|
  {
    Msg(Source(p, s.nodes[p].pubs[t].target), s.nodes[p].pubs[t].body, t)
  }

  ghost predicate SendsFit<C, O, M>(s: World<C, O, M>, p: nat)
    requires p < |s.nodes|
  {
    var node := s.nodes[p];
    (node.doing.Sending? ==> node.pubs != [] && node.doing.next <= |Current(node).legs|)
    && forall t :: 0 <= t < |node.pubs| ==> NoDup(node.pubs[t].legs) && Within(node.pubs[t].legs, |s.nodes|)
  }

  // A message on leg l is a copy of a send of its sender, for which that leg has been served.
  ghost predicate Authentic<C, O, M>(s: World<C, O, M>, l: nat, m: Msg<C, M>) {
    var p := Sender(m.source);
    p < |s.nodes| && m.tag < |s.nodes[p].pubs| && m == Copy(s, p, m.tag)
    && Served(s.nodes[p], m.tag) <= |s.nodes[p].pubs[m.tag].legs|
    && l in s.nodes[p].pubs[m.tag].legs[..Served(s.nodes[p], m.tag)]
  }

  // On one leg, the copies of one sender are in the order of its sends, and no two are of the same.
  ghost predicate InOrder<C, M>(accepted: seq<Msg<C, M>>) {
    forall j, k :: 0 <= j < k < |accepted| && Sender(accepted[j].source) == Sender(accepted[k].source)
      ==> accepted[j].tag < accepted[k].tag
  }

  // A safe send has arrived on every leg it has served.
  ghost predicate Arrived<C, O, M>(s: World<C, O, M>, p: nat, t: nat)
    requires p < |s.nodes| && t < |s.nodes[p].pubs|
  {
    var pub := s.nodes[p].pubs[t];
    pub.safe ==> forall i :: 0 <= i < |pub.legs| && i < Served(s.nodes[p], t) ==>
      pub.legs[i] < |s.nodes| && Copy(s, p, t) in s.nodes[pub.legs[i]].accepted
  }

  ghost predicate Traffic<C, O, M>(s: World<C, O, M>) {
    (forall p :: 0 <= p < |s.nodes| ==> SendsFit(s, p))
    && (forall l, k :: 0 <= l < |s.nodes| && 0 <= k < |s.nodes[l].accepted| ==> Authentic(s, l, s.nodes[l].accepted[k]))
    && (forall l :: 0 <= l < |s.nodes| ==> InOrder(s.nodes[l].accepted))
    && (forall p, t :: 0 <= p < |s.nodes| && 0 <= t < |s.nodes[p].pubs| ==> Arrived(s, p, t))
  }

  // Acts that neither start, advance nor end a send.
  ghost predicate SameTraffic<C, O, M>(s: World<C, O, M>, t: World<C, O, M>) {
    |t.nodes| == |s.nodes|
    && forall v :: 0 <= v < |s.nodes| ==>
         t.nodes[v].pubs == s.nodes[v].pubs && t.nodes[v].accepted == s.nodes[v].accepted
         && t.nodes[v].doing.Sending? == s.nodes[v].doing.Sending?
         && (s.nodes[v].doing.Sending? ==> t.nodes[v].doing == s.nodes[v].doing)
  }

  lemma SameTrafficKeeps<C, O, M>(s: World<C, O, M>, t: World<C, O, M>)
    requires Traffic(s) && SameTraffic(s, t)
    ensures Traffic(t)
  {
    forall p | 0 <= p < |t.nodes| ensures SendsFit(t, p) { assert SendsFit(s, p); }
    forall l, k | 0 <= l < |t.nodes| && 0 <= k < |t.nodes[l].accepted|
      ensures Authentic(t, l, t.nodes[l].accepted[k])
    {
      assert Authentic(s, l, s.nodes[l].accepted[k]);
    }
    forall p, i | 0 <= p < |t.nodes| && 0 <= i < |t.nodes[p].pubs| ensures Arrived(t, p, i) { assert Arrived(s, p, i); }
  }

  // Acts that leave all served legs as they are: a new worker, the start and the end of a send.
  ghost predicate Extends<C, O, M>(s: World<C, O, M>, t: World<C, O, M>) {
    |t.nodes| >= |s.nodes|
    && (forall v :: 0 <= v < |s.nodes| ==>
          s.nodes[v].pubs <= t.nodes[v].pubs && t.nodes[v].accepted == s.nodes[v].accepted
          && forall i :: 0 <= i < |s.nodes[v].pubs| ==> Served(t.nodes[v], i) == Served(s.nodes[v], i))
    && (forall v :: |s.nodes| <= v < |t.nodes| ==> t.nodes[v].pubs == [] && t.nodes[v].accepted == [])
    && (forall v, i :: 0 <= v < |s.nodes| && |s.nodes[v].pubs| <= i < |t.nodes[v].pubs| ==> Served(t.nodes[v], i) == 0)
  }

  lemma ExtendsKeeps<C, O, M>(s: World<C, O, M>, t: World<C, O, M>)
    requires Traffic(s) && Extends(s, t) && forall p :: 0 <= p < |t.nodes| ==> SendsFit(t, p)
    ensures Traffic(t)
  {
    forall l, k | 0 <= l < |t.nodes| && 0 <= k < |t.nodes[l].accepted|
      ensures Authentic(t, l, t.nodes[l].accepted[k])
    {
      assert Authentic(s, l, s.nodes[l].accepted[k]);
    }
    forall p, i | 0 <= p < |t.nodes| && 0 <= i < |t.nodes[p].pubs|
      ensures Arrived(t, p, i)
    {
      if i < |s.nodes[p].pubs| {
        assert Arrived(s, p, i);
      }
    }
  }

  // The copy a sending worker is about to hand over, and the leg it goes to.
  ghost predicate Handing<C, O, M>(s: World<C, O, M>, w: nat, l: nat, m: Msg<C, M>) {
    w < |s.nodes| && s.nodes[w].doing.Sending? && s.nodes[w].pubs != []
    && s.nodes[w].doing.next < |Current(s.nodes[w]).legs| && l == Current(s.nodes[w]).legs[s.nodes[w].doing.next]
    && l < |s.nodes| && m == Copy(s, w, |s.nodes[w].pubs| - 1)
  }

  // No earlier copy of the same send can be on that leg already.
  lemma HandedInOrder<C, O, M>(s: World<C, O, M>, w: nat, l: nat, m: Msg<C, M>)
    requires Traffic(s) && Handing(s, w, l, m)
    ensures InOrder(s.nodes[l].accepted + [m])
  {
    var accepted, pub, next := s.nodes[l].accepted, Current(s.nodes[w]), s.nodes[w].doing.next;
    assert SendsFit(s, w);
    assert l !in pub.legs[..next] by { assert forall i :: 0 <= i < next ==> pub.legs[i] != pub.legs[next]; }
    forall j | 0 <= j < |accepted| && Sender(accepted[j].source) == w
      ensures accepted[j].tag < m.tag
    {
      assert Authentic(s, l, accepted[j]);
    }
    assert InOrder(accepted);
    assert Sender(m.source) == w;
  }

  // The state after the hand-over: the leg has taken the copy or not, and the sender is one leg further.
  ghost predicate HandedOver<C, O, M>(s: World<C, O, M>, w: nat, l: nat, m: Msg<C, M>, taken: bool, t: World<C, O, M>)
    requires w < |s.nodes| && s.nodes[w].doing.Sending?
  {
    |t.nodes| == |s.nodes|
    && (forall v :: 0 <= v < |s.nodes| ==>
          t.nodes[v].pubs == s.nodes[v].pubs
          && t.nodes[v].accepted == (if v == l && taken then s.nodes[v].accepted + [m] else s.nodes[v].accepted)
          && t.nodes[v].doing == if v == w then Sending(s.nodes[w].doing.next + 1) else s.nodes[v].doing)
  }

  lemma HandedAuthentic<C, O, M>(
    s: World<C, O, M>, w: nat, l: nat, m: Msg<C, M>, taken: bool, t: World<C, O, M>, v: nat, k: nat)
    requires Handing(s, w, l, m) && SendsFit(s, w) && HandedOver(s, w, l, m, taken, t)
    requires v < |t.nodes| && k < |t.nodes[v].accepted|
    requires k < |s.nodes[v].accepted| ==> Authentic(s, v, s.nodes[v].accepted[k])
    ensures Authentic(t, v, t.nodes[v].accepted[k])
  {
    var e := t.nodes[v].accepted[k];
    if k < |s.nodes[v].accepted| {
      var p := Sender(e.source);
      var legs := s.nodes[p].pubs[e.tag].legs;
      var i :| 0 <= i < Served(s.nodes[p], e.tag) && legs[i] == v;
      assert Served(s.nodes[p], e.tag) <= Served(t.nodes[p], e.tag) <= |legs|;
      assert legs[..Served(t.nodes[p], e.tag)][i] == v;
    } else {
      var next := s.nodes[w].doing.next;
      assert e == m && v == l && Sender(e.source) == w && Served(t.nodes[w], e.tag) == next + 1;
      assert t.nodes[w].pubs[e.tag].legs[..next + 1][next] == l;
    }
  }

  lemma HandedArrived<C, O, M>(
    s: World<C, O, M>, w: nat, l: nat, m: Msg<C, M>, taken: bool, t: World<C, O, M>, p: nat, i: nat)
    requires Handing(s, w, l, m) && HandedOver(s, w, l, m, taken, t) && (Current(s.nodes[w]).safe ==> taken)
    requires p < |t.nodes| && i < |t.nodes[p].pubs| && Arrived(s, p, i)
    ensures Arrived(t, p, i)
  {
    var pub := t.nodes[p].pubs[i];
    if pub.safe {
      forall j | 0 <= j < |pub.legs| && j < Served(t.nodes[p], i)
        ensures pub.legs[j] < |t.nodes| && Copy(t, p, i) in t.nodes[pub.legs[j]].accepted
      {
        assert Copy(t, p, i) == Copy(s, p, i);
        if p == w && i == |s.nodes[w].pubs| - 1 && j == s.nodes[w].doing.next {
          assert t.nodes[l].accepted[|s.nodes[l].accepted|] == m;
        } else {
          assert Copy(s, p, i) in s.nodes[pub.legs[j]].accepted;
        }
      }
    }
  }

  lemma HandedOverKeeps<C, O, M>(s: World<C, O, M>, w: nat, l: nat, m: Msg<C, M>, taken: bool, t: World<C, O, M>)
    requires Traffic(s) && Handing(s, w, l, m) && HandedOver(s, w, l, m, taken, t)
             && (Current(s.nodes[w]).safe ==> taken)
    ensures Traffic(t)
  {
    hide Authentic, Arrived, InOrder;
    forall p | 0 <= p < |t.nodes| ensures SendsFit(t, p) { assert SendsFit(s, p); }
    forall v, k | 0 <= v < |t.nodes| && 0 <= k < |t.nodes[v].accepted|
      ensures Authentic(t, v, t.nodes[v].accepted[k])
    {
      assert SendsFit(s, w);
      HandedAuthentic(s, w, l, m, taken, t, v, k);
    }
    HandedInOrder(s, w, l, m);
    forall p, i | 0 <= p < |t.nodes| && 0 <= i < |t.nodes[p].pubs|
      ensures Arrived(t, p, i)
    {
      HandedArrived(s, w, l, m, taken, t, p, i);
    }
  }

  lemma StartKeeps<C(!new), O, M>(s: World<C, O, M>, w: nat, act: Act<C, O, M>, t: World<C, O, M>)
    requires Agreement(s) && Traffic(s) && Next(s, w, act, t) && (act.AddWorker? || act.Publish? || act.Finish?)
    ensures Traffic(t)
  {
    hide Authentic, Arrived, InOrder;
    forall p | 0 <= p < |t.nodes|
      ensures SendsFit(t, p)
    {
      if p < |s.nodes| {
        assert SendsFit(s, p);
      }
    }
    assert Extends(s, t);
    ExtendsKeeps(s, t);
  }

  lemma TrafficStep<C(!new), O, M>(s: World<C, O, M>, w: nat, act: Act<C, O, M>, t: World<C, O, M>)
    requires Agreement(s) && Traffic(s) && Next(s, w, act, t)
    ensures Traffic(t)
  {
    if act.AddWorker? || act.Publish? || act.Finish? {
      StartKeeps(s, w, act, t);
    } else if act.SendNext? {
      hide Traffic;
      var node := s.nodes[w];
      var l := Current(node).legs[node.doing.next];
      var m := Copy(s, w, |node.pubs| - 1);
      HandedOverKeeps(s, w, l, m, Accepts(|s.nodes[l].queue|, s.capacity, Current(node).safe), t);
    } else {
      hide Traffic;
      SameTrafficKeeps(s, t);
    }
  }

  lemma InitDelivers<C, O, M>(s: World<C, O, M>)
    requires Init(s)
    ensures Flow(s) && Traffic(s)
  {
  }

  lemma {:induction false} RunDelivers<C(!new), O, M>(
    worlds: seq<World<C, O, M>>, who: seq<nat>, acts: seq<Act<C, O, M>>, i: nat)
    requires Run(worlds, who, acts) && i < |worlds|
    ensures Flow(worlds[i]) && Traffic(worlds[i])
  {
    hide Flow, Traffic, Agreement, Next, Init;
    if i == 0 {
      InitDelivers(worlds[0]);
    } else {
      assert Next(worlds[i - 1], who[i - 1], acts[i - 1], worlds[i]);
      RunDelivers(worlds, who, acts, i - 1);
      SubscriptionsAgree(worlds, who, acts, i - 1);
      FlowStep(worlds[i - 1], who[i - 1], acts[i - 1], worlds[i]);
      TrafficStep(worlds[i - 1], who[i - 1], acts[i - 1], worlds[i]);
    }
  }
}
