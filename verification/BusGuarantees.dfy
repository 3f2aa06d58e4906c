/** What the bus promises to those who use it, in every run of any number of workers. */
module BusGuarantees {
  import opened Lists
  import opened BusLegs
  import opened LocalHubs
  import opened BusTables
  import opened BusWorlds
  import opened BusAgreement
  import opened BusDelivery

  /** A publish goes once to each worker that follows the channel at that moment, and to nobody else; a worker in the
      middle of a (un)subscription counts as what the shared table says. */
  lemma PublishGoesToFollowers<C(!new), O, M>(
    worlds: seq<World<C, O, M>>, who: seq<nat>, acts: seq<Act<C, O, M>>, i: nat, c: C, l: nat)
    requires Run(worlds, who, acts) && i < |acts| && acts[i].Publish? && acts[i].target == ToChannel(c)
    ensures who[i] < |worlds[i + 1].nodes| && worlds[i + 1].nodes[who[i]].pubs != []
    ensures var pub := Current(worlds[i + 1].nodes[who[i]]);
            pub == Pub(ToChannel(c), acts[i].safe, acts[i].body, pub.legs) && NoDup(pub.legs)
            && (l in pub.legs <==> l < |worlds[i].nodes| && ShouldBeListed(worlds[i].nodes[l], c))
  {
    SubscriptionsAgree(worlds, who, acts, i);
    assert Next(worlds[i], who[i], acts[i], worlds[i + 1]);
    assert l < |worlds[i].nodes| ==> (l in Listed(worlds[i].table, c) <==> ShouldBeListed(worlds[i].nodes[l], c));
  }

  /** A broadcast goes once to every worker that exists, the sender included. */
  lemma BroadcastGoesToAll<C(!new), O, M>(
    worlds: seq<World<C, O, M>>, who: seq<nat>, acts: seq<Act<C, O, M>>, i: nat, l: nat)
    requires Run(worlds, who, acts) && i < |acts| && acts[i].Publish? && acts[i].target.ToAll?
    ensures who[i] < |worlds[i + 1].nodes| && worlds[i + 1].nodes[who[i]].pubs != []
    ensures var pub := Current(worlds[i + 1].nodes[who[i]]);
            pub == Pub(ToAll, acts[i].safe, acts[i].body, pub.legs) && NoDup(pub.legs)
            && (l in pub.legs <==> l < |worlds[i].nodes|)
  {
    assert Next(worlds[i], who[i], acts[i], worlds[i + 1]);
    var n := |worlds[i].nodes|;
    assert l < n ==> AllLegs(n)[l] == l;
  }

  // A new worker is the last one; it follows nothing, and nothing waits for it. Nobody else notices.
  lemma NewWorkerIsFresh<C(!new), O, M>(s: World<C, O, M>, w: nat, t: World<C, O, M>)
    requires Agreement(s) && Next(s, w, AddWorker, t)
    ensures |t.nodes| == |s.nodes| + 1 && t.nodes[..|s.nodes|] == s.nodes && t.table == s.table
    ensures var node := t.nodes[|s.nodes|];
            node.doing == Idle && node.queue == [] && node.pending == [] && node.receipts == [] && node.events == []
            && forall c :: Subscribers(node.hub, c) == [] && |s.nodes| !in Listed(t.table, c)
  {
    assert forall c :: Within(Listed(s.table, c), |s.nodes|);
  }

  // The last of worker w's subscriptions and unsubscriptions of this task for this channel before world i is the
  // subscription in step j.
  ghost predicate SubscribedSince<C(!new), O(!new), M>(
    who: seq<nat>, acts: seq<Act<C, O, M>>, i: nat, w: nat, o: O, c: C, j: nat)
    requires i <= |acts| == |who|
  {
    j < i && who[j] == w && acts[j] == Subscribe(o, c)
    && forall m :: j < m < i ==> !(who[m] == w && acts[m] == Unsubscribe(o, c))
  }

  lemma FollowStep<C(!new), O(!new), M>(
    s: World<C, O, M>, w: nat, act: Act<C, O, M>, t: World<C, O, M>, v: nat, o: O, c: C)
    requires Next(s, w, act, t) && v < |t.nodes| && (v < |s.nodes| ==> Tidy(s.nodes[v].hub))
    ensures v < |s.nodes| || (t.nodes[v].hub == map[] && !(w == v && act == Subscribe(o, c)))
    ensures v < |s.nodes| ==>
              (o in Subscribers(t.nodes[v].hub, c) <==>
               (w == v && act == Subscribe(o, c))
               || (o in Subscribers(s.nodes[v].hub, c) && !(w == v && act == Unsubscribe(o, c))))
  {
    if act.Subscribe? && w == v {
      SubscribedMeaning(s.nodes[v].hub, act.o, act.c);
    } else if act.Unsubscribe? && w == v {
      UnsubscribedMeaning(s.nodes[v].hub, act.o, act.c);
    }
  }

  // Only workers that exist subscribe.
  lemma {:induction false} NobodyYet<C(!new), O(!new), M>(
    worlds: seq<World<C, O, M>>, who: seq<nat>, acts: seq<Act<C, O, M>>, i: nat, w: nat, m: nat)
    requires Run(worlds, who, acts) && i < |worlds| && m < i && |worlds[i].nodes| <= w
    ensures !(who[m] == w && acts[m].Subscribe?)
    decreases i
  {
    assert Next(worlds[i - 1], who[i - 1], acts[i - 1], worlds[i]);
    assert |worlds[i - 1].nodes| <= |worlds[i].nodes|;
    if m < i - 1 {
      NobodyYet(worlds, who, acts, i - 1, w, m);
    }
  }

  lemma HubsTidy<C(!new), O, M>(s: World<C, O, M>)
    requires Agreement(s)
    ensures forall v :: 0 <= v < |s.nodes| ==> Tidy(s.nodes[v].hub)
  {
  }

  lemma SinceStep<C(!new), O(!new), M>(
    who: seq<nat>, acts: seq<Act<C, O, M>>, n: nat, i: nat, w: nat, o: O, c: C)
    requires n + 1 == i <= |acts| == |who|
    ensures (exists j :: SubscribedSince(who, acts, i, w, o, c, j))
       <==> (who[n] == w && acts[n] == Subscribe(o, c))
            || ((exists j :: SubscribedSince(who, acts, n, w, o, c, j))
                && !(who[n] == w && acts[n] == Unsubscribe(o, c)))
  {
    if j :| SubscribedSince(who, acts, i, w, o, c, j) {
      assert j == n || SubscribedSince(who, acts, n, w, o, c, j);
    }
    if who[n] == w && acts[n] == Subscribe(o, c) {
      assert SubscribedSince(who, acts, i, w, o, c, n);
    } else if j :| SubscribedSince(who, acts, n, w, o, c, j) {
      assert !(who[n] == w && acts[n] == Unsubscribe(o, c)) ==> SubscribedSince(who, acts, i, w, o, c, j);
    }
  }

  /** In every run, a task follows a channel if and only if it has subscribed and not unsubscribed since. */
  lemma {:induction false} FollowersHaveSubscribed<C(!new), O(!new), M>(
    worlds: seq<World<C, O, M>>, who: seq<nat>, acts: seq<Act<C, O, M>>, i: nat, w: nat, o: O, c: C)
    requires Run(worlds, who, acts) && i < |worlds| && w < |worlds[i].nodes|
    ensures o in Subscribers(worlds[i].nodes[w].hub, c) <==> exists j :: SubscribedSince(who, acts, i, w, o, c, j)
    decreases i
  {
    hide Next, Agreement;
    if i > 0 {
      var n := i - 1;
      assert Next(worlds[n], who[n], acts[n], worlds[i]);
      SubscriptionsAgree(worlds, who, acts, n);
      assert forall v :: 0 <= v < |worlds[n].nodes| ==> Tidy(worlds[n].nodes[v].hub) by { HubsTidy(worlds[n]); }
      FollowStep(worlds[n], who[n], acts[n], worlds[i], w, o, c);
      if w < |worlds[n].nodes| {
        FollowersHaveSubscribed(worlds, who, acts, n, w, o, c);
        SinceStep(who, acts, n, i, w, o, c);
      } else {
        forall j: nat
          ensures !SubscribedSince(who, acts, i, w, o, c, j)
        {
          if SubscribedSince(who, acts, i, w, o, c, j) && j < n {
            NobodyYet(worlds, who, acts, n, w, j);
          }
        }
      }
    }
  }

  ghost predicate IsCopy<C, M>(m: Msg<C, M>, p: nat, t: nat) {
    Sender(m.source) == p && m.tag == t
  }

  // Send t of worker p is over.
  ghost predicate Over<C, O, M>(s: World<C, O, M>, p: nat, t: nat) {
    p < |s.nodes| && t < |s.nodes[p].pubs| && Served(s.nodes[p], t) == |s.nodes[p].pubs[t].legs|
  }

  /** Copies are neither invented nor doubled, and a safe one is never lost: on each leg there is at most one copy of a
      send, none where the send did not go, and exactly one where a safe send, once over, did go. */
  lemma OneCopyPerLeg<C(!new), O, M>(
    worlds: seq<World<C, O, M>>, who: seq<nat>, acts: seq<Act<C, O, M>>, i: nat, p: nat, t: nat, l: nat)
    requires Run(worlds, who, acts) && i < |worlds| && Over(worlds[i], p, t) && l < |worlds[i].nodes|
    ensures var accepted, pub := worlds[i].nodes[l].accepted, worlds[i].nodes[p].pubs[t];
            (forall j, k ::
               0 <= j < |accepted| && 0 <= k < |accepted| && IsCopy(accepted[j], p, t) && IsCopy(accepted[k], p, t)
               ==> j == k)
            && ((exists k :: 0 <= k < |accepted| && IsCopy(accepted[k], p, t)) ==> l in pub.legs)
            && (pub.safe && l in pub.legs ==> Copy(worlds[i], p, t) in accepted)
  {
    var s := worlds[i];
    var accepted, pub := s.nodes[l].accepted, s.nodes[p].pubs[t];
    RunDelivers(worlds, who, acts, i);
    assert InOrder(accepted);
    if k :| 0 <= k < |accepted| && IsCopy(accepted[k], p, t) {
      assert Authentic(s, l, accepted[k]);
    }
    assert Arrived(s, p, t);
    if pub.safe && l in pub.legs {
      var j :| 0 <= j < |pub.legs| && pub.legs[j] == l;
      assert Copy(s, p, t) in s.nodes[pub.legs[j]].accepted;
    }
  }

  // A step that hands nothing over serves no leg and fills none.
  lemma OtherStepsServeNobody<C(!new), O, M>(
    s: World<C, O, M>, w: nat, act: Act<C, O, M>, s': World<C, O, M>, p: nat, t: nat)
    requires Next(s, w, act, s') && !act.SendNext? && Traffic(s)
    requires p < |s'.nodes| && t < |s'.nodes[p].pubs| && Served(s'.nodes[p], t) > 0
    ensures p < |s.nodes| <= |s'.nodes| && t < |s.nodes[p].pubs| && s.nodes[p].pubs[t] == s'.nodes[p].pubs[t]
    ensures Served(s.nodes[p], t) == Served(s'.nodes[p], t)
    ensures forall l :: 0 <= l < |s.nodes| ==> s'.nodes[l].accepted == s.nodes[l].accepted
  {
  }

  // A leg that has not been served yet holds no copy.
  lemma NotServedYet<C(!new), O, M>(s: World<C, O, M>, p: nat, t: nat, n: nat)
    requires Traffic(s) && p < |s.nodes| && t < |s.nodes[p].pubs|
    requires Served(s.nodes[p], t) <= n < |s.nodes[p].pubs[t].legs|
    ensures s.nodes[p].pubs[t].legs[n] < |s.nodes|
    ensures Copy(s, p, t) !in s.nodes[s.nodes[p].pubs[t].legs[n]].accepted
  {
    assert SendsFit(s, p);
    var legs := s.nodes[p].pubs[t].legs;
    var accepted := s.nodes[legs[n]].accepted;
    forall k | 0 <= k < |accepted|
      ensures accepted[k] != Copy(s, p, t)
    {
      assert Authentic(s, legs[n], accepted[k]);
    }
  }

  // A hand-over changes what its own leg holds of its own send, and no other copy's fate.
  lemma HandOverServesOne<C(!new), O, M>(
    s: World<C, O, M>, w: nat, s': World<C, O, M>, p: nat, t: nat, n: nat)
    requires Next(s, w, SendNext, s') && p < |s'.nodes| && SendsFit(s, p)
    requires t < |s.nodes[p].pubs| && n < |s.nodes[p].pubs[t].legs|
    ensures |s.nodes| == |s'.nodes| && s'.nodes[p].pubs == s.nodes[p].pubs
    ensures var pub := s.nodes[p].pubs[t];
            if n < Served(s.nodes[p], t) then
              Copy(s, p, t) in s.nodes[pub.legs[n]].accepted <==> Copy(s', p, t) in s'.nodes[pub.legs[n]].accepted
            else if n < Served(s'.nodes[p], t) then
              w == p && t == |s.nodes[p].pubs| - 1 && s.nodes[p].doing == Sending(n)
              && s'.nodes[pub.legs[n]].accepted == s.nodes[pub.legs[n]].accepted
                 + if pub.safe || |s.nodes[pub.legs[n]].queue| < s.capacity then [Copy(s, p, t)] else []
            else true
  {
  }

  // What one step does about copy n of send t of worker p.
  lemma ServeStep<C(!new), O, M>(
    s: World<C, O, M>, w: nat, act: Act<C, O, M>, s': World<C, O, M>, p: nat, t: nat, n: nat)
    requires Next(s, w, act, s') && Traffic(s)
    requires p < |s'.nodes| && t < |s'.nodes[p].pubs| && n < |s'.nodes[p].pubs[t].legs|
    requires n < Served(s'.nodes[p], t)
    ensures p < |s.nodes| <= |s'.nodes| && t < |s.nodes[p].pubs| && s.nodes[p].pubs[t] == s'.nodes[p].pubs[t]
    ensures s.nodes[p].pubs[t].legs[n] < |s.nodes|
    ensures var pub := s.nodes[p].pubs[t];
            if n < Served(s.nodes[p], t) then
              Copy(s, p, t) in s.nodes[pub.legs[n]].accepted <==> Copy(s', p, t) in s'.nodes[pub.legs[n]].accepted
            else
              act == SendNext && w == p && t == |s.nodes[p].pubs| - 1 && s.nodes[p].doing == Sending(n)
              && (Copy(s', p, t) in s'.nodes[pub.legs[n]].accepted
                  <==> pub.safe || |s.nodes[pub.legs[n]].queue| < s.capacity)
  {
    if act.SendNext? {
      assert p < |s.nodes| && s.nodes[p].pubs == s'.nodes[p].pubs;
      hide Next;
      assert SendsFit(s, p);
      HandOverServesOne(s, w, s', p, t, n);
      if n >= Served(s.nodes[p], t) {
        NotServedYet(s, p, t, n);
      }
    } else {
      OtherStepsServeNobody(s, w, act, s', p, t);
      assert SendsFit(s, p);
    }
  }

  /** An unsafe copy is lost if and only if its leg is full at the moment it is offered: each leg a send has served was
      served in one step j, and holds the copy if and only if the send was safe or the queue shorter than the capacity
      then. */
  lemma {:induction false} LostExactlyWhenFull<C(!new), O, M>(
    worlds: seq<World<C, O, M>>, who: seq<nat>, acts: seq<Act<C, O, M>>, i: nat, p: nat, t: nat, n: nat)
    returns (j: nat)
    requires Run(worlds, who, acts) && i < |worlds| && p < |worlds[i].nodes| && t < |worlds[i].nodes[p].pubs|
    requires n < Served(worlds[i].nodes[p], t) && n < |worlds[i].nodes[p].pubs[t].legs|
    ensures j < i && acts[j] == SendNext && who[j] == p && p < |worlds[j].nodes|
            && |worlds[j].nodes[p].pubs| == t + 1 && worlds[j].nodes[p].doing == Sending(n)
    ensures var pub := worlds[i].nodes[p].pubs[t];
            pub.legs[n] < |worlds[j].nodes| && pub.legs[n] < |worlds[i].nodes|
            && (Copy(worlds[i], p, t) in worlds[i].nodes[pub.legs[n]].accepted
                <==> pub.safe || |worlds[j].nodes[pub.legs[n]].queue| < worlds[j].capacity)
    decreases i
  {
    hide Next, Traffic;
    RunDelivers(worlds, who, acts, i);
    if i == 0 {
      assert false;
    } else {
      RunDelivers(worlds, who, acts, i - 1);
      assert Next(worlds[i - 1], who[i - 1], acts[i - 1], worlds[i]);
      ServeStep(worlds[i - 1], who[i - 1], acts[i - 1], worlds[i], p, t, n);
      if n < Served(worlds[i - 1].nodes[p], t) {
        j := LostExactlyWhenFull(worlds, who, acts, i - 1, p, t, n);
      } else {
        j := i - 1;
      }
    }
  }

  /** What one worker receives from one sender comes in the order in which it was sent, each send at most once. */
  lemma ReceivedInSendingOrder<C(!new), O, M>(
    worlds: seq<World<C, O, M>>, who: seq<nat>, acts: seq<Act<C, O, M>>, i: nat, l: nat, j: nat, k: nat)
    requires Run(worlds, who, acts) && i < |worlds| && l < |worlds[i].nodes|
    requires j < k < |worlds[i].nodes[l].receipts|
    requires Sender(worlds[i].nodes[l].receipts[j].msg.source) == Sender(worlds[i].nodes[l].receipts[k].msg.source)
    ensures worlds[i].nodes[l].receipts[j].msg.tag < worlds[i].nodes[l].receipts[k].msg.tag
  {
    RunDelivers(worlds, who, acts, i);
    var node := worlds[i].nodes[l];
    assert NodeFlow(node);
    assert node.accepted[j] == node.receipts[j].msg && node.accepted[k] == node.receipts[k].msg;
    assert InOrder(node.accepted);
  }

  /** The panic of on_awake cannot be reached: only channel and broadcast messages of existing workers are ever
      received. */
  lemma OnlyBusSources<C(!new), O, M>(
    worlds: seq<World<C, O, M>>, who: seq<nat>, acts: seq<Act<C, O, M>>, i: nat, l: nat, k: nat)
    requires Run(worlds, who, acts) && i < |worlds| && l < |worlds[i].nodes|
    requires k < |worlds[i].nodes[l].receipts|
    ensures var source := worlds[i].nodes[l].receipts[k].msg.source;
            (source.Channel? || source.Broadcast?) && Sender(source) < |worlds[i].nodes|
  {
    RunDelivers(worlds, who, acts, i);
    var node := worlds[i].nodes[l];
    assert NodeFlow(node);
    assert node.accepted[k] == node.receipts[k].msg;
    assert Authentic(worlds[i], l, node.accepted[k]);
  }

  // A channel message means one event for each follower of that instant, in the hub's order, and no other.
  lemma MeaningIsOneEventEach<C, O, M>(r: Receipt<C, O, M>, e: BusEvent<O, C, M>)
    requires Tidy(r.hub) && r.msg.source.Channel?
    ensures NoDup(Meaning(r)) && |Meaning(r)| == |Subscribers(r.hub, r.msg.source.channel)|
    ensures forall k :: 0 <= k < |Meaning(r)| ==>
              Meaning(r)[k].ChannelEvent? && Meaning(r)[k].owner == Subscribers(r.hub, r.msg.source.channel)[k]
    ensures e in Meaning(r) <==> e.ChannelEvent? && e.channel == r.msg.source.channel && e.body == r.msg.body
                                 && e.owner in Subscribers(r.hub, e.channel)
  {
    var owners := Subscribers(r.hub, r.msg.source.channel);
    if e.ChannelEvent? && e.channel == r.msg.source.channel && e.body == r.msg.body && e.owner in owners {
      var k :| 0 <= k < |owners| && owners[k] == e.owner;
      assert Meaning(r)[k] == e;
    }
  }

  // A broadcast means one event, which names its origin modulo 2^16.
  lemma BroadcastIsOneEvent<C, O, M>(r: Receipt<C, O, M>)
    requires r.msg.source.Broadcast?
    ensures |Meaning(r)| == 1 && Meaning(r)[0].BroadcastEvent? && Meaning(r)[0].body == r.msg.body
    ensures Meaning(r)[0].from < 0x1_0000 && (r.msg.source.leg - Meaning(r)[0].from) % 0x1_0000 == 0
  {
    MeaningAnnounces(r, ToAll, r.msg.source.leg);
  }

  lemma ReceiptStep<C(!new), O, M>(s: World<C, O, M>, w: nat, act: Act<C, O, M>, t: World<C, O, M>, l: nat)
    requires Next(s, w, act, t) && l < |t.nodes|
    ensures l < |s.nodes| || t.nodes[l].receipts == []
    ensures l < |s.nodes| ==>
              if act.Receive? && w == l then
                s.nodes[l].queue != []
                && t.nodes[l].receipts == s.nodes[l].receipts + [Receipt(s.nodes[l].queue[0], s.nodes[l].hub)]
              else t.nodes[l].receipts == s.nodes[l].receipts
  {
  }

  /** Every receipt goes back to one receive, and holds the head of the leg and the hub of that very moment. */
  lemma {:induction false} ReceivedAt<C(!new), O, M>(
    worlds: seq<World<C, O, M>>, who: seq<nat>, acts: seq<Act<C, O, M>>, i: nat, l: nat, k: nat) returns (j: nat)
    requires Run(worlds, who, acts) && i < |worlds| && l < |worlds[i].nodes| && k < |worlds[i].nodes[l].receipts|
    ensures j < i && acts[j].Receive? && who[j] == l && l < |worlds[j].nodes|
    ensures var node, r := worlds[j].nodes[l], worlds[i].nodes[l].receipts[k];
            |node.receipts| == k && node.queue != [] && r.msg == node.queue[0] && r.hub == node.hub
    decreases i
  {
    hide Next;
    if i == 0 {
      assert false;
    } else {
      assert Next(worlds[i - 1], who[i - 1], acts[i - 1], worlds[i]);
      ReceiptStep(worlds[i - 1], who[i - 1], acts[i - 1], worlds[i], l);
      if k < |worlds[i - 1].nodes[l].receipts| {
        j := ReceivedAt(worlds, who, acts, i - 1, l, k);
      } else {
        j := i - 1;
      }
    }
  }

  lemma {:induction false} PlannedConcat<C, O, M>(a: seq<Receipt<C, O, M>>, b: seq<Receipt<C, O, M>>)
    ensures Planned(a + b) == Planned(a) + Planned(b)
  {
    hide Meaning;
    if b == [] {
      assert a + b == a;
    } else {
      var n := |b| - 1;
      PlannedConcat(a, b[..n]);
      assert (a + b)[..|a + b| - 1] == a + b[..n];
      assert (Planned(a) + Planned(b[..n])) + Meaning(b[n]) == Planned(a) + (Planned(b[..n]) + Meaning(b[n]));
    }
  }

  lemma PlannedOne<C, O, M>(r: Receipt<C, O, M>)
    ensures Planned([r]) == Meaning(r)
  {
    hide Meaning;
    assert [r][..0] == [];
  }

  lemma SplitAround<T>(s: seq<T>, k: nat)
    requires k < |s|
    ensures s == (s[..k] + [s[k]]) + s[k + 1..]
  {
  }

  lemma PlannedAround<C, O, M>(receipts: seq<Receipt<C, O, M>>, k: nat)
    requires k < |receipts|
    ensures Planned(receipts) == Planned(receipts[..k]) + Meaning(receipts[k]) + Planned(receipts[k + 1..])
  {
    hide Meaning, Planned;
    var head, r, tail := receipts[..k], receipts[k], receipts[k + 1..];
    calc {
      Planned(receipts);
    ==  { SplitAround(receipts, k); }
      Planned((head + [r]) + tail);
    ==  { PlannedConcat(head + [r], tail); }
      Planned(head + [r]) + Planned(tail);
    ==  { PlannedConcat(head, [r]); PlannedOne(r); }
      Planned(head) + Meaning(r) + Planned(tail);
    }
  }

  // A message that has been received has been handed out, once nothing is left pending.
  ghost predicate HandedOutAt<C, O, M>(node: Node<C, O, M>, m: Msg<C, M>, k: nat) {
    k < |node.receipts| && node.receipts[k].msg == m && Tidy(node.receipts[k].hub)
    && (forall j :: 0 <= j < |node.receipts| && IsCopy(node.receipts[j].msg, Sender(m.source), m.tag) ==> j == k)
    && node.events == Planned(node.receipts[..k]) + Meaning(node.receipts[k]) + Planned(node.receipts[k + 1..])
  }

  // The same, from what is known of the one node.
  lemma DryNode<C, O, M>(node: Node<C, O, M>, m: Msg<C, M>) returns (k: nat)
    requires NodeFlow(node) && InOrder(node.accepted) && node.pending == [] && m in Messages(node.receipts)
    ensures HandedOutAt(node, m, k)
  {
    hide Planned, Meaning;
    var received := Messages(node.receipts);
    k :| 0 <= k < |received| && received[k] == m;
    assert forall j :: 0 <= j < |received| ==> node.accepted[j] == node.receipts[j].msg == received[j];
    PlannedAround(node.receipts, k);
    assert node.events + [] == node.events;
  }

  /** Send t of worker p, received as receipt k of worker l in step j of the run, and handed out by world i: no other
      receipt is a copy of it; the hub is that of the moment of the receive, in which nobody follows a channel twice;
      and the events `block` it announces there stand together in the log, after those of everything received before.
      */
  ghost predicate DeliveredTo<C(!new), O, M>(
    worlds: seq<World<C, O, M>>, who: seq<nat>, acts: seq<Act<C, O, M>>, i: nat, l: nat, p: nat, t: nat, pub: Pub<C, M>,
    k: nat, j: nat, block: seq<BusEvent<O, C, M>>)
  {
    j < i < |worlds| && i <= |acts| == |who|
    && acts[j].Receive? && who[j] == l && l < |worlds[i].nodes| && l < |worlds[j].nodes|
    && var receipts, hub := worlds[i].nodes[l].receipts, worlds[j].nodes[l].hub;
       k < |receipts| && |worlds[j].nodes[l].receipts| == k
       && (forall q :: 0 <= q < |receipts| ==> (IsCopy(receipts[q].msg, p, t) <==> q == k))
       && (forall c :: NoDup(Subscribers(hub, c)))
       && Announces(block, pub.target, pub.body, p, hub)
       && worlds[i].nodes[l].events == Planned(receipts[..k]) + block + Planned(receipts[k + 1..])
  }

  lemma HandedOutIsDelivered<C(!new), O, M>(
    worlds: seq<World<C, O, M>>, who: seq<nat>, acts: seq<Act<C, O, M>>, start: nat, i: nat, l: nat, p: nat, t: nat,
    k: nat)
    returns (j: nat, block: seq<BusEvent<O, C, M>>)
    requires Run(worlds, who, acts) && start < |worlds| && i < |worlds| && l < |worlds[i].nodes|
    requires p < |worlds[start].nodes| && t < |worlds[start].nodes[p].pubs|
    requires HandedOutAt(worlds[i].nodes[l], Copy(worlds[start], p, t), k)
    ensures DeliveredTo(worlds, who, acts, i, l, p, t, worlds[start].nodes[p].pubs[t], k, j, block)
  {
    hide Run, Planned, Meaning;
    var r, pub := worlds[i].nodes[l].receipts[k], worlds[start].nodes[p].pubs[t];
    j := ReceivedAt(worlds, who, acts, i, l, k);
    block := Meaning(r);
    MeaningAnnounces(r, pub.target, p);
    RunShape(worlds, who, acts);
  }

  lemma RunShape<C, O, M>(worlds: seq<World<C, O, M>>, who: seq<nat>, acts: seq<Act<C, O, M>>)
    requires Run(worlds, who, acts)
    ensures |worlds| == |acts| + 1 && |who| == |acts|
  {
  }

  /** From the leg to the tasks: once a worker has run dry, every copy its leg has taken, safe or not, has been received
      exactly once, and its events have been handed out: for a publish one for each task that followed the channel when
      the message was taken off the leg, in list order, for a broadcast one. */
  lemma AcceptedIsDelivered<C(!new), O, M>(
    worlds: seq<World<C, O, M>>, who: seq<nat>, acts: seq<Act<C, O, M>>, i: nat, p: nat, t: nat, l: nat)
    returns (k: nat, j: nat, block: seq<BusEvent<O, C, M>>)
    requires Run(worlds, who, acts) && i < |worlds| && l < |worlds[i].nodes|
    requires p < |worlds[i].nodes| && t < |worlds[i].nodes[p].pubs|
    requires Copy(worlds[i], p, t) in worlds[i].nodes[l].accepted
    requires worlds[i].nodes[l].queue == [] && worlds[i].nodes[l].pending == []
    ensures DeliveredTo(worlds, who, acts, i, l, p, t, worlds[i].nodes[p].pubs[t], k, j, block)
  {
    hide Run, Planned, Meaning, HandedOutAt, InOrder, DeliveredTo;
    var node := worlds[i].nodes[l];
    RunDelivers(worlds, who, acts, i);
    assert Messages(node.receipts) == node.accepted;
    k := DryNode(node, Copy(worlds[i], p, t));
    j, block := HandedOutIsDelivered(worlds, who, acts, i, i, l, p, t, k);
  }

  /** From a safe send to its followers' tasks: once the send is over, every worker it went to that has run dry has
      handed it out in this way. */
  lemma DeliveredEndToEnd<C(!new), O, M>(
    worlds: seq<World<C, O, M>>, who: seq<nat>, acts: seq<Act<C, O, M>>, i: nat, p: nat, t: nat, l: nat)
    returns (k: nat, j: nat, block: seq<BusEvent<O, C, M>>)
    requires Run(worlds, who, acts) && i < |worlds| && Over(worlds[i], p, t) && l < |worlds[i].nodes|
    requires worlds[i].nodes[p].pubs[t].safe && l in worlds[i].nodes[p].pubs[t].legs
    requires worlds[i].nodes[l].queue == [] && worlds[i].nodes[l].pending == []
    ensures DeliveredTo(worlds, who, acts, i, l, p, t, worlds[i].nodes[p].pubs[t], k, j, block)
  {
    hide Run, DeliveredTo;
    OneCopyPerLeg(worlds, who, acts, i, p, t, l);
    k, j, block := AcceptedIsDelivered(worlds, who, acts, i, p, t, l);
  }

  /** The tasks that get the event of a delivered publish are exactly those that had subscribed to its channel, and not
      unsubscribed since, when the message was taken off the leg. */
  lemma SubscribersGetEvent<C(!new), O(!new), M>(
    worlds: seq<World<C, O, M>>, who: seq<nat>, acts: seq<Act<C, O, M>>, i: nat, l: nat, p: nat, t: nat, pub: Pub<C, M>,
    k: nat, j: nat, block: seq<BusEvent<O, C, M>>, o: O)
    requires Run(worlds, who, acts) && DeliveredTo(worlds, who, acts, i, l, p, t, pub, k, j, block)
    requires pub.target.ToChannel?
    ensures ChannelEvent(o, pub.target.channel, pub.body) in block
       <==> exists q :: SubscribedSince(who, acts, j, l, o, pub.target.channel, q)
  {
    hide Run;
    var c, owners := pub.target.channel, Subscribers(worlds[j].nodes[l].hub, pub.target.channel);
    FollowersHaveSubscribed(worlds, who, acts, j, l, o, c);
    if o in owners {
      var n :| 0 <= n < |owners| && owners[n] == o;
      assert block[n] == ChannelEvent(o, c, pub.body);
    }
  }
}
