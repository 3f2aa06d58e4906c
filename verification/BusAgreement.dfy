/** The shared table and the workers' hubs agree, under every interleaving. */
module BusAgreement {
  import opened LocalHubs
  import opened BusTables
  import opened BusWorlds

  // Whether the table should list the worker for the channel: the hub knows it, except that the table has not heard of
  // the one change the worker is in the middle of.
  predicate ShouldBeListed<C(==), O, M>(node: Node<C, O, M>, c: C) {
    if node.doing == Linking(c) then false
    else if node.doing == Unlinking(c) then true
    else c in node.hub
  }

  ghost predicate MidStep<C, O, M>(node: Node<C, O, M>) {
    (node.doing.Linking? ==> node.doing.channel in node.hub)
    && (node.doing.Unlinking? ==> node.doing.channel !in node.hub)
  }

  /** Leg w is listed for c exactly when worker w follows c, lists have no duplicates and name existing legs only, and
      no hub keeps an empty list. */
  ghost predicate Agreement<C(!new), O, M>(s: World<C, O, M>) {
    TableTidy(s.table, |s.nodes|)
    && (forall w :: 0 <= w < |s.nodes| ==> Tidy(s.nodes[w].hub) && MidStep(s.nodes[w]))
    && (forall w, c :: 0 <= w < |s.nodes| ==> (w in Listed(s.table, c) <==> ShouldBeListed(s.nodes[w], c)))
  }

  ghost predicate Linkless<C, O, M>(node: Node<C, O, M>) {
    node.doing.Idle? || node.doing.Sending?
  }

  // Nobody's subscriptions, nor the table, are touched.
  ghost predicate SameStanding<C, O, M>(s: World<C, O, M>, t: World<C, O, M>) {
    t.table == s.table && |t.nodes| == |s.nodes|
    && forall v :: 0 <= v < |s.nodes| ==>
         t.nodes[v].hub == s.nodes[v].hub
         && (t.nodes[v].doing == s.nodes[v].doing || (Linkless(t.nodes[v]) && Linkless(s.nodes[v])))
  }

  lemma StandingAgrees<C(!new), O, M>(s: World<C, O, M>, t: World<C, O, M>)
    requires Agreement(s) && SameStanding(s, t)
    ensures Agreement(t)
  {
    forall w, c | 0 <= w < |t.nodes|
      ensures w in Listed(t.table, c) <==> ShouldBeListed(t.nodes[w], c)
    {
      assert ShouldBeListed(t.nodes[w], c) == ShouldBeListed(s.nodes[w], c);
    }
  }

  lemma HubStep<C(!new), O, M>(s: World<C, O, M>, w: nat, act: Act<C, O, M>, t: World<C, O, M>)
    requires Agreement(s) && Next(s, w, act, t) && (act.Subscribe? || act.Unsubscribe?)
    ensures Agreement(t)
  {
    hide TableTidy, Tidy, Subscribed, Unsubscribed;
    if act.Subscribe? {
      SubscribedMeaning(s.nodes[w].hub, act.o, act.c);
    } else {
      UnsubscribedMeaning(s.nodes[w].hub, act.o, act.c);
    }
  }

  lemma TableStep<C(!new), O, M>(s: World<C, O, M>, w: nat, act: Act<C, O, M>, t: World<C, O, M>)
    requires Agreement(s) && Next(s, w, act, t) && (act.Link? || act.Unlink?)
    ensures Agreement(t)
  {
    hide TableTidy, Tidy, TableSubscribed, TableUnsubscribed;
    if act.Link? {
      TableSubscribedMeaning(s.table, |s.nodes|, w, s.nodes[w].doing.channel);
    } else {
      TableUnsubscribedMeaning(s.table, |s.nodes|, w, s.nodes[w].doing.channel);
    }
  }

  lemma AgreementStep<C(!new), O, M>(s: World<C, O, M>, w: nat, act: Act<C, O, M>, t: World<C, O, M>)
    requires Agreement(s) && Next(s, w, act, t)
    ensures Agreement(t)
  {
    if act.AddWorker? {
      assert t.nodes == s.nodes + [NewNode()];
    } else if act.Subscribe? || act.Unsubscribe? {
      HubStep(s, w, act, t);
    } else if act.Link? || act.Unlink? {
      TableStep(s, w, act, t);
    } else {
      assert SameStanding(s, t);
      StandingAgrees(s, t);
    }
  }

  /** Two-level subscription agreement in every reachable state of any number of workers. */
  lemma {:induction false} SubscriptionsAgree<C(!new), O, M>(
    worlds: seq<World<C, O, M>>, who: seq<nat>, acts: seq<Act<C, O, M>>, i: nat)
    requires Run(worlds, who, acts) && i < |worlds|
    ensures Agreement(worlds[i])
  {
    if i > 0 {
      SubscriptionsAgree(worlds, who, acts, i - 1);
      AgreementStep(worlds[i - 1], who[i - 1], acts[i - 1], worlds[i]);
    }
  }
}
