/** That the locks of the bus never hold everybody up (src/worker.rs, src/bus.rs). */
module BusProgress {
  import opened BusLegs
  import opened LocalHubs
  import opened BusTables
  import opened BusWorlds
  import opened BusDelivery

  ghost predicate Enabled<C(!new), O(!new), M(!new)>(s: World<C, O, M>, w: nat, act: Act<C, O, M>) {
    exists t :: Next(s, w, act, t)
  }

  // A worker inside a send can always go on: it waits for nobody.
  lemma SendersGoOn<C(!new), O(!new), M(!new)>(s: World<C, O, M>, w: nat)
    requires w < |s.nodes| && s.nodes[w].doing.Sending? && SendsFit(s, w)
    ensures Enabled(s, w, if s.nodes[w].doing.next < |Current(s.nodes[w]).legs| then SendNext else Finish)
  {
    var node := s.nodes[w];
    if node.doing.next < |Current(node).legs| {
      var l := Current(node).legs[node.doing.next];
      var m := Msg(Source(w, Current(node).target), Current(node).body, |node.pubs| - 1);
      var after := s.nodes[l].(queue := s.nodes[l].queue + [m], accepted := s.nodes[l].accepted + [m]);
      var nodes := if Accepts(|s.nodes[l].queue|, s.capacity, Current(node).safe) then s.nodes[l := after] else s.nodes;
      assert Next(s, w, SendNext, s.(nodes := nodes[w := nodes[w].(doing := Sending(node.doing.next + 1))]));
    } else {
      assert Next(s, w, Finish, s.(nodes := s.nodes[w := node.(doing := Idle)]));
    }
  }

  // A worker on its way to the table goes on exactly when no publish is inside it.
  lemma LinkersGoOn<C(!new), O(!new), M(!new)>(s: World<C, O, M>, w: nat)
    requires w < |s.nodes| && (s.nodes[w].doing.Linking? || s.nodes[w].doing.Unlinking?)
    ensures Enabled(s, w, if s.nodes[w].doing.Linking? then Link else Unlink) <==> TableFree(s)
  {
    var node := s.nodes[w];
    var nodes := s.nodes[w := node.(doing := Idle)];
    if node.doing.Linking? {
      assert TableFree(s) ==>
        Next(s, w, Link, s.(table := TableSubscribed(s.table, w, node.doing.channel), nodes := nodes));
    } else {
      assert TableFree(s) ==>
        Next(s, w, Unlink, s.(table := TableUnsubscribed(s.table, w, node.doing.channel), nodes := nodes));
    }
  }

  /** The locks of the bus never deadlock: in every run, as long as some worker is between two of its locks, one of them
      can take its next step. */
  lemma NoDeadlock<C(!new), O(!new), M(!new)>(
    worlds: seq<World<C, O, M>>, who: seq<nat>, acts: seq<Act<C, O, M>>, i: nat, w: nat)
    requires Run(worlds, who, acts) && i < |worlds| && w < |worlds[i].nodes| && worlds[i].nodes[w].doing != Idle
    ensures exists v, act ::
              Enabled(worlds[i], v, act) && (act.Link? || act.Unlink? || act.SendNext? || act.Finish?)
  {
    hide Next, Enabled;
    RunDelivers(worlds, who, acts, i);
    var s := worlds[i];
    if v :| 0 <= v < |s.nodes| && s.nodes[v].doing.Sending? {
      SendersGoOn(s, v);
    } else {
      LinkersGoOn(s, w);
    }
  }

  /** An idle worker is never held up: it can hand out its next event exactly if it has one, take the next message
      exactly if all events of the last have been handed out and one waits (in a leg with a stack part), and
      subscribe, unsubscribe and send at any time. */
  lemma IdleGoesOn<C(!new), O(!new), M(!new)>(
    s: World<C, O, M>, w: nat, o: O, c: C, target: Target<C>, safe: bool, body: M)
    requires w < |s.nodes| && s.nodes[w].doing == Idle
    ensures Enabled(s, w, Deliver) <==> s.nodes[w].pending != []
    ensures Enabled(s, w, Act.Receive) <==> s.nodes[w].pending == [] && s.nodes[w].queue != [] && s.capacity > 0
    ensures Enabled(s, w, Subscribe(o, c)) && Enabled(s, w, Unsubscribe(o, c))
    ensures Enabled(s, w, Publish(target, safe, body))
  {
    var node := s.nodes[w];
    if node.pending != [] {
      var after := node.(pending := node.pending[1..], events := node.events + [node.pending[0]]);
      assert Next(s, w, Deliver, s.(nodes := s.nodes[w := after]));
    } else if node.queue != [] && s.capacity > 0 {
      var r := Receipt(node.queue[0], node.hub);
      var after := node.(queue := node.queue[1..], receipts := node.receipts + [r], pending := Meaning(r));
      assert Next(s, w, Act.Receive, s.(nodes := s.nodes[w := after]));
    }
    var (hub, first) := Subscribed(node.hub, o, c);
    var joined := node.(hub := hub, doing := if first then Linking(c) else Idle);
    assert Next(s, w, Subscribe(o, c), s.(nodes := s.nodes[w := joined]));
    var (hub', last) := Unsubscribed(node.hub, o, c);
    var left := node.(hub := hub', doing := if last then Unlinking(c) else Idle);
    assert Next(s, w, Unsubscribe(o, c), s.(nodes := s.nodes[w := left]));
    var pub := Pub(target, safe, body, Legs(s.table, |s.nodes|, target));
    var sending := node.(doing := Sending(0), pubs := node.pubs + [pub]);
    assert Next(s, w, Publish(target, safe, body), s.(nodes := s.nodes[w := sending]));
  }
}
