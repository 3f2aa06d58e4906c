/** Bus and wake-up protocol together: what one worker's leg sees of a run of all workers, joined with the steps of its
    awaker, poller and drain (src/worker.rs, src/bus.rs, src/bus/leg.rs, src/backend/polling.rs). */
module BusWakes {
  import opened BusLegs
  import opened BusTables
  import opened BusWorlds
  import opened BusDelivery
  import opened BusGuarantees
  import W = WakeProtocol

  // What an act of some worker does to the queue of leg l.
  datatype Effect<+C, +M> = Silent | Pushes(m: Msg<C, M>) | Takes

  ghost function EffectOn<C, O, M>(s: World<C, O, M>, w: nat, act: Act<C, O, M>, l: nat): Effect<C, M> {
    if act.SendNext? && w < |s.nodes| && s.nodes[w].doing.Sending? && s.nodes[w].pubs != []
       && s.nodes[w].doing.next < |Current(s.nodes[w]).legs| && Current(s.nodes[w]).legs[s.nodes[w].doing.next] == l
       && l < |s.nodes| && Accepts(|s.nodes[l].queue|, s.capacity, Current(s.nodes[w]).safe) then
      Pushes(Copy(s, w, |s.nodes[w].pubs| - 1))
    else if act.Receive? && w == l then Takes
    else Silent
  }

  // A step of the protocol that the bus does not notice; the drain of the leg goes on to its next receive only when the
  // events of the last message have been handed out.
  ghost predicate Unnoticed<C, O, M, Owner>(
    s: World<C, O, M>, l: nat, x: W.State<Owner, Msg<C, M>>, e: W.Event<Owner, Msg<C, M>>)
  {
    !e.Push? && (e.Recv? ==> x.queue == [] && (l < |s.nodes| ==> s.nodes[l].pending == []))
  }

  // The two sides of one step: a push under the leg's lock, or a receive of the leg's worker.
  ghost predicate Same<C, M, Owner>(
    effect: Effect<C, M>, x: W.State<Owner, Msg<C, M>>, e: W.Event<Owner, Msg<C, M>>)
  {
    match effect
    case Silent => false
    case Pushes(m) => e == W.Push(m)
    case Takes => e.Recv? && x.queue != []
  }

  /** A bus run, a protocol run, and a path through both on which they take their common steps together. */
  datatype Joint<C, O, M, Owner> = Joint(
    worlds: seq<World<C, O, M>>, who: seq<nat>, acts: seq<Act<C, O, M>>,
    states: seq<W.State<Owner, Msg<C, M>>>, events: seq<W.Event<Owner, Msg<C, M>>>,
    path: seq<(nat, nat)>)

  ghost predicate Move<C, O, M, Owner>(g: Joint<C, O, M, Owner>, l: nat, i: nat, a: nat, i': nat, a': nat)
    requires |g.worlds| == |g.acts| + 1 && |g.who| == |g.acts| && |g.states| == |g.events| + 1
  {
    (i < |g.acts| && (i', a') == (i + 1, a) && EffectOn(g.worlds[i], g.who[i], g.acts[i], l).Silent?)
    || (a < |g.events| && i < |g.worlds| && (i', a') == (i, a + 1)
        && Unnoticed(g.worlds[i], l, g.states[a], g.events[a]))
    || (i < |g.acts| && a < |g.events| && (i', a') == (i + 1, a + 1)
        && Same(EffectOn(g.worlds[i], g.who[i], g.acts[i], l), g.states[a], g.events[a]))
  }

  ghost predicate Joined<C, O, M, Owner>(g: Joint<C, O, M, Owner>, l: nat) {
    Run(g.worlds, g.who, g.acts) && W.Run(g.states, g.events)
    && g.path != [] && g.path[0] == (0, 0)
    && forall n :: 0 < n < |g.path| ==> Move(g, l, g.path[n - 1].0, g.path[n - 1].1, g.path[n].0, g.path[n].1)
  }

  /** Both sides agree on what leg l has taken in, holds and has given, and only a worker inside on_awake has events
      left to hand out. */
  ghost predicate Coupled<C, O, M, Owner>(s: World<C, O, M>, l: nat, x: W.State<Owner, Msg<C, M>>) {
    if l < |s.nodes| then
      s.nodes[l].accepted == x.sent && s.nodes[l].queue == x.queue && Messages(s.nodes[l].receipts) == x.received
      && (s.nodes[l].pending != [] ==> x.pc == W.OnAwake)
    else x.sent == []
  }

  lemma SilentKeeps<C, O, M, Owner>(
    s: World<C, O, M>, w: nat, act: Act<C, O, M>, t: World<C, O, M>, l: nat, x: W.State<Owner, Msg<C, M>>)
    requires Coupled(s, l, x) && W.Inv(x) && Next(s, w, act, t) && EffectOn(s, w, act, l).Silent?
    ensures Coupled(t, l, x)
  {
  }

  lemma UnnoticedKeeps<C, O, M, Owner>(
    s: World<C, O, M>, l: nat, x: W.State<Owner, Msg<C, M>>, e: W.Event<Owner, Msg<C, M>>, y: W.State<Owner, Msg<C, M>>)
    requires Coupled(s, l, x) && W.Next(x, e, y) && Unnoticed(s, l, x, e)
    ensures Coupled(s, l, y)
  {
  }

  lemma PushKeeps<C, O, M, Owner>(
    s: World<C, O, M>, w: nat, act: Act<C, O, M>, t: World<C, O, M>, l: nat,
    x: W.State<Owner, Msg<C, M>>, e: W.Event<Owner, Msg<C, M>>, y: W.State<Owner, Msg<C, M>>)
    requires Coupled(s, l, x) && act.SendNext?
    requires Next(s, w, act, t) && W.Next(x, e, y) && Same(EffectOn(s, w, act, l), x, e)
    ensures Coupled(t, l, y)
  {
  }

  lemma TakeKeeps<C, O, M, Owner>(
    s: World<C, O, M>, w: nat, act: Act<C, O, M>, t: World<C, O, M>, l: nat,
    x: W.State<Owner, Msg<C, M>>, e: W.Event<Owner, Msg<C, M>>, y: W.State<Owner, Msg<C, M>>)
    requires Coupled(s, l, x) && act.Receive?
    requires Next(s, w, act, t) && W.Next(x, e, y) && Same(EffectOn(s, w, act, l), x, e)
    ensures Coupled(t, l, y)
  {
    var receipts := t.nodes[l].receipts;
    assert receipts[..|receipts| - 1] == s.nodes[l].receipts;
    assert Messages(receipts) == Messages(s.nodes[l].receipts) + [s.nodes[l].queue[0]];
  }

  lemma SameKeeps<C, O, M, Owner>(
    s: World<C, O, M>, w: nat, act: Act<C, O, M>, t: World<C, O, M>, l: nat,
    x: W.State<Owner, Msg<C, M>>, e: W.Event<Owner, Msg<C, M>>, y: W.State<Owner, Msg<C, M>>)
    requires Coupled(s, l, x)
    requires Next(s, w, act, t) && W.Next(x, e, y) && Same(EffectOn(s, w, act, l), x, e)
    ensures Coupled(t, l, y)
  {
    hide Coupled, Next, W.Next;
    if act.Receive? {
      TakeKeeps(s, w, act, t, l, x, e, y);
    } else {
      PushKeeps(s, w, act, t, l, x, e, y);
    }
  }

  lemma InitCoupled<C, O, M, Owner>(s: World<C, O, M>, l: nat, x: W.State<Owner, Msg<C, M>>)
    requires Init(s) && W.Init(x)
    ensures Coupled(s, l, x)
  {
  }

  lemma {:induction false} JoinedIsCoupled<C, O, M, Owner>(g: Joint<C, O, M, Owner>, l: nat, n: nat)
    requires Joined(g, l) && n < |g.path|
    ensures g.path[n].0 < |g.worlds| && g.path[n].1 < |g.states|
    ensures Coupled(g.worlds[g.path[n].0], l, g.states[g.path[n].1])
  {
    hide Coupled, EffectOn, Unnoticed, Same, W.Next, Next, W.Inv;
    if n == 0 {
      InitCoupled(g.worlds[0], l, g.states[0]);
    } else {
      JoinedIsCoupled(g, l, n - 1);
      var (i, a) := g.path[n - 1];
      assert Move(g, l, i, a, g.path[n].0, g.path[n].1);
      W.RunKeepsInv(g.states, g.events, a);
      if g.path[n] == (i + 1, a) {
        SilentKeeps(g.worlds[i], g.who[i], g.acts[i], g.worlds[i + 1], l, g.states[a]);
      } else if g.path[n] == (i, a + 1) {
        UnnoticedKeeps(g.worlds[i], l, g.states[a], g.events[a], g.states[a + 1]);
      } else {
        SameKeeps(g.worlds[i], g.who[i], g.acts[i], g.worlds[i + 1], l, g.states[a], g.events[a], g.states[a + 1]);
      }
    }
  }

  /** The two machines fit: an act that pushes to the leg can be taken together with the protocol whenever the lock is
      free, one that takes from it whenever the worker is inside on_awake and the lock is free; no other needs a
      partner. */
  lemma PartnerExists<C, O, M, Owner>(
    s: World<C, O, M>, w: nat, act: Act<C, O, M>, t: World<C, O, M>, l: nat, x: W.State<Owner, Msg<C, M>>)
    requires Coupled(s, l, x) && Next(s, w, act, t) && !EffectOn(s, w, act, l).Silent?
    requires x.lock == W.Free && (act.Receive? ==> x.pc == W.OnAwake)
    ensures exists e, y :: Same(EffectOn(s, w, act, l), x, e) && W.Next(x, e, y)
  {
    match EffectOn(s, w, act, l)
    case Pushes(m) =>
      var lock := if x.queue == [] && x.pc != W.Starting then W.LoadingFlag else W.Free;
      var y := x.(queue := x.queue + [m], sent := x.sent + [m], lock := lock);
      assert W.Next(x, W.Push(m), y);
    case Takes =>
      var y := x.(queue := x.queue[1..], received := x.received + [x.queue[0]]);
      assert W.Next(x, W.Recv, y);
  }

  /** From a safe publish to the tasks that follow the channel, with the wake-up in between: if the receiving worker
      installed its awaker on an empty leg, and the send was over when a poll of that worker returned with no producer
      inside the leg, then at the end of that very cycle the message has been received exactly once, and its events have
      all been handed out, together and after those of everything received before. */
  lemma DeliveredByEndOfCycle<C(!new), O, M, Owner>(
    g: Joint<C, O, M, Owner>, l: nat, p: nat, t: nat, install: nat, x: nat, y: nat)
    returns (k: nat, j: nat, block: seq<BusEvent<O, C, M>>)
    requires Joined(g, l) && x < y < |g.path|
    requires g.path[x].0 < |g.worlds| && g.path[y].0 < |g.worlds|
    requires var s := g.worlds[g.path[x].0];
             Over(s, p, t) && s.nodes[p].pubs[t].safe && l in s.nodes[p].pubs[t].legs && l < |s.nodes|
    requires install < |g.events| && g.events[install].Install? && g.states[install].queue == []
    requires var (a, b) := (g.path[x].1, g.path[y].1);
             install < a < b < |g.states|
             && g.states[a].pc.Polled? && g.states[a].lock == W.Free
             && (forall c :: a <= c < b ==> g.states[c].pc != W.Control) && g.states[b].pc == W.Control
    ensures var pub := g.worlds[g.path[x].0].nodes[p].pubs[t];
            DeliveredTo(g.worlds, g.who, g.acts, g.path[y].0, l, p, t, pub, k, j, block)
  {
    hide Run, W.Run, Move, HandedOutAt, InOrder, W.Next, Next, DeliveredTo;
    var (i, a) := g.path[x];
    var (end, b) := g.path[y];
    var m := Copy(g.worlds[i], p, t);
    OneCopyPerLeg(g.worlds, g.who, g.acts, i, p, t, l);
    JoinedIsCoupled(g, l, x);
    JoinedIsCoupled(g, l, y);
    W.NothingLeftBehind(g.states, g.events, install, a, b);
    W.RunKeepsInv(g.states, g.events, b);
    assert m in g.states[a].sent && m in g.states[b].received;
    RunDelivers(g.worlds, g.who, g.acts, end);
    k := DryNode(g.worlds[end].nodes[l], m);
    j, block := HandedOutIsDelivered(g.worlds, g.who, g.acts, i, end, l, p, t, k);
  }
}
