/** The controller: its three buses, the numbering of their legs, and the handling of worker messages
    (src/controller.rs). */
module Controllers {
  import opened Options
  import opened BusLegs
  import opened BusTables
  import opened Spawning

  datatype ControlOut<+Ext, +SCfg> = OutStats(stats: WorkerStats) | OutExt(ext: Ext) | OutSpawn(cfg: SCfg)

  // A message on the controller's own leg.
  type Message<OutE, SCfg> = (BusEventSource<nat>, ControlOut<OutE, SCfg>)

  // Event legs count from 1, since the controller has leg 0, workers from 0.
  ghost predicate FromWorkers<OutE, SCfg>(events: seq<Message<OutE, SCfg>>, workers: nat) {
    forall k :: 0 <= k < |events| ==> events[k].0.Direct? && 1 <= events[k].0.leg <= workers
  }

  // One message of a worker.
  function Handled<InE, OutE, SCfg>(o: Office<InE, OutE, SCfg>, e: Message<OutE, SCfg>): (r: Office<InE, OutE, SCfg>)
    requires |o.stats| == |o.control| && e.0.Direct? && 1 <= e.0.leg <= |o.stats|
    ensures |r.stats| == |r.control| == |o.stats|
  {
    match e.1
    case OutStats(stats) => o.(stats := o.stats[e.0.leg - 1 := stats])
    case OutExt(ext) => o.(output := o.output + [ext])
    case OutSpawn(cfg) => Spawned(o, cfg)
  }

  ghost function HandledAll<InE, OutE, SCfg>(o: Office<InE, OutE, SCfg>, events: seq<Message<OutE, SCfg>>)
    : (r: Office<InE, OutE, SCfg>)
    requires |o.stats| == |o.control| && FromWorkers(events, |o.stats|)
    ensures |r.stats| == |r.control| == |o.stats|
  {
    if events == [] then o else Handled(HandledAll(o, events[..|events| - 1]), events[|events| - 1])
  }

  lemma HandledNone<InE, OutE, SCfg>(o: Office<InE, OutE, SCfg>, events: seq<Message<OutE, SCfg>>)
    requires |o.stats| == |o.control| && events == []
    ensures HandledAll(o, events) == o
  {
  }

  lemma HandledNext<InE, OutE, SCfg>(o: Office<InE, OutE, SCfg>, events: seq<Message<OutE, SCfg>>, k: nat)
    requires |o.stats| == |o.control| && FromWorkers(events, |o.stats|) && k < |events|
    ensures FromWorkers(events[..k + 1], |o.stats|)
    ensures HandledAll(o, events[..k + 1]) == Handled(HandledAll(o, events[..k]), events[k])
  {
    assert events[..k + 1][..k] == events[..k];
  }

  // --- What handling a row of messages leaves ---

  function ExtPayloads<OutE, SCfg>(events: seq<Message<OutE, SCfg>>): seq<OutE> {
    if events == [] then []
    else
      var last := events[|events| - 1].1;
      ExtPayloads(events[..|events| - 1]) + if last.OutExt? then [last.ext] else []
  }

  // The position after worker i's last statistics, or 0 if it sent none.
  function LastStats<OutE, SCfg>(events: seq<Message<OutE, SCfg>>, i: nat): (after: nat)
    ensures after <= |events|
    ensures after > 0 ==> events[after - 1].0 == Direct(i + 1) && events[after - 1].1.OutStats?
    ensures forall k :: after <= k < |events| ==> !(events[k].0 == Direct(i + 1) && events[k].1.OutStats?)
  {
    if events == [] then 0
    else
      var n := |events| - 1;
      if events[n].0 == Direct(i + 1) && events[n].1.OutStats? then n + 1 else LastStats(events[..n], i)
  }

  // The spawns from position `start` on that went to worker i, each to the best worker of its moment.
  ghost function SpawnsOn<InE, OutE, SCfg>(
    o: Office<InE, OutE, SCfg>, events: seq<Message<OutE, SCfg>>, i: nat, start: nat): seq<SCfg>
    requires |o.stats| == |o.control| && FromWorkers(events, |o.stats|)
  {
    if |events| <= start then []
    else
      var n := |events| - 1;
      SpawnsOn(o, events[..n], i, start)
      + if events[n].1.OutSpawn? && Best(HandledAll(o, events[..n]).stats) == i then [events[n].1.cfg] else []
  }

  function SpawnMessages<InE, SCfg>(cfgs: seq<SCfg>): (r: ControlQueue<InE, SCfg>)
    ensures |r| == |cfgs|
  {
    seq(|cfgs|, k requires 0 <= k < |cfgs| => (External, InSpawn(cfgs[k])))
  }

  /** What the workers sent out comes out, in order. */
  lemma {:induction false} OutputsInOrder<InE, OutE, SCfg>(o: Office<InE, OutE, SCfg>, events: seq<Message<OutE, SCfg>>)
    requires |o.stats| == |o.control| && FromWorkers(events, |o.stats|)
    ensures HandledAll(o, events).output == o.output + ExtPayloads(events)
  {
    if events != [] {
      OutputsInOrder(o, events[..|events| - 1]);
    }
  }

  lemma SpawnedEntries<InE, OutE, SCfg>(o: Office<InE, OutE, SCfg>, cfg: SCfg, i: nat)
    requires i < |o.stats| == |o.control|
    ensures Spawned(o, cfg).stats[i]
         == if Best(o.stats) == i then o.stats[i].(tasks := o.stats[i].tasks + 1) else o.stats[i]
    ensures Spawned(o, cfg).control[i] == o.control[i] + if Best(o.stats) == i then [(External, InSpawn(cfg))] else []
    ensures Spawned(o, cfg).output == o.output
  {
  }

  /** Each worker's entry is the statistics it sent last, plus the spawns it has been given since. */
  lemma {:induction false} EntryIsLastStats<InE, OutE, SCfg>(
    o: Office<InE, OutE, SCfg>, events: seq<Message<OutE, SCfg>>, i: nat)
    requires |o.stats| == |o.control| && FromWorkers(events, |o.stats|) && i < |o.stats|
    ensures var after := LastStats(events, i);
            var base := if after > 0 then events[after - 1].1.stats else o.stats[i];
            HandledAll(o, events).stats[i] == base.(tasks := base.tasks + |SpawnsOn(o, events, i, after)|)
  {
    hide Best, Spawned;
    if events != [] {
      var n := |events| - 1;
      EntryIsLastStats(o, events[..n], i);
      if events[n].1.OutSpawn? {
        SpawnedEntries(HandledAll(o, events[..n]), events[n].1.cfg, i);
      }
    }
  }

  /** Each control leg gets exactly the spawns that went to its worker, in order. */
  lemma {:induction false} QueuesGrowBySpawns<InE, OutE, SCfg>(
    o: Office<InE, OutE, SCfg>, events: seq<Message<OutE, SCfg>>, i: nat)
    requires |o.stats| == |o.control| && FromWorkers(events, |o.stats|) && i < |o.stats|
    ensures HandledAll(o, events).control[i] == o.control[i] + SpawnMessages<InE, SCfg>(SpawnsOn(o, events, i, 0))
  {
    hide Best, Spawned;
    if events != [] {
      var n := |events| - 1;
      QueuesGrowBySpawns(o, events[..n], i);
      if events[n].1.OutSpawn? {
        SpawnedEntries(HandledAll(o, events[..n]), events[n].1.cfg, i);
      }
    }
  }

  function Posted<InE, SCfg>(
    control: seq<ControlQueue<InE, SCfg>>, i: nat, capacity: nat, safe: bool, msg: ControlIn<InE, SCfg>)
    : (r: seq<ControlQueue<InE, SCfg>>)
    requires i < |control|
    ensures |r| == |control|
  {
    control[i := Sent(control[i], capacity, safe, (External, msg))]
  }

  // The first n of the control legs have got the message, or turned it away.
  function PostedAll<InE, SCfg>(
    control: seq<ControlQueue<InE, SCfg>>, n: nat, capacity: nat, safe: bool, msg: ControlIn<InE, SCfg>)
    : (r: seq<ControlQueue<InE, SCfg>>)
    ensures |r| == |control|
  {
    seq(|control|, i requires 0 <= i < |control| =>
      if i < n then Sent(control[i], capacity, safe, (External, msg)) else control[i])
  }

  function AllAsked<InE, OutE, SCfg>(o: Office<InE, OutE, SCfg>, capacity: nat): (r: Office<InE, OutE, SCfg>)
    requires |o.stats| == |o.control|
    ensures r.stats == o.stats && |r.control| == |o.control|
  {
    o.(control := PostedAll(o.control, |o.stats|, capacity, false, StatsRequest))
  }

  lemma AskedByPosting<InE, OutE, SCfg>(o: Office<InE, OutE, SCfg>, capacity: nat)
    requires |o.stats| == |o.control|
    ensures AllAsked(o, capacity) == o.(control := PostedAll(o.control, |o.stats|, capacity, false, StatsRequest))
  {
  }

  // What a loop of receives gets out of a leg.
  function Heard<E>(queue: seq<E>, capacity: nat): (heard: seq<E>)
    ensures heard <= queue
  {
    if capacity == 0 then [] else queue
  }

  /** In a round, each worker whose queue has room gets exactly one question, and no other changes; and all that waits
      is heard, if the leg has a stack part. */
  lemma RoundMeaning<InE, OutE, SCfg>(
    o: Office<InE, OutE, SCfg>, capacity: nat, events: seq<Message<OutE, SCfg>>, heardCapacity: nat, i: nat)
    requires i < |o.stats| == |o.control|
    ensures var asked := AllAsked(o, capacity);
            asked.stats == o.stats && asked.output == o.output && |asked.control| == |o.control|
            && (|o.control[i]| < capacity ==>
                  |asked.control[i]| == |o.control[i]| + 1 && o.control[i] <= asked.control[i]
                  && asked.control[i][|o.control[i]|] == (External, StatsRequest))
            && (|o.control[i]| >= capacity ==> asked.control[i] == o.control[i])
    ensures if heardCapacity > 0 then |Heard(events, heardCapacity)| == |events| else Heard(events, heardCapacity) == []
  {
  }

  // The legs one worker was given on the three buses.
  datatype WorkerLegs = WorkerLegs(control: nat, event: nat, inner: nat)

  // Three buses that share nothing; the first leg of the event bus is the controller's.
  method NewBuses<A, B, C(==), M>(capacity: nat)
    returns (control: BusShared<nat, A>, events: BusShared<nat, B>, inner: BusShared<C, M>, first: BusWorker<nat, B>)
    ensures control.Valid() && events.Valid() && inner.Valid()
    ensures fresh(control.Parts()) && fresh(events.Parts()) && fresh(inner.Parts())
    ensures control.Parts() !! events.Parts() && control.Parts() !! inner.Parts() && events.Parts() !! inner.Parts()
    ensures first.shared == events && first.legIndex == 0
    ensures NoAwakers(control) && NoAwakers(events)
    ensures control.Queues() == [] && events.Queues() == [[]] && inner.Queues() == []
    ensures control.CAPACITY == events.CAPACITY == inner.CAPACITY == capacity
  {
    hide BusShared.Valid, BusShared.Queues, BusShared.Parts;
    control := new BusShared<nat, A>(capacity);
    label controlMade:
    inner := new BusShared<C, M>(capacity);
    label innerMade:
    BusUndisturbed@controlMade(control);
    events := new BusShared<nat, B>(capacity);
    label eventsMade:
    first := events.NewWorker();
    StillNoAwakers@eventsMade(events);
    ghost var added := events.Parts() - old@eventsMade(events.Parts());
    assert fresh@eventsMade(added);
    assert forall o :: o in events.Parts() ==> o == events || o in added;
    BusUndisturbed@innerMade(control);
    BusUndisturbed@innerMade(inner);
  }

  // Three buses are consistent and share nothing.
  ghost predicate Apart<A, B, C, M>(control: BusShared<nat, A>, events: BusShared<nat, B>, inner: BusShared<C, M>)
    reads control, events, inner, control.Parts(), events.Parts(), inner.Parts()
  {
    control.Valid() && events.Valid() && inner.Valid()
    && control.Parts() !! events.Parts() && control.Parts() !! inner.Parts() && events.Parts() !! inner.Parts()
    && NoAwakers(control) && NoAwakers(events)
  }

  // A new leg on each of them.
  method NewLegs<A, B, C(==), M>(control: BusShared<nat, A>, events: BusShared<nat, B>, inner: BusShared<C, M>)
    returns (c: BusWorker<nat, A>, e: BusWorker<nat, B>, i: BusWorker<C, M>)
    requires Apart(control, events, inner)
    modifies control`legs, events`legs, inner`legs
    ensures Apart(control, events, inner)
    ensures fresh(control.Parts() - old(control.Parts()))
    ensures fresh(events.Parts() - old(events.Parts()))
    ensures fresh(inner.Parts() - old(inner.Parts()))
    ensures c.shared == control && e.shared == events && i.shared == inner
    ensures (c.legIndex, e.legIndex, i.legIndex) == (|old(control.legs)|, |old(events.legs)|, |old(inner.legs)|)
    ensures control.Queues() == old(control.Queues()) + [[]]
    ensures events.Queues() == old(events.Queues()) + [[]]
    ensures inner.Queues() == old(inner.Queues()) + [[]]
  {
    hide BusShared.Valid, BusShared.Queues, BusShared.Parts, NoAwakers;
    PartsExist(control);
    PartsExist(events);
    PartsExist(inner);
    c := control.NewWorker();
    StillNoAwakers(control);
    BusUndisturbed(events);
    BusUndisturbed(inner);
    PartsExist(control);
    assert control.Parts() !! events.Parts() && control.Parts() !! inner.Parts();
    label controlDone:
    e := events.NewWorker();
    StillNoAwakers@controlDone(events);
    BusUndisturbed@controlDone(control);
    BusUndisturbed@controlDone(inner);
    PartsExist(events);
    assert control.Parts() !! events.Parts() && events.Parts() !! inner.Parts();
    assert inner.Parts() == old(inner.Parts());
    label eventsDone:
    i := inner.NewWorker();
    ghost var added := inner.Parts() - old(inner.Parts());
    assert fresh@eventsDone(added) && forall o :: o in inner.Parts() && o !in old(inner.Parts()) ==> o in added;
    BusUndisturbed@eventsDone(control);
    BusUndisturbed@eventsDone(events);
    assert control.Parts() !! inner.Parts() && events.Parts() !! inner.Parts();
  }

  class Controller<InE, OutE, SCfg, C(==), M> {
    const controlBus: BusShared<nat, ControlIn<InE, SCfg>>
    const eventBus: BusShared<nat, ControlOut<OutE, SCfg>>
    const innerBus: BusShared<C, M>
    const workerEvent: BusWorker<nat, ControlOut<OutE, SCfg>>
    var workers: seq<WorkerStats>
    var output: seq<OutE>
    var shutdown: bool
    // What each worker was given.
    ghost var legs: seq<WorkerLegs>

    ghost function Repr(): set<object>
      reads controlBus, eventBus, innerBus
    {
      {this} + controlBus.Parts() + eventBus.Parts() + innerBus.Parts()
    }

    ghost predicate Wired()
      reads this, Repr()
    {
      Apart(controlBus, eventBus, innerBus)
      && this !in controlBus.Parts() && this !in eventBus.Parts() && this !in innerBus.Parts()
      && workerEvent.shared == eventBus && workerEvent.legIndex == 0
    }

    /** Worker i sits behind control leg i, event leg i + 1 and inner leg i, and everything on the controller's own leg
        comes directly from one of the workers. */
    ghost predicate Valid()
      reads this, Repr()
    {
      Wired()
      && |controlBus.Queues()| == |innerBus.Queues()| == |workers| == |legs| && |eventBus.Queues()| == |workers| + 1
      && (forall i :: 0 <= i < |legs| ==> legs[i] == WorkerLegs(i, i + 1, i))
      && FromWorkers(eventBus.Queues()[0], |workers|)
    }

    ghost function View(): (o: Office<InE, OutE, SCfg>)
      reads this, Repr()
      requires Valid()
      ensures |o.stats| == |o.control| == |workers|
    {
      Office(workers, controlBus.Queues(), output)
    }

    ghost function Events(): (events: seq<Message<OutE, SCfg>>)
      reads this, Repr()
      requires Valid()
      ensures FromWorkers(events, |workers|)
    {
      eventBus.Queues()[0]
    }

    constructor (capacity: nat)
      ensures Valid() && fresh(Repr()) && View() == Office([], [], []) && Events() == [] && !shutdown
      ensures controlBus.CAPACITY == eventBus.CAPACITY == innerBus.CAPACITY == capacity
    {
      hide BusShared.Valid, BusShared.Queues, BusShared.Parts, NoAwakers;
      var control, events, inner, first := NewBuses<ControlIn<InE, SCfg>, ControlOut<OutE, SCfg>, C, M>(capacity);
      controlBus, innerBus, eventBus, workerEvent := control, inner, events, first;
      workers, output, shutdown, legs := [], [], false, [];
      label made:
      new;
      BusMembers(controlBus, this);
      BusMembers(eventBus, this);
      BusMembers(innerBus, this);
      BusUndisturbed@made(controlBus);
      BusUndisturbed@made(innerBus);
      BusUndisturbed@made(eventBus);
    }

    // Nothing of the buses changed, whatever happened to the controller's own fields.
    twostate lemma BusesUndisturbed()
      requires old(Wired()) && unchanged(old(controlBus.Parts() + eventBus.Parts() + innerBus.Parts()))
      ensures Wired() && controlBus.Queues() == old(controlBus.Queues()) && eventBus.Queues() == old(eventBus.Queues())
      ensures innerBus.Queues() == old(innerBus.Queues())
    {
      hide BusShared.Valid, BusShared.Queues, BusShared.Parts, NoAwakers;
      BusUndisturbed(controlBus);
      BusUndisturbed(eventBus);
      BusUndisturbed(innerBus);
    }

    method AddWorker()
      returns (control: BusWorker<nat, ControlIn<InE, SCfg>>, event: BusWorker<nat, ControlOut<OutE, SCfg>>,
               inner: BusWorker<C, M>)
      requires Valid()
      modifies this`workers, this`legs, controlBus`legs, eventBus`legs, innerBus`legs
      ensures Valid() && fresh(Repr() - old(Repr()))
      ensures control.shared == controlBus && event.shared == eventBus && inner.shared == innerBus
      ensures legs == old(legs) + [WorkerLegs(control.legIndex, event.legIndex, inner.legIndex)]
      ensures View() == old(View()).(stats := old(workers) + [WorkerStats(0, false)],
              control := old(View()).control + [[]])
      ensures Events() == old(Events()) && innerBus.Queues() == old(innerBus.Queues()) + [[]]
    {
      hide BusShared.Valid, BusShared.Queues, BusShared.Parts, NoAwakers;
      control, event, inner := NewLegs(controlBus, eventBus, innerBus);
      BusMembers(controlBus, this);
      BusMembers(eventBus, this);
      BusMembers(innerBus, this);
      label given:
      legs := legs + [WorkerLegs(control.legIndex, event.legIndex, inner.legIndex)];
      workers := workers + [WorkerStats(0, false)];
      BusesUndisturbed@given();
    }

    // A worker's message to the controller, over the leg it was given.
    method Report(out: BusWorker<nat, ControlOut<OutE, SCfg>>, safe: bool, e: ControlOut<OutE, SCfg>) returns (ok: bool)
      requires Valid() && out.shared == eventBus && 1 <= out.legIndex <= |workers|
      modifies eventBus.legs[0].queue
      ensures Valid() && View() == old(View()) && (safe ==> ok)
      ensures ok == Accepts(|old(Events())|, eventBus.CAPACITY, safe)
      ensures Events() == if ok then old(Events()) + [(Direct(out.legIndex), e)] else old(Events())
    {
      hide BusShared.Valid, BusShared.Queues, BusShared.Parts, NoAwakers;
      LegMembers(eventBus, 0);
      PartsExist(controlBus);
      PartsExist(innerBus);
      var after := out.Send(0, safe, e);
      SameParts(eventBus);
      BusUndisturbed(controlBus);
      BusUndisturbed(innerBus);
      ok := after.Some?;
    }

    // The next message on the controller's own leg.
    method Hear() returns (item: Option<Message<OutE, SCfg>>)
      requires Valid()
      modifies eventBus.legs[0].queue
      ensures Valid() && View() == old(View()) && item == Oldest(old(Events()), eventBus.CAPACITY)
      ensures Events() == if item.Some? then old(Events())[1..] else old(Events())
    {
      hide BusShared.Valid, BusShared.Queues, BusShared.Parts, NoAwakers;
      LegMembers(eventBus, 0);
      PartsExist(controlBus);
      PartsExist(innerBus);
      item := workerEvent.Recv();
      SameParts(eventBus);
      BusUndisturbed(controlBus);
      BusUndisturbed(innerBus);
    }

    // A message onto a control leg, through the builder.
    method Post(i: nat, safe: bool, msg: ControlIn<InE, SCfg>)
      requires Valid() && i < |workers|
      modifies controlBus.legs[i].queue
      ensures Valid() && Events() == old(Events()) && controlBus.legs == old(controlBus.legs)
      ensures View() == old(View()).(control := Posted(old(View()).control, i, controlBus.CAPACITY, safe, msg))
    {
      hide BusShared.Valid, BusShared.Queues, BusShared.Parts, NoAwakers;
      LegMembers(controlBus, i);
      PartsExist(eventBus);
      PartsExist(innerBus);
      var after := controlBus.Send(i, safe, msg);
      SameParts(controlBus);
      BusUndisturbed(eventBus);
      BusUndisturbed(innerBus);
    }

    // The scan for the first worker of least load. Without a worker, the code panics.
    method PickBest() returns (best: nat)
      requires workers != []
      ensures best == Best(workers)
    {
      best := 0;
      for i := 1 to |workers|
        invariant IsBest(workers[..i], best)
      {
        if Load(workers[i]) < Load(workers[best]) {
          best := i;
        }
      }
      assert workers[..|workers|] == workers;
      BestIsUnique(workers, best, Best(workers));
    }

    method Spawn(cfg: SCfg)
      requires Valid() && workers != []
      modifies this`workers, set l | l in controlBus.legs :: l.queue
      ensures Valid() && View() == Spawned(old(View()), cfg) && Events() == old(Events())
      ensures controlBus.legs == old(controlBus.legs)
    {
      hide BusShared.Valid, BusShared.Queues, BusShared.Parts, NoAwakers, Best;
      var best := PickBest();
      workers := workers[best := workers[best].(tasks := workers[best].tasks + 1)];
      Post(best, true, InSpawn(cfg));
    }

    // Sending to a worker that does not exist is a panic.
    method SendTo(worker: nat, ext: InE)
      requires Valid() && worker < |workers|
      modifies controlBus.legs[worker].queue
      ensures Valid() && Events() == old(Events())
      ensures var queue := old(View()).control[worker] + [(External, InExt(ext))];
              View() == old(View()).(control := old(View()).control[worker := queue])
    {
      hide BusShared.Valid, BusShared.Queues, BusShared.Parts, NoAwakers;
      Post(worker, true, InExt(ext));
    }

    method SendToBest(ext: InE)
      requires Valid() && workers != []
      modifies set l | l in controlBus.legs :: l.queue
      ensures Valid() && Events() == old(Events())
      ensures var best := Best(workers);
              var queue := old(View()).control[best] + [(External, InExt(ext))];
              View() == old(View()).(control := old(View()).control[best := queue])
    {
      hide BusShared.Valid, BusShared.Queues, BusShared.Parts, NoAwakers, Best;
      var best := PickBest();
      Post(best, true, InExt(ext));
    }

    // The loops that send one message to every worker.
    method PostAll(safe: bool, msg: ControlIn<InE, SCfg>)
      requires Valid()
      modifies set l | l in controlBus.legs :: l.queue
      ensures Valid() && Events() == old(Events())
      ensures View()
           == old(View()).(control := PostedAll(old(View()).control, |workers|, controlBus.CAPACITY, safe, msg))
    {
      hide BusShared.Valid, BusShared.Queues, BusShared.Parts, NoAwakers, Sent;
      ghost var control, capacity := View().control, controlBus.CAPACITY;
      assert PostedAll(control, 0, capacity, safe, msg) == control;
      for i := 0 to |workers|
        invariant Valid() && Events() == old(Events()) && controlBus.legs == old(controlBus.legs)
        invariant View() == old(View()).(control := PostedAll(control, i, capacity, safe, msg))
      {
        Post(i, safe, msg);
        assert PostedAll(control, i + 1, capacity, safe, msg)
            == Posted(PostedAll(control, i, capacity, safe, msg), i, capacity, safe, msg);
      }
    }

    method ShutDown()
      requires Valid()
      modifies this`shutdown, set l | l in controlBus.legs :: l.queue
      ensures Valid() && shutdown && Events() == old(Events()) && workers == old(workers) && output == old(output)
      ensures forall i :: 0 <= i < |workers| ==> View().control[i] == old(View()).control[i] + [(External, Shutdown)]
    {
      hide BusShared.Valid, BusShared.Queues, BusShared.Parts, NoAwakers;
      BusMembers(controlBus, this);
      BusMembers(eventBus, this);
      BusMembers(innerBus, this);
      shutdown := true;
      BusesUndisturbed();
      PostAll(true, Shutdown);
    }

    method PopEvent() returns (ext: Option<OutE>)
      modifies this`output
      ensures old(output) == [] ==> ext == None && output == []
      ensures old(output) != [] ==> ext.Some? && [ext.value] + output == old(output)
    {
      if output == [] {
        return None;
      }
      ext := Some(output[0]);
      output := output[1..];
    }

    method CountRunning() returns (n: nat)
      ensures n == 0 <==> forall i :: 0 <= i < |workers| ==> workers[i].tasks == 0 || workers[i].isEmpty
    {
      n := 0;
      for i := 0 to |workers|
        invariant n == 0 <==> forall j :: 0 <= j < i ==> workers[j].tasks == 0 || workers[j].isEmpty
      {
        if workers[i].tasks > 0 && !workers[i].isEmpty {
          n := n + 1;
        }
      }
    }

    // One message. Each comes from a worker, so neither the panic nor a wrong entry can be reached.
    method Handle(e: Message<OutE, SCfg>)
      requires Valid() && e.0.Direct? && 1 <= e.0.leg <= |workers|
      modifies this`workers, this`output, set l | l in controlBus.legs :: l.queue
      ensures Valid() && View() == Handled(old(View()), e) && Events() == old(Events())
      ensures controlBus.legs == old(controlBus.legs)
    {
      hide BusShared.Valid, BusShared.Queues, BusShared.Parts, NoAwakers, Spawned;
      var (source, event) := e;
      match source {
        case Direct(leg) =>
          match event {
            case OutStats(stats) =>
              workers := workers[leg - 1 := stats];
              BusesUndisturbed();
            case OutExt(ext) =>
              output := output + [ext];
              BusesUndisturbed();
            case OutSpawn(cfg) => Spawn(cfg);
          }
        case _ => assert false;
      }
    }

    // All waiting messages, in order.
    method HandleWaiting()
      requires Valid()
      modifies this`workers, this`output, eventBus.legs[0].queue, set l | l in controlBus.legs :: l.queue
      ensures Valid()
      ensures View() == HandledAll(old(View()), Heard(old(Events()), eventBus.CAPACITY))
      ensures Events() == old(Events())[|Heard(old(Events()), eventBus.CAPACITY)|..]
    {
      hide BusShared.Valid, BusShared.Queues, BusShared.Parts, NoAwakers, Handled, HandledAll, Wired, Apart;
      ghost var asked, events, k := View(), Events(), 0;
      HandledNone<InE, OutE, SCfg>(asked, events[..0]);
      while true
        invariant Valid() && |workers| == |asked.stats| && k <= |events| && Events() == events[k..]
        invariant controlBus.legs == old(controlBus.legs) && eventBus.legs == old(eventBus.legs)
        invariant k > 0 ==> eventBus.CAPACITY > 0
        invariant FromWorkers(events[..k], |asked.stats|) && View() == HandledAll(asked, events[..k])
        decreases |events| - k
      {
        var item := Hear();
        if item.None? {
          assert events[..k] == Heard(events, eventBus.CAPACITY);
          return;
        }
        Handle(item.value);
        HandledNext(asked, events, k);
        k := k + 1;
      }
    }

    /** One round: every worker is asked for its statistics if its queue has room, then every waiting message is handled
        in order. */
    method Process() returns (going: bool)
      requires Valid()
      modifies this`workers, this`output, eventBus.legs[0].queue, set l | l in controlBus.legs :: l.queue
      ensures Valid()
      ensures !going <==>
              shutdown && forall i :: 0 <= i < |old(workers)| ==> old(workers)[i].tasks == 0 || old(workers)[i].isEmpty
      ensures !going ==> View() == old(View()) && Events() == old(Events())
      ensures going ==>
                View() == HandledAll(AllAsked(old(View()), controlBus.CAPACITY),
                    Heard(old(Events()), eventBus.CAPACITY))
                && Events() == old(Events())[|Heard(old(Events()), eventBus.CAPACITY)|..]
    {
      hide BusShared.Valid, BusShared.Queues, BusShared.Parts, NoAwakers, HandledAll, Heard, PostedAll, FromWorkers,
           AllAsked, Wired, Apart;
      PartsExist(controlBus);
      PartsExist(eventBus);
      PartsExist(innerBus);
      var running := CountRunning();
      BusesUndisturbed();
      if shutdown && running == 0 {
        return false;
      }
      ghost var before := View();
      PostAll(false, StatsRequest);
      AskedByPosting(before, controlBus.CAPACITY);
      HandleWaiting();
      going := true;
    }
  }
}
