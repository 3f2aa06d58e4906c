/** What a task is, and what polling a row of tasks until it is dry must yield (src/task.rs, src/task/group.rs). */
module Tasks {
  import opened Options

  datatype Polled<+S, +Out> = Polled(state: S, out: Option<Out>)

  /** A task is an arbitrary state machine, given by its functions.
      `pending` bounds the outputs a state can still yield; only statements about whole drains use it. */
  datatype TaskApi<!S, !Time, !In, !Out> = TaskApi(
    pop: (S, Time) -> Polled<S, Out>,
    isEmpty: S -> bool,
    emptyEvent: S -> Out,
    onTick: (S, Time) -> S,
    onEvent: (S, Time, In) -> S,
    onShutdown: (S, Time) -> S,
    pending: (S, Time) -> nat)

  // Every task yields None after finitely many polls.
  ghost predicate Finite<S(!new), Time, In, Out>(api: TaskApi<S, Time, In, Out>, now: Time) {
    forall s :: api.pop(s, now).out.Some? ==> api.pending(api.pop(s, now).state, now) < api.pending(s, now)
  }

  // The outputs a task yields before its first None, and the state it is left in by that None.
  ghost function Outputs<S(!new), Time, In, Out>(api: TaskApi<S, Time, In, Out>, now: Time, s: S): seq<Out>
    requires Finite(api, now)
    decreases api.pending(s, now)
  {
    var p := api.pop(s, now);
    if p.out.Some? then [p.out.value] + Outputs(api, now, p.state) else []
  }

  ghost function Rest<S(!new), Time, In, Out>(api: TaskApi<S, Time, In, Out>, now: Time, s: S): S
    requires Finite(api, now)
    decreases api.pending(s, now)
  {
    var p := api.pop(s, now);
    if p.out.Some? then Rest(api, now, p.state) else p.state
  }

  // A task with the note whether its emptiness has been reported.
  datatype TaskContainer<+S> = TaskContainer(task: S, isEmpty: bool)

  type Slots<S> = seq<Option<TaskContainer<S>>>

  datatype GroupOutput<+Out> = TaskOutput(index: nat, out: Out) | OnResourceEmpty

  // The task has turned empty and nobody has been told.
  ghost predicate NewlyEmpty<S(!new), Time, In, Out>(api: TaskApi<S, Time, In, Out>, now: Time, c: TaskContainer<S>)
    requires Finite(api, now)
  {
    !c.isEmpty && api.isEmpty(Rest(api, now, c.task))
  }

  /** What one slot contributes to a drain: the task's outputs, then one empty event if it is newly empty.
      A slot that is not removed on its empty event is polled dry a second time. */
  ghost function SlotStream<S(!new), Time, In, Out>(
    api: TaskApi<S, Time, In, Out>, now: Time, removing: bool, c: TaskContainer<S>): seq<Out>
    requires Finite(api, now)
  {
    var rest := Rest(api, now, c.task);
    Outputs(api, now, c.task) +
    if NewlyEmpty(api, now, c) then
      [api.emptyEvent(rest)] + if removing then [] else Outputs(api, now, rest)
    else []
  }

  // What a drain leaves in a slot; a removing caller vacates the slot of a newly empty task.
  ghost function SlotRest<S(!new), Time, In, Out>(
    api: TaskApi<S, Time, In, Out>, now: Time, removing: bool, c: TaskContainer<S>): Option<TaskContainer<S>>
    requires Finite(api, now)
  {
    var rest := Rest(api, now, c.task);
    if !NewlyEmpty(api, now, c) then Some(TaskContainer(rest, api.isEmpty(rest)))
    else if removing then None
    else var last := Rest(api, now, rest); Some(TaskContainer(last, api.isEmpty(last)))
  }

  ghost function Tagged<Out>(index: nat, outs: seq<Out>): (tagged: seq<GroupOutput<Out>>)
    ensures |tagged| == |outs|
  {
    seq(|outs|, k requires 0 <= k < |outs| => TaskOutput(index, outs[k]))
  }

  ghost predicate Flagged<S>(slots: Slots<S>, bits: seq<bool>, i: nat)
    requires |slots| <= |bits|
  {
    i < |slots| && bits[i] && slots[i].Some?
  }

  // The meaning of a drain: flagged occupied slots in ascending order, each contributing its own stream.
  ghost function Stream<S(!new), Time, In, Out>(
    api: TaskApi<S, Time, In, Out>, now: Time, removing: bool, slots: Slots<S>, bits: seq<bool>, from: nat)
    : seq<GroupOutput<Out>>
    requires Finite(api, now) && from <= |slots| <= |bits|
    decreases |slots| - from
  {
    if from == |slots| then []
    else
      (if Flagged(slots, bits, from) then Tagged(from, SlotStream(api, now, removing, slots[from].value)) else [])
      + Stream(api, now, removing, slots, bits, from + 1)
  }

  // The outputs of one slot among all, and nothing else of it.
  function OfSlot<Out>(gs: seq<GroupOutput<Out>>, i: nat): seq<Out> {
    if gs == [] then []
    else (if gs[0].TaskOutput? && gs[0].index == i then [gs[0].out] else []) + OfSlot(gs[1..], i)
  }

  lemma {:induction false} OfSlotConcat<Out>(a: seq<GroupOutput<Out>>, b: seq<GroupOutput<Out>>, i: nat)
    ensures OfSlot(a + b, i) == OfSlot(a, i) + OfSlot(b, i)
  {
    if a == [] {
      assert a + b == b;
    } else {
      assert (a + b)[1..] == a[1..] + b;
      OfSlotConcat(a[1..], b, i);
    }
  }

  lemma {:induction false} OfSlotTagged<Out>(index: nat, outs: seq<Out>, i: nat)
    ensures OfSlot(Tagged(index, outs), i) == if i == index then outs else []
  {
    if outs != [] {
      assert Tagged(index, outs)[1..] == Tagged(index, outs[1..]);
      OfSlotTagged(index, outs[1..], i);
    }
  }

  // Task outputs only, of slots from `from` to `end`, slot after slot.
  ghost predicate SlotAfterSlot<Out>(gs: seq<GroupOutput<Out>>, from: nat, end: nat) {
    (forall k :: 0 <= k < |gs| ==> gs[k].TaskOutput? && from <= gs[k].index < end)
    && (forall j, k :: 0 <= j < k < |gs| ==> gs[j].index <= gs[k].index)
  }

  lemma NoOutputs<Out>(from: nat, i: nat)
    ensures SlotAfterSlot<Out>([], from, from) && OfSlot<Out>([], i) == []
  {
  }

  lemma SlotBeforeSlots<Out>(index: nat, outs: seq<Out>, rest: seq<GroupOutput<Out>>, end: nat)
    requires SlotAfterSlot(rest, index + 1, end) && index < end
    ensures SlotAfterSlot(Tagged(index, outs) + rest, index, end)
  {
  }

  /** A drain hands out each flagged live slot's part, whole and in order, and the slots one after the other; nothing
      else comes out. */
  lemma {:induction false} StreamBySlots<S(!new), Time, In, Out>(
    api: TaskApi<S, Time, In, Out>, now: Time, removing: bool, slots: Slots<S>, bits: seq<bool>, from: nat, i: nat)
    requires Finite(api, now) && from <= |slots| <= |bits|
    ensures SlotAfterSlot(Stream(api, now, removing, slots, bits, from), from, |slots|)
    ensures OfSlot(Stream(api, now, removing, slots, bits, from), i)
         == if from <= i < |slots| && bits[i] && slots[i].Some? then SlotStream(api, now, removing, slots[i].value)
            else []
    decreases |slots| - from
  {
    hide SlotStream, SlotAfterSlot, OfSlot;
    if from == |slots| {
      NoOutputs<Out>(from, i);
    } else {
      StreamBySlots(api, now, removing, slots, bits, from + 1, i);
      var rest := Stream(api, now, removing, slots, bits, from + 1);
      var part := if Flagged(slots, bits, from) then SlotStream(api, now, removing, slots[from].value) else [];
      assert Stream(api, now, removing, slots, bits, from) == Tagged(from, part) + rest;
      SlotBeforeSlots(from, part, rest, |slots|);
      OfSlotConcat(Tagged(from, part), rest, i);
      OfSlotTagged(from, part, i);
    }
  }

  // What a drain leaves behind, slot by slot.
  ghost function Settled<S(!new), Time, In, Out>(
    api: TaskApi<S, Time, In, Out>, now: Time, removing: bool, slots: Slots<S>, bits: seq<bool>): (r: Slots<S>)
    requires Finite(api, now) && |slots| <= |bits|
    ensures |r| == |slots|
  {
    seq(|slots|, i requires 0 <= i < |slots| =>
      if Flagged(slots, bits, i) then SlotRest(api, now, removing, slots[i].value) else slots[i])
  }

  // Vacant slots at the end are dropped, so live indices never move.
  function Trim<S>(slots: Slots<S>): (r: Slots<S>)
    ensures r <= slots
    ensures r != [] ==> r[|r| - 1].Some?
    ensures forall i :: |r| <= i < |slots| ==> slots[i].None?
  {
    if slots != [] && slots[|slots| - 1].None? then Trim(slots[..|slots| - 1]) else slots
  }

  function Vacated<S>(slots: Slots<S>, index: nat): Slots<S>
    requires index < |slots|
  {
    Trim(slots[index := None])
  }

  // The bits a drain has taken down.
  ghost predicate Quiet<S>(slots: Slots<S>, bits: seq<bool>)
    requires |slots| <= |bits|
  {
    forall i :: 0 <= i < |slots| ==> !bits[i]
  }

  lemma {:induction false} StreamSkip<S(!new), Time, In, Out>(
    api: TaskApi<S, Time, In, Out>, now: Time, removing: bool, slots: Slots<S>, bits: seq<bool>, from: nat, to: nat)
    requires Finite(api, now) && from <= to <= |slots| <= |bits|
    requires forall i :: from <= i < to ==> !Flagged(slots, bits, i)
    ensures Stream(api, now, removing, slots, bits, from) == Stream(api, now, removing, slots, bits, to)
    decreases |slots| - from
  {
    if from < to {
      StreamSkip(api, now, removing, slots, bits, from + 1, to);
    }
  }

  lemma QuietStream<S(!new), Time, In, Out>(
    api: TaskApi<S, Time, In, Out>, now: Time, removing: bool, slots: Slots<S>, bits: seq<bool>)
    requires Finite(api, now) && |slots| <= |bits| && Quiet(slots, bits)
    ensures Stream(api, now, removing, slots, bits, 0) == []
    ensures Settled(api, now, removing, slots, bits) == slots
  {
    StreamSkip(api, now, removing, slots, bits, 0, |slots|);
  }

  lemma {:induction false} StreamFrame<S(!new), Time, In, Out>(
    api: TaskApi<S, Time, In, Out>, now: Time, removing: bool,
    slots: Slots<S>, bits: seq<bool>, slots': Slots<S>, bits': seq<bool>, from: nat)
    requires Finite(api, now) && from <= |slots| == |slots'| && |slots| <= |bits| && |slots'| <= |bits'|
    requires forall i :: from <= i < |slots| ==> slots[i] == slots'[i] && bits[i] == bits'[i]
    ensures Stream(api, now, removing, slots, bits, from) == Stream(api, now, removing, slots', bits', from)
    decreases |slots| - from
  {
    if from < |slots| {
      StreamFrame(api, now, removing, slots, bits, slots', bits', from + 1);
    }
  }

  // The stream seen from the least flagged slot.
  lemma StreamAt<S(!new), Time, In, Out>(
    api: TaskApi<S, Time, In, Out>, now: Time, removing: bool, slots: Slots<S>, bits: seq<bool>, at: nat)
    requires Finite(api, now) && at < |slots| <= |bits|
    requires forall i :: 0 <= i < at ==> !Flagged(slots, bits, i)
    ensures Stream(api, now, removing, slots, bits, 0)
         == (if Flagged(slots, bits, at) then Tagged(at, SlotStream(api, now, removing, slots[at].value)) else [])
            + Stream(api, now, removing, slots, bits, at + 1)
  {
    StreamSkip(api, now, removing, slots, bits, 0, at);
  }

  // Both readings of a drain, by what is still to come and by what will be left, agree on two states.
  ghost predicate SameDrain<S(!new), Time, In, Out>(
    api: TaskApi<S, Time, In, Out>, now: Time, removing: bool,
    slots: Slots<S>, bits: seq<bool>, slots': Slots<S>, bits': seq<bool>)
    requires Finite(api, now) && |slots| <= |bits| && |slots'| <= |bits'|
  {
    Stream(api, now, removing, slots, bits, 0) == Stream(api, now, removing, slots', bits', 0)
    && Settled(api, now, removing, slots, bits) == Settled(api, now, removing, slots', bits')
  }

  // Handing out `out` takes it off the front of the stream and changes nothing else about the drain.
  ghost predicate Consumes<S(!new), Time, In, Out>(
    api: TaskApi<S, Time, In, Out>, now: Time, removing: bool,
    slots: Slots<S>, bits: seq<bool>, out: GroupOutput<Out>, slots': Slots<S>, bits': seq<bool>)
    requires Finite(api, now) && |slots| <= |bits| && |slots'| <= |bits'|
  {
    Stream(api, now, removing, slots, bits, 0) == [out] + Stream(api, now, removing, slots', bits', 0)
    && Trim(Settled(api, now, removing, slots, bits)) == Trim(Settled(api, now, removing, slots', bits'))
  }

  // The slot's container turned from unreported to reported.
  predicate Reported<S>(slots: Slots<S>, slots': Slots<S>, i: nat) {
    i < |slots| && i < |slots'| && slots[i].Some? && slots'[i].Some?
    && !slots[i].value.isEmpty && slots'[i].value.isEmpty
  }

  ghost function Contribution<S(!new), Time, In, Out>(
    api: TaskApi<S, Time, In, Out>, now: Time, removing: bool, slot: Option<TaskContainer<S>>): seq<Out>
    requires Finite(api, now)
  {
    if slot.Some? then SlotStream(api, now, removing, slot.value) else []
  }

  ghost function Residue<S(!new), Time, In, Out>(
    api: TaskApi<S, Time, In, Out>, now: Time, removing: bool, slot: Option<TaskContainer<S>>): Option<TaskContainer<S>>
    requires Finite(api, now)
  {
    if slot.Some? then SlotRest(api, now, removing, slot.value) else None
  }

  // A drain, cut at the least flagged slot.
  lemma StreamAtFlag<S(!new), Time, In, Out>(
    api: TaskApi<S, Time, In, Out>, now: Time, removing: bool, slots: Slots<S>, bits: seq<bool>, at: nat)
    requires Finite(api, now) && at < |slots| <= |bits| && bits[at]
    requires forall i :: 0 <= i < at ==> !bits[i]
    ensures Stream(api, now, removing, slots, bits, 0)
         == Tagged(at, Contribution(api, now, removing, slots[at])) + Stream(api, now, removing, slots, bits, at + 1)
  {
    StreamAt(api, now, removing, slots, bits, at);
    assert Tagged<Out>(at, []) == [];
  }

  lemma TaggedConcat<Out>(i: nat, a: seq<Out>, b: seq<Out>)
    ensures Tagged(i, a + b) == Tagged(i, a) + Tagged(i, b)
  {
  }

  // A step of the least flagged slot that hands out `outs` moves the whole drain by exactly `outs`.
  lemma SlotStep<S(!new), Time, In, Out>(
    api: TaskApi<S, Time, In, Out>, now: Time, removing: bool,
    slots: Slots<S>, bits: seq<bool>, i: nat, outs: seq<Out>, slot': Option<TaskContainer<S>>)
    requires Finite(api, now) && i < |slots| <= |bits| && bits[i]
    requires forall j :: 0 <= j < i ==> !bits[j]
    requires Contribution(api, now, removing, slots[i]) == outs + Contribution(api, now, removing, slot')
    ensures Stream(api, now, removing, slots, bits, 0)
         == Tagged(i, outs) + Stream(api, now, removing, slots[i := slot'], bits, 0)
  {
    hide Stream, Contribution, Tagged;
    var slots' := slots[i := slot'];
    var rest := Contribution(api, now, removing, slot');
    var tail := Stream(api, now, removing, slots, bits, i + 1);
    StreamAtFlag(api, now, removing, slots, bits, i);
    StreamAtFlag(api, now, removing, slots', bits, i);
    StreamFrame(api, now, removing, slots, bits, slots', bits, i + 1);
    TaggedConcat(i, outs, rest);
    assert (Tagged(i, outs) + Tagged(i, rest)) + tail == Tagged(i, outs) + (Tagged(i, rest) + tail);
  }

  lemma SlotSettles<S(!new), Time, In, Out>(
    api: TaskApi<S, Time, In, Out>, now: Time, removing: bool,
    slots: Slots<S>, bits: seq<bool>, i: nat, slot': Option<TaskContainer<S>>)
    requires Finite(api, now) && i < |slots| <= |bits| && bits[i]
    requires Residue(api, now, removing, slots[i]) == Residue(api, now, removing, slot')
    ensures Settled(api, now, removing, slots, bits) == Settled(api, now, removing, slots[i := slot'], bits)
  {
  }

  // Taking down the flag of a slot with nothing left to say.
  lemma FinishSilently<S(!new), Time, In, Out>(
    api: TaskApi<S, Time, In, Out>, now: Time, removing: bool,
    slots: Slots<S>, bits: seq<bool>, i: nat, slot': Option<TaskContainer<S>>)
    requires Finite(api, now) && i < |slots| <= |bits| && bits[i]
    requires forall j :: 0 <= j < i ==> !bits[j]
    requires slots[i].None? ==> slot'.None?
    requires slots[i].Some? ==>
               var p := api.pop(slots[i].value.task, now);
               p.out.None? && (slots[i].value.isEmpty || !api.isEmpty(p.state))
               && slot' == Some(TaskContainer(p.state, api.isEmpty(p.state)))
    ensures SameDrain(api, now, removing, slots, bits, slots[i := slot'], bits[i := false])
  {
    var slots', bits' := slots[i := slot'], bits[i := false];
    StreamAt(api, now, removing, slots, bits, i);
    StreamAt(api, now, removing, slots', bits', i);
    StreamFrame(api, now, removing, slots, bits, slots', bits', i + 1);
    assert Contribution(api, now, removing, slots[i]) == [];
    assert Residue(api, now, removing, slots[i]) == slot';
    assert Settled(api, now, removing, slots, bits) == Settled(api, now, removing, slots', bits');
  }

  // One output of the task in the least flagged slot.
  lemma HandOutOutput<S(!new), Time, In, Out>(
    api: TaskApi<S, Time, In, Out>, now: Time, removing: bool, slots: Slots<S>, bits: seq<bool>, i: nat)
    requires Finite(api, now) && i < |slots| <= |bits| && bits[i] && slots[i].Some?
    requires forall j :: 0 <= j < i ==> !bits[j]
    requires api.pop(slots[i].value.task, now).out.Some?
    ensures var p := api.pop(slots[i].value.task, now);
            Consumes(api, now, removing, slots, bits, TaskOutput(i, p.out.value),
                     slots[i := Some(TaskContainer(p.state, slots[i].value.isEmpty))], bits)
  {
    var p := api.pop(slots[i].value.task, now);
    var slot' := Some(TaskContainer(p.state, slots[i].value.isEmpty));
    assert SlotStream(api, now, removing, slots[i].value)
        == [p.out.value] + SlotStream(api, now, removing, slot'.value);
    SlotStep(api, now, removing, slots, bits, i, [p.out.value], slot');
    SlotSettles(api, now, removing, slots, bits, i, slot');
    assert Tagged(i, [p.out.value]) == [TaskOutput(i, p.out.value)];
  }

  // The empty event, when the caller leaves the slot alone and when it vacates it.
  lemma HandOutEmptyEvent<S(!new), Time, In, Out>(
    api: TaskApi<S, Time, In, Out>, now: Time, removing: bool, slots: Slots<S>, bits: seq<bool>, i: nat)
    requires Finite(api, now) && i < |slots| <= |bits| && bits[i] && slots[i].Some?
    requires forall j :: 0 <= j < i ==> !bits[j]
    requires var p := api.pop(slots[i].value.task, now);
             p.out.None? && !slots[i].value.isEmpty && api.isEmpty(p.state)
    ensures var p := api.pop(slots[i].value.task, now);
            Consumes(api, now, removing, slots, bits, TaskOutput(i, api.emptyEvent(p.state)),
                     slots[i := if removing then None else Some(TaskContainer(p.state, true))], bits)
  {
    var p := api.pop(slots[i].value.task, now);
    var out := api.emptyEvent(p.state);
    var slot' := if removing then None else Some(TaskContainer(p.state, true));
    assert Contribution(api, now, removing, slots[i]) == [out] + Contribution(api, now, removing, slot');
    SlotStep(api, now, removing, slots, bits, i, [out], slot');
    SlotSettles(api, now, removing, slots, bits, i, slot');
    assert Tagged(i, [out]) == [TaskOutput(i, out)];
  }

  lemma {:induction false} StreamTail<S(!new), Time, In, Out>(
    api: TaskApi<S, Time, In, Out>, now: Time, removing: bool, slots: Slots<S>, bits: seq<bool>, from: nat)
    requires Finite(api, now) && from < |slots| <= |bits| && slots[|slots| - 1].None?
    ensures Stream(api, now, removing, slots, bits, from)
            == Stream(api, now, removing, slots[..|slots| - 1], bits, from)
    decreases |slots| - from
  {
    if from < |slots| - 1 {
      StreamTail(api, now, removing, slots, bits, from + 1);
    }
  }

  // Dropping vacant slots at the end does not touch the drain.
  lemma {:induction false} TrimSameDrain<S(!new), Time, In, Out>(
    api: TaskApi<S, Time, In, Out>, now: Time, removing: bool, slots: Slots<S>, bits: seq<bool>)
    requires Finite(api, now) && |slots| <= |bits|
    ensures Stream(api, now, removing, slots, bits, 0) == Stream(api, now, removing, Trim(slots), bits, 0)
    ensures Trim(Settled(api, now, removing, slots, bits)) == Trim(Settled(api, now, removing, Trim(slots), bits))
  {
    if slots != [] && slots[|slots| - 1].None? {
      var slots' := slots[..|slots| - 1];
      StreamTail(api, now, removing, slots, bits, 0);
      var a, b := Settled(api, now, removing, slots, bits), Settled(api, now, removing, slots', bits);
      assert a == b + [None];
      assert Trim(a) == Trim(a[..|a| - 1]);
      TrimSameDrain(api, now, removing, slots', bits);
    }
  }
}
