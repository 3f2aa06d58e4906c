/** The slot allocator of tasks and its drain loop (src/task/group.rs). */
module TaskGroups {
  import opened Options
  import opened DynamicVecs
  import opened TaskSwitchers
  import opened Tasks

  // Indices of the occupied slots.
  ghost function Live<S>(slots: Slots<S>): (live: set<nat>)
    ensures forall i :: i in live <==> 0 <= i < |slots| && slots[i].Some?
  {
    set i: nat | i < |slots| && slots[i].Some?
  }

  // Indices of the occupied slots whose emptiness has been reported.
  ghost function Marked<S>(slots: Slots<S>): (marked: set<nat>)
    ensures forall i :: i in marked <==> 0 <= i < |slots| && slots[i].Some? && slots[i].value.isEmpty
    ensures marked <= Live(slots)
  {
    set i: nat | i < |slots| && slots[i].Some? && slots[i].value.isEmpty
  }

  ghost predicate AllMarked<S>(slots: Slots<S>) {
    forall i :: i in Live(slots) ==> slots[i].value.isEmpty
  }

  lemma SubsetCardinality(a: set<nat>, b: set<nat>)
    requires a <= b
    ensures |a| <= |b|
    ensures |a| == |b| <==> a == b
  {
    assert b == a + (b - a);
    assert |b| == |a| + |b - a|;
  }

  // Counting decides emptiness: the marked slots are as many as the live ones exactly when they are the live ones.
  lemma CountingEmptiness<S>(slots: Slots<S>)
    ensures |Marked(slots)| == |Live(slots)| <==> AllMarked(slots)
  {
    SubsetCardinality(Marked(slots), Live(slots));
    if Marked(slots) == Live(slots) {
      assert forall i :: i in Live(slots) ==> i in Marked(slots);
    } else {
      var i :| i in Live(slots) && i !in Marked(slots);
    }
  }

  lemma TrimKeepsSlots<S>(slots: Slots<S>)
    ensures Live(Trim(slots)) == Live(slots)
    ensures Marked(Trim(slots)) == Marked(slots)
  {
    var t := Trim(slots);
    assert forall i :: 0 <= i < |t| ==> t[i] == slots[i];
  }

  lemma FillCounts<S>(slots: Slots<S>, i: nat, task: S)
    requires i < |slots| && slots[i].None?
    ensures |Live(slots[i := Some(TaskContainer(task, false))])| == |Live(slots)| + 1
    ensures Marked(slots[i := Some(TaskContainer(task, false))]) == Marked(slots)
  {
    assert Live(slots[i := Some(TaskContainer(task, false))]) == Live(slots) + {i};
  }

  lemma AppendCounts<S>(slots: Slots<S>, task: S)
    ensures |Live(slots + [Some(TaskContainer(task, false))])| == |Live(slots)| + 1
    ensures Marked(slots + [Some(TaskContainer(task, false))]) == Marked(slots)
  {
    assert Live(slots + [Some(TaskContainer(task, false))]) == Live(slots) + {|slots|};
  }

  lemma VacateCounts<S>(slots: Slots<S>, i: nat)
    requires i < |slots| && slots[i].Some?
    ensures |Live(Vacated(slots, i))| == |Live(slots)| - 1
    ensures Marked(Vacated(slots, i)) == Marked(slots) - {i}
  {
    TrimKeepsSlots(slots[i := None]);
    assert Live(slots[i := None]) == Live(slots) - {i};
    assert Marked(slots[i := None]) == Marked(slots) - {i};
  }

  lemma WrongCounts<S>(slots: Slots<S>, i: nat, task: S)
    requires i < |slots|
    ensures slots[i].Some? ==> |Live(slots[i := Some(TaskContainer(task, false))])| == |Live(slots)|
    ensures slots[i].None? ==> |Live(Vacated(slots, i))| == |Live(slots)|
  {
    assert slots[i].Some? ==> Live(slots[i := Some(TaskContainer(task, false))]) == Live(slots);
    if slots[i].None? {
      assert slots[i := None] == slots;
      TrimKeepsSlots(slots);
    }
  }

  // Vacant slots added at the end until the row has n of them.
  function Padded<S>(slots: Slots<S>, n: nat): (r: Slots<S>)
    ensures slots <= r && |r| == if n > |slots| then n else |slots|
    ensures forall i :: |slots| <= i < |r| ==> r[i].None?
  {
    if n > |slots| then slots + seq(n - |slots|, _ => None) else slots
  }

  lemma PadCounts<S>(slots: Slots<S>, n: nat)
    ensures Live(Padded(slots, n)) == Live(slots)
    ensures Marked(Padded(slots, n)) == Marked(slots)
  {
    assert forall i :: 0 <= i < |slots| ==> Padded(slots, n)[i] == slots[i];
  }

  function Placed<S>(slots: Slots<S>, index: nat, task: S): (r: Slots<S>)
    ensures |r| > index
  {
    Padded(slots, index + 1)[index := Some(TaskContainer(task, false))]
  }

  predicate VacantAt<S>(slots: Slots<S>, index: nat) {
    index >= |slots| || slots[index].None?
  }

  lemma PlacementCounts<S>(slots: Slots<S>, index: nat, task: S)
    requires slots != [] ==> slots[|slots| - 1].Some?
    ensures var r := Placed(slots, index, task);
            r[|r| - 1].Some?
            && |Live(r)| == |Live(slots)| + (if VacantAt(slots, index) then 1 else 0)
            && (VacantAt(slots, index) ==> Marked(r) == Marked(slots))
  {
    var padded := Padded(slots, index + 1);
    PadCounts(slots, index + 1);
    if VacantAt(slots, index) {
      FillCounts(padded, index, task);
    } else {
      WrongCounts(slots, index, task);
    }
  }

  // The same state change applied to every task, in place.
  function MapTasks<S>(slots: Slots<S>, f: S -> S): (r: Slots<S>)
    ensures |r| == |slots|
  {
    seq(|slots|, i requires 0 <= i < |slots| =>
      if slots[i].Some? then Some(TaskContainer(f(slots[i].value.task), slots[i].value.isEmpty)) else None)
  }

  // One poll of a group, read as a step of its drain.
  ghost predicate Polls<S(!new), Time, In, Out>(
    api: TaskApi<S, Time, In, Out>, now: Time,
    slots: Slots<S>, bits: seq<bool>, out: Option<GroupOutput<Out>>, slots': Slots<S>, bits': seq<bool>)
    requires Finite(api, now) && |slots| <= |bits| && |slots'| <= |bits'|
  {
    match out
    case None =>
      Quiet(slots', bits')
      && (forall removing :: Stream(api, now, removing, slots, bits, 0) == []
                             && slots' == Settled(api, now, removing, slots, bits))
    case Some(OnResourceEmpty) => false
    case Some(o) =>
      o.index < |slots'| && slots'[o.index].Some?
      && Consumes(api, now, false, slots, bits, o, slots', bits')
      && if Reported(slots, slots', o.index) then
           o.out == api.emptyEvent(slots'[o.index].value.task)
           && Consumes(api, now, true, slots, bits, o, Vacated(slots', o.index), bits')
         else
           (exists s :: api.pop(s, now).out == Some(o.out))
           && Consumes(api, now, true, slots, bits, o, slots', bits')
  }

  lemma MarkCounts<S>(slots: Slots<S>, i: nat, c: TaskContainer<S>)
    requires i < |slots| && slots[i].Some?
    ensures Live(slots[i := Some(c)]) == Live(slots)
    ensures Marked(slots[i := Some(c)]) == if c.isEmpty then Marked(slots) + {i} else Marked(slots) - {i}
  {
  }

  ghost predicate SameDrains<S(!new), Time, In, Out>(
    api: TaskApi<S, Time, In, Out>, now: Time, slots: Slots<S>, bits: seq<bool>, slots': Slots<S>, bits': seq<bool>)
    requires Finite(api, now) && |slots| <= |bits| && |slots'| <= |bits'|
  {
    SameDrain(api, now, false, slots, bits, slots', bits') && SameDrain(api, now, true, slots, bits, slots', bits')
  }

  // The poll runs dry on a task that is empty, and nobody has been told.
  predicate TurnsEmpty<S, Time, In, Out>(api: TaskApi<S, Time, In, Out>, now: Time, c: TaskContainer<S>) {
    var p := api.pop(c.task, now);
    p.out.None? && !c.isEmpty && api.isEmpty(p.state)
  }

  // One poll of one task: what it hands out, and the container it leaves.
  function PolledOnce<S, Time, In, Out>(api: TaskApi<S, Time, In, Out>, now: Time, c: TaskContainer<S>)
    : (Option<Out>, TaskContainer<S>)
  {
    var p := api.pop(c.task, now);
    if p.out.Some? then (p.out, TaskContainer(p.state, c.isEmpty))
    else
      (if TurnsEmpty(api, now, c) then Some(api.emptyEvent(p.state)) else None,
       TaskContainer(p.state, api.isEmpty(p.state)))
  }

  // The same poll seen from the group: it concerns slot i and its flag only.
  ghost predicate PollStep<S, Time, In, Out>(
    api: TaskApi<S, Time, In, Out>, now: Time, slots: Slots<S>, bits: seq<bool>, i: nat,
    out: Option<GroupOutput<Out>>, slots': Slots<S>, bits': seq<bool>)
    requires i < |slots| <= |bits| && slots[i].Some?
  {
    var (polled, c) := PolledOnce(api, now, slots[i].value);
    out == (if polled.Some? then Some(TaskOutput(i, polled.value)) else None)
    && slots' == slots[i := Some(c)]
    && bits' == bits[i := bits[i] && out.Some?]
  }

  lemma PollStepFrame<S, Time, In, Out>(
    api: TaskApi<S, Time, In, Out>, now: Time, slots: Slots<S>, bits: seq<bool>, i: nat,
    out: Option<GroupOutput<Out>>, slots': Slots<S>, bits': seq<bool>)
    requires i < |slots| <= |bits| && bits[i] && slots[i].Some?
    requires PollStep(api, now, slots, bits, i, out, slots', bits')
    ensures |slots'| == |slots| && |bits'| == |bits|
    ensures forall j :: 0 <= j < |slots| && j != i ==> slots'[j] == slots[j] && bits'[j] == bits[j]
    ensures bits'[i] == out.Some? && (out.Some? ==> out.value.TaskOutput? && out.value.index == i)
  {
  }

  lemma SilentPoll<S(!new), Time, In, Out>(
    api: TaskApi<S, Time, In, Out>, now: Time, slots: Slots<S>, bits: seq<bool>, i: nat,
    slots': Slots<S>, bits': seq<bool>)
    requires Finite(api, now) && i < |slots| <= |bits| && bits[i] && slots[i].Some?
    requires forall j :: 0 <= j < i ==> !bits[j]
    requires PollStep(api, now, slots, bits, i, None, slots', bits')
    ensures SameDrains(api, now, slots, bits, slots', bits')
  {
    FinishSilently(api, now, false, slots, bits, i, slots'[i]);
    FinishSilently(api, now, true, slots, bits, i, slots'[i]);
  }

  lemma VacantPoll<S(!new), Time, In, Out>(
    api: TaskApi<S, Time, In, Out>, now: Time, slots: Slots<S>, bits: seq<bool>, i: nat)
    requires Finite(api, now) && i < |slots| <= |bits| && bits[i] && slots[i].None?
    requires forall j :: 0 <= j < i ==> !bits[j]
    ensures SameDrains(api, now, slots, bits, slots, bits[i := false])
  {
    assert slots[i := None] == slots;
    FinishSilently(api, now, false, slots, bits, i, None);
    FinishSilently(api, now, true, slots, bits, i, None);
  }

  lemma VisiblePoll<S(!new), Time, In, Out>(
    api: TaskApi<S, Time, In, Out>, now: Time, slots: Slots<S>, bits: seq<bool>, i: nat,
    out: GroupOutput<Out>, slots': Slots<S>, bits': seq<bool>)
    requires Finite(api, now) && i < |slots| <= |bits| && bits[i] && slots[i].Some?
    requires forall j :: 0 <= j < i ==> !bits[j]
    requires PollStep(api, now, slots, bits, i, Some(out), slots', bits')
    ensures Polls(api, now, slots, bits, Some(out), slots', bits')
  {
    assert bits' == bits;
    var p := api.pop(slots[i].value.task, now);
    if p.out.Some? {
      HandOutOutput(api, now, false, slots, bits, i);
      HandOutOutput(api, now, true, slots, bits, i);
    } else {
      HandOutEmptyEvent(api, now, false, slots, bits, i);
      HandOutEmptyEvent(api, now, true, slots, bits, i);
      assert slots'[i := None] == slots[i := None];
      TrimSameDrain(api, now, true, slots[i := None], bits);
    }
  }

  // What has happened so far, for finite tasks, has not moved the drain.
  ghost predicate Delays<S(!new), Time, In, Out>(
    api: TaskApi<S, Time, In, Out>, now: Time, slots: Slots<S>, bits: seq<bool>, slots': Slots<S>, bits': seq<bool>)
    requires |slots| <= |bits| && |slots'| <= |bits'|
  {
    Finite(api, now) ==> SameDrains(api, now, slots, bits, slots', bits')
  }

  // What a poll is, for finite tasks.
  ghost predicate Answers<S(!new), Time, In, Out>(
    api: TaskApi<S, Time, In, Out>, now: Time,
    slots: Slots<S>, bits: seq<bool>, out: Option<GroupOutput<Out>>, slots': Slots<S>, bits': seq<bool>)
    requires |slots| <= |bits| && |slots'| <= |bits'|
  {
    Finite(api, now) ==> Polls(api, now, slots, bits, out, slots', bits')
  }

  lemma DelaysNothing<S(!new), Time, In, Out>(
    api: TaskApi<S, Time, In, Out>, now: Time, slots: Slots<S>, bits: seq<bool>)
    requires |slots| <= |bits|
    ensures Delays(api, now, slots, bits, slots, bits)
  {
  }

  lemma DelaysChain<S(!new), Time, In, Out>(
    api: TaskApi<S, Time, In, Out>, now: Time, slots0: Slots<S>, bits0: seq<bool>, slots: Slots<S>, bits: seq<bool>,
    slots': Slots<S>, bits': seq<bool>)
    requires |slots0| <= |bits0| && |slots| <= |bits| && |slots'| <= |bits'|
    requires Delays(api, now, slots0, bits0, slots, bits) && Delays(api, now, slots, bits, slots', bits')
    ensures Delays(api, now, slots0, bits0, slots', bits')
  {
  }

  // Flags only go down, and a slot whose flag is still up has not been touched.
  ghost predicate Untouched<S>(slots: Slots<S>, bits: seq<bool>, slots': Slots<S>, bits': seq<bool>)
    requires |slots| <= |bits|
  {
    |slots'| == |slots| && |bits'| == |bits| && Live(slots') == Live(slots)
    && forall i :: 0 <= i < |slots| && bits'[i] ==> bits[i] && slots'[i] == slots[i]
  }

  lemma UntouchedChain<S>(
    slots0: Slots<S>, bits0: seq<bool>, slots: Slots<S>, bits: seq<bool>, slots': Slots<S>, bits': seq<bool>)
    requires |slots0| <= |bits0| && |slots| <= |bits|
    ensures Untouched(slots0, bits0, slots0, bits0)
    ensures Untouched(slots0, bits0, slots, bits) && Untouched(slots, bits, slots', bits')
            ==> Untouched(slots0, bits0, slots', bits')
  {
  }

  lemma UntouchedSizes<S>(slots0: Slots<S>, bits0: seq<bool>, slots: Slots<S>, bits: seq<bool>)
    requires |slots0| <= |bits0| && Untouched(slots0, bits0, slots, bits)
    ensures |slots| == |slots0| && |bits| == |bits0| && Live(slots) == Live(slots0)
  {
  }

  lemma UntouchedUntil<S>(
    slots0: Slots<S>, bits0: seq<bool>, slots: Slots<S>, bits: seq<bool>, i: nat, slots': Slots<S>, bits': seq<bool>)
    requires |slots0| <= |bits0| && |slots| <= |bits| && i < |slots| && bits[i] && slots[i].Some?
    requires Untouched(slots0, bits0, slots, bits)
    requires |slots'| == |slots| && |bits'| == |bits| && Live(slots') == Live(slots)
    ensures Flagged(slots0, bits0, i) && slots0[i] == slots[i]
    ensures |slots'| == |slots0| && |bits'| == |bits0| && Live(slots') == Live(slots0)
  {
  }

  // With every flag down nothing is left of the drain.
  lemma QuietPoll<S(!new), Time, In, Out>(
    api: TaskApi<S, Time, In, Out>, now: Time, slots0: Slots<S>, bits0: seq<bool>, slots: Slots<S>, bits: seq<bool>)
    requires |slots0| <= |bits0| && |slots| <= |bits|
    requires Delays(api, now, slots0, bits0, slots, bits) && Quiet(slots, bits)
    ensures Answers(api, now, slots0, bits0, None, slots, bits)
  {
    if Finite(api, now) {
      forall removing
        ensures Stream(api, now, removing, slots0, bits0, 0) == []
        ensures slots == Settled(api, now, removing, slots0, bits0)
      {
        QuietStream(api, now, removing, slots, bits);
        assert SameDrain(api, now, removing, slots0, bits0, slots, bits);
      }
    }
  }

  // A poll that was delayed by silent ones.
  lemma DelayedPoll<S(!new), Time, In, Out>(
    api: TaskApi<S, Time, In, Out>, now: Time, slots0: Slots<S>, bits0: seq<bool>, slots: Slots<S>, bits: seq<bool>,
    out: GroupOutput<Out>, slots': Slots<S>, bits': seq<bool>)
    requires |slots0| <= |bits0| && |slots| <= |bits| && |slots'| <= |bits'|
    requires Delays(api, now, slots0, bits0, slots, bits) && Answers(api, now, slots, bits, Some(out), slots', bits')
    requires out.TaskOutput? && out.index < |slots0| == |slots| && slots0[out.index] == slots[out.index]
    ensures Answers(api, now, slots0, bits0, Some(out), slots', bits')
  {
  }

  class TaskGroup<S(!new), Time, In, Out> {
    const api: TaskApi<S, Time, In, Out>
    const tasks: DynamicVec<Option<TaskContainer<S>>>
    const switcher: TaskSwitcher
    var tasksCount: nat
    var emptyTasks: set<nat>

    // The objects a group is made of; they never change.
    ghost function Repr(): set<object> {
      {this, tasks, switcher, switcher.bits}
    }

    // The slots and the switcher, before asking whether count and marks agree with them.
    ghost predicate Shaped()
      reads Repr()
    {
      tasks.Valid() && switcher.Valid() && switcher.Tasks() == |tasks.Contents()|
    }

    /** The representation invariant: four redundant views of the slots agree, and the last slot is occupied. */
    ghost predicate Valid()
      reads Repr()
      ensures Valid() ==> Shaped() && |Slots()| <= |Bits()|
    {
      Shaped()
      && tasksCount == |Live(Slots())|
      && emptyTasks == Marked(Slots())
      && (Slots() != [] ==> Slots()[|Slots()| - 1].Some?)
    }

    ghost function Slots(): Slots<S>
      reads tasks
    {
      tasks.Contents()
    }

    ghost function Bits(): seq<bool>
      reads switcher.bits
    {
      switcher.Bits()
    }

    constructor (api: TaskApi<S, Time, In, Out>, stackSize: nat)
      ensures Valid() && fresh(Repr()) && this.api == api
      ensures Slots() == []
    {
      this.api := api;
      tasks := new DynamicVec(stackSize);
      switcher := new TaskSwitcher(0);
      tasksCount, emptyTasks := 0, {};
    }

    method FillSlot(i: nat, task: S)
      requires Valid() && i < |Slots()| && Slots()[i].None?
      modifies this`tasksCount, tasks
      ensures Valid() && Slots() == old(Slots())[i := Some(TaskContainer(task, false))] && Bits() == old(Bits())
    {
      FillCounts(Slots(), i, task);
      hide Live, Marked;
      tasks.Set(i, Some(TaskContainer(task, false)));
      tasksCount := tasksCount + 1;
    }

    method AppendSlot(task: S)
      requires Valid()
      modifies this`tasksCount, tasks, switcher.bits
      ensures Valid() && Slots() == old(Slots()) + [Some(TaskContainer(task, false))]
      ensures old(Bits()) <= Bits() && forall i :: |old(Bits())| <= i < |Bits()| ==> !Bits()[i]
    {
      AppendCounts(Slots(), task);
      hide Live, Marked;
      tasks.Push(Some(TaskContainer(task, false)));
      var n := tasks.Len();
      switcher.SetTasks(n);
      tasksCount := tasksCount + 1;
    }

    // The first vacant slot, or a new one at the end. The new task's flag is left as it is.
    method AddTask(task: S) returns (index: nat)
      requires Valid()
      modifies Repr()
      ensures Valid()
      ensures index <= |old(Slots())|
      ensures forall i :: 0 <= i < index ==> old(Slots())[i].Some?
      ensures Slots() == if index < |old(Slots())| then old(Slots())[index := Some(TaskContainer(task, false))]
                         else old(Slots()) + [Some(TaskContainer(task, false))]
      ensures index < |old(Slots())| ==> old(Slots())[index].None? && Bits() == old(Bits())
      ensures old(Bits()) <= Bits() && forall i :: |old(Bits())| <= i < |Bits()| ==> !Bits()[i]
    {
      hide Live, Marked;
      var n := tasks.Len();
      for i := 0 to n
        invariant Valid() && n == |Slots()| && Slots() == old(Slots()) && Bits() == old(Bits())
        invariant forall j :: 0 <= j < i ==> Slots()[j].Some?
      {
        var slot := tasks.Get(i);
        if slot.value.None? {
          FillSlot(i, task);
          return i;
        }
      }
      AppendSlot(task);
      index := n;
    }

    method PadTo(n: nat)
      requires tasks.Valid()
      modifies tasks
      ensures tasks.Valid() && Slots() == Padded(old(Slots()), n)
    {
      var len := tasks.Len();
      while len < n
        invariant tasks.Valid() && len == |Slots()|
        invariant Slots() == Padded(old(Slots()), len)
        invariant len <= n || len == |old(Slots())|
      {
        tasks.Push(None);
        len := len + 1;
      }
    }

    // The count goes up whatever the slot held, so the group stays consistent exactly when the slot was vacant.
    method SetTask(index: nat, task: S) returns (last: nat)
      requires Valid()
      modifies Repr()
      ensures Shaped()
      ensures Slots() == Placed(old(Slots()), index, task)
      ensures Valid() <==> VacantAt(old(Slots()), index)
      ensures last == |Slots()| - 1
      ensures old(Bits()) <= Bits() && forall i :: |old(Bits())| <= i < |Bits()| ==> !Bits()[i]
    {
      hide Live, Marked, Padded;
      PadTo(index + 1);
      tasks.Set(index, Some(TaskContainer(task, false)));
      var n := tasks.Len();
      switcher.SetTasks(n);
      tasksCount := tasksCount + 1;
      last := n - 1;

      PlacementCounts(old(Slots()), index, task);
    }

    method DropVacantTail()
      requires tasks.Valid()
      modifies tasks
      ensures tasks.Valid() && Slots() == Trim(old(Slots()))
    {
      hide Live, Marked;
      var last := tasks.Last();
      while last == Some(None)
        invariant tasks.Valid()
        invariant last == if Slots() == [] then None else Some(Slots()[|Slots()| - 1])
        invariant Trim(Slots()) == Trim(old(Slots()))
        decreases |Slots()|
      {
        ghost var before := Slots();
        assert Trim(before) == Trim(before[..|before| - 1]);
        var popped := tasks.Pop();
        assert Slots() == before[..|before| - 1];
        last := tasks.Last();
      }
    }

    // Likewise the count goes down whatever the slot held.
    method RemoveTask(index: nat)
      requires Valid() && index < |Slots()|
      modifies Repr()
      ensures Shaped()
      ensures Slots() == Vacated(old(Slots()), index)
      ensures Valid() <==> old(Slots())[index].Some?
      ensures Bits() == old(Bits())
    {
      assert |Slots()| - 1 in Live(Slots());
      ghost var held := Slots()[index];
      tasks.Set(index, None);
      emptyTasks := emptyTasks - {index};
      tasksCount := tasksCount - 1;
      DropVacantTail();
      var n := tasks.Len();
      switcher.SetTasks(n);

      if held.Some? {
        VacateCounts(old(Slots()), index);
      } else {
        WrongCounts(old(Slots()), index, old(Slots())[|old(Slots())| - 1].value.task);
      }
    }

    method HasTask(index: nat) returns (has: bool)
      requires Valid()
      ensures has <==> index in Live(Slots())
    {
      var slot := tasks.Get(index);
      has := slot.Some? && slot.value.Some?;
    }

    method TaskCount() returns (n: nat)
      requires Valid()
      ensures n == |Live(Slots())|
    {
      n := tasksCount;
    }

    // Two numbers are compared; they are equal exactly when every live task is marked.
    method IsEmpty() returns (empty: bool)
      requires Valid()
      ensures empty <==> AllMarked(Slots())
    {
      CountingEmptiness(Slots());
      empty := |emptyTasks| == tasksCount;
    }

    // The loop that both ticks and shutdowns run over the slots.
    method MapInPlace(f: S -> S)
      requires Valid()
      modifies tasks
      ensures Valid() && Slots() == MapTasks(old(Slots()), f)
    {
      var n := tasks.Len();
      for index := 0 to n
        invariant tasks.Valid() && n == |Slots()| == |old(Slots())|
        invariant forall i :: 0 <= i < n ==>
                    Slots()[i] == if i < index then MapTasks(old(Slots()), f)[i] else old(Slots())[i]
      {
        var slot := tasks.Get(index);
        if slot.value.Some? {
          tasks.Set(index, Some(slot.value.value.(task := f(slot.value.value.task))));
        }
      }
      assert Live(Slots()) == Live(old(Slots()));
      assert Marked(Slots()) == Marked(old(Slots()));
    }

    method OnTick(now: Time)
      requires Valid()
      modifies Repr()
      ensures Valid()
      ensures Slots() == MapTasks(old(Slots()), s => api.onTick(s, now))
      ensures Live(Slots()) == Live(old(Slots())) && |Slots()| == |old(Slots())|
      ensures forall i :: i in Live(Slots()) ==>
                Slots()[i].value.task == api.onTick(old(Slots())[i].value.task, now)
                && Slots()[i].value.isEmpty == old(Slots())[i].value.isEmpty
      ensures Bits() == seq(|old(Bits())|, _ => true)
    {
      switcher.FlagAll();
      MapInPlace(s => api.onTick(s, now));
    }

    method OnShutdown(now: Time)
      requires Valid()
      modifies Repr()
      ensures Valid()
      ensures Slots() == MapTasks(old(Slots()), s => api.onShutdown(s, now))
      ensures Live(Slots()) == Live(old(Slots())) && |Slots()| == |old(Slots())|
      ensures forall i :: i in Live(Slots()) ==>
                Slots()[i].value.task == api.onShutdown(old(Slots())[i].value.task, now)
                && Slots()[i].value.isEmpty == old(Slots())[i].value.isEmpty
      ensures Bits() == seq(|old(Bits())|, _ => true)
    {
      switcher.FlagAll();
      MapInPlace(s => api.onShutdown(s, now));
    }

    // An event for a vacant or unknown slot is refused and changes nothing.
    method OnEvent(now: Time, index: nat, input: In) returns (ok: bool)
      requires Valid()
      modifies Repr()
      ensures Valid()
      ensures ok <==> index in Live(old(Slots()))
      ensures !ok ==> Slots() == old(Slots()) && Bits() == old(Bits())
      ensures ok ==> var c := old(Slots())[index].value;
                     Slots() == old(Slots())[index := Some(c.(task := api.onEvent(c.task, now, input)))]
                     && Bits() == old(Bits())[index := true]
    {
      var slot := tasks.Get(index);
      if slot.None? || slot.value.None? {
        return false;
      }
      switcher.FlagTask(index);
      tasks.Set(index, Some(slot.value.value.(task := api.onEvent(slot.value.value.task, now, input))));
      assert Live(Slots()) == Live(old(Slots()));
      assert Marked(Slots()) == Marked(old(Slots()));
      ok := true;
    }

    // One round of the drain loop: the least flag, whether or not its slot is occupied.
    method PollLeast(now: Time, i: nat) returns (out: Option<GroupOutput<Out>>)
      requires Valid() && i in switcher.Waiting() && forall j :: j in switcher.Waiting() ==> i <= j
      modifies Repr()
      ensures Valid() && Live(Slots()) == Live(old(Slots()))
      ensures |Slots()| == |old(Slots())| && |Bits()| == |old(Bits())|
      ensures out.None? ==> Untouched(old(Slots()), old(Bits()), Slots(), Bits())
      ensures out.Some? ==> out.value.TaskOutput? && out.value.index == i && old(Slots())[i].Some? && Bits()[i]
      ensures out.None? ==> !Bits()[i] && switcher.Waiting() == old(switcher.Waiting()) - {i}
      ensures out.Some? ==> Answers(api, now, old(Slots()), old(Bits()), out, Slots(), Bits())
      ensures out.None? ==> Delays(api, now, old(Slots()), old(Bits()), Slots(), Bits())
    {
      hide Stream, Settled, SameDrains, Polls, PollStep, Finite, Live, Marked;
      ghost var slots, bits := Slots(), Bits();
      assert forall j :: 0 <= j < i ==> j !in switcher.Waiting() && !bits[j];
      var slot := tasks.Get(i);
      if slot.value.Some? {
        out := PollSlot(now, i, slot.value.value);
        PollStepFrame(api, now, slots, bits, i, out, Slots(), Bits());
        if Finite(api, now) {
          if out.Some? {
            VisiblePoll(api, now, slots, bits, i, out.value, Slots(), Bits());
          } else {
            SilentPoll(api, now, slots, bits, i, Slots(), Bits());
          }
        }
      } else {
        switcher.Finished(i);
        out := None;
        if Finite(api, now) {
          VacantPoll(api, now, slots, bits, i);
        }
      }
    }

    /** The drain loop. Whatever the tasks do, None means that no flag is left up and an output names a flagged
        live slot; when the tasks are finite, each call takes exactly the head off the drain's stream. */
    method PopOutput(now: Time) returns (out: Option<GroupOutput<Out>>)
      requires Valid()
      modifies Repr()
      ensures Valid() && |Bits()| == |old(Bits())|
      ensures Live(Slots()) == Live(old(Slots())) && |Slots()| == |old(Slots())|
      ensures out.None? ==> Quiet(Slots(), Bits())
      ensures out.Some? ==> out.value.TaskOutput? && Flagged(old(Slots()), old(Bits()), out.value.index)
                            && Bits()[out.value.index]
      ensures Answers(api, now, old(Slots()), old(Bits()), out, Slots(), Bits())
    {
      hide Delays, Answers, Live, Marked, Untouched;
      DelaysNothing(api, now, Slots(), Bits());
      UntouchedChain(Slots(), Bits(), Slots(), Bits(), Slots(), Bits());
      while true
        invariant Valid()
        invariant Untouched(old(Slots()), old(Bits()), Slots(), Bits())
        invariant Delays(api, now, old(Slots()), old(Bits()), Slots(), Bits())
        decreases switcher.Waiting()
      {
        ghost var slots, bits := Slots(), Bits();
        var index := switcher.Current();
        if index.None? {
          assert Quiet(slots, bits) by {
            assert forall i :: 0 <= i < |slots| ==> (bits[i] <==> i in switcher.Waiting());
          }
          UntouchedSizes(old(Slots()), old(Bits()), slots, bits);
          QuietPoll(api, now, old(Slots()), old(Bits()), slots, bits);
          return None;
        }
        out := PollLeast(now, index.value);
        if out.Some? {
          UntouchedUntil(old(Slots()), old(Bits()), slots, bits, out.value.index, Slots(), Bits());
          DelayedPoll(api, now, old(Slots()), old(Bits()), slots, bits, out.value, Slots(), Bits());
          return;
        }
        UntouchedChain(old(Slots()), old(Bits()), slots, bits, Slots(), Bits());
        DelaysChain(api, now, old(Slots()), old(Bits()), slots, bits, Slots(), Bits());
      }
    }

    // One poll of the task behind the least flag.
    method PollSlot(now: Time, i: nat, c: TaskContainer<S>) returns (out: Option<GroupOutput<Out>>)
      requires Valid() && i < |Slots()| && Bits()[i] && Slots()[i] == Some(c)
      modifies Repr()
      ensures Valid() && Live(Slots()) == Live(old(Slots()))
      ensures PollStep(api, now, old(Slots()), old(Bits()), i, out, Slots(), Bits())
      ensures out.None? ==> switcher.Waiting() == old(switcher.Waiting()) - {i}
    {
      hide Live, Marked;
      assert Bits()[i := true] == Bits();
      var p := api.pop(c.task, now);
      if p.out.Some? {
        Store(i, TaskContainer(p.state, c.isEmpty));
        return Some(TaskOutput(i, p.out.value));
      }
      if !c.isEmpty {
        if api.isEmpty(p.state) {
          Store(i, TaskContainer(p.state, true));
          return Some(TaskOutput(i, api.emptyEvent(p.state)));
        }
        Store(i, TaskContainer(p.state, false));
      } else if !api.isEmpty(p.state) {
        Store(i, TaskContainer(p.state, false));
      } else {
        Store(i, TaskContainer(p.state, true));
      }
      switcher.Finished(i);
      out := None;
    }

    // A changed task goes back to its slot, and the set of marked slots follows its mark.
    method Store(i: nat, c: TaskContainer<S>)
      requires Valid() && i < |Slots()| && Slots()[i].Some?
      modifies this`emptyTasks, tasks
      ensures Valid() && Slots() == old(Slots())[i := Some(c)] && Live(Slots()) == Live(old(Slots()))
    {
      MarkCounts(Slots(), i, c);
      hide Live, Marked;
      tasks.Set(i, Some(c));
      emptyTasks := if c.isEmpty then emptyTasks + {i} else emptyTasks - {i};
    }
  }
}
