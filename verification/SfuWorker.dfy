/** Two groups under one outer switcher, drained together (examples/sfu/mod.rs). */
module SfuWorkers {
  import opened Options
  import opened Tasks
  import opened TaskSwitchers
  import opened TaskGroups
  import opened TaskBranches
  import opened GroupDrains

  datatype Kind = Whip | Whep

  datatype WorkerOut<+Own, +Out> = OwnOutput(own: Own) | FromTask(kind: Kind, index: nat, out: Out) | Continue

  // A task's empty event is swallowed: the worker removes the task and asks to be polled again.
  function Emit<Own, Out>(kind: Kind, mark: Out -> bool, g: GroupOutput<Out>): WorkerOut<Own, Out> {
    if g.OnResourceEmpty? || mark(g.out) then Continue else FromTask(kind, g.index, g.out)
  }

  ghost function Emitted<Own, Out>(kind: Kind, mark: Out -> bool, gs: seq<GroupOutput<Out>>)
    : (r: seq<WorkerOut<Own, Out>>)
    ensures |r| == |gs|
  {
    seq(|gs|, k requires 0 <= k < |gs| => Emit(kind, mark, gs[k]))
  }

  ghost function Owned<Own, Out>(own: seq<Own>): (r: seq<WorkerOut<Own, Out>>)
    ensures |r| == |own|
  {
    seq(|own|, k requires 0 <= k < |own| => OwnOutput(own[k]))
  }

  // A new task in a vacant slot, or in a new last one.
  function Joined<S>(slots: Slots<S>, index: nat, task: S): Slots<S>
    requires index <= |slots|
  {
    if index < |slots| then slots[index := Some(TaskContainer(task, false))]
    else slots + [Some(TaskContainer(task, false))]
  }

  // Inputs to a branch, each together with its outer flag.
  method AddThrough<S(!new), Time, In, Out>(b: TaskSwitcherBranch<S, Time, In, Out>, outer: TaskSwitcher, task: S)
    returns (index: nat)
    requires b.Under(outer)
    modifies b.task.Repr(), outer.bits
    ensures b.Under(outer) && outer.Tasks() == old(outer.Tasks())
            && outer.Bits() == old(outer.Bits())[b.taskType := true]
    ensures index !in Live(old(b.task.Slots())) && index <= |old(b.task.Slots())|
    ensures b.task.Slots() == Joined(old(b.task.Slots()), index, task)
  {
    var group := b.Input(outer);
    index := group.AddTask(task);
  }

  method TickThrough<S(!new), Time, In, Out>(b: TaskSwitcherBranch<S, Time, In, Out>, outer: TaskSwitcher, now: Time)
    requires b.Under(outer)
    modifies b.task.Repr(), outer.bits
    ensures b.Under(outer) && outer.Tasks() == old(outer.Tasks())
            && outer.Bits() == old(outer.Bits())[b.taskType := true]
    ensures b.task.Slots() == MapTasks(old(b.task.Slots()), s => b.task.api.onTick(s, now))
    ensures b.task.Bits() == seq(|old(b.task.Bits())|, _ => true)
  {
    hide Live, Marked, MapTasks;
    var group := b.Input(outer);
    group.OnTick(now);
  }

  method ShutDownThrough<S(!new), Time, In, Out>(
    b: TaskSwitcherBranch<S, Time, In, Out>, outer: TaskSwitcher, now: Time)
    requires b.Under(outer)
    modifies b.task.Repr(), outer.bits
    ensures b.Under(outer) && outer.Tasks() == old(outer.Tasks())
            && outer.Bits() == old(outer.Bits())[b.taskType := true]
    ensures b.task.Slots() == MapTasks(old(b.task.Slots()), s => b.task.api.onShutdown(s, now))
    ensures b.task.Bits() == seq(|old(b.task.Bits())|, _ => true)
  {
    hide Live, Marked, MapTasks;
    var group := b.Input(outer);
    group.OnShutdown(now);
  }

  method EventThrough<S(!new), Time, In, Out>(
    b: TaskSwitcherBranch<S, Time, In, Out>, outer: TaskSwitcher, now: Time, index: nat, input: In)
    requires b.Under(outer)
    modifies b.task.Repr(), outer.bits
    ensures b.Under(outer) && outer.Tasks() == old(outer.Tasks())
    ensures outer.Bits() == old(outer.Bits())[b.taskType := true]
    ensures if index in Live(old(b.task.Slots())) then
              var c := old(b.task.Slots())[index].value;
              b.task.Slots() == old(b.task.Slots())[index := Some(c.(task := b.task.api.onEvent(c.task, now, input)))]
              && b.task.Bits() == old(b.task.Bits())[index := true]
            else b.task.Slots() == old(b.task.Slots()) && b.task.Bits() == old(b.task.Bits())
  {
    hide Live, Marked;
    outer.FlagTask(b.taskType);
    var group := b.Input(outer);
    var ok := group.OnEvent(now, index, input);
    assert outer.Bits()[b.taskType := true] == outer.Bits();
  }

  method RemoveThrough<S(!new), Time, In, Out>(b: TaskSwitcherBranch<S, Time, In, Out>, outer: TaskSwitcher, index: nat)
    requires b.Under(outer) && index < |b.task.Slots()| && b.task.Slots()[index].Some?
    modifies b.task.Repr(), outer.bits
    ensures b.Under(outer) && outer.Tasks() == old(outer.Tasks())
    ensures outer.Bits() == old(outer.Bits())[b.taskType := true]
    ensures outer.Waiting() == old(outer.Waiting()) + {b.taskType}
    ensures b.task.Slots() == Vacated(old(b.task.Slots()), index) && b.task.Bits() == old(b.task.Bits())
  {
    hide Live, Marked, Trim;
    var group := b.Input(outer);
    group.RemoveTask(index);
  }

  // One round of the worker's loop on one branch, with the removal that an empty event brings.
  method PollThrough<S(!new), Time, In, Out>(
    b: TaskSwitcherBranch<S, Time, In, Out>, outer: TaskSwitcher, mark: Out -> bool, now: Time)
    returns (out: Option<GroupOutput<Out>>)
    requires b.Under(outer) && b.Covered(outer) && outer.Bits()[b.taskType]
    modifies b.Repr(), outer.bits
    ensures b.Under(outer) && b.Covered(outer) && outer.Tasks() == old(outer.Tasks())
    ensures out.Some? ==> out.value.TaskOutput?
    ensures outer.Bits() == old(outer.Bits())
            || (out.None? && outer.Bits() == old(outer.Bits())[b.taskType := false])
    ensures out.Some? ==> outer.Waiting() == old(outer.Waiting())
    ensures out.None? ==> outer.Waiting() == old(outer.Waiting()) - {b.taskType}
                          || (outer.Waiting() == old(outer.Waiting()) && !old(b.isEmpty) && b.isEmpty)
    ensures out.None? ==> Quiet(b.task.Slots(), b.task.Bits())
    ensures RemovingAnswer(b.task.api, now, mark, old(b.task.Slots()), old(b.task.Bits()), out,
                           b.task.Slots(), b.task.Bits())
  {
    hide RemovingAnswer, Answers, Live, Marked, AllMarked, Trim;
    assert outer.Bits()[b.taskType := true] == outer.Bits();
    ghost var slots, bits := b.task.Slots(), b.task.Bits();
    var polled := b.PopOutput(now, outer);
    out := if polled == Some(OnResourceEmpty) then None else polled;
    RemovingAnswers(b.task.api, now, mark, slots, bits, out, b.task.Slots(), b.task.Bits());
    if out.Some? {
      outer.FlagTask(b.taskType);
      if mark(out.value.out) {
        RemoveThrough(b, outer, out.value.index);
      }
    }
  }

  lemma EmittedFirst<Own, Out>(kind: Kind, mark: Out -> bool, g: GroupOutput<Out>, rest: seq<GroupOutput<Out>>)
    ensures Emitted<Own, Out>(kind, mark, [g] + rest) == [Emit(kind, mark, g)] + Emitted(kind, mark, rest)
  {
  }

  // The worker's view of one step of a branch's removing drain.
  lemma StreamAdvances<S(!new), Time, In, Out, Own>(
    api: TaskApi<S, Time, In, Out>, now: Time, mark: Out -> bool, kind: Kind,
    slots: Slots<S>, bits: seq<bool>, out: Option<GroupOutput<Out>>, slots': Slots<S>, bits': seq<bool>)
    requires |slots| <= |bits| && |slots'| <= |bits'| && Finite(api, now) && Marks(api, now, mark)
    requires RemovingAnswer(api, now, mark, slots, bits, out, slots', bits')
    ensures Emitted<Own, Out>(kind, mark, Stream(api, now, true, slots, bits, 0))
         == (if out.Some? then [Emit(kind, mark, out.value)] else [])
            + Emitted(kind, mark, Stream(api, now, true, slots', bits', 0))
    ensures Trim(Settled(api, now, true, slots, bits)) == Trim(Settled(api, now, true, slots', bits'))
  {
    hide Stream, Settled, Trim, Emit;
    if out.Some? {
      EmittedFirst<Own, Out>(kind, mark, out.value, Stream(api, now, true, slots', bits', 0));
    }
  }

  // A group none of whose objects changed is as consistent as before.
  twostate lemma Undisturbed<S(!new), Time, In, Out>(g: TaskGroup<S, Time, In, Out>)
    requires old(g.Valid()) && unchanged(g, g.tasks, g.switcher.bits)
    ensures g.Valid() && g.Slots() == old(g.Slots()) && g.Bits() == old(g.Bits())
  {
  }

  lemma Packed<S(!new), Time, In, Out>(g: TaskGroup<S, Time, In, Out>)
    requires g.Valid()
    ensures Trim(g.Slots()) == g.Slots()
  {
  }

  // Two empty groups of 64 slots in place, under an outer switcher of their own.
  method NewHierarchy<S(!new), Time, In, Out>(whipApi: TaskApi<S, Time, In, Out>, whepApi: TaskApi<S, Time, In, Out>)
    returns (outer: TaskSwitcher,
             whips: TaskSwitcherBranch<S, Time, In, Out>, wheps: TaskSwitcherBranch<S, Time, In, Out>)
    ensures fresh(outer) && fresh(outer.bits) && fresh(whips.Repr()) && fresh(wheps.Repr()) && whips.Apart(wheps)
    ensures outer.Tasks() == 2 && whips.taskType == 0 && wheps.taskType == 1
    ensures whips.Under(outer) && whips.Covered(outer) && whips.task.Slots() == []
    ensures wheps.Under(outer) && wheps.Covered(outer) && wheps.task.Slots() == []
  {
    hide TaskGroup.Valid, TaskGroup.Shaped, Live, Marked, Trim, Quiet;
    outer := new TaskSwitcher(2);
    whips := new TaskSwitcherBranch(whipApi, 64, 0);
    label whipMade:
    wheps := new TaskSwitcherBranch(whepApi, 64, 1);
    Undisturbed@whipMade(whips.task);
  }

  lemma MiddleAdvances<T>(own: seq<T>, head: seq<T>, middle: seq<T>, tail: seq<T>)
    requires own == []
    ensures own + (head + middle) + tail == head + (own + middle + tail)
  {
    assert own + (head + middle) == head + middle && own + middle == middle;
    assert (head + middle) + tail == head + (middle + tail);
  }

  lemma LastAdvances<T>(own: seq<T>, none: seq<T>, head: seq<T>, last: seq<T>)
    requires own == none == []
    ensures own + none + (head + last) == head + (own + none + last)
  {
    assert own + none == [];
  }

  lemma EmittedNothing<Own, Out>(kind: Kind, mark: Out -> bool)
    ensures Emitted<Own, Out>(kind, mark, []) == []
  {
  }

  class SfuWorker<S(!new), Time, In, Out, Own> {
    const mark: Out -> bool
    const switcher: TaskSwitcher
    const whip: TaskSwitcherBranch<S, Time, In, Out>
    const whep: TaskSwitcherBranch<S, Time, In, Out>
    var output: seq<Own>

    ghost function Repr(): set<object> {
      {this, switcher, switcher.bits} + whip.Repr() + whep.Repr()
    }

    /** The hierarchy: both groups are consistent, share nothing, and cover their flags with the outer ones. */
    ghost predicate Valid()
      reads Repr()
    {
      switcher.Valid() && switcher.Tasks() == 2
      && whip.taskType == 0 && whep.taskType == 1
      && whip.Apart(whep)
      && whip.Under(switcher) && whep.Under(switcher)
      && whip.Covered(switcher) && whep.Covered(switcher)
    }

    constructor (mark: Out -> bool, whipApi: TaskApi<S, Time, In, Out>, whepApi: TaskApi<S, Time, In, Out>, first: Own)
      ensures Valid() && fresh(Repr())
      ensures whip.task.Slots() == [] && whep.task.Slots() == [] && output == [first]
    {
      hide TaskGroup.Valid, TaskGroup.Shaped, Live, Marked, Trim, Quiet;
      var outer, whips, wheps := NewHierarchy<S, Time, In, Out>(whipApi, whepApi);
      this.mark, switcher, whip, whep, output := mark, outer, whips, wheps, [first];
      label made:
      new;
      Undisturbed@made(whip.task);
      Undisturbed@made(whep.task);
    }

    // Each input goes through the branch, so the outer flag goes up before the group changes.
    // An offer from which no task can be built is answered, and nothing else happens.
    method ConnectWhip(offer: Option<S>, reply: Own) returns (index: nat)
      requires Valid()
      modifies Repr()
      ensures Valid() && output == old(output) + [reply]
      ensures offer.Some? ==> index !in Live(old(whip.task.Slots())) && index <= |old(whip.task.Slots())|
      ensures whip.task.Slots() == if offer.Some? then Joined(old(whip.task.Slots()), index, offer.value)
                                   else old(whip.task.Slots())
      ensures offer.None? ==> switcher.Bits() == old(switcher.Bits()) && whip.task.Bits() == old(whip.task.Bits())
      ensures whep.task.Slots() == old(whep.task.Slots())
    {
      hide Live, Marked, MapTasks, Trim, Quiet, TaskGroup.Valid, TaskGroup.Shaped;
      index := 0;
      if offer.Some? {
        index := AddThrough(whip, switcher, offer.value);
      } else {
        Undisturbed(whip.task);
      }
      Undisturbed(whep.task);
      label connected:
      output := output + [reply];
      Undisturbed@connected(whip.task);
      Undisturbed@connected(whep.task);
    }

    method OnTick(now: Time)
      requires Valid()
      modifies Repr()
      ensures Valid() && output == old(output)
      ensures whip.task.Slots() == MapTasks(old(whip.task.Slots()), s => whip.task.api.onTick(s, now))
      ensures whep.task.Slots() == MapTasks(old(whep.task.Slots()), s => whep.task.api.onTick(s, now))
      ensures whip.task.Bits() == seq(|old(whip.task.Bits())|, _ => true)
              && whep.task.Bits() == seq(|old(whep.task.Bits())|, _ => true)
    {
      hide Live, Marked, MapTasks, Trim, Quiet, TaskGroup.Valid, TaskGroup.Shaped;
      TickThrough(whip, switcher, now);
      Undisturbed(whep.task);
      label whipTicked:
      TickThrough(whep, switcher, now);
      Undisturbed@whipTicked(whip.task);
    }

    method OnShutdown(now: Time)
      requires Valid()
      modifies Repr()
      ensures Valid() && output == old(output)
      ensures whip.task.Slots() == MapTasks(old(whip.task.Slots()), s => whip.task.api.onShutdown(s, now))
      ensures whep.task.Slots() == MapTasks(old(whep.task.Slots()), s => whep.task.api.onShutdown(s, now))
      ensures whip.task.Bits() == seq(|old(whip.task.Bits())|, _ => true)
              && whep.task.Bits() == seq(|old(whep.task.Bits())|, _ => true)
    {
      hide Live, Marked, MapTasks, Trim, Quiet, TaskGroup.Valid, TaskGroup.Shaped;
      ShutDownThrough(whip, switcher, now);
      Undisturbed(whep.task);
      label whipDone:
      ShutDownThrough(whep, switcher, now);
      Undisturbed@whipDone(whip.task);
    }

    // A packet or bus event for one task; an unknown index is dropped.
    method OnWhipEvent(now: Time, index: nat, input: In)
      requires Valid()
      modifies Repr()
      ensures Valid() && output == old(output)
      ensures whip.task.Slots() ==
                if index in Live(old(whip.task.Slots())) then
                  var c := old(whip.task.Slots())[index].value;
                  old(whip.task.Slots())[index := Some(c.(task := whip.task.api.onEvent(c.task, now, input)))]
                else old(whip.task.Slots())
      ensures index in Live(old(whip.task.Slots())) ==> whip.task.Bits() == old(whip.task.Bits())[index := true]
      ensures whep.task.Slots() == old(whep.task.Slots())
    {
      hide Live, Marked, MapTasks, Trim, Quiet, TaskGroup.Valid, TaskGroup.Shaped;
      EventThrough(whip, switcher, now, index, input);
      Undisturbed(whep.task);
    }

    // What a drain of the whole worker yields: its own outputs, then the whip group's, then the whep group's.
    ghost function Stream(now: Time): (r: seq<WorkerOut<Own, Out>>)
      reads Repr()
      requires Valid() && Finite(whip.task.api, now) && Finite(whep.task.api, now)
    {
      Owned(output)
      + Emitted(Whip, mark, Tasks.Stream(whip.task.api, now, true, whip.task.Slots(), whip.task.Bits(), 0))
      + Emitted(Whep, mark, Tasks.Stream(whep.task.api, now, true, whep.task.Slots(), whep.task.Bits(), 0))
    }

    // The tasks such a drain leaves in the two groups: all but the newly empty ones, in the same slots.
    ghost function Left(now: Time): (Slots<S>, Slots<S>)
      reads Repr()
      requires Valid() && Finite(whip.task.api, now) && Finite(whep.task.api, now)
    {
      (Trim(Settled(whip.task.api, now, true, whip.task.Slots(), whip.task.Bits())),
       Trim(Settled(whep.task.api, now, true, whep.task.Slots(), whep.task.Bits())))
    }

    // The number of branches whose emptiness has not been reported.
    ghost function Unreported(): nat
      reads Repr()
    {
      (if whip.isEmpty then 0 else 1) + (if whep.isEmpty then 0 else 1)
    }

    // The tasks of both groups are finite, and empty events can be told by their mark.
    ghost predicate Orderly(now: Time)
      ensures Orderly(now) ==> Finite(whip.task.api, now) && Finite(whep.task.api, now)
    {
      Finite(whip.task.api, now) && Marks(whip.task.api, now, mark)
      && Finite(whep.task.api, now) && Marks(whep.task.api, now, mark)
    }

    // Only two flags exist, and when both are down nothing is flagged below.
    lemma OneOfTwo()
      requires Valid()
      ensures switcher.Valid() && switcher.Waiting() <= {0, 1}
      ensures switcher.Waiting() == {} ==>
                Quiet(whip.task.Slots(), whip.task.Bits()) && Quiet(whep.task.Slots(), whep.task.Bits())
    {
      hide Quiet, TaskGroup.Valid, TaskGroup.Shaped;
      assert switcher.Bits()[0] ==> 0 in switcher.Waiting();
      assert switcher.Bits()[1] ==> 1 in switcher.Waiting();
    }

    method PollWhep(now: Time) returns (out: Option<WorkerOut<Own, Out>>)
      requires Valid() && 0 !in switcher.Waiting() && 1 in switcher.Waiting()
      modifies Repr()
      ensures Valid() && output == old(output)
      ensures out.None? ==> switcher.Waiting() < old(switcher.Waiting())
                            || (switcher.Waiting() == old(switcher.Waiting()) && Unreported() < old(Unreported()))
      ensures Orderly(now) && output == [] ==>
                old(Stream(now)) == (if out.Some? then [out.value] else []) + Stream(now)
                && old(Left(now)) == Left(now)
    {
      hide TaskGroup.Valid, TaskGroup.Shaped, RemovingAnswer, Tasks.Stream, Settled, Finite, Marks;
      ghost var slots, bits := whep.task.Slots(), whep.task.Bits();
      if Orderly(now) {
        QuietStream(whip.task.api, now, true, whip.task.Slots(), whip.task.Bits());
        EmittedNothing<Own, Out>(Whip, mark);
      }
      var polled := PollThrough(whep, switcher, mark, now);
      Undisturbed(whip.task);
      out := if polled.Some? then Some(Emit(Whep, mark, polled.value)) else None;
      if Orderly(now) && output == [] {
        ghost var slots', bits' := whep.task.Slots(), whep.task.Bits();
        StreamAdvances<S, Time, In, Out, Own>(whep.task.api, now, mark, Whep, slots, bits, polled, slots', bits');
        LastAdvances(Owned<Own, Out>(output), Emitted<Own, Out>(Whip, mark, []), if out.Some? then [out.value] else [],
                     Emitted(Whep, mark, Tasks.Stream(whep.task.api, now, true, slots', bits', 0)));
      }
    }

    method PollWhip(now: Time) returns (out: Option<WorkerOut<Own, Out>>)
      requires Valid() && 0 in switcher.Waiting()
      modifies Repr()
      ensures Valid() && output == old(output)
      ensures out.None? ==> switcher.Waiting() < old(switcher.Waiting())
                            || (switcher.Waiting() == old(switcher.Waiting()) && Unreported() < old(Unreported()))
      ensures Orderly(now) && output == [] ==>
                old(Stream(now)) == (if out.Some? then [out.value] else []) + Stream(now)
                && old(Left(now)) == Left(now)
    {
      hide TaskGroup.Valid, TaskGroup.Shaped, RemovingAnswer, Tasks.Stream, Settled, Finite, Marks, Quiet, Trim,
           Emitted, Emit;
      ghost var slots, bits := whip.task.Slots(), whip.task.Bits();
      var polled := PollThrough(whip, switcher, mark, now);
      Undisturbed(whep.task);
      out := if polled.Some? then Some(Emit(Whip, mark, polled.value)) else None;
      if Orderly(now) && output == [] {
        ghost var slots', bits' := whip.task.Slots(), whip.task.Bits();
        StreamAdvances<S, Time, In, Out, Own>(whip.task.api, now, mark, Whip, slots, bits, polled, slots', bits');
        MiddleAdvances(Owned<Own, Out>(output), if out.Some? then [out.value] else [],
                       Emitted(Whip, mark, Tasks.Stream(whip.task.api, now, true, slots', bits', 0)),
                       Emitted(Whep, mark,
                               Tasks.Stream(whep.task.api, now, true, whep.task.Slots(), whep.task.Bits(), 0)));
      }
    }

    method PopOwn(now: Time) returns (out: Option<WorkerOut<Own, Out>>)
      requires Valid() && output != []
      modifies this`output
      ensures Valid() && out == Some(OwnOutput(old(output)[0])) && output == old(output)[1..]
      ensures Orderly(now) ==> old(Stream(now)) == [out.value] + Stream(now) && old(Left(now)) == Left(now)
    {
      hide TaskGroup.Valid, TaskGroup.Shaped, Tasks.Stream;
      assert Owned<Own, Out>(output) == [OwnOutput(output[0])] + Owned(output[1..]);
      out := Some(OwnOutput(output[0]));
      output := output[1..];
      Undisturbed(whip.task);
      Undisturbed(whep.task);
    }

    /** The worker's poll. None means that no flag is up anywhere in the hierarchy, whatever the tasks do; for
        finite tasks each call takes exactly the head off the worker's stream. */
    method PopOutput(now: Time) returns (out: Option<WorkerOut<Own, Out>>)
      requires Valid()
      modifies Repr()
      ensures Valid()
      ensures old(output) != [] ==> out == Some(OwnOutput(old(output)[0])) && output == old(output)[1..]
      ensures out.None? ==> output == [] && switcher.Waiting() == {}
                            && Quiet(whip.task.Slots(), whip.task.Bits()) && Quiet(whep.task.Slots(), whep.task.Bits())
      ensures Orderly(now) ==> old(Stream(now)) == (if out.Some? then [out.value] else []) + Stream(now)
                               && old(Left(now)) == Left(now)
    {
      hide TaskGroup.Valid, TaskGroup.Shaped, Stream, Left, Orderly, Tasks.Stream, Settled, Live, Marked, Quiet,
           TaskSwitcher.Waiting, TaskSwitcher.Valid, Valid;
      if output != [] {
        out := PopOwn(now);
        return;
      }
      OneOfTwo();
      while true
        invariant Valid() && output == [] && switcher.Valid()
        invariant Orderly(now) ==> old(Stream(now)) == Stream(now) && old(Left(now)) == Left(now)
        decreases switcher.Waiting(), Unreported()
      {
        OneOfTwo();
        var current := switcher.Current();
        if current.None? {
          return None;
        }
        if current.value == 0 {
          out := PollWhip(now);
        } else {
          out := PollWhep(now);
        }
        if out.Some? {
          return;
        }
        OneOfTwo();
      }
    }
  }

  lemma DryWorker<S(!new), Time, In, Out, Own>(w: SfuWorker<S, Time, In, Out, Own>, now: Time)
    requires w.Valid() && w.Orderly(now) && w.output == []
    requires Quiet(w.whip.task.Slots(), w.whip.task.Bits()) && Quiet(w.whep.task.Slots(), w.whep.task.Bits())
    ensures w.Stream(now) == [] && w.Left(now) == (w.whip.task.Slots(), w.whep.task.Slots())
  {
    Packed(w.whip.task);
    Packed(w.whep.task);
    QuietStream(w.whip.task.api, now, true, w.whip.task.Slots(), w.whip.task.Bits());
    QuietStream(w.whep.task.api, now, true, w.whep.task.Slots(), w.whep.task.Bits());
  }

  // --- What the worker's answers are, read off the groups' outputs and the mark alone ---

  // The outputs of tasks of one kind among the worker's answers, each with the index of its task.
  function TasksOf<Own, Out>(outs: seq<WorkerOut<Own, Out>>, kind: Kind): seq<(nat, Out)> {
    if outs == [] then []
    else
      var last := outs[|outs| - 1];
      TasksOf(outs[..|outs| - 1], kind)
      + if last.FromTask? && last.kind == kind then [(last.index, last.out)] else []
  }

  function OwnOf<Own, Out>(outs: seq<WorkerOut<Own, Out>>): seq<Own> {
    if outs == [] then []
    else
      OwnOf(outs[..|outs| - 1]) + if outs[|outs| - 1].OwnOutput? then [outs[|outs| - 1].own] else []
  }

  function Continues<Own, Out>(outs: seq<WorkerOut<Own, Out>>): nat {
    if outs == [] then 0 else Continues(outs[..|outs| - 1]) + if outs[|outs| - 1].Continue? then 1 else 0
  }

  // What a group hands out to be passed on, and how many empty events.
  function Unmarked<Out>(gs: seq<GroupOutput<Out>>, mark: Out -> bool): seq<(nat, Out)> {
    if gs == [] then []
    else
      var last := gs[|gs| - 1];
      Unmarked(gs[..|gs| - 1], mark) + if last.TaskOutput? && !mark(last.out) then [(last.index, last.out)] else []
  }

  function MarkedCount<Out>(gs: seq<GroupOutput<Out>>, mark: Out -> bool): nat {
    if gs == [] then 0
    else
      var last := gs[|gs| - 1];
      MarkedCount(gs[..|gs| - 1], mark) + if last.TaskOutput? && mark(last.out) then 1 else 0
  }

  // An answer for one output of a group of this kind: the output itself, unless it is an empty event.
  ghost predicate Shows<Own, Out>(answer: WorkerOut<Own, Out>, kind: Kind, g: GroupOutput<Out>, mark: Out -> bool) {
    g.TaskOutput? && if mark(g.out) then answer.Continue?
                     else answer.FromTask? && (answer.kind, answer.index, answer.out) == (kind, g.index, g.out)
  }

  lemma {:induction false} StreamOfTasks<S(!new), Time, In, Out>(
    api: TaskApi<S, Time, In, Out>, now: Time, removing: bool, slots: Slots<S>, bits: seq<bool>, start: nat)
    requires Finite(api, now) && start <= |slots| <= |bits|
    ensures forall k :: 0 <= k < |Stream(api, now, removing, slots, bits, start)| ==>
              Stream(api, now, removing, slots, bits, start)[k].TaskOutput?
    decreases |slots| - start
  {
    if start < |slots| {
      StreamOfTasks(api, now, removing, slots, bits, start + 1);
    }
  }

  lemma EmittedShows<Own, Out>(kind: Kind, mark: Out -> bool, gs: seq<GroupOutput<Out>>, k: nat)
    requires k < |gs| && gs[k].TaskOutput?
    ensures Shows(Emitted<Own, Out>(kind, mark, gs)[k], kind, gs[k], mark)
  {
  }

  lemma {:induction false} TasksOfConcat<Own, Out>(a: seq<WorkerOut<Own, Out>>, b: seq<WorkerOut<Own, Out>>, kind: Kind)
    ensures TasksOf(a + b, kind) == TasksOf(a, kind) + TasksOf(b, kind)
    decreases |b|
  {
    if b == [] {
      assert a + b == a;
    } else {
      TasksOfConcat(a, b[..|b| - 1], kind);
      assert (a + b)[..|a + b| - 1] == a + b[..|b| - 1];
    }
  }

  lemma {:induction false} OwnOfConcat<Own, Out>(a: seq<WorkerOut<Own, Out>>, b: seq<WorkerOut<Own, Out>>)
    ensures OwnOf(a + b) == OwnOf(a) + OwnOf(b)
    decreases |b|
  {
    if b == [] {
      assert a + b == a;
    } else {
      OwnOfConcat(a, b[..|b| - 1]);
      assert (a + b)[..|a + b| - 1] == a + b[..|b| - 1];
    }
  }

  lemma {:induction false} ContinuesConcat<Own, Out>(a: seq<WorkerOut<Own, Out>>, b: seq<WorkerOut<Own, Out>>)
    ensures Continues(a + b) == Continues(a) + Continues(b)
    decreases |b|
  {
    if b == [] {
      assert a + b == a;
    } else {
      ContinuesConcat(a, b[..|b| - 1]);
      assert (a + b)[..|a + b| - 1] == a + b[..|b| - 1];
    }
  }

  lemma {:induction false} OwnedSelects<Own, Out>(own: seq<Own>, kind: Kind)
    ensures TasksOf(Owned<Own, Out>(own), kind) == [] && OwnOf(Owned<Own, Out>(own)) == own
    ensures Continues(Owned<Own, Out>(own)) == 0
    decreases |own|
  {
    if own != [] {
      OwnedSelects<Own, Out>(own[..|own| - 1], kind);
      assert Owned<Own, Out>(own)[..|own| - 1] == Owned(own[..|own| - 1]);
    }
  }

  lemma {:induction false} EmittedSelects<Own, Out>(kind: Kind, mark: Out -> bool, gs: seq<GroupOutput<Out>>, k: Kind)
    requires forall i :: 0 <= i < |gs| ==> gs[i].TaskOutput?
    ensures TasksOf(Emitted<Own, Out>(kind, mark, gs), k) == if k == kind then Unmarked(gs, mark) else []
    ensures OwnOf(Emitted<Own, Out>(kind, mark, gs)) == []
    ensures Continues(Emitted<Own, Out>(kind, mark, gs)) == MarkedCount(gs, mark)
    decreases |gs|
  {
    if gs != [] {
      EmittedSelects<Own, Out>(kind, mark, gs[..|gs| - 1], k);
      assert Emitted<Own, Out>(kind, mark, gs)[..|gs| - 1] == Emitted(kind, mark, gs[..|gs| - 1]);
    }
  }

  // One answer for each own output, then for each of the whip group's, then for each of the whep group's.
  ghost predicate InPlace<Own, Out>(
    outs: seq<WorkerOut<Own, Out>>, own: seq<Own>, whips: seq<GroupOutput<Out>>, wheps: seq<GroupOutput<Out>>,
    mark: Out -> bool)
  {
    |outs| == |own| + |whips| + |wheps|
    && (forall k :: 0 <= k < |own| ==> outs[k].OwnOutput?)
    && (forall k :: 0 <= k < |whips| ==> Shows(outs[|own| + k], Whip, whips[k], mark))
    && (forall k :: 0 <= k < |wheps| ==> Shows(outs[|own| + |whips| + k], Whep, wheps[k], mark))
  }

  // Of each group exactly the outputs other than empty events, in order, each under its kind and the index of its task;
  // the empty events alone become Continue.
  ghost predicate Selected<Own, Out>(
    outs: seq<WorkerOut<Own, Out>>, own: seq<Own>, whips: seq<GroupOutput<Out>>, wheps: seq<GroupOutput<Out>>,
    mark: Out -> bool)
  {
    OwnOf(outs) == own && TasksOf(outs, Whip) == Unmarked(whips, mark) && TasksOf(outs, Whep) == Unmarked(wheps, mark)
    && Continues(outs) == MarkedCount(whips, mark) + MarkedCount(wheps, mark)
  }

  /** What the worker's answers in a drain are to be. */
  ghost predicate Answered<Own, Out>(
    outs: seq<WorkerOut<Own, Out>>, own: seq<Own>, whips: seq<GroupOutput<Out>>, wheps: seq<GroupOutput<Out>>,
    mark: Out -> bool)
  {
    InPlace(outs, own, whips, wheps, mark) && Selected(outs, own, whips, wheps, mark)
  }

  lemma AnswersSelected<Own, Out>(
    own: seq<Own>, whips: seq<GroupOutput<Out>>, wheps: seq<GroupOutput<Out>>, mark: Out -> bool)
    requires forall k :: 0 <= k < |whips| ==> whips[k].TaskOutput?
    requires forall k :: 0 <= k < |wheps| ==> wheps[k].TaskOutput?
    ensures Selected(
              Owned<Own, Out>(own) + Emitted(Whip, mark, whips) + Emitted(Whep, mark, wheps), own, whips, wheps, mark)
  {
    hide Emitted, Owned, TasksOf, OwnOf, Continues, Unmarked, MarkedCount;
    var a, b, c := Owned<Own, Out>(own), Emitted<Own, Out>(Whip, mark, whips), Emitted<Own, Out>(Whep, mark, wheps);
    OwnedSelects<Own, Out>(own, Whip);
    OwnedSelects<Own, Out>(own, Whep);
    EmittedSelects<Own, Out>(Whip, mark, whips, Whip);
    EmittedSelects<Own, Out>(Whip, mark, whips, Whep);
    EmittedSelects<Own, Out>(Whep, mark, wheps, Whip);
    EmittedSelects<Own, Out>(Whep, mark, wheps, Whep);
    TasksOfConcat(a + b, c, Whip);
    TasksOfConcat(a, b, Whip);
    TasksOfConcat(a + b, c, Whep);
    TasksOfConcat(a, b, Whep);
    OwnOfConcat(a + b, c);
    OwnOfConcat(a, b);
    ContinuesConcat(a + b, c);
    ContinuesConcat(a, b);
  }

  lemma AnswersInPlace<Own, Out>(
    own: seq<Own>, whips: seq<GroupOutput<Out>>, wheps: seq<GroupOutput<Out>>, mark: Out -> bool)
    requires forall k :: 0 <= k < |whips| ==> whips[k].TaskOutput?
    requires forall k :: 0 <= k < |wheps| ==> wheps[k].TaskOutput?
    ensures InPlace(
              Owned<Own, Out>(own) + Emitted(Whip, mark, whips) + Emitted(Whep, mark, wheps), own, whips, wheps, mark)
  {
    hide Shows;
    forall k | 0 <= k < |whips| ensures Shows(Emitted<Own, Out>(Whip, mark, whips)[k], Whip, whips[k], mark) {
      EmittedShows<Own, Out>(Whip, mark, whips, k);
    }
    forall k | 0 <= k < |wheps| ensures Shows(Emitted<Own, Out>(Whep, mark, wheps)[k], Whep, wheps[k], mark) {
      EmittedShows<Own, Out>(Whep, mark, wheps, k);
    }
    hide Emitted, Owned;
    OwnedIsOwn<Own, Out>(own);
  }

  lemma OwnedIsOwn<Own, Out>(own: seq<Own>)
    ensures forall k :: 0 <= k < |own| ==> Owned<Own, Out>(own)[k] == OwnOutput(own[k])
  {
  }

  // The outputs of the two groups in a drain by a worker, before it turns them into answers.
  ghost function GroupOutputs<S(!new), Time, In, Out>(b: TaskSwitcherBranch<S, Time, In, Out>, now: Time)
    : seq<GroupOutput<Out>>
    reads b.task, b.task.Repr()
    requires b.task.Valid() && Finite(b.task.api, now)
  {
    Stream(b.task.api, now, true, b.task.Slots(), b.task.Bits(), 0)
  }

  /** So is the stream of which each poll of the worker takes the head. */
  lemma StreamAnswers<S(!new), Time, In, Out, Own>(w: SfuWorker<S, Time, In, Out, Own>, now: Time)
    requires w.Valid() && w.Orderly(now)
    ensures Answered(w.Stream(now), w.output, GroupOutputs(w.whip, now), GroupOutputs(w.whep, now), w.mark)
  {
    hide InPlace, Selected, Stream;
    StreamOfTasks(w.whip.task.api, now, true, w.whip.task.Slots(), w.whip.task.Bits(), 0);
    StreamOfTasks(w.whep.task.api, now, true, w.whep.task.Slots(), w.whep.task.Bits(), 0);
    AnswersSelected(w.output, GroupOutputs(w.whip, now), GroupOutputs(w.whep, now), w.mark);
    AnswersInPlace(w.output, GroupOutputs(w.whip, now), GroupOutputs(w.whep, now), w.mark);
  }

  /** The loop in which a worker runs its inner part dry (src/worker.rs, pop_inner): it ends, and hands out the
      worker's whole stream in order. */
  method PopInner<S(!new), Time, In, Out, Own>(w: SfuWorker<S, Time, In, Out, Own>, now: Time)
    returns (outs: seq<WorkerOut<Own, Out>>)
    requires w.Valid() && w.Orderly(now)
    modifies w.Repr()
    ensures w.Valid() && outs == old(w.Stream(now))
    ensures Answered(outs, old(w.output), old(GroupOutputs(w.whip, now)), old(GroupOutputs(w.whep, now)), w.mark)
    ensures (w.whip.task.Slots(), w.whep.task.Slots()) == old(w.Left(now))
    ensures w.output == [] && w.switcher.Waiting() == {}
    ensures Quiet(w.whip.task.Slots(), w.whip.task.Bits()) && Quiet(w.whep.task.Slots(), w.whep.task.Bits())
  {
    hide TaskGroup.Valid, TaskGroup.Shaped, SfuWorker.Stream, SfuWorker.Left, SfuWorker.Orderly, SfuWorker.Valid,
         TaskSwitcher.Waiting, Quiet, Answered, GroupOutputs;
    StreamAnswers(w, now);
    outs := [];
    while true
      invariant w.Valid() && old(w.Stream(now)) == outs + w.Stream(now) && old(w.Left(now)) == w.Left(now)
      decreases |w.Stream(now)|
      modifies w.Repr()
    {
      var out := w.PopOutput(now);
      if out.None? {
        DryWorker(w, now);
        return;
      }
      outs := outs + [out.value];
    }
  }
}
