/** Whole drains of a task group: polling until None, with and without removing tasks on the way. */
module GroupDrains {
  import opened Options
  import opened Tasks
  import opened TaskGroups

  // The caller can tell empty events from other outputs by looking at them.
  ghost predicate Marks<S(!new), Time, In, Out>(api: TaskApi<S, Time, In, Out>, now: Time, mark: Out -> bool) {
    (forall s :: mark(api.emptyEvent(s)))
    && (forall s :: api.pop(s, now).out.Some? ==> !mark(api.pop(s, now).out.value))
  }

  lemma SettledKeepsTail<S(!new), Time, In, Out>(
    api: TaskApi<S, Time, In, Out>, now: Time, slots: Slots<S>, bits: seq<bool>)
    requires Finite(api, now) && |slots| <= |bits| && (slots != [] ==> slots[|slots| - 1].Some?)
    ensures Trim(Settled(api, now, false, slots, bits)) == Settled(api, now, false, slots, bits)
  {
  }

  /** Polling until None yields the stream of the state the drain started from, and no flag is left up. */
  method Drain<S(!new), Time, In, Out>(g: TaskGroup<S, Time, In, Out>, now: Time)
    returns (outs: seq<GroupOutput<Out>>)
    requires g.Valid() && Finite(g.api, now)
    modifies g.Repr()
    ensures g.Valid()
    ensures outs == Stream(g.api, now, false, old(g.Slots()), old(g.Bits()), 0)
    ensures g.Slots() == Settled(g.api, now, false, old(g.Slots()), old(g.Bits()))
    ensures Quiet(g.Slots(), g.Bits())
  {
    hide Stream, Settled, SlotStream, Live;
    SettledKeepsTail(g.api, now, g.Slots(), g.Bits());
    outs := [];
    while true
      invariant g.Valid()
      invariant Stream(g.api, now, false, old(g.Slots()), old(g.Bits()), 0)
             == outs + Stream(g.api, now, false, g.Slots(), g.Bits(), 0)
      invariant Settled(g.api, now, false, old(g.Slots()), old(g.Bits()))
             == Trim(Settled(g.api, now, false, g.Slots(), g.Bits()))
      decreases |Stream(g.api, now, false, g.Slots(), g.Bits(), 0)|
      modifies g.Repr()
    {
      var out := g.PopOutput(now);
      if out.None? {
        return;
      }
      outs := outs + [out.value];
    }
  }

  lemma DryStep<S(!new), Time, In, Out>(
    api: TaskApi<S, Time, In, Out>, now: Time, removing: bool,
    slots: Slots<S>, bits: seq<bool>, slots': Slots<S>, bits': seq<bool>)
    requires Finite(api, now) && |slots| <= |bits| && |slots'| <= |bits'|
    requires Answers(api, now, slots, bits, None, slots', bits')
    ensures Stream(api, now, removing, slots, bits, 0) == []
    ensures Settled(api, now, removing, slots, bits) == slots'
  {
  }

  // An output handed out and, if it is marked, followed by the removal of its task, is one step of the removing drain.
  lemma MarkedStep<S(!new), Time, In, Out>(
    api: TaskApi<S, Time, In, Out>, now: Time, mark: Out -> bool,
    slots: Slots<S>, bits: seq<bool>, out: GroupOutput<Out>, slots': Slots<S>, bits': seq<bool>)
    requires Finite(api, now) && Marks(api, now, mark) && |slots| <= |bits| && |slots'| <= |bits'|
    requires Answers(api, now, slots, bits, Some(out), slots', bits')
    ensures out.TaskOutput? && out.index < |slots'| && slots'[out.index].Some?
    ensures Consumes(api, now, true, slots, bits, out,
                     if mark(out.out) then Vacated(slots', out.index) else slots', bits')
  {
  }

  // An answer of a group whose caller removes a task on its empty event, read as a step of the removing drain.
  ghost predicate RemovingAnswer<S(!new), Time, In, Out>(
    api: TaskApi<S, Time, In, Out>, now: Time, mark: Out -> bool,
    slots: Slots<S>, bits: seq<bool>, out: Option<GroupOutput<Out>>, slots': Slots<S>, bits': seq<bool>)
    requires |slots| <= |bits| && |slots'| <= |bits'|
  {
    Finite(api, now) && Marks(api, now, mark) ==>
      match out
      case None => Stream(api, now, true, slots, bits, 0) == Stream(api, now, true, slots', bits', 0) == []
                   && Trim(Settled(api, now, true, slots, bits)) == Trim(Settled(api, now, true, slots', bits'))
      case Some(o) => Consumes(api, now, true, slots, bits, o, slots', bits')
  }

  lemma RemovingAnswers<S(!new), Time, In, Out>(
    api: TaskApi<S, Time, In, Out>, now: Time, mark: Out -> bool,
    slots: Slots<S>, bits: seq<bool>, out: Option<GroupOutput<Out>>, slots': Slots<S>, bits': seq<bool>)
    requires |slots| <= |bits| && |slots'| <= |bits'|
    requires Answers(api, now, slots, bits, out, slots', bits')
    requires out.Some? ==> out.value.TaskOutput? && out.value.index < |slots'|
    requires out.None? ==> Quiet(slots', bits')
    ensures RemovingAnswer(api, now, mark, slots, bits, out,
              if out.Some? && mark(out.value.out) then Vacated(slots', out.value.index) else slots', bits')
  {
    if Finite(api, now) && Marks(api, now, mark) {
      if out.Some? {
        MarkedStep(api, now, mark, slots, bits, out.value, slots', bits');
      } else {
        DryStep(api, now, true, slots, bits, slots', bits');
        QuietStream(api, now, true, slots', bits');
      }
    }
  }

  // One poll, and the removal that an empty event brings.
  method PollRemoving<S(!new), Time, In, Out>(g: TaskGroup<S, Time, In, Out>, now: Time, mark: Out -> bool)
    returns (out: Option<GroupOutput<Out>>)
    requires g.Valid()
    modifies g.Repr()
    ensures g.Valid() && (out.None? ==> Quiet(g.Slots(), g.Bits()))
    ensures RemovingAnswer(g.api, now, mark, old(g.Slots()), old(g.Bits()), out, g.Slots(), g.Bits())
  {
    hide RemovingAnswer, Answers, Live, Marked, Trim;
    out := g.PopOutput(now);
    RemovingAnswers(g.api, now, mark, old(g.Slots()), old(g.Bits()), out, g.Slots(), g.Bits());
    if out.Some? && mark(out.value.out) {
      g.RemoveTask(out.value.index);
    }
  }

  /** The loop of a caller that removes a task on its empty event: the same outputs, except that a removed task
      is not polled again, and exactly the newly empty tasks are gone. */
  method DrainRemoving<S(!new), Time, In, Out>(g: TaskGroup<S, Time, In, Out>, now: Time, mark: Out -> bool)
    returns (outs: seq<GroupOutput<Out>>)
    requires g.Valid() && Finite(g.api, now) && Marks(g.api, now, mark)
    modifies g.Repr()
    ensures g.Valid()
    ensures outs == Stream(g.api, now, true, old(g.Slots()), old(g.Bits()), 0)
    ensures g.Slots() == Trim(Settled(g.api, now, true, old(g.Slots()), old(g.Bits())))
    ensures Quiet(g.Slots(), g.Bits())
  {
    hide Stream, Settled, Marks, Live, Finite;
    outs := [];
    while true
      invariant g.Valid()
      invariant Stream(g.api, now, true, old(g.Slots()), old(g.Bits()), 0)
             == outs + Stream(g.api, now, true, g.Slots(), g.Bits(), 0)
      invariant Trim(Settled(g.api, now, true, old(g.Slots()), old(g.Bits())))
             == Trim(Settled(g.api, now, true, g.Slots(), g.Bits()))
      decreases |Stream(g.api, now, true, g.Slots(), g.Bits(), 0)|
      modifies g.Repr()
    {
      var out := PollRemoving(g, now, mark);
      if out.None? {
        QuietStream(g.api, now, true, g.Slots(), g.Bits());
        return;
      }
      outs := outs + [out.value];
    }
  }

  // A task that, reported empty and left in its slot, has more to say.
  ghost predicate SpeaksAgain<S(!new), Time, In, Out>(api: TaskApi<S, Time, In, Out>, now: Time, c: TaskContainer<S>)
    requires Finite(api, now)
  {
    NewlyEmpty(api, now, c) && Outputs(api, now, Rest(api, now, c.task)) != []
  }

  lemma ConcatEqual<T>(a: seq<T>, x: seq<T>, b: seq<T>, y: seq<T>)
    requires |a| <= |b| && |x| <= |y|
    ensures a + x == b + y <==> a == b && x == y
  {
    if a + x == b + y {
      assert a == (a + x)[..|a|] && b == (b + y)[..|b|];
      assert x == (a + x)[|a|..] && y == (b + y)[|b|..];
    }
  }

  // Removing changes nothing else about the outputs: the two drains agree exactly when no task speaks again.
  lemma {:induction false} RemovalIndifference<S(!new), Time, In, Out>(
    api: TaskApi<S, Time, In, Out>, now: Time, slots: Slots<S>, bits: seq<bool>, from: nat)
    requires Finite(api, now) && from <= |slots| <= |bits|
    ensures |Stream(api, now, true, slots, bits, from)| <= |Stream(api, now, false, slots, bits, from)|
    ensures Stream(api, now, true, slots, bits, from) == Stream(api, now, false, slots, bits, from)
       <==> forall i :: from <= i < |slots| && Flagged(slots, bits, i) ==> !SpeaksAgain(api, now, slots[i].value)
    decreases |slots| - from
  {
    if from < |slots| {
      var x, y := Stream(api, now, true, slots, bits, from + 1), Stream(api, now, false, slots, bits, from + 1);
      RemovalIndifference(api, now, slots, bits, from + 1);
      if Flagged(slots, bits, from) {
        var c := slots[from].value;
        var a, b := SlotStream(api, now, true, c), SlotStream(api, now, false, c);
        assert b == a + if SpeaksAgain(api, now, c) then Outputs(api, now, Rest(api, now, c.task)) else [];
        assert a == b <==> !SpeaksAgain(api, now, c) by { assert a == b ==> |a| == |b|; }
        assert Tagged(from, a) == Tagged(from, b) <==> a == b by {
          assert Tagged(from, a) == Tagged(from, b) ==> |a| == |b|;
        }
        ConcatEqual(Tagged(from, a), x, Tagged(from, b), y);
      } else {
        ConcatEqual([], x, [], y);
      }
    }
  }

  // What can happen to the occupant of a slot: an input changes its state, or the group polls it.
  datatype Happening<!S, !Time> = Input(change: S -> S) | Poll(now: Time)

  function Step<S, Time, In, Out>(api: TaskApi<S, Time, In, Out>, c: TaskContainer<S>, h: Happening<S, Time>)
    : (Option<Out>, TaskContainer<S>)
  {
    match h
    case Input(change) => (None, c.(task := change(c.task)))
    case Poll(now) => PolledOnce(api, now, c)
  }

  function Occupant<S, Time, In, Out>(
    api: TaskApi<S, Time, In, Out>, c: TaskContainer<S>, hs: seq<Happening<S, Time>>): TaskContainer<S>
  {
    if hs == [] then c else Step(api, Occupant(api, c, hs[..|hs| - 1]), hs[|hs| - 1]).1
  }

  function HandedOut<S, Time, In, Out>(
    api: TaskApi<S, Time, In, Out>, c: TaskContainer<S>, hs: seq<Happening<S, Time>>): seq<Out>
  {
    if hs == [] then []
    else
      var out := Step(api, Occupant(api, c, hs[..|hs| - 1]), hs[|hs| - 1]).0;
      HandedOut(api, c, hs[..|hs| - 1]) + if out.Some? then [out.value] else []
  }

  // The k-th happening is a poll that hands out the occupant's empty event.
  predicate EmptyEventAt<S, Time, In, Out>(
    api: TaskApi<S, Time, In, Out>, c: TaskContainer<S>, hs: seq<Happening<S, Time>>, k: nat)
  {
    k < |hs| && hs[k].Poll? && TurnsEmpty(api, hs[k].now, Occupant(api, c, hs[..k]))
  }

  // The k-th happening is a poll that the occupant answers with None although it is not empty.
  predicate FoundBusyAt<S, Time, In, Out>(
    api: TaskApi<S, Time, In, Out>, c: TaskContainer<S>, hs: seq<Happening<S, Time>>, k: nat)
  {
    k < |hs| && hs[k].Poll?
    && var p := api.pop(Occupant(api, c, hs[..k]).task, hs[k].now); p.out.None? && !api.isEmpty(p.state)
  }

  // The states of the task alone, whatever the group makes of them.
  ghost predicate StatesOf<S, Time, In, Out>(
    api: TaskApi<S, Time, In, Out>, start: S, hs: seq<Happening<S, Time>>, states: seq<S>)
  {
    |states| == |hs| + 1 && states[0] == start
    && forall k :: 0 <= k < |hs| ==>
         match hs[k]
         case Input(change) => states[k + 1] == change(states[k])
         case Poll(now) => states[k + 1] == api.pop(states[k], now).state
  }

  // Happening k is a poll that the task answers with None.
  ghost predicate FoundDry<S, Time, In, Out>(
    api: TaskApi<S, Time, In, Out>, hs: seq<Happening<S, Time>>, states: seq<S>, k: nat)
    requires k < |hs| && |states| == |hs| + 1
  {
    hs[k].Poll? && api.pop(states[k], hs[k].now).out.None?
  }

  // The last poll before happening k that found the task dry found it empty; if there is none, what was noted at first.
  ghost predicate LastFoundEmpty<S, Time, In, Out>(
    api: TaskApi<S, Time, In, Out>, noted: bool, hs: seq<Happening<S, Time>>, states: seq<S>, k: nat)
    requires k <= |hs| && |states| == |hs| + 1
  {
    if exists j :: 0 <= j < k && FoundDry(api, hs, states, j) then
      exists j :: 0 <= j < k && FoundDry(api, hs, states, j) && api.isEmpty(states[j + 1])
                  && forall m :: j < m < k ==> !FoundDry(api, hs, states, m)
    else noted
  }

  lemma LastFoundEmptyStep<S, Time, In, Out>(
    api: TaskApi<S, Time, In, Out>, noted: bool, hs: seq<Happening<S, Time>>, states: seq<S>, k: nat)
    requires k < |hs| && |states| == |hs| + 1
    ensures LastFoundEmpty(api, noted, hs, states, k + 1)
       <==> if FoundDry(api, hs, states, k) then api.isEmpty(states[k + 1])
            else LastFoundEmpty(api, noted, hs, states, k)
  {
    if !FoundDry(api, hs, states, k) {
      if LastFoundEmpty(api, noted, hs, states, k) && exists j :: 0 <= j < k && FoundDry(api, hs, states, j) {
        var j :| 0 <= j < k && FoundDry(api, hs, states, j) && api.isEmpty(states[j + 1])
                 && forall m :: j < m < k ==> !FoundDry(api, hs, states, m);
        assert forall m :: j < m < k + 1 ==> !FoundDry(api, hs, states, m);
      }
    }
  }

  // The container holds the task's state, and the note what the last dry poll found.
  lemma {:induction false} OccupantIs<S, Time, In, Out>(
    api: TaskApi<S, Time, In, Out>, c: TaskContainer<S>, hs: seq<Happening<S, Time>>, states: seq<S>, k: nat)
    requires StatesOf(api, c.task, hs, states) && k <= |hs|
    ensures Occupant(api, c, hs[..k]).task == states[k]
    ensures Occupant(api, c, hs[..k]).isEmpty <==> LastFoundEmpty(api, c.isEmpty, hs, states, k)
    decreases k
  {
    if k > 0 {
      OccupantIs(api, c, hs, states, k - 1);
      assert hs[..k][..k - 1] == hs[..k - 1];
      LastFoundEmptyStep(api, c.isEmpty, hs, states, k - 1);
    }
  }

  /** What a group hands out for one occupant, in any history of inputs and polls: every output of the task, unchanged,
      and besides its empty event in exactly those polls that find it dry and empty, unless the last poll before that
      found it dry has already found it empty. */
  lemma HandsOutExactly<S, Time, In, Out>(
    api: TaskApi<S, Time, In, Out>, c: TaskContainer<S>, hs: seq<Happening<S, Time>>, states: seq<S>, k: nat)
    requires StatesOf(api, c.task, hs, states) && k < |hs|
    ensures var out := Step(api, Occupant(api, c, hs[..k]), hs[k]).0;
            match hs[k]
            case Input(_) => out == None
            case Poll(now) =>
              if !FoundDry(api, hs, states, k) then out == api.pop(states[k], now).out
              else if api.isEmpty(states[k + 1]) && !LastFoundEmpty(api, c.isEmpty, hs, states, k) then
                out == Some(api.emptyEvent(states[k + 1]))
              else out == None
  {
    OccupantIs(api, c, hs, states, k);
  }

  lemma {:induction false} StaysReported<S, Time, In, Out>(
    api: TaskApi<S, Time, In, Out>, c: TaskContainer<S>, hs: seq<Happening<S, Time>>, start: nat, end: nat)
    requires start <= end <= |hs|
    requires Occupant(api, c, hs[..start]).isEmpty
    requires forall k :: start <= k < end ==> !FoundBusyAt(api, c, hs, k)
    ensures Occupant(api, c, hs[..end]).isEmpty
    decreases end
  {
    if start < end {
      StaysReported(api, c, hs, start, end - 1);
      assert hs[..end][..end - 1] == hs[..end - 1];
      assert !FoundBusyAt(api, c, hs, end - 1);
    }
  }

  /** Between two empty events of one occupant lies a poll that it answered with None although it was not empty,
      whatever inputs and polls there are, and however many outputs the task has. */
  lemma EmptyEventsDoNotRepeat<S, Time, In, Out>(
    api: TaskApi<S, Time, In, Out>, c: TaskContainer<S>, hs: seq<Happening<S, Time>>, first: nat, second: nat)
    requires first < second
    requires EmptyEventAt(api, c, hs, first) && EmptyEventAt(api, c, hs, second)
    ensures exists k :: first < k < second && FoundBusyAt(api, c, hs, k)
  {
    if !exists k :: first < k < second && FoundBusyAt(api, c, hs, k) {
      assert hs[..first + 1][..first] == hs[..first];
      StaysReported(api, c, hs, first + 1, second);
    }
  }

  lemma {:induction false} FirstHappening<S, Time, In, Out>(
    api: TaskApi<S, Time, In, Out>, c: TaskContainer<S>, h: Happening<S, Time>, hs: seq<Happening<S, Time>>)
    ensures var (out, c') := Step(api, c, h);
            Occupant(api, c, [h] + hs) == Occupant(api, c', hs)
            && HandedOut(api, c, [h] + hs) == (if out.Some? then [out.value] else []) + HandedOut(api, c', hs)
  {
    if hs == [] {
      assert [h] + hs == [h] && [h][..0] == [];
    } else {
      FirstHappening(api, c, h, hs[..|hs| - 1]);
      assert ([h] + hs)[..|hs|] == [h] + hs[..|hs| - 1];
    }
  }

  function RowOfPolls<S, Time>(now: Time, n: nat): (hs: seq<Happening<S, Time>>)
    ensures |hs| == n
  {
    if n == 0 then [] else [Poll(now)] + RowOfPolls(now, n - 1)
  }

  // One poll, read as a step of the slot's part of a drain.
  lemma SlotPolled<S(!new), Time, In, Out>(api: TaskApi<S, Time, In, Out>, now: Time, c: TaskContainer<S>)
    requires Finite(api, now)
    ensures var (out, c') := PolledOnce(api, now, c);
            if out.None? then SlotStream(api, now, false, c) == [] && SlotRest(api, now, false, c) == Some(c')
            else
              SlotStream(api, now, false, c) == [out.value] + SlotStream(api, now, false, c')
              && SlotRest(api, now, false, c) == SlotRest(api, now, false, c')
              && if c.isEmpty == c'.isEmpty then api.pending(c'.task, now) < api.pending(c.task, now) else c'.isEmpty
  {
  }

  /** A slot's part of a drain is a row of such polls: outputs and final container are those of n polls in a row, all of
      which but the last hand something out. */
  lemma {:induction false} DrainIsPolls<S(!new), Time, In, Out>(
    api: TaskApi<S, Time, In, Out>, now: Time, c: TaskContainer<S>) returns (n: nat)
    requires Finite(api, now)
    ensures HandedOut(api, c, RowOfPolls(now, n)) == SlotStream(api, now, false, c)
    ensures n == |SlotStream(api, now, false, c)| + 1
    ensures Some(Occupant(api, c, RowOfPolls(now, n))) == SlotRest(api, now, false, c)
    decreases if c.isEmpty then 0 else 1, api.pending(c.task, now)
  {
    hide PolledOnce, SlotStream, SlotRest, Finite;
    var (out, c') := PolledOnce(api, now, c);
    SlotPolled(api, now, c);
    var m := 0;
    if out.Some? {
      m := DrainIsPolls(api, now, c');
    }
    n := m + 1;
    FirstHappening(api, c, Poll(now), RowOfPolls(now, m));
  }
}
