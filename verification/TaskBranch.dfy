/** A group as one branch of an outer switcher (src/task/switcher.rs, TaskSwitcherBranch). */
module TaskBranches {
  import opened Options
  import opened Tasks
  import opened TaskSwitchers
  import opened TaskGroups

  // When a poll of a branch reports the branch empty, and what it remembers of it.
  predicate ReportRule(before: bool, dry: bool, empty: bool, reported: bool, after: bool) {
    reported == (dry && !before && empty) && after == if dry then empty else before
  }

  // One poll of a branch: was the group dry, was it then empty, was that reported, and the note it left.
  datatype BranchPoll = BranchPoll(dry: bool, empty: bool, reported: bool, note: bool)

  ghost predicate RuleAt(polls: seq<BranchPoll>, k: nat)
    requires k < |polls|
  {
    ReportRule(k > 0 && polls[k - 1].note, polls[k].dry, polls[k].empty, polls[k].reported, polls[k].note)
  }

  ghost predicate BranchHistory(polls: seq<BranchPoll>) {
    forall k :: 0 <= k < |polls| ==> RuleAt(polls, k)
  }

  // The last dry poll before position k found the group empty.
  ghost predicate LastFoundEmpty(polls: seq<BranchPoll>, k: nat)
    requires k <= |polls|
  {
    exists j :: 0 <= j < k && polls[j].dry && polls[j].empty && forall m :: j < m < k ==> !polls[m].dry
  }

  lemma {:induction false} NoteMeansLastFoundEmpty(polls: seq<BranchPoll>, k: nat)
    requires BranchHistory(polls) && k < |polls|
    ensures polls[k].note <==> LastFoundEmpty(polls, k + 1)
    decreases k
  {
    assert RuleAt(polls, k);
    if polls[k].dry {
      if polls[k].empty {
        assert LastFoundEmpty(polls, k + 1);
      }
    } else if k > 0 {
      NoteMeansLastFoundEmpty(polls, k - 1);
      if LastFoundEmpty(polls, k) {
        var j :| 0 <= j < k && polls[j].dry && polls[j].empty && forall m :: j < m < k ==> !polls[m].dry;
        assert forall m :: j < m < k + 1 ==> !polls[m].dry;
      }
      if LastFoundEmpty(polls, k + 1) {
        var j :| 0 <= j < k + 1 && polls[j].dry && polls[j].empty && forall m :: j < m < k + 1 ==> !polls[m].dry;
        assert j < k;
      }
    }
  }

  /** A branch reports itself empty in exactly those polls that find its group dry and empty, unless the last dry poll
      before has already found it empty. */
  lemma ReportedExactly(polls: seq<BranchPoll>, k: nat)
    requires BranchHistory(polls) && k < |polls|
    ensures polls[k].reported <==> polls[k].dry && polls[k].empty && !LastFoundEmpty(polls, k)
  {
    assert RuleAt(polls, k);
    if k > 0 {
      NoteMeansLastFoundEmpty(polls, k - 1);
    }
  }

  lemma {:induction false} NoteTakenBack(polls: seq<BranchPoll>, first: nat, last: nat)
    requires BranchHistory(polls) && first < last < |polls|
    requires polls[first].note && !polls[last].note
    ensures exists k :: first < k <= last && polls[k].dry && !polls[k].empty
    decreases last
  {
    assert RuleAt(polls, last);
    if !polls[last].dry {
      NoteTakenBack(polls, first, last - 1);
    }
  }

  /** Between two reports of a branch lies a poll that found its group dry but not empty. */
  lemma ReportsDoNotRepeat(polls: seq<BranchPoll>, first: nat, second: nat)
    requires BranchHistory(polls) && first < second < |polls|
    requires polls[first].reported && polls[second].reported
    ensures exists k :: first < k < second && polls[k].dry && !polls[k].empty
  {
    assert RuleAt(polls, first) && RuleAt(polls, second);
    NoteTakenBack(polls, first, second - 1);
  }

  class TaskSwitcherBranch<S(!new), Time, In, Out> {
    const taskType: nat
    const task: TaskGroup<S, Time, In, Out>
    var isEmpty: bool

    ghost function Repr(): set<object> {
      {this, task, task.tasks, task.switcher, task.switcher.bits}
    }

    // The branch hangs under `outer`, which knows its number.
    ghost predicate Under(outer: TaskSwitcher)
      reads Repr(), outer.bits
    {
      task.Valid() && outer.Valid() && taskType < outer.Tasks() && outer != task.switcher
      && outer.bits != task.switcher.bits
    }

    // Two branches share no object.
    ghost predicate Apart(other: TaskSwitcherBranch<S, Time, In, Out>) {
      this != other && task != other.task && task.tasks != other.task.tasks
      && task.switcher != other.task.switcher && task.switcher.bits != other.task.switcher.bits
    }

    // No flag is up inside unless the branch's own flag is up.
    ghost predicate Covered(outer: TaskSwitcher)
      reads Repr(), outer.bits
      requires Under(outer)
    {
      !outer.Bits()[taskType] ==> Quiet(task.Slots(), task.Bits())
    }

    constructor (api: TaskApi<S, Time, In, Out>, stackSize: nat, taskType: nat)
      ensures this.taskType == taskType && !isEmpty
      ensures task.Valid() && fresh(Repr()) && task.api == api && task.Slots() == []
      ensures Quiet(task.Slots(), task.Bits())
    {
      this.task := new TaskGroup(api, stackSize);
      this.taskType, this.isEmpty := taskType, false;
    }

    // The only way to the group: the outer flag goes up first, so whatever is flagged inside stays covered.
    method Input(outer: TaskSwitcher) returns (group: TaskGroup<S, Time, In, Out>)
      requires Under(outer)
      modifies outer.bits
      ensures Under(outer) && group == task
      ensures outer.Tasks() == old(outer.Tasks()) && outer.Bits() == old(outer.Bits())[taskType := true]
      ensures outer.Waiting() == old(outer.Waiting()) + {taskType}
    {
      outer.FlagTask(taskType);
      group := task;
    }

    method IsEmpty() returns (empty: bool)
      requires task.Valid()
      ensures empty <==> AllMarked(task.Slots())
    {
      empty := task.IsEmpty();
    }

    // The group's own answer inside an answer of the branch.
    static function Inner(out: Option<GroupOutput<Out>>): Option<GroupOutput<Out>> {
      if out == Some(OnResourceEmpty) then None else out
    }

    /** One poll through the branch. The outer flag goes down only when the group has no flag up and its emptiness
        has been reported; the report is given once per time the group turns empty. */
    method PopOutput(now: Time, outer: TaskSwitcher) returns (out: Option<GroupOutput<Out>>)
      requires Under(outer)
      modifies this`isEmpty, task.Repr(), outer.bits
      ensures Under(outer) && outer.Tasks() == old(outer.Tasks())
      ensures outer.Bits() == old(outer.Bits())[taskType := old(outer.Bits())[taskType] && out.Some?]
      ensures out.None? ==> outer.Waiting() == old(outer.Waiting()) - {taskType}
      ensures out.Some? ==> outer.Waiting() == old(outer.Waiting())
      ensures |task.Slots()| == |old(task.Slots())| && |task.Bits()| == |old(task.Bits())|
      ensures Live(task.Slots()) == Live(old(task.Slots()))
      ensures Answers(task.api, now, old(task.Slots()), old(task.Bits()), Inner(out), task.Slots(), task.Bits())
      ensures Inner(out).None? ==> Quiet(task.Slots(), task.Bits())
      ensures Inner(out).Some? ==> isEmpty == old(isEmpty) && out.value.index in Live(task.Slots())
                                   && out.value.index < |task.Slots()|
      ensures ReportRule(old(isEmpty), Inner(out).None?, AllMarked(task.Slots()), out == Some(OnResourceEmpty), isEmpty)
    {
      hide Answers, Live, Marked, AllMarked, Quiet, TaskGroup.Shaped, TaskSwitcher.Waiting;
      assert outer.Bits()[taskType := outer.Bits()[taskType]] == outer.Bits();
      out := task.PopOutput(now);
      if out.None? {
        var empty := task.IsEmpty();
        if !isEmpty {
          if empty {
            isEmpty := true;
            return Some(OnResourceEmpty);
          }
        } else if !empty {
          isEmpty := false;
        }
        outer.Finished(taskType);
      }
    }
  }
}
