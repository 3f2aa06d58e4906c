/** The index that shares one UDP socket between many tasks (examples/sfu/shared_port.rs). */
module SharedUdpPorts {
  import opened Options
  import opened Lists

  datatype Index<Task, Addr, Ufrag> = Index(
    remotes: map<Addr, Task>, remotesOf: map<Task, seq<Addr>>, ufrags: map<Ufrag, Task>, ufragOf: map<Task, Ufrag>)

  ghost predicate UfragsInverse<Task, Addr, Ufrag>(ix: Index<Task, Addr, Ufrag>) {
    (forall t :: t in ix.ufragOf ==> ix.ufragOf[t] in ix.ufrags && ix.ufrags[ix.ufragOf[t]] == t)
    && (forall u :: u in ix.ufrags ==> ix.ufrags[u] in ix.ufragOf && ix.ufragOf[ix.ufrags[u]] == u)
  }

  ghost predicate RemotesInverse<Task, Addr, Ufrag>(ix: Index<Task, Addr, Ufrag>) {
    (forall a :: a in ix.remotes ==> ix.remotes[a] in ix.remotesOf && a in ix.remotesOf[ix.remotes[a]])
    && (forall t, k: nat :: t in ix.remotesOf && k < |ix.remotesOf[t]| ==>
                              ix.remotesOf[t][k] in ix.remotes && ix.remotes[ix.remotesOf[t][k]] == t)
  }

  /** The four maps are inverse in pairs, nothing is listed twice, and only registered tasks have remotes. */
  ghost predicate Coherent<Task, Addr, Ufrag>(ix: Index<Task, Addr, Ufrag>) {
    UfragsInverse(ix) && RemotesInverse(ix)
    && (forall t :: t in ix.remotesOf ==> NoDup(ix.remotesOf[t]))
    && (forall t :: t in ix.remotesOf ==> t in ix.ufragOf)
  }

  function WithUfrag<Task, Addr, Ufrag>(ix: Index<Task, Addr, Ufrag>, ufrag: Ufrag, task: Task)
    : Index<Task, Addr, Ufrag>
  {
    ix.(ufrags := ix.ufrags[ufrag := task], ufragOf := ix.ufragOf[task := ufrag])
  }

  function Dropped<Task, Addr>(remotes: map<Addr, Task>, gone: seq<Addr>): map<Addr, Task> {
    map a | a in remotes && a !in gone :: remotes[a]
  }

  // Every lookup that fails ends the removal there.
  function Without<Task, Addr, Ufrag>(ix: Index<Task, Addr, Ufrag>, task: Task): Index<Task, Addr, Ufrag> {
    if task !in ix.ufragOf then ix
    else
      var ufrag := ix.ufragOf[task];
      var a := ix.(ufragOf := ix.ufragOf - {task});
      if ufrag !in ix.ufrags then a
      else
        var b := a.(ufrags := ix.ufrags - {ufrag});
        if task !in ix.remotesOf then b
        else b.(remotesOf := ix.remotesOf - {task}, remotes := Dropped(ix.remotes, ix.remotesOf[task]))
  }

  // The task a datagram belongs to; `user` is the user name in it, when it is a STUN message that has one.
  function Owner<Task, Addr, Ufrag>(ix: Index<Task, Addr, Ufrag>, remote: Addr, user: Option<Ufrag>): Option<Task> {
    if remote in ix.remotes then Some(ix.remotes[remote])
    else if user.Some? && user.value in ix.ufrags then Some(ix.ufrags[user.value])
    else None
  }

  function Mapped<Task, Addr, Ufrag>(ix: Index<Task, Addr, Ufrag>, remote: Addr, user: Option<Ufrag>)
    : Index<Task, Addr, Ufrag>
  {
    if remote !in ix.remotes && Owner(ix, remote, user).Some? then
      var task := Owner(ix, remote, user).value;
      var known := if task in ix.remotesOf then ix.remotesOf[task] else [];
      ix.(remotes := ix.remotes[remote := task], remotesOf := ix.remotesOf[task := known + [remote]])
    else ix
  }

  class SharedUdpPort<Task(==), Addr(==), Ufrag(==)> {
    var taskRemotes: map<Addr, Task>
    var taskRemotesMap: map<Task, seq<Addr>>
    var taskUfrags: map<Ufrag, Task>
    var taskUfragsReverse: map<Task, Ufrag>

    ghost function View(): Index<Task, Addr, Ufrag>
      reads this
    {
      Index(taskRemotes, taskRemotesMap, taskUfrags, taskUfragsReverse)
    }

    constructor ()
      ensures View() == Index(map[], map[], map[], map[])
    {
      taskRemotes, taskRemotesMap, taskUfrags, taskUfragsReverse := map[], map[], map[], map[];
    }

    method AddUfrag(ufrag: Ufrag, task: Task)
      modifies this
      ensures View() == WithUfrag(old(View()), ufrag, task)
    {
      taskUfrags := taskUfrags[ufrag := task];
      taskUfragsReverse := taskUfragsReverse[task := ufrag];
    }

    method RemoveTask(task: Task) returns (whole: bool)
      modifies this
      ensures View() == Without(old(View()), task)
      ensures old(Coherent(View())) ==> (whole <==> task in old(taskRemotesMap))
    {
      if task !in taskUfragsReverse {
        return false;
      }
      var ufrag := taskUfragsReverse[task];
      taskUfragsReverse := taskUfragsReverse - {task};
      if ufrag !in taskUfrags {
        return false;
      }
      taskUfrags := taskUfrags - {ufrag};
      if task !in taskRemotesMap {
        return false;
      }
      var remotes := taskRemotesMap[task];
      taskRemotesMap := taskRemotesMap - {task};
      for i := 0 to |remotes|
        invariant taskRemotes == Dropped(old(taskRemotes), remotes[..i])
        invariant View() == Without(old(View()), task).(remotes := taskRemotes)
      {
        taskRemotes := taskRemotes - {remotes[i]};
        assert remotes[..i + 1] == remotes[..i] + [remotes[i]];
      }
      assert remotes[..|remotes|] == remotes;
      whole := true;
    }

    method MapRemote(remote: Addr, user: Option<Ufrag>) returns (task: Option<Task>)
      modifies this
      ensures task == Owner(old(View()), remote, user) && View() == Mapped(old(View()), remote, user)
    {
      if remote in taskRemotes {
        return Some(taskRemotes[remote]);
      }
      if user.None? || user.value !in taskUfrags {
        return None;
      }
      var owner := taskUfrags[user.value];
      taskRemotes := taskRemotes[remote := owner];
      var known := if owner in taskRemotesMap then taskRemotesMap[owner] else [];
      taskRemotesMap := taskRemotesMap[owner := known + [remote]];
      task := Some(owner);
    }
  }

  /** Registering keeps the maps coherent exactly if neither the name nor the task is bound to something else. */
  lemma AddUfragKeeps<Task, Addr, Ufrag>(ix: Index<Task, Addr, Ufrag>, ufrag: Ufrag, task: Task)
    requires Coherent(ix)
    ensures Coherent(WithUfrag(ix, ufrag, task)) <==>
            (ufrag in ix.ufrags ==> ix.ufrags[ufrag] == task) && (task in ix.ufragOf ==> ix.ufragOf[task] == ufrag)
  {
    var after := WithUfrag(ix, ufrag, task);
    if ufrag in ix.ufrags && ix.ufrags[ufrag] != task {
      assert after.ufragOf[ix.ufrags[ufrag]] == ufrag;
    } else if task in ix.ufragOf && ix.ufragOf[task] != ufrag {
      assert after.ufrags[ix.ufragOf[task]] == task;
    } else {
      assert RemotesInverse(after);
    }
  }

  // No map knows the task.
  ghost predicate Forgotten<Task, Addr, Ufrag>(ix: Index<Task, Addr, Ufrag>, task: Task) {
    task !in ix.remotesOf && task !in ix.ufragOf
    && (forall a :: a in ix.remotes ==> ix.remotes[a] != task)
    && (forall u :: u in ix.ufrags ==> ix.ufrags[u] != task)
  }

  // What the maps say about a task is the same in both.
  ghost predicate SameFor<Task, Addr, Ufrag>(a: Index<Task, Addr, Ufrag>, b: Index<Task, Addr, Ufrag>, task: Task) {
    (task in a.ufragOf <==> task in b.ufragOf) && (task in a.ufragOf ==> a.ufragOf[task] == b.ufragOf[task])
    && (task in a.remotesOf <==> task in b.remotesOf)
    && (task in a.remotesOf ==> a.remotesOf[task] == b.remotesOf[task])
    && (forall r :: r in a.remotes && a.remotes[r] == task ==> r in b.remotes && b.remotes[r] == task)
    && (forall r :: r in b.remotes && b.remotes[r] == task ==> r in a.remotes && a.remotes[r] == task)
  }

  lemma RemoveUfrag<Task, Addr, Ufrag>(ix: Index<Task, Addr, Ufrag>, task: Task)
    requires UfragsInverse(ix)
    ensures UfragsInverse(Without(ix, task))
    ensures task !in Without(ix, task).ufragOf
    ensures forall u :: u in Without(ix, task).ufrags ==> Without(ix, task).ufrags[u] != task
  {
  }

  lemma RemoveRemotes<Task, Addr, Ufrag>(ix: Index<Task, Addr, Ufrag>, task: Task)
    requires Coherent(ix)
    ensures RemotesInverse(Without(ix, task))
    ensures forall a :: a in Without(ix, task).remotes ==> Without(ix, task).remotes[a] != task
  {
  }

  /** On every path, also when it ends early, a removal leaves no trace of the task and touches no other. */
  lemma RemoveForgets<Task, Addr, Ufrag>(ix: Index<Task, Addr, Ufrag>, task: Task)
    requires Coherent(ix)
    ensures Coherent(Without(ix, task)) && Forgotten(Without(ix, task), task)
    ensures forall t :: t != task ==> SameFor(ix, Without(ix, task), t)
  {
    RemoveUfrag(ix, task);
    RemoveRemotes(ix, task);
  }

  /** Whom a datagram belongs to, read off the other two maps: the task that lists its remote, or, when no task does,
      the task that is registered under the user name it carries. */
  lemma OwnerMeaning<Task, Addr, Ufrag>(
    ix: Index<Task, Addr, Ufrag>, remote: Addr, user: Option<Ufrag>, task: Task)
    requires Coherent(ix)
    ensures Owner(ix, remote, user) == Some(task) <==>
            (task in ix.remotesOf && remote in ix.remotesOf[task])
            || ((forall t :: t in ix.remotesOf ==> remote !in ix.remotesOf[t])
                && task in ix.ufragOf && user == Some(ix.ufragOf[task]))
  {
    if task in ix.remotesOf && remote in ix.remotesOf[task] {
      var k :| 0 <= k < |ix.remotesOf[task]| && ix.remotesOf[task][k] == remote;
    }
    assert forall t, k: nat :: t in ix.remotesOf && k < |ix.remotesOf[t]| ==> ix.remotesOf[t][k] in ix.remotes;
  }

  /** A datagram finds its owner without disturbing the maps, and from then on its remote belongs to that owner. */
  lemma MapRemoteKeeps<Task, Addr, Ufrag>(ix: Index<Task, Addr, Ufrag>, remote: Addr, user: Option<Ufrag>)
    requires Coherent(ix)
    ensures Coherent(Mapped(ix, remote, user))
    ensures forall later :: Owner(Mapped(ix, remote, user), remote, later) ==
                            if later == user || remote in ix.remotes || Owner(ix, remote, user).Some? then
                              Owner(ix, remote, user)
                            else Owner(ix, remote, later)
    ensures forall r :: r in ix.remotes ==>
              r in Mapped(ix, remote, user).remotes && Mapped(ix, remote, user).remotes[r] == ix.remotes[r]
  {
    var after := Mapped(ix, remote, user);
    if after != ix {
      var task := Owner(ix, remote, user).value;
      var list := after.remotesOf[task];
      assert list[|list| - 1] == remote;
    }
  }
}
