/** The index of the shared port over the life of an SFU worker's tasks (examples/sfu/mod.rs): which tasks are
    registered in it against which tasks exist. */
module SfuRegistries {
  import opened Options
  import opened SharedUdpPorts

  datatype TaskId = Whip(slot: nat) | Whep(slot: nat)

  datatype Registry<Addr, Ufrag> = Registry(index: Index<TaskId, Addr, Ufrag>, whips: set<nat>, wheps: set<nat>)

  datatype Event<Addr, Ufrag> =
    | ConnectWhip(slot: nat, ufrag: Ufrag)
    | ConnectWhep(slot: nat, ufrag: Ufrag)
    | WhipEmpty(slot: nat)
    | WhepEmpty(slot: nat)
    | Datagram(remote: Addr, user: Option<Ufrag>)

  // A new task takes a vacant slot and a name nobody has; only a task that exists reports itself empty.
  ghost predicate Enabled<Addr, Ufrag>(s: Registry<Addr, Ufrag>, e: Event<Addr, Ufrag>) {
    match e
    case ConnectWhip(slot, ufrag) => slot !in s.whips && ufrag !in s.index.ufrags
    case ConnectWhep(slot, ufrag) => slot !in s.wheps && ufrag !in s.index.ufrags
    case WhipEmpty(slot) => slot in s.whips
    case WhepEmpty(slot) => slot in s.wheps
    case Datagram(_, _) => true
  }

  ghost function Next<Addr, Ufrag>(s: Registry<Addr, Ufrag>, e: Event<Addr, Ufrag>): Registry<Addr, Ufrag> {
    match e
    case ConnectWhip(slot, ufrag) => Registry(WithUfrag(s.index, ufrag, Whip(slot)), s.whips + {slot}, s.wheps)
    case ConnectWhep(slot, ufrag) => Registry(WithUfrag(s.index, ufrag, Whep(slot)), s.whips, s.wheps + {slot})
    case WhipEmpty(slot) => Registry(Without(s.index, Whip(slot)), s.whips - {slot}, s.wheps)
    // The code names the whip task of the same slot here.
    case WhepEmpty(slot) => Registry(Without(s.index, Whip(slot)), s.whips, s.wheps - {slot})
    case Datagram(remote, user) => s.(index := Mapped(s.index, remote, user))
  }

  function Empty<Addr, Ufrag>(): Registry<Addr, Ufrag> {
    Registry(Index(map[], map[], map[], map[]), {}, {})
  }

  predicate Exists<Addr, Ufrag>(s: Registry<Addr, Ufrag>, t: TaskId) {
    match t
    case Whip(slot) => slot in s.whips
    case Whep(slot) => slot in s.wheps
  }

  // The tasks in the index are those that exist.
  ghost predicate Agreement<Addr, Ufrag>(s: Registry<Addr, Ufrag>) {
    Coherent(s.index) && forall t: TaskId :: t in s.index.ufragOf <==> Exists(s, t)
  }

  /** Every event but one keeps index and tasks in agreement, and that one always ends it. */
  lemma StepAgrees<Addr, Ufrag>(s: Registry<Addr, Ufrag>, e: Event<Addr, Ufrag>)
    requires Agreement(s) && Enabled(s, e)
    ensures Agreement(Next(s, e)) <==> !e.WhepEmpty?
  {
    var after := Next(s, e);
    match e {
      case ConnectWhip(slot, ufrag) =>
        assert !Exists(s, Whip(slot));
        AddUfragKeeps(s.index, ufrag, Whip(slot));
      case ConnectWhep(slot, ufrag) =>
        assert !Exists(s, Whep(slot));
        AddUfragKeeps(s.index, ufrag, Whep(slot));
      case WhipEmpty(slot) =>
        RemoveForgets(s.index, Whip(slot));
        assert forall t: TaskId :: t != Whip(slot) ==> (t in after.index.ufragOf <==> t in s.index.ufragOf);
      case WhepEmpty(slot) =>
        assert Exists(s, Whep(slot));
        assert Whep(slot) in after.index.ufragOf && !Exists(after, Whep(slot));
      case Datagram(remote, user) =>
        MapRemoteKeeps(s.index, remote, user);
        assert forall t: TaskId :: Exists(after, t) == Exists(s, t);
    }
  }

  ghost predicate EnabledRun<Addr, Ufrag>(s: Registry<Addr, Ufrag>, events: seq<Event<Addr, Ufrag>>)
    decreases |events|
  {
    events != [] ==> Enabled(s, events[0]) && EnabledRun(Next(s, events[0]), events[1..])
  }

  ghost function Run<Addr, Ufrag>(s: Registry<Addr, Ufrag>, events: seq<Event<Addr, Ufrag>>): Registry<Addr, Ufrag>
    decreases |events|
  {
    if events == [] then s else Run(Next(s, events[0]), events[1..])
  }

  // A name whose task is a whep task that is gone, or is known by another name. Names of whip tasks are still
  // consistent, so nothing ever removes this one.
  ghost predicate Stale<Addr, Ufrag>(s: Registry<Addr, Ufrag>, name: Ufrag, slot: nat) {
    name in s.index.ufrags && s.index.ufrags[name] == Whep(slot)
    && !(slot in s.wheps && Whep(slot) in s.index.ufragOf && s.index.ufragOf[Whep(slot)] == name)
    && forall t: TaskId :: t.Whip? && t in s.index.ufragOf ==>
         t.slot in s.whips && s.index.ufragOf[t] in s.index.ufrags && s.index.ufrags[s.index.ufragOf[t]] == t
  }

  lemma WhepRemovalLeavesStale<Addr, Ufrag>(s: Registry<Addr, Ufrag>, slot: nat)
    requires Agreement(s) && slot in s.wheps
    ensures Whep(slot) in s.index.ufragOf && Stale(Next(s, WhepEmpty(slot)), s.index.ufragOf[Whep(slot)], slot)
  {
    assert Exists(s, Whep(slot));
    RemoveForgets(s.index, Whip(slot));
    assert forall t: TaskId :: t in s.index.ufragOf ==> Exists(s, t);
  }

  lemma StaleStays<Addr, Ufrag>(s: Registry<Addr, Ufrag>, e: Event<Addr, Ufrag>, name: Ufrag, slot: nat)
    requires Stale(s, name, slot) && Enabled(s, e)
    ensures Stale(Next(s, e), name, slot)
  {
  }

  lemma {:induction false} StaleForEver<Addr, Ufrag>(
    s: Registry<Addr, Ufrag>, events: seq<Event<Addr, Ufrag>>, name: Ufrag, slot: nat)
    requires Stale(s, name, slot) && EnabledRun(s, events)
    ensures !Agreement(Run(s, events))
    decreases |events|
  {
    if events != [] {
      StaleStays(s, events[0], name, slot);
      StaleForEver(Next(s, events[0]), events[1..], name, slot);
    }
  }

  /** A run leaves index and tasks in agreement if and only if no whep task goes away in it: what the first such event
      breaks is never repaired. */
  lemma {:induction false} RunAgrees<Addr, Ufrag>(s: Registry<Addr, Ufrag>, events: seq<Event<Addr, Ufrag>>)
    requires Agreement(s) && EnabledRun(s, events)
    ensures Agreement(Run(s, events)) <==> forall k :: 0 <= k < |events| ==> !events[k].WhepEmpty?
    decreases |events|
  {
    if events != [] {
      var rest := events[1..];
      StepAgrees(s, events[0]);
      if events[0].WhepEmpty? {
        WhepRemovalLeavesStale(s, events[0].slot);
        StaleForEver(Next(s, events[0]), rest, s.index.ufragOf[Whep(events[0].slot)], events[0].slot);
      } else {
        RunAgrees(Next(s, events[0]), rest);
        assert forall k :: 0 < k < |events| ==> events[k] == rest[k - 1];
        assert forall k :: 0 <= k < |rest| ==> rest[k] == events[k + 1];
      }
    }
  }

  // In agreement, a datagram only ever finds a task that exists.
  lemma OwnerExists<Addr, Ufrag>(s: Registry<Addr, Ufrag>, remote: Addr, user: Option<Ufrag>)
    requires Agreement(s) && Owner(s.index, remote, user).Some?
    ensures Exists(s, Owner(s.index, remote, user).value)
  {
    assert Owner(s.index, remote, user).value in s.index.ufragOf;
  }

  /** A connected task is found by its name, and from the first datagram that carries it by the remote alone. */
  lemma ConnectedIsFound<Addr, Ufrag>(s: Registry<Addr, Ufrag>, e: Event<Addr, Ufrag>, remote: Addr)
    requires Agreement(s) && Enabled(s, e) && (e.ConnectWhip? || e.ConnectWhep?) && remote !in s.index.remotes
    ensures var task := if e.ConnectWhip? then Whip(e.slot) else Whep(e.slot);
            var known := Next(s, e);
            var met := Next(known, Datagram(remote, Some(e.ufrag)));
            Owner(known.index, remote, Some(e.ufrag)) == Some(task) && Owner(met.index, remote, None) == Some(task)
            && met.index.ufragOf == known.index.ufragOf && (met.whips, met.wheps) == (known.whips, known.wheps)
  {
  }

  /** A remote once mapped keeps its task, until the event that removes the whip task it belongs to, or that is taken
      for that one, the end of the whep task of the same slot. */
  lemma RemoteStays<Addr, Ufrag>(s: Registry<Addr, Ufrag>, e: Event<Addr, Ufrag>, remote: Addr)
    requires Agreement(s) && Enabled(s, e) && remote in s.index.remotes
    ensures (forall user :: Owner(Next(s, e).index, remote, user) == Some(s.index.remotes[remote]))
            <==> !((e.WhipEmpty? || e.WhepEmpty?) && s.index.remotes[remote] == Whip(e.slot))
  {
    var after, task := Next(s, e), s.index.remotes[remote];
    match e {
      case Datagram(other, user) => MapRemoteKeeps(s.index, other, user);
      case ConnectWhip(_, _) =>
      case ConnectWhep(_, _) =>
      case _ =>
        RemoveForgets(s.index, Whip(e.slot));
        if task == Whip(e.slot) {
          assert remote !in after.index.remotes;
          assert Owner(after.index, remote, None) == None;
        } else {
          assert SameFor(s.index, after.index, task);
        }
    }
  }

  /** What a whep task leaves behind when it goes: its own remotes still lead to it, no datagram reaches the whip task
      of the same slot any more, and once the slot is used again the maps contradict each other, though the new name
      is fresh. */
  lemma WhepRemovalMisses<Addr, Ufrag>(s: Registry<Addr, Ufrag>, slot: nat, name: Ufrag)
    requires Agreement(s) && slot in s.wheps && name !in s.index.ufrags
    ensures var after := Next(s, WhepEmpty(slot));
            (forall remote :: remote in s.index.remotes && s.index.remotes[remote] == Whep(slot) ==>
                              Owner(after.index, remote, None) == Some(Whep(slot)) && !Exists(after, Whep(slot)))
            && (forall remote, user :: Owner(after.index, remote, user) != Some(Whip(slot)))
            && Enabled(after, ConnectWhep(slot, name)) && !Coherent(Next(after, ConnectWhep(slot, name)).index)
  {
    var after := Next(s, WhepEmpty(slot));
    RemoveForgets(s.index, Whip(slot));
    assert Exists(s, Whep(slot));
    assert SameFor(s.index, after.index, Whep(slot));
    AddUfragKeeps(after.index, name, Whep(slot));
  }
}
