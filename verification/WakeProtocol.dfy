/** Producers, one leg and its polling worker, interleaved at every lock, flag and queue access
    (src/bus/leg.rs, src/backend/polling.rs, src/worker.rs). */
module WakeProtocol {
  import opened Options
  import opened PollingBackends

  // Where a producer stands that holds the leg's lock inside Awaker::awake.
  datatype Lock = Free | LoadingFlag | StoringFlag | Notifying

  // Where the worker stands. `keys` are the socket keys the poller has just reported.
  datatype Pc =
    | Starting
    | Control
    | Polled(keys: seq<nat>)
    | Clearing(keys: seq<nat>)
    | Queueing(woken: bool, keys: seq<nat>)
    | Draining
    | OnAwake

  /** `sent` and `received` record the history of the leg; `queue` is what lies between them. */
  datatype State<+Owner, +M> = State(
    queue: seq<M>, sent: seq<M>, received: seq<M>,
    lock: Lock, flag: bool, notified: bool,
    pc: Pc, backend: Backend<Owner>)

  datatype Event<+Owner, +M> =
    // A producer takes the lock and pushes; it goes on to wake the worker if the queue was empty.
    | Push(m: M)
    | WakeLoad
    | WakeStore
    | WakeNotify
    // Worker::new installs the awaker on the leg.
    | Install
    // The worker's inner part asks something of the backend.
    | Act(action: Action<Owner>)
    // The poller returns, in time or not, with or without an error.
    | Wait(ok: bool, keys: seq<nat>)
    | Load
    | Clear
    | Queue
    | Pop(recv: nat -> Option<nat>)
    | Recv

  ghost predicate Init<Owner, M>(s: State<Owner, M>) {
    s.queue == s.sent == s.received == [] && s.lock == Free && !s.flag && !s.notified && s.pc == Starting
    && s.backend == Backend([Some(Waker)], [], [], {})
  }

  ghost predicate Next<Owner, M>(s: State<Owner, M>, e: Event<Owner, M>, t: State<Owner, M>) {
    match e
    case Push(m) =>
      s.lock == Free
      && t == s.(queue := s.queue + [m], sent := s.sent + [m],
                 lock := if s.queue == [] && s.pc != Starting then LoadingFlag else Free)
    case WakeLoad =>
      s.lock == LoadingFlag && t == s.(lock := if s.flag then Free else StoringFlag)
    case WakeStore =>
      s.lock == StoringFlag && t == s.(lock := Notifying, flag := true)
    case WakeNotify =>
      s.lock == Notifying && t == s.(lock := Free, notified := true)
    case Install =>
      s.lock == Free && s.pc == Starting && t == s.(pc := Control)
    case Act(action) =>
      (s.pc == Control || s.pc == Draining || s.pc == OnAwake)
      && t == s.(backend := Apply(s.backend, action))
    case Wait(ok, keys) =>
      s.pc == Control
      && if ok then
           (forall k :: k in keys ==> k in s.backend.registered)
           && t == s.(pc := Polled(keys), notified := false)
         else t == s.(pc := Draining)
    case Load =>
      s.pc.Polled? && t == s.(pc := if s.flag then Clearing(s.pc.keys) else Queueing(false, s.pc.keys))
    case Clear =>
      s.pc.Clearing? && t == s.(pc := Queueing(true, s.pc.keys), flag := false)
    case Queue =>
      s.pc.Queueing?
      && var tokens := s.backend.tokens + (if s.pc.woken then [0] else []) + s.pc.keys;
         |tokens| <= QUEUE_PKT_NUM && t == s.(pc := Draining, backend := s.backend.(tokens := tokens))
    case Pop(recv) =>
      s.pc == Draining
      && var (r, backend) := PopCached(s.backend, recv);
         t == s.(backend := backend, pc := if r.None? then Control else if r.value.Awake? then OnAwake else Draining)
    case Recv =>
      s.pc == OnAwake && s.lock == Free
      && if s.queue == [] then t == s.(pc := Draining)
         else t == s.(queue := s.queue[1..], received := s.received + [s.queue[0]])
  }

  /** A run: states joined by events. */
  ghost predicate Run<Owner, M>(states: seq<State<Owner, M>>, events: seq<Event<Owner, M>>) {
    |states| == |events| + 1 && Init(states[0])
    && forall i :: 0 <= i < |events| ==> Next(states[i], events[i], states[i + 1])
  }

  // What holds whatever the order of things: the wake token is safe and the leg is first-in-first-out.
  ghost predicate Inv<Owner, M>(s: State<Owner, M>) {
    Sound(s.backend)
    && s.sent == s.received + s.queue
    && (s.pc == Draining || s.pc == OnAwake || s.backend.tokens == [])
    && (s.pc.Polled? || s.pc.Clearing? || s.pc.Queueing? ==> 0 !in s.pc.keys)
    && (s.pc == Starting ==> s.lock == Free && !s.flag)
  }

  // Somebody will still look at the queue without having to be woken again.
  ghost predicate WakeUnderWay<Owner, M>(s: State<Owner, M>) {
    s.flag
    || WakeQueued(s.backend)
    || s.pc.Clearing? || (s.pc.Queueing? && s.pc.woken)
    || s.pc == OnAwake
    || s.lock == LoadingFlag || s.lock == StoringFlag
  }

  ghost predicate NoLostWake<Owner, M>(s: State<Owner, M>) {
    s.queue != [] ==> WakeUnderWay(s)
  }

  // The opposite: messages are waiting and nothing will ever make the worker look.
  ghost predicate Deaf<Owner, M>(s: State<Owner, M>) {
    s.queue != [] && s.lock == Free && !WakeUnderWay(s)
  }

  lemma InvStep<Owner, M>(s: State<Owner, M>, e: Event<Owner, M>, t: State<Owner, M>)
    requires Inv(s) && Next(s, e, t)
    ensures Inv(t)
  {
    match e
    case Act(action) => ActionKeepsSound(s.backend, action);
    case Pop(recv) => WakeTokenSurvives(s.backend, recv);
    case _ =>
  }

  lemma NoLostWakeStep<Owner, M>(s: State<Owner, M>, e: Event<Owner, M>, t: State<Owner, M>)
    requires Inv(s) && NoLostWake(s) && Next(s, e, t) && s.pc != Starting
    ensures NoLostWake(t)
  {
    match e
    case Act(action) => ActionKeepsSound(s.backend, action);
    case Pop(recv) => WakeTokenSurvives(s.backend, recv);
    case _ =>
  }

  lemma DeafStep<Owner, M>(s: State<Owner, M>, e: Event<Owner, M>, t: State<Owner, M>)
    requires Inv(s) && Deaf(s) && Next(s, e, t) && s.pc != Starting
    ensures Deaf(t) && t.received == s.received
  {
    match e
    case Act(action) => ActionKeepsSound(s.backend, action);
    case Pop(recv) => WakeTokenSurvives(s.backend, recv);
    case _ =>
  }

  lemma {:induction false} RunKeepsInv<Owner, M>(states: seq<State<Owner, M>>, events: seq<Event<Owner, M>>, i: nat)
    requires Run(states, events) && i < |states|
    ensures Inv(states[i])
  {
    if i > 0 {
      RunKeepsInv(states, events, i - 1);
      InvStep(states[i - 1], events[i - 1], states[i]);
    }
  }

  lemma {:induction false} InstalledOnce<Owner, M>(
    states: seq<State<Owner, M>>, events: seq<Event<Owner, M>>, k: nat, j: nat)
    requires Run(states, events) && k < |events| && events[k].Install? && k < j < |states|
    ensures states[j].pc != Starting
  {
    assert Next(states[j - 1], events[j - 1], states[j]);
    if j > k + 1 {
      InstalledOnce(states, events, k, j - 1);
    }
  }

  lemma InstallDecides<Owner, M>(s: State<Owner, M>, t: State<Owner, M>)
    requires Inv(s) && Next(s, Install, t)
    ensures Deaf(t) <==> s.queue != []
    ensures NoLostWake(t) <==> s.queue == []
    ensures t.received == s.received
  {
  }

  lemma DeafOrNot<Owner, M>(s: State<Owner, M>)
    ensures Deaf(s) ==> !NoLostWake(s)
  {
  }

  /** In every interleaving: the worker is deaf after its awaker was installed if and only if the leg already held a
      message at that moment. So either no wake-up is ever lost, or, from then on, all of them are, and nothing is
      received any more. */
  lemma {:induction false} LostWakeups<Owner, M>(
    states: seq<State<Owner, M>>, events: seq<Event<Owner, M>>, k: nat, j: nat)
    requires Run(states, events) && k < |events| && events[k].Install? && k < j < |states|
    ensures Deaf(states[j]) <==> states[k].queue != []
    ensures NoLostWake(states[j]) <==> states[k].queue == []
    ensures states[k].queue != [] ==> states[j].received == states[k].received
  {
    hide Next, Inv, Deaf, NoLostWake;
    RunKeepsInv(states, events, j - 1);
    assert Next(states[j - 1], events[j - 1], states[j]);
    if j == k + 1 {
      InstallDecides(states[k], states[j]);
    } else {
      LostWakeups(states, events, k, j - 1);
      InstalledOnce(states, events, k, j - 1);
      DeafOrNot(states[j]);
      if states[k].queue == [] {
        NoLostWakeStep(states[j - 1], events[j - 1], states[j]);
      } else {
        DeafStep(states[j - 1], events[j - 1], states[j]);
      }
    }
  }

  // Such runs exist: one broadcast between the creation of a leg and the installation of its awaker is enough.
  lemma DeafRunExists<Owner>()
    ensures exists states: seq<State<Owner, int>>, events: seq<Event<Owner, int>> ::
              Run(states, events) && |events| == 3 && events[1].Install? && Deaf(states[3]) && |states[3].queue| == 2
  {
    var s0 := State<Owner, int>.State([], [], [], Free, false, false, Starting, Backend([Some(Waker)], [], [], {}));
    var s1 := s0.(queue := [1], sent := [1]);
    var s2 := s1.(pc := Control);
    var s3 := s2.(queue := [1, 2], sent := [1, 2]);
    var states, events := [s0, s1, s2, s3], [Push(1), Install, Push(2)];
    assert Next(s0, events[0], s1) && Next(s1, events[1], s2) && Next(s2, events[2], s3);
    assert Run(states, events) && Deaf(states[3]);
  }

  // While the flag is up, the poller has a notification to return for, or the worker is about to take the flag down, or
  // a producer is about to notify.
  ghost predicate Noticed<Owner, M>(s: State<Owner, M>) {
    s.flag ==> s.notified || s.pc.Polled? || s.pc.Clearing? || s.lock == Notifying
  }

  lemma NoticedStep<Owner, M>(s: State<Owner, M>, e: Event<Owner, M>, t: State<Owner, M>)
    requires Inv(s) && Noticed(s) && Next(s, e, t)
    ensures Noticed(t)
  {
  }

  lemma NoticedAtFirst<Owner, M>(s: State<Owner, M>)
    requires Init(s)
    ensures Noticed(s)
  {
  }

  lemma {:induction false} RunKeepsNoticed<Owner, M>(states: seq<State<Owner, M>>, events: seq<Event<Owner, M>>, j: nat)
    requires Run(states, events) && j < |states|
    ensures Noticed(states[j])
  {
    hide Next, Inv, Noticed;
    if j > 0 {
      RunKeepsNoticed(states, events, j - 1);
      RunKeepsInv(states, events, j - 1);
      NoticedStep(states[j - 1], events[j - 1], states[j]);
    } else {
      NoticedAtFirst(states[0]);
    }
  }

  /** The worker never falls asleep over a message: if the awaker was installed on an empty leg, then, whenever the
      worker is about to poll while a message is in its leg and no producer is inside, its poller has already been
      notified and returns at once. */
  lemma NeverSleepsOnMessages<Owner, M>(
    states: seq<State<Owner, M>>, events: seq<Event<Owner, M>>, k: nat, j: nat)
    requires Run(states, events) && k < |events| && events[k].Install? && states[k].queue == [] && k < j < |states|
    requires states[j].pc == Control && states[j].lock == Free && states[j].queue != []
    ensures states[j].flag && states[j].notified
  {
    LostWakeups(states, events, k, j);
    RunKeepsInv(states, events, j);
    RunKeepsNoticed(states, events, j);
  }

  // What the worker does by itself, and what a producer does that holds the leg's lock.
  predicate OfWorker<Owner(!new), M(!new)>(e: Event<Owner, M>) {
    e.Install? || e.Wait? || e.Load? || e.Clear? || e.Queue? || e.Pop? || e.Recv?
  }

  predicate OfProducer<Owner(!new), M(!new)>(e: Event<Owner, M>) {
    e.WakeLoad? || e.WakeStore? || e.WakeNotify?
  }

  // The worker's next event, if nothing is in the way.
  ghost function WorkersNext<Owner, M>(s: State<Owner, M>): Event<Owner, M> {
    match s.pc
    case Starting => Install
    case Control => Wait(true, [])
    case Polled(_) => Load
    case Clearing(_) => Clear
    case Queueing(_, _) => Queue
    case Draining => Pop(_ => None)
    case OnAwake => Recv
  }

  ghost function After<Owner, M>(s: State<Owner, M>): State<Owner, M> {
    match s.pc
    case Starting => s.(pc := Control)
    case Control => s.(pc := Polled([]), notified := false)
    case Polled(keys) => s.(pc := if s.flag then Clearing(keys) else Queueing(false, keys))
    case Clearing(keys) => s.(pc := Queueing(true, keys), flag := false)
    case Queueing(woken, keys) =>
      s.(pc := Draining, backend := s.backend.(tokens := s.backend.tokens + (if woken then [0] else []) + keys))
    case Draining =>
      var (r, backend) := PopCached(s.backend, _ => None);
      s.(backend := backend, pc := if r.None? then Control else if r.value.Awake? then OnAwake else Draining)
    case OnAwake =>
      if s.queue == [] then s.(pc := Draining)
      else s.(queue := s.queue[1..], received := s.received + [s.queue[0]])
  }

  /** Nobody waits for ever: a producer inside the leg can always go on, and the worker, too, unless it waits for a
      producer to leave the leg, or its token queue cannot take the reported keys, where the code panics. */
  lemma SomebodyCanGoOn<Owner(!new), M(!new)>(s: State<Owner, M>)
    ensures s.lock != Free ==> exists e, t :: OfProducer(e) && Next(s, e, t)
    ensures (exists e, t :: OfWorker(e) && Next(s, e, t))
       <==> !((s.pc == Starting || s.pc == OnAwake) && s.lock != Free)
            && !(s.pc.Queueing?
                 && |s.backend.tokens| + (if s.pc.woken then 1 else 0) + |s.pc.keys| > QUEUE_PKT_NUM)
  {
    var e: Event<Owner, M> :=
      match s.lock case LoadingFlag => WakeLoad case StoringFlag => WakeStore case _ => WakeNotify;
    var t := match s.lock
      case LoadingFlag => s.(lock := if s.flag then Free else StoringFlag)
      case StoringFlag => s.(lock := Notifying, flag := true)
      case _ => s.(lock := Free, notified := true);
    assert s.lock != Free ==> OfProducer(e) && Next(s, e, t);
    var stuck := ((s.pc == Starting || s.pc == OnAwake) && s.lock != Free)
      || (s.pc.Queueing? && |s.backend.tokens| + (if s.pc.woken then 1 else 0) + |s.pc.keys| > QUEUE_PKT_NUM);
    assert !stuck ==> OfWorker(WorkersNext(s)) && Next(s, WorkersNext(s), After(s));
  }

  /** The poll in steps is the poll in one go: between the poller's return and the drain, exactly the wake token, if the
      flag was seen up, and then the reported keys are queued, and nothing else about the backend changes. */
  lemma PollInSteps<Owner, M>(
    s: State<Owner, M>, keys: seq<nat>, polled: State<Owner, M>, seen: State<Owner, M>, t: State<Owner, M>)
    requires Next(s, Wait(true, keys), polled) && Next(polled, Load, seen)
    requires if seen.pc.Clearing? then exists cleared :: Next(seen, Clear, cleared) && Next(cleared, Queue, t)
             else Next(seen, Queue, t)
    ensures t.pc == Draining && (seen.pc.Clearing? <==> polled.flag) && (polled.flag ==> !t.flag)
    ensures t.backend == s.backend.(tokens := s.backend.tokens + (if polled.flag then [0] else []) + keys)
  {
  }

  /** The sockets change by the worker's actions alone, and each action takes its full effect. */
  lemma OnlyActionsOpen<Owner, M>(states: seq<State<Owner, M>>, events: seq<Event<Owner, M>>, i: nat)
    requires Run(states, events) && i < |events|
    ensures if events[i].Act? then states[i + 1].backend == Apply(states[i].backend, events[i].action)
            else states[i + 1].backend.sockets == states[i].backend.sockets
  {
    RunKeepsInv(states, events, i);
    assert Next(states[i], events[i], states[i + 1]);
    if events[i].Pop? {
      WakeTokenSurvives(states[i].backend, events[i].recv);
    }
  }

  // The worker still owes a look at the leg in this cycle, unless all of `due` has been received.
  ghost predicate Owes<Owner, M>(s: State<Owner, M>, due: seq<M>) {
    due <= s.sent
    && (due <= s.received
        || (s.pc.Polled? && s.flag) || s.pc.Clearing? || (s.pc.Queueing? && s.pc.woken)
        || (s.pc == Draining && WakeQueued(s.backend)) || s.pc == OnAwake)
  }

  lemma OwesStep<Owner, M>(s: State<Owner, M>, e: Event<Owner, M>, t: State<Owner, M>, due: seq<M>)
    requires Inv(s) && Owes(s, due) && Next(s, e, t)
    ensures Owes(t, due)
    ensures t.pc == Control ==> s.pc == Control || due <= t.received
  {
    match e
    case Act(action) => ActionKeepsSound(s.backend, action);
    case Pop(recv) => WakeTokenSurvives(s.backend, recv);
    case Recv => assert s.queue == [] ==> s.received == s.sent;
    case _ =>
  }

  lemma {:induction false} CycleOwes<Owner, M>(
    states: seq<State<Owner, M>>, events: seq<Event<Owner, M>>, a: nat, j: nat)
    requires Run(states, events) && a <= j < |states|
    requires Owes(states[a], states[a].sent)
    requires forall i :: a <= i < j ==> states[i].pc != Control
    ensures Owes(states[j], states[a].sent)
    ensures a < j && states[j].pc == Control ==> states[a].sent <= states[j].received
  {
    hide Next, Owes, Inv;
    if a < j {
      CycleOwes(states, events, a, j - 1);
      RunKeepsInv(states, events, j - 1);
      OwesStep(states[j - 1], events[j - 1], states[j], states[a].sent);
    }
  }

  /** Nothing is left behind: if the awaker was installed on an empty leg, every message that was in the leg, no
      producer being inside, when a poll of the worker returned, has been received when the worker's cycle ends. */
  lemma NothingLeftBehind<Owner, M>(
    states: seq<State<Owner, M>>, events: seq<Event<Owner, M>>, k: nat, a: nat, b: nat)
    requires Run(states, events) && k < |events| && events[k].Install? && states[k].queue == []
    requires k < a < b < |states|
    requires states[a].pc.Polled? && states[a].lock == Free
    requires (forall i :: a <= i < b ==> states[i].pc != Control) && states[b].pc == Control
    ensures states[a].sent <= states[b].received
  {
    LostWakeups(states, events, k, a);
    RunKeepsInv(states, events, a);
    CycleOwes(states, events, a, b);
  }

  /** The wake token only ever leaves the queue to become a visit to on_awake. */
  lemma TokenBecomesAwake<Owner, M>(states: seq<State<Owner, M>>, events: seq<Event<Owner, M>>, i: nat)
    requires Run(states, events) && i < |events|
    ensures 0 in states[i].backend.tokens ==> WakeQueued(states[i].backend)
    ensures 0 in states[i].backend.tokens && 0 !in states[i + 1].backend.tokens ==> states[i + 1].pc == OnAwake
    ensures states[i + 1].backend.sockets != [] && states[i + 1].backend.sockets[0] == Some(Waker)
  {
    RunKeepsInv(states, events, i);
    RunKeepsInv(states, events, i + 1);
    match events[i]
    case Act(action) => ActionKeepsSound(states[i].backend, action);
    case Pop(recv) => WakeTokenSurvives(states[i].backend, recv);
    case _ =>
  }
}
