/** The event side of a worker's backend: socket slots, cached events and the token queue (src/backend/polling.rs).
    Sockets are reduced to their owner; what the system returns from a receive is an arbitrary input. */
module PollingBackends {
  import opened Options
  import opened DynamicVecs
  import opened DynamicDeques
  import opened BusLegs

  // Capacity of the token queue.
  const QUEUE_PKT_NUM: nat := 512

  datatype Socket<+Owner> = Waker | Udp(owner: Owner) | Tun(owner: Owner, read: bool)

  type Sockets<Owner> = seq<Option<Socket<Owner>>>

  datatype NetEvent =
    | UdpListenResult(bound: Option<nat>)
    | UdpPacket(slot: nat, len: nat)
    | TunBindResult(slot: nat)
    | TunPacket(slot: nat, len: nat)

  datatype Incoming<+Owner> = Event(owner: Owner, event: NetEvent) | Awake

  // What happened when a socket was opened or registered with the poller.
  datatype Outcome = OpenFailed | RegisterFailed | Registered

  datatype Action<+Owner> =
    | UdpListen(owner: Owner, outcome: Outcome)
    | UdpUnlisten(slot: nat)
    | TunBind(owner: Owner, read: bool, outcome: Outcome)
    | TunUnbind(slot: nat)
    | Transmit

  // The first vacant slot, or a new vacant one at the end.
  function SelectSlot<Owner>(sockets: Sockets<Owner>, from: nat): (r: (nat, Sockets<Owner>))
    requires from <= |sockets|
    ensures r.0 < |r.1|
    decreases |sockets| - from
  {
    if from == |sockets| then (from, sockets + [None])
    else if sockets[from].None? then (from, sockets)
    else SelectSlot(sockets, from + 1)
  }

  /** What the backend owns besides the poller. */
  datatype Backend<+Owner> = Backend(
    sockets: seq<Option<Socket<Owner>>>, output: seq<Incoming<Owner>>, tokens: seq<nat>, registered: set<nat>)

  function Apply<Owner>(b: Backend<Owner>, action: Action<Owner>): Backend<Owner> {
    match action
    case UdpListen(owner, outcome) =>
      if outcome.OpenFailed? then b.(output := b.output + [Event(owner, UdpListenResult(None))])
      else
        var (slot, sockets) := SelectSlot(b.sockets, 0);
        if outcome.RegisterFailed? then b.(sockets := sockets)
        else b.(sockets := sockets[slot := Some(Udp(owner))],
                output := b.output + [Event(owner, UdpListenResult(Some(slot)))],
                registered := b.registered + {slot})
    case UdpUnlisten(slot) =>
      if slot < |b.sockets| && b.sockets[slot].Some? && b.sockets[slot].value.Udp? then
        b.(sockets := b.sockets[slot := None])
      else b
    case TunBind(owner, read, outcome) =>
      var (slot, sockets) := SelectSlot(b.sockets, 0);
      if read && !outcome.Registered? then b.(sockets := sockets)
      else b.(sockets := sockets[slot := Some(Tun(owner, read))],
              output := b.output + [Event(owner, TunBindResult(slot))],
              registered := if read then b.registered + {slot} else b.registered)
    case TunUnbind(slot) =>
      if slot < |b.sockets| && b.sockets[slot].Some? && b.sockets[slot].value.Tun? then
        b.(sockets := b.sockets[slot := None])
      else b
    case Transmit => b
  }

  /** The next event: cached ones first, then tokens from the front of the queue. `recv` is what the system returns
      from a receive made while that many tokens are queued. After a failed receive on a socket the code takes a
      second token off the queue without looking at it. */
  function PopCached<Owner>(b: Backend<Owner>, recv: nat -> Option<nat>): (r: (Option<Incoming<Owner>>, Backend<Owner>))
    decreases |b.tokens|
  {
    if b.output != [] then (Some(b.output[0]), b.(output := b.output[1..]))
    else if b.tokens == [] then (None, b)
    else
      var slot := b.tokens[0];
      var popped := b.(tokens := b.tokens[1..]);
      var socket: Option<Socket<Owner>> := if slot < |b.sockets| then b.sockets[slot] else None;
      match socket
      case None => PopCached(popped, recv)
      case Some(Waker) => (Some(Awake), popped)
      case Some(Udp(owner)) =>
        (match recv(|b.tokens|)
         case Some(len) => (Some(Event(owner, UdpPacket(slot, len))), popped)
         case None =>
           if popped.tokens == [] then (None, popped)
           else PopCached(popped.(tokens := popped.tokens[1..]), recv))
      case Some(Tun(owner, read)) =>
        if read && recv(|b.tokens|).Some? then (Some(Event(owner, TunPacket(slot, recv(|b.tokens|).value))), b)
        else PopCached(popped, recv)
  }

  /** Slot 0 is the waker and the only one, nothing else is ever registered under key 0, no cached event is a wake-up,
      and a wake token can only stand at the head of the queue. */
  ghost predicate Sound<Owner>(b: Backend<Owner>) {
    |b.sockets| > 0 && b.sockets[0] == Some(Waker)
    && (forall i :: 0 < i < |b.sockets| ==> b.sockets[i] != Some(Waker))
    && 0 !in b.registered
    && (forall i :: 0 <= i < |b.output| ==> b.output[i].Event?)
    && (forall i :: 0 < i < |b.tokens| ==> b.tokens[i] != 0)
  }

  ghost predicate WakeQueued<Owner>(b: Backend<Owner>) {
    b.tokens != [] && b.tokens[0] == 0
  }

  lemma {:induction false} SelectedSlot<Owner>(sockets: Sockets<Owner>, from: nat)
    requires from <= |sockets|
    ensures var (slot, sockets') := SelectSlot(sockets, from);
            from <= slot <= |sockets| && slot < |sockets'| && sockets'[slot].None?
            && (forall i :: from <= i < slot ==> sockets[i].Some?)
            && sockets' == if slot < |sockets| then sockets else sockets + [None]
    decreases |sockets| - from
  {
    if from < |sockets| && sockets[from].Some? {
      SelectedSlot(sockets, from + 1);
    }
  }

  // --- What a poll reads ---

  /** A cached event comes out first and unchanged, and no token is touched. */
  lemma CachedFirst<Owner>(b: Backend<Owner>, recv: nat -> Option<nat>)
    requires b.output != []
    ensures var (r, b') := PopCached(b, recv);
            r.Some? && [r.value] + b'.output == b.output && b == b'.(output := b.output)
  {
  }

  // The socket behind the p-th token, and what the system returns from a receive when that token is at the front.
  function SocketAt<Owner>(b: Backend<Owner>, p: nat): Option<Socket<Owner>>
    requires p < |b.tokens|
  {
    if b.tokens[p] < |b.sockets| then b.sockets[b.tokens[p]] else None
  }

  function ReceivedAt<Owner>(b: Backend<Owner>, recv: nat -> Option<nat>, p: nat): Option<nat>
    requires p < |b.tokens|
  {
    recv(|b.tokens| - p)
  }

  // The token yields nothing: its socket is gone, or has nothing to read.
  predicate YieldsNothing<Owner>(b: Backend<Owner>, recv: nat -> Option<nat>, p: nat)
    requires p < |b.tokens|
  {
    match SocketAt(b, p)
    case None => true
    case Some(Waker) => false
    case Some(Udp(_)) => ReceivedAt(b, recv, p).None?
    case Some(Tun(_, read)) => !read || ReceivedAt(b, recv, p).None?
  }

  // It yields this event and is used up, or not.
  ghost predicate Yields<Owner>(b: Backend<Owner>, recv: nat -> Option<nat>, p: nat, e: Incoming<Owner>, usedUp: bool)
    requires p < |b.tokens|
  {
    match SocketAt(b, p)
    case None => false
    case Some(Waker) => e == Awake && usedUp
    case Some(Udp(owner)) =>
      ReceivedAt(b, recv, p).Some? && usedUp
      && e == Event(owner, UdpPacket(b.tokens[p], ReceivedAt(b, recv, p).value))
    case Some(Tun(owner, read)) =>
      read && ReceivedAt(b, recv, p).Some? && !usedUp
      && e == Event(owner, TunPacket(b.tokens[p], ReceivedAt(b, recv, p).value))
  }

  // After a token that yields nothing the next one is looked at, but after a failed receive from a UDP socket the next
  // but one.
  function NextPosition<Owner>(b: Backend<Owner>, p: nat): nat
    requires p < |b.tokens|
  {
    var next := p + if SocketAt(b, p).Some? && SocketAt(b, p).value.Udp? then 2 else 1;
    if next < |b.tokens| then next else |b.tokens|
  }

  // Positions looked at from the front, all but the last of which yield nothing.
  ghost predicate LookedAt<Owner>(b: Backend<Owner>, recv: nat -> Option<nat>, looked: seq<nat>) {
    |looked| > 0 && looked[0] == 0 && (forall k :: 0 <= k < |looked| ==> looked[k] <= |b.tokens|)
    && forall k :: 0 <= k < |looked| - 1 ==>
         looked[k] < |b.tokens| && YieldsNothing(b, recv, looked[k]) && looked[k + 1] == NextPosition(b, looked[k])
  }

  // The answer is what the token at position p yields, or None behind the last; a wake-up and a UDP packet use up their
  // token, a TUN packet does not.
  ghost predicate AnsweredAt<Owner>(
    b: Backend<Owner>, recv: nat -> Option<nat>, p: nat, r: Option<Incoming<Owner>>, b': Backend<Owner>)
  {
    b' == b.(tokens := b'.tokens)
    && if r.None? then p == |b.tokens| && b'.tokens == []
       else
         p < |b.tokens|
         && ((Yields(b, recv, p, r.value, true) && b'.tokens == b.tokens[p + 1..])
             || (Yields(b, recv, p, r.value, false) && b'.tokens == b.tokens[p..]))
  }

  lemma FrontAnswers<Owner>(b: Backend<Owner>, recv: nat -> Option<nat>)
    requires b.output == [] && (b.tokens != [] ==> !YieldsNothing(b, recv, 0))
    ensures var (r, b') := PopCached(b, recv); AnsweredAt(b, recv, 0, r, b')
  {
  }

  lemma FrontYieldsNothing<Owner>(b: Backend<Owner>, recv: nat -> Option<nat>)
    requires b.output == [] && b.tokens != [] && YieldsNothing(b, recv, 0)
    ensures PopCached(b, recv) == PopCached(b.(tokens := b.tokens[NextPosition(b, 0)..]), recv)
  {
    var popped := b.(tokens := b.tokens[1..]);
    if SocketAt(b, 0).Some? && SocketAt(b, 0).value.Udp? {
      if popped.tokens == [] {
        assert PopCached(popped, recv) == (None, popped);
      } else {
        assert popped.tokens[1..] == b.tokens[2..];
      }
    }
  }

  // Positions counted from the n-th token on.
  lemma PositionShift<Owner>(b: Backend<Owner>, b': Backend<Owner>, recv: nat -> Option<nat>, n: nat, p: nat)
    requires n <= |b.tokens| && b' == b.(tokens := b.tokens[n..]) && p < |b'.tokens|
    ensures YieldsNothing(b, recv, p + n) == YieldsNothing(b', recv, p)
    ensures NextPosition(b, p + n) == NextPosition(b', p) + n
  {
    assert b.tokens[p + n] == b'.tokens[p];
  }

  lemma LookedShift<Owner>(
    b: Backend<Owner>, b': Backend<Owner>, recv: nat -> Option<nat>, n: nat, looked: seq<nat>, all: seq<nat>)
    requires b.tokens != [] && YieldsNothing(b, recv, 0) && n == NextPosition(b, 0) <= |b.tokens|
    requires b' == b.(tokens := b.tokens[n..]) && LookedAt(b', recv, looked)
    requires |all| == |looked| + 1 && all[0] == 0 && forall k :: 0 < k < |all| ==> all[k] == looked[k - 1] + n
    ensures LookedAt(b, recv, all)
  {
    hide YieldsNothing, NextPosition;
    assert forall k :: 0 < k < |all| ==> all[k] <= |b'.tokens| + n;
    forall k | 0 <= k < |all| - 1
      ensures all[k] < |b.tokens| && YieldsNothing(b, recv, all[k]) && all[k + 1] == NextPosition(b, all[k])
    {
      if k > 0 {
        assert looked[k - 1] < |b'.tokens| && looked[k - 1 + 1] == NextPosition(b', looked[k - 1]);
        PositionShift(b, b', recv, n, looked[k - 1]);
      }
    }
  }

  lemma AnswerShift<Owner>(
    b: Backend<Owner>, b': Backend<Owner>, recv: nat -> Option<nat>, n: nat, p: nat,
    r: Option<Incoming<Owner>>, b'': Backend<Owner>)
    requires n <= |b.tokens| && b' == b.(tokens := b.tokens[n..]) && AnsweredAt(b', recv, p, r, b'')
    ensures AnsweredAt(b, recv, p + n, r, b'')
  {
  }

  /** With nothing cached, a poll looks at tokens from the front. All it looks at but the last yield nothing; the last
      yields the answer, a wake-up or the packet of its own socket, or lies behind all tokens: then, and only then, the
      answer is None. */
  lemma {:induction false} PollReads<Owner>(b: Backend<Owner>, recv: nat -> Option<nat>) returns (looked: seq<nat>)
    requires b.output == []
    ensures LookedAt(b, recv, looked)
    ensures var (r, b') := PopCached(b, recv); AnsweredAt(b, recv, looked[|looked| - 1], r, b')
    decreases |b.tokens|
  {
    hide PopCached, YieldsNothing, AnsweredAt;
    if b.tokens == [] || !YieldsNothing(b, recv, 0) {
      looked := [0];
      FrontAnswers(b, recv);
    } else {
      var n := NextPosition(b, 0);
      var b' := b.(tokens := b.tokens[n..]);
      FrontYieldsNothing(b, recv);
      var rest := PollReads(b', recv);
      looked := [0] + seq(|rest|, k requires 0 <= k < |rest| => rest[k] + n);
      LookedShift(b, b', recv, n, rest, looked);
      var (r, b'') := PopCached(b', recv);
      AnswerShift(b, b', recv, n, rest[|rest| - 1], r, b'');
    }
  }

  // --- What actions do ---

  /** A socket that has been opened, and registered if it is to be read, takes the first vacant slot or a new one at the
      end; its owner alone is told, and told this slot; nothing else changes. */
  lemma OpenedEffect<Owner>(b: Backend<Owner>, action: Action<Owner>) returns (slot: nat)
    requires (action.UdpListen? && action.outcome.Registered?)
             || (action.TunBind? && (action.read ==> action.outcome.Registered?))
    ensures slot <= |b.sockets| && (slot < |b.sockets| ==> b.sockets[slot].None?)
    ensures forall i :: 0 <= i < slot ==> b.sockets[i].Some?
    ensures var r := Apply(b, action);
            |r.sockets| == (if slot < |b.sockets| then |b.sockets| else |b.sockets| + 1)
            && (forall i :: 0 <= i < |b.sockets| && i != slot ==> r.sockets[i] == b.sockets[i])
            && r.sockets[slot] == Some(if action.UdpListen? then Udp(action.owner) else Tun(action.owner, action.read))
            && r.output == b.output + [Event(action.owner, if action.UdpListen? then UdpListenResult(Some(slot))
                                                           else TunBindResult(slot))]
            && r.tokens == b.tokens
            && r.registered == b.registered + (if action.UdpListen? || action.read then {slot} else {})
  {
    SelectedSlot(b.sockets, 0);
    slot := SelectSlot(b.sockets, 0).0;
  }

  /** When opening fails the owner of a UDP socket is told so; when registering fails nobody is told. Either way there
      is no new socket, though a vacant slot may remain at the end. */
  lemma NotOpenedEffect<Owner>(b: Backend<Owner>, action: Action<Owner>)
    requires (action.UdpListen? && !action.outcome.Registered?)
             || (action.TunBind? && action.read && !action.outcome.Registered?)
    ensures var r := Apply(b, action);
            b.sockets <= r.sockets && (forall i :: |b.sockets| <= i < |r.sockets| ==> r.sockets[i].None?)
            && r.output == b.output + (if action.UdpListen? && action.outcome.OpenFailed? then
                                         [Event(action.owner, UdpListenResult(None))] else [])
            && r.tokens == b.tokens && r.registered == b.registered
  {
    SelectedSlot(b.sockets, 0);
  }

  /** Closing vacates exactly the named slot, if it holds a socket of that kind; sending changes nothing. */
  lemma ClosedEffect<Owner>(b: Backend<Owner>, action: Action<Owner>)
    requires action.UdpUnlisten? || action.TunUnbind? || action.Transmit?
    ensures var r := Apply(b, action);
            r == b.(sockets := r.sockets) && |r.sockets| == |b.sockets|
            && forall i :: 0 <= i < |b.sockets| ==>
                 r.sockets[i]
                 == if !action.Transmit? && i == action.slot && b.sockets[i].Some?
                       && (if action.UdpUnlisten? then b.sockets[i].value.Udp? else b.sockets[i].value.Tun?) then None
                    else b.sockets[i]
  {
  }

  // No action of a task can touch the waker's slot or register anything under its key.
  lemma ActionKeepsSound<Owner>(b: Backend<Owner>, action: Action<Owner>)
    requires Sound(b)
    ensures Sound(Apply(b, action)) && Apply(b, action).tokens == b.tokens
  {
    SelectedSlot(b.sockets, 0);
  }

  /** The wake token is never discarded: whatever receives return, a poll that does not report Awake leaves it at the
      head, and a poll that takes it reports Awake. Only socket tokens can fall to the second pop. */
  lemma {:induction false} WakeTokenSurvives<Owner>(b: Backend<Owner>, recv: nat -> Option<nat>)
    requires Sound(b)
    ensures var (r, b') := PopCached(b, recv);
            Sound(b')
            && b'.sockets == b.sockets && b'.registered == b.registered
            && (r == Some(Awake) <==> b.output == [] && WakeQueued(b))
            && (r != Some(Awake) ==> (WakeQueued(b') <==> WakeQueued(b)))
            && (r == Some(Awake) ==> b'.tokens == b.tokens[1..])
            && (r.None? ==> b'.output == [] && b'.tokens == [])
    decreases |b.tokens|
  {
    if b.output == [] && b.tokens != [] {
      var popped := b.(tokens := b.tokens[1..]);
      if !WakeQueued(b) {
        WakeTokenSurvives(popped, recv);
        if popped.tokens != [] {
          WakeTokenSurvives(popped.(tokens := popped.tokens[1..]), recv);
        }
      }
    }
  }

  class PollingBackend<Owner> {
    const awaker: PollingAwaker
    const sockets: DynamicVec<Option<Socket<Owner>>>
    const output: DynamicDeque<Incoming<Owner>>
    var tokens: seq<nat>
    ghost var registered: set<nat>

    ghost function Repr(): set<object> {
      {this, sockets, output}
    }

    ghost predicate Valid()
      reads Repr()
    {
      sockets.Valid() && output.Valid() && output.STACK_SIZE > 0 && |tokens| <= QUEUE_PKT_NUM
    }

    ghost function View(): Backend<Owner>
      reads Repr()
    {
      Backend(sockets.Contents(), output.Contents(), tokens, registered)
    }

    constructor (socketStack: nat, queueStack: nat)
      requires queueStack > 0
      ensures Valid() && fresh(Repr()) && fresh(awaker) && !awaker.flag && !awaker.notified
      ensures View() == Backend([Some(Waker)], [], [], {}) && Sound(View())
    {
      awaker := new PollingAwaker();
      sockets := new DynamicVec(socketStack);
      output := new DynamicDeque(queueStack);
      tokens, registered := [], {};
      new;
      sockets.Push(Some(Waker));
    }

    /** One wait of the poller. A failed wait changes nothing; otherwise the flag is taken down if it was up, and
        then one wake token goes in front of the reported keys. False stands for the panic on a full queue. */
    method PollIncoming(waited: bool, keys: seq<nat>) returns (ok: bool)
      requires Valid()
      modifies this, awaker
      ensures !waited ==> ok && View() == old(View()) && awaker.flag == old(awaker.flag)
      ensures waited ==>
                !awaker.flag
                && (ok <==> |old(tokens)| + |keys| + (if old(awaker.flag) then 1 else 0) <= QUEUE_PKT_NUM)
      ensures waited && ok ==>
                Valid() && View() == old(View()).(tokens := old(tokens) + (if old(awaker.flag) then [0] else []) + keys)
    {
      if !waited {
        return true;
      }
      awaker.notified := false;
      if awaker.flag {
        awaker.flag := false;
        if |tokens| == QUEUE_PKT_NUM {
          return false;
        }
        tokens := tokens + [0];
      }
      ghost var before := tokens;
      for k := 0 to |keys|
        invariant Valid() && tokens == before + keys[..k]
        invariant sockets.Contents() == old(sockets.Contents()) && output.Contents() == old(output.Contents())
        invariant registered == old(registered) && !awaker.flag
      {
        if |tokens| == QUEUE_PKT_NUM {
          return false;
        }
        tokens := tokens + [keys[k]];
      }
      ok := true;
    }

    // The loop over cached events computes exactly the function above.
    method PopIncoming(recv: nat -> Option<nat>) returns (event: Option<Incoming<Owner>>)
      requires Valid()
      modifies Repr()
      ensures Valid() && (event, View()) == PopCached(old(View()), recv)
    {
      var wait := output.PopFront();
      if wait.Some? {
        return wait;
      }
      while tokens != []
        invariant Valid() && output.Contents() == []
        invariant PopCached(View(), recv) == PopCached(old(View()), recv)
        decreases |tokens|
      {
        var slotIndex := tokens[0];
        var queued := |tokens|;
        var slot := sockets.Get(slotIndex);
        if slot.None? || slot.value.None? {
          tokens := tokens[1..];
        } else {
          match slot.value.value {
            case Udp(owner) =>
              tokens := tokens[1..];
              var received := recv(queued);
              if received.Some? {
                return Some(Event(owner, UdpPacket(slotIndex, received.value)));
              } else if tokens != [] {
                tokens := tokens[1..];
              }
            case Waker =>
              tokens := tokens[1..];
              return Some(Awake);
            case Tun(owner, read) =>
              if read {
                var received := recv(queued);
                if received.Some? {
                  return Some(Event(owner, TunPacket(slotIndex, received.value)));
                }
              }
              tokens := tokens[1..];
          }
        }
      }
      event := None;
    }

    method SelectSlotIndex() returns (slot: nat)
      requires Valid()
      modifies sockets
      ensures Valid() && View() == old(View()).(sockets := sockets.Contents())
      ensures (slot, sockets.Contents()) == SelectSlot(old(sockets.Contents()), 0)
      ensures slot < |sockets.Contents()|
    {
      SelectedSlot(sockets.Contents(), 0);
      var n := sockets.Len();
      for i := 0 to n
        invariant Valid() && n == |sockets.Contents()| && sockets.Contents() == old(sockets.Contents())
        invariant SelectSlot(sockets.Contents(), i) == SelectSlot(sockets.Contents(), 0)
      {
        var socket := sockets.Get(i);
        if socket.value.None? {
          return i;
        }
      }
      sockets.Push(None);
      slot := n;
    }

    // A new socket takes its slot, and its owner is told so.
    method Occupy(slot: nat, socket: Socket<Owner>, told: Incoming<Owner>)
      requires Valid() && slot < |sockets.Contents()|
      modifies sockets, output
      ensures Valid()
      ensures View() == old(View()).(sockets := old(sockets.Contents())[slot := Some(socket)],
                                     output := old(output.Contents()) + [told])
    {
      output.PushBack(told);
      sockets.Set(slot, Some(socket));
    }

    method OnAction(action: Action<Owner>)
      requires Valid()
      modifies Repr()
      ensures Valid() && View() == Apply(old(View()), action)
    {
      match action {
        case UdpListen(owner, outcome) =>
          if outcome.OpenFailed? {
            output.PushBack(Event(owner, UdpListenResult(None)));
          } else {
            var slot := SelectSlotIndex();
            if outcome.RegisterFailed? {
              return;
            }
            Occupy(slot, Udp(owner), Event(owner, UdpListenResult(Some(slot))));
            registered := registered + {slot};
          }
        case UdpUnlisten(slot) =>
          var socket := sockets.Get(slot);
          if socket.Some? && socket.value.Some? && socket.value.value.Udp? {
            sockets.Set(slot, None);
          }
        case TunBind(owner, read, outcome) =>
          var slot := SelectSlotIndex();
          if read && !outcome.Registered? {
            return;
          }
          Occupy(slot, Tun(owner, read), Event(owner, TunBindResult(slot)));
          if read {
            registered := registered + {slot};
          }
        case TunUnbind(slot) =>
          var socket := sockets.Get(slot);
          if socket.Some? && socket.value.Some? && socket.value.value.Tun? {
            sockets.Set(slot, None);
          }
        case Transmit =>
      }
    }
  }
}
