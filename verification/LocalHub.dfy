/** Which tasks of one worker follow which channels (src/bus/local_hub.rs). */
module LocalHubs {
  import opened Options
  import opened Lists

  type Hub<ChannelId, Owner> = map<ChannelId, seq<Owner>>

  function Subscribers<ChannelId, Owner>(hub: Hub<ChannelId, Owner>, channel: ChannelId): seq<Owner> {
    if channel in hub then hub[channel] else []
  }

  // The new hub, and whether the channel had no subscriber before.
  function Subscribed<ChannelId, Owner(==)>(hub: Hub<ChannelId, Owner>, owner: Owner, channel: ChannelId)
    : (Hub<ChannelId, Owner>, bool)
  {
    var entry := Subscribers(hub, channel);
    if owner in entry then (hub, false) else (hub[channel := entry + [owner]], entry == [])
  }

  // The new hub, and whether the channel has no subscriber left.
  function Unsubscribed<ChannelId, Owner(==)>(hub: Hub<ChannelId, Owner>, owner: Owner, channel: ChannelId)
    : (Hub<ChannelId, Owner>, bool)
  {
    var entry := Subscribers(hub, channel);
    match Position(entry, owner)
    case None => (hub, false)
    case Some(pos) =>
      var rest := SwapRemove(entry, pos);
      if rest == [] then (hub - {channel}, true) else (hub[channel := rest], false)
  }

  // No list is empty and none has duplicates, so a channel is present exactly when somebody follows it.
  ghost predicate Tidy<ChannelId, Owner>(hub: Hub<ChannelId, Owner>) {
    forall c :: c in hub ==> hub[c] != [] && NoDup(hub[c])
  }

  // Subscribing adds exactly one follower to one channel, at the end of its list; True means that the channel was
  // unknown before.
  lemma SubscribedMeaning<ChannelId, Owner>(hub: Hub<ChannelId, Owner>, owner: Owner, channel: ChannelId)
    requires Tidy(hub)
    ensures var (hub', first) := Subscribed(hub, owner, channel);
            Tidy(hub') && hub'.Keys == hub.Keys + {channel}
            && (first <==> channel !in hub)
            && (forall c, o :: o in Subscribers(hub', c) <==> o in Subscribers(hub, c) || (c == channel && o == owner))
            && Subscribers(hub, channel) <= Subscribers(hub', channel)
            && |Subscribers(hub', channel)|
               == |Subscribers(hub, channel)| + (if owner in Subscribers(hub, channel) then 0 else 1)
            && (forall c :: c != channel ==> Subscribers(hub', c) == Subscribers(hub, c))
  {
    if owner !in Subscribers(hub, channel) {
      AppendNoDup(Subscribers(hub, channel), owner);
    }
  }

  // Unsubscribing takes exactly one follower away, and the last one takes its place in the list; True means that the
  // channel has just become unknown.
  lemma UnsubscribedMeaning<ChannelId, Owner>(hub: Hub<ChannelId, Owner>, owner: Owner, channel: ChannelId)
    requires Tidy(hub)
    ensures var (hub', last) := Unsubscribed(hub, owner, channel);
            Tidy(hub')
            && (last <==> channel in hub && channel !in hub')
            && (!last ==> hub'.Keys == hub.Keys) && (last ==> hub'.Keys == hub.Keys - {channel})
            && (forall c, o :: o in Subscribers(hub', c) <==> o in Subscribers(hub, c) && !(c == channel && o == owner))
            && (forall c :: c != channel ==> Subscribers(hub', c) == Subscribers(hub, c))
    ensures var was, now := Subscribers(hub, channel), Subscribers(Unsubscribed(hub, owner, channel).0, channel);
            |now| == |was| - (if owner in was then 1 else 0)
            && forall k :: 0 <= k < |now| ==> now[k] == if was[k] == owner then was[|was| - 1] else was[k]
  {
    var entry := Subscribers(hub, channel);
    if owner in entry {
      SwapRemoveElements(entry, Position(entry, owner).value);
    }
  }

  class BusLocalHub<Owner(==), ChannelId(==)> {
    var channels: map<ChannelId, seq<Owner>>

    constructor ()
      ensures channels == map[]
    {
      channels := map[];
    }

    // True is returned when this is the worker's first subscription to the channel.
    method Subscribe(owner: Owner, channel: ChannelId) returns (first: bool)
      modifies this
      ensures (channels, first) == Subscribed(old(channels), owner, channel)
    {
      var entry := if channel in channels then channels[channel] else [];
      if owner in entry {
        first := false;
      } else {
        channels := channels[channel := entry + [owner]];
        first := |channels[channel]| == 1;
      }
    }

    // True is returned when nobody in the worker follows the channel any more.
    method Unsubscribe(owner: Owner, channel: ChannelId) returns (last: bool)
      modifies this
      ensures (channels, last) == Unsubscribed(old(channels), owner, channel)
    {
      last := false;
      if channel in channels {
        var pos := Position(channels[channel], owner);
        if pos.Some? {
          channels := channels[channel := SwapRemove(channels[channel], pos.value)];
          if channels[channel] == [] {
            channels := channels - {channel};
            assert channels == old(channels) - {channel};
            last := true;
          }
        }
      }
    }

    method GetSubscribers(channel: ChannelId) returns (subscribers: Option<seq<Owner>>)
      ensures subscribers == if channel in channels then Some(channels[channel]) else None
    {
      subscribers := if channel in channels then Some(channels[channel]) else None;
    }
  }
}
