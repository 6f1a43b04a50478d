/** The shared channel table as the program keeps it, with the loops that search it. */
module MuxObject {
  import opened Bytes
  import opened MuxModel

  class Channels {
    var channels: Table
    var toServer: seq<FromClient>
    var toClients: seq<Delivery>
    var dead: bool
    ghost var log: seq<Entry>

    ghost function View(): Mux
      reads this
    {
      Mux(channels, toServer, toClients, log, dead)
    }

    constructor ()
      ensures View() == Run([])
    {
      channels, toServer, toClients, dead, log := [], [], [], false, [];
    }

    /** channel_new */
    method ChannelNew(c: Chan) returns (self: nat)
      requires !dead
      modifies `channels, `dead, `log
      ensures View() == Create(old(View()), c)
      ensures !dead ==> self == FirstFree(old(channels))
    {
      var i := 0;
      while i < |channels| && channels[i].Some?
        invariant 0 <= i <= |channels|
        invariant forall j | 0 <= j < i :: channels[j].Some?
      {
        i := i + 1;
      }
      self := i;
      if i >= |channels| {
        if |channels| > CHANNELS_MAX_CHANNELS {
          dead := true;
          return;
        }
        channels := channels + seq(10, _ => None);
      }
      channels := channels[self := Some(c)];
      log := log + [Opened(self, c.owner)];
      if c.remote.Some? { log := log + [Confirmed(self, c.remote.value)]; }
    }

    /** channel_by_remote_id */
    method ChannelByRemoteId(remote: U32) returns (r: Option<nat>)
      ensures r == ByRemote(channels, remote)
    {
      var i := 0;
      while i < |channels|
        invariant 0 <= i <= |channels|
        invariant ByRemote(channels, remote) ==
                  match ByRemote(channels[i..], remote) case None => None case Some(k) => Some(k + i)
      {
        if channels[i].Some? && channels[i].value.remote == Some(remote) { return Some(i); }
        assert channels[i..][1..] == channels[i + 1..];
        i := i + 1;
      }
      return None;
    }

    /** The CLOSE case of channel_proxy_downstream */
    method NoteClose(remote: U32)
      modifies `channels, `log
      ensures View() == CloseUp(old(View()), remote)
    {
      var c := ChannelByRemoteId(remote);
      log := log + [ClosedUp(remote)];
      if c.Some? {
        var i, ch := c.value, channels[c.value].value;
        if ch.closeRcvd {
          channels := channels[i := None];
          log := log + [Freed(i)];
        } else {
          channels := channels[i := Some(ch.(closeSent := true))];
        }
      }
    }

    /** channel_proxy_downstream */
    method ProxyDownstream(client: nat, p: FromClient)
      requires !dead
      modifies this
      ensures View() == Downstream(old(View()), client, p)
    {
      match p
      case COpen(ctype, id, rest) =>
        var self := ChannelNew(Chan(Some(Owner(client, id)), None, false, false));
        if !dead { toServer := toServer + [COpen(ctype, self % TWO32, rest)]; }
      case CConfirm(remote, id, rest) =>
        var self := ChannelNew(Chan(Some(Owner(client, id)), Some(remote), false, false));
        if !dead { toServer := toServer + [CConfirm(remote, self % TWO32, rest)]; }
      case CClose(remote, _) =>
        NoteClose(remote);
        toServer := toServer + [p];
      case Pass(_, _) => toServer := toServer + [p];
    }

    /** channel_proxy_upstream */
    method ProxyUpstream(p: FromServer)
      requires !dead
      modifies this
      ensures View() == Upstream(old(View()), p)
    {
      if p.id >= |channels| || channels[p.id].None? { return; }
      var c := channels[p.id].value;
      if c.owner.None? { return; }
      var d := Delivery(c.owner.value.client, c.owner.value.id, p.kind, p.body);
      toClients := toClients + [d];
      log := log + [Routed(p.id, d)];
      match p.kind
      case SConfirm(Some(remote)) =>
        channels := channels[p.id := Some(c.(remote := Some(remote)))];
        log := log + [Confirmed(p.id, remote)];
      case SClose =>
        log := log + [ClosedDown(p.id)];
        if c.closeSent {
          channels := channels[p.id := None];
          log := log + [Freed(p.id)];
        } else {
          channels := channels[p.id := Some(c.(closeRcvd := true))];
        }
      case _ =>
    }

    /** channel_free of a mux client */
    method DetachClient(client: nat)
      modifies `channels, `log
      ensures View() == Depart(old(View()), client)
    {
      ghost var was, before := channels, log;
      for i := 0 to |channels|
        invariant |channels| == |was|
        invariant forall j | 0 <= j < |was| ::
                    channels[j] == if j < i && Owned(was, j, client) then Some(was[j].value.(owner := None)) else was[j]
        invariant log == before + DetachLog(was, client, i)
      {
        var other := channels[i];
        if other.Some? && other.value.owner.Some? && other.value.owner.value.client == client {
          channels := channels[i := Some(other.value.(owner := None))];
          log := log + [Detached(i)];
        }
      }
    }
  }
}
