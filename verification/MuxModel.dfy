/**
 The mux proxy: mux clients share one connection, so their channel ids are replaced by ids of
 the shared channel table on the way to the server and put back on the way to the client.
 */
module MuxModel {
  import opened Bytes

  datatype Option<+T> = None | Some(value: T)

  const CHANNELS_MAX_CHANNELS := 16 * 1024

  /** The client a proxy channel belongs to, and the id that client uses for it. */
  datatype Owner = Owner(client: nat, id: U32)

  /** A used slot of the table; channels that are no proxies have no owner. */
  datatype Chan = Chan(owner: Option<Owner>, remote: Option<U32>, closeSent: bool, closeRcvd: bool)

  type Table = seq<Option<Chan>>

  /** Packets from a mux client; `Pass` stands for every type that is forwarded untouched. */
  datatype FromClient =
    | COpen(ctype: seq<Byte>, id: U32, rest: seq<Byte>)
    | CConfirm(remote: U32, id: U32, rest: seq<Byte>)
    | CClose(remote: U32, rest: seq<Byte>)
    | Pass(kind: Byte, body: seq<Byte>)

  /** Packets from the server that name a channel; `remote` is read from a long enough body. */
  datatype Kind = SConfirm(remote: Option<U32>) | SFailure | SClose | SData(kind: Byte)

  datatype FromServer = FromServer(id: nat, kind: Kind, body: seq<Byte>)

  datatype Delivery = Delivery(client: nat, id: U32, kind: Kind, body: seq<Byte>)

  /** What happened to the table, in order. */
  datatype Entry =
    | Opened(slot: nat, owner: Option<Owner>)
    | Confirmed(slot: nat, remote: U32)
    | ClosedUp(remote: U32)
    | ClosedDown(slot: nat)
    | Freed(slot: nat)
    | Detached(slot: nat)
    | Released(slot: nat)
    | Routed(slot: nat, delivery: Delivery)

  datatype Mux = Mux(table: Table, toServer: seq<FromClient>, toClients: seq<Delivery>,
                     log: seq<Entry>, dead: bool)

  // ---------- the table ----------

  /** channel_new takes the first free slot, or the one after the last. */
  function FirstFree(t: Table): (i: nat)
    ensures i <= |t| && (forall j | 0 <= j < i :: t[j].Some?) && (i < |t| ==> t[i].None?)
  {
    if t == [] || t[0].None? then 0 else 1 + FirstFree(t[1..])
  }

  function Grown(t: Table): Table { t + seq(10, _ => None) }

  predicate TableFull(t: Table) { FirstFree(t) == |t| && |t| > CHANNELS_MAX_CHANNELS }

  function Place(t: Table, c: Chan): (r: Table)
    ensures FirstFree(t) < |r| && r[FirstFree(t)] == Some(c)
  {
    (if FirstFree(t) == |t| then Grown(t) else t)[FirstFree(t) := Some(c)]
  }

  /** channel_by_remote_id: the first channel with that remote id. */
  function ByRemote(t: Table, remote: U32): (r: Option<nat>)
    ensures r.Some? ==> r.value < |t| && t[r.value].Some? && t[r.value].value.remote == Some(remote)
    ensures r.Some? ==> forall i | 0 <= i < r.value :: t[i].Some? ==> t[i].value.remote != Some(remote)
    ensures r.None? ==> forall i | 0 <= i < |t| :: t[i].Some? ==> t[i].value.remote != Some(remote)
  {
    if t == [] then None
    else if t[0].Some? && t[0].value.remote == Some(remote) then Some(0)
    else
      match ByRemote(t[1..], remote)
      case None => None
      case Some(i) => Some(i + 1)
  }

  predicate Live(t: Table, i: nat) { i < |t| && t[i].Some? }

  // ---------- events ----------

  /** A new channel, with the log entries that record it. */
  function Create(m: Mux, c: Chan): Mux {
    if TableFull(m.table) then m.(dead := true)
    else
      var i := FirstFree(m.table);
      var log := m.log + [Opened(i, c.owner)];
      m.(table := Place(m.table, c),
         log := if c.remote.Some? then log + [Confirmed(i, c.remote.value)] else log)
  }

  function Downstream(m: Mux, client: nat, p: FromClient): Mux {
    if m.dead then m
    else
      match p
      case COpen(ctype, id, rest) =>
        var n := Create(m, Chan(Some(Owner(client, id)), None, false, false));
        if n.dead then n
        else n.(toServer := n.toServer + [COpen(ctype, FirstFree(m.table) % TWO32, rest)])
      case CConfirm(remote, id, rest) =>
        var n := Create(m, Chan(Some(Owner(client, id)), Some(remote), false, false));
        if n.dead then n
        else n.(toServer := n.toServer + [CConfirm(remote, FirstFree(m.table) % TWO32, rest)])
      case CClose(remote, rest) => CloseUp(m, remote).(toServer := m.toServer + [p])
      case Pass(_, _) => m.(toServer := m.toServer + [p])
  }

  /** The client's CLOSE frees the channel if the server's has passed, and is noted otherwise. */
  function CloseUp(m: Mux, remote: U32): Mux {
    var log := m.log + [ClosedUp(remote)];
    match ByRemote(m.table, remote)
    case None => m.(log := log)
    case Some(i) =>
      var c := m.table[i].value;
      if c.closeRcvd then m.(table := m.table[i := None], log := log + [Freed(i)])
      else m.(table := m.table[i := Some(c.(closeSent := true))], log := log)
  }

  function Upstream(m: Mux, p: FromServer): Mux {
    if m.dead || !Live(m.table, p.id) || m.table[p.id].value.owner.None? then m
    else
      var c := m.table[p.id].value;
      var d := Delivery(c.owner.value.client, c.owner.value.id, p.kind, p.body);
      Settle(m.(toClients := m.toClients + [d], log := m.log + [Routed(p.id, d)]), p)
  }

  /** What the forwarded packet does to the proxy channel. */
  function Settle(m: Mux, p: FromServer): Mux
    requires Live(m.table, p.id)
  {
    var c := m.table[p.id].value;
    match p.kind
    case SConfirm(Some(remote)) =>
      m.(table := m.table[p.id := Some(c.(remote := Some(remote)))], log := m.log + [Confirmed(p.id, remote)])
    case SClose =>
      var log := m.log + [ClosedDown(p.id)];
      if c.closeSent then m.(table := m.table[p.id := None], log := log + [Freed(p.id)])
      else m.(table := m.table[p.id := Some(c.(closeRcvd := true))], log := log)
    case _ => m
  }

  /** channel_free of a mux client detaches its proxies. */
  function DetachTable(t: Table, client: nat): Table {
    seq(|t|, i requires 0 <= i < |t| =>
      if Owned(t, i, client) then Some(t[i].value.(owner := None)) else t[i])
  }

  predicate Owned(t: Table, i: nat, client: nat) {
    Live(t, i) && t[i].value.owner.Some? && t[i].value.owner.value.client == client
  }

  function DetachLog(t: Table, client: nat, n: nat): seq<Entry>
    requires n <= |t|
  {
    if n == 0 then []
    else DetachLog(t, client, n - 1) + if Owned(t, n - 1, client) then [Detached(n - 1)] else []
  }

  function Depart(m: Mux, client: nat): Mux {
    m.(table := DetachTable(m.table, client), log := m.log + DetachLog(m.table, client, |m.table|))
  }

  datatype Event =
    | EvClient(client: nat, p: FromClient)
    | EvServer(q: FromServer)
    | EvDepart(client: nat)
    | EvPlain(remote: Option<U32>)
    | EvFree(slot: nat)

  /** Channels of the program itself come and go in the same table. */
  function Step(m: Mux, ev: Event): Mux {
    if m.dead then m
    else
      match ev
      case EvClient(client, p) => Downstream(m, client, p)
      case EvServer(q) => Upstream(m, q)
      case EvDepart(client) => Depart(m, client)
      case EvPlain(remote) => Create(m, Chan(None, remote, false, false))
      case EvFree(i) =>
        if Live(m.table, i) && m.table[i].value.owner.None?
        then m.(table := m.table[i := None], log := m.log + [Released(i)])
        else m
  }

  function Run(events: seq<Event>): Mux {
    if events == [] then Mux([], [], [], [], false)
    else Step(Run(events[..|events| - 1]), events[|events| - 1])
  }
}
