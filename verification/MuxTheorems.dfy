/** Routing and closing of proxied channels over whole runs of any number of mux clients. */
module MuxTheorems {
  import opened Bytes
  import opened MuxModel

  // ---------- what the log says about one slot, without any table ----------

  /** Whose channel the slot is: decided by the latest entry that opens or gives up the slot. */
  function OwnerIn(log: seq<Entry>, i: nat): Option<Owner> {
    if log == [] then None
    else
      var n := |log| - 1;
      match log[n]
      case Opened(j, owner) => if i == j then owner else OwnerIn(log[..n], i)
      case Freed(j) => if i == j then None else OwnerIn(log[..n], i)
      case Detached(j) => if i == j then None else OwnerIn(log[..n], i)
      case Released(j) => if i == j then None else OwnerIn(log[..n], i)
      case _ => OwnerIn(log[..n], i)
  }

  /** The channel in the slot, as the packets that passed determine it. */
  function SlotIn(log: seq<Entry>, i: nat): Option<Chan> {
    if log == [] then None else Change(SlotIn(log[..|log| - 1], i), log[|log| - 1], i)
  }

  function Change(s: Option<Chan>, e: Entry, i: nat): Option<Chan> {
    match e
    case Opened(j, owner) => if i == j then Some(Chan(owner, None, false, false)) else s
    case Confirmed(j, remote) => if i == j && s.Some? then Some(s.value.(remote := Some(remote))) else s
    case ClosedUp(remote) =>
      if s.Some? && s.value.remote == Some(remote) then Some(s.value.(closeSent := true)) else s
    case ClosedDown(j) => if i == j && s.Some? then Some(s.value.(closeRcvd := true)) else s
    case Detached(j) => if i == j && s.Some? then Some(s.value.(owner := None)) else s
    case Freed(j) => if i == j then None else s
    case Released(j) => if i == j then None else s
    case Routed(_, _) => s
  }

  function At(t: Table, i: nat): Option<Chan> { if i < |t| then t[i] else None }

  function OwnerAt(t: Table, i: nat): Option<Owner> {
    if Live(t, i) then t[i].value.owner else None
  }

  lemma OwnerSnoc(log: seq<Entry>, e: Entry, i: nat)
    ensures OwnerIn(log + [e], i) ==
            match e
            case Opened(j, owner) => if i == j then owner else OwnerIn(log, i)
            case Freed(j) => if i == j then None else OwnerIn(log, i)
            case Detached(j) => if i == j then None else OwnerIn(log, i)
            case Released(j) => if i == j then None else OwnerIn(log, i)
            case _ => OwnerIn(log, i)
  {
    assert (log + [e])[..|log|] == log;
  }

  lemma SlotSnoc(log: seq<Entry>, e: Entry, i: nat)
    ensures SlotIn(log + [e], i) == Change(SlotIn(log, i), e, i)
  {
    assert (log + [e])[..|log|] == log;
  }

  /** Detaching a client's proxies takes the owner away from exactly those slots. */
  lemma {:induction false} DetachEffect(log: seq<Entry>, t: Table, client: nat, n: nat, i: nat)
    requires n <= |t|
    ensures var l := log + DetachLog(t, client, n);
            var hit := i < n && Owned(t, i, client);
            && OwnerIn(l, i) == (if hit then None else OwnerIn(log, i))
            && SlotIn(l, i) == (if hit then Change(SlotIn(log, i), Detached(i), i) else SlotIn(log, i))
  {
    hide OwnerIn, SlotIn;
    if n == 0 {
      assert log + [] == log;
    } else {
      DetachEffect(log, t, client, n - 1, i);
      var l := log + DetachLog(t, client, n - 1);
      if Owned(t, n - 1, client) {
        assert log + DetachLog(t, client, n) == l + [Detached(n - 1)];
        OwnerSnoc(l, Detached(n - 1), i);
        SlotSnoc(l, Detached(n - 1), i);
      } else {
        assert DetachLog(t, client, n) == DetachLog(t, client, n - 1);
      }
    }
  }

  // ---------- routing ----------

  ghost predicate OwnersAgree(m: Mux) { forall i: nat :: OwnerAt(m.table, i) == OwnerIn(m.log, i) }

  lemma CreateOwners(m: Mux, c: Chan)
    requires OwnersAgree(m)
    ensures OwnersAgree(Create(m, c))
  {
    hide OwnerIn, FirstFree;
    var f := FirstFree(m.table);
    forall i: nat ensures OwnerAt(Create(m, c).table, i) == OwnerIn(Create(m, c).log, i) {
      OwnerSnoc(m.log, Opened(f, c.owner), i);
      if c.remote.Some? { OwnerSnoc(m.log + [Opened(f, c.owner)], Confirmed(f, c.remote.value), i); }
      assert OwnerAt(m.table, i) == OwnerIn(m.log, i);
    }
  }

  lemma CloseUpOwners(m: Mux, remote: U32)
    requires OwnersAgree(m)
    ensures OwnersAgree(CloseUp(m, remote))
  {
    forall i: nat ensures OwnerAt(CloseUp(m, remote).table, i) == OwnerIn(CloseUp(m, remote).log, i) {
      OwnerSnoc(m.log, ClosedUp(remote), i);
      var b := ByRemote(m.table, remote);
      if b.Some? { OwnerSnoc(m.log + [ClosedUp(remote)], Freed(b.value), i); }
      assert OwnerAt(m.table, i) == OwnerIn(m.log, i);
    }
  }

  lemma UpstreamOwners(m: Mux, p: FromServer)
    requires OwnersAgree(m)
    ensures OwnersAgree(Upstream(m, p))
  {
    if !m.dead && Live(m.table, p.id) && m.table[p.id].value.owner.Some? {
      var o := m.table[p.id].value.owner.value;
      var d := Delivery(o.client, o.id, p.kind, p.body);
      var r := m.(toClients := m.toClients + [d], log := m.log + [Routed(p.id, d)]);
      forall i: nat ensures OwnerAt(r.table, i) == OwnerIn(r.log, i) {
        OwnerSnoc(m.log, Routed(p.id, d), i);
        assert OwnerAt(m.table, i) == OwnerIn(m.log, i);
      }
      SettleOwners(r, p);
    }
  }

  lemma SettleOwners(m: Mux, p: FromServer)
    requires OwnersAgree(m) && Live(m.table, p.id)
    ensures OwnersAgree(Settle(m, p))
  {
    hide OwnerIn;
    var n := Settle(m, p);
    forall i: nat ensures OwnerAt(n.table, i) == OwnerIn(n.log, i) {
      assert OwnerAt(m.table, i) == OwnerIn(m.log, i);
      match p.kind
      case SConfirm(Some(remote)) => OwnerSnoc(m.log, Confirmed(p.id, remote), i);
      case SClose =>
        OwnerSnoc(m.log, ClosedDown(p.id), i);
        OwnerSnoc(m.log + [ClosedDown(p.id)], Freed(p.id), i);
      case _ =>
    }
  }

  lemma StepOwners(m: Mux, ev: Event)
    requires OwnersAgree(m)
    ensures OwnersAgree(Step(m, ev))
  {
    match ev
    case EvClient(client, COpen(_, id, _)) =>
      CreateOwners(m, Chan(Some(Owner(client, id)), None, false, false));
    case EvClient(client, CConfirm(remote, id, _)) =>
      CreateOwners(m, Chan(Some(Owner(client, id)), Some(remote), false, false));
    case EvClient(_, CClose(remote, _)) => CloseUpOwners(m, remote);
    case EvClient(_, Pass(_, _)) =>
    case EvServer(q) => UpstreamOwners(m, q);
    case EvPlain(remote) => CreateOwners(m, Chan(None, remote, false, false));
    case EvDepart(client) =>
      forall i: nat ensures OwnerAt(Depart(m, client).table, i) == OwnerIn(Depart(m, client).log, i) {
        DetachEffect(m.log, m.table, client, |m.table|, i);
        assert OwnerAt(m.table, i) == OwnerIn(m.log, i);
      }
    case EvFree(j) =>
      forall i: nat ensures OwnerAt(Step(m, ev).table, i) == OwnerIn(Step(m, ev).log, i) {
        OwnerSnoc(m.log, Released(j), i);
        assert OwnerAt(m.table, i) == OwnerIn(m.log, i);
      }
  }

  lemma {:induction false} OwnersAgreeAlways(events: seq<Event>)
    ensures OwnersAgree(Run(events))
  {
    if events != [] {
      OwnersAgreeAlways(events[..|events| - 1]);
      StepOwners(Run(events[..|events| - 1]), events[|events| - 1]);
    }
  }

  /** For any interleaving of clients, which may well use each other's ids: a packet from the
      server reaches a client exactly if the slot it names was last opened for that client and
      not given up since, and then it is the only packet delivered and carries the client's id. */
  lemma Routing(events: seq<Event>, p: FromServer)
    ensures var m := Run(events);
            var n := Step(m, EvServer(p));
            !m.dead ==>
              match OwnerIn(m.log, p.id)
              case Some(o) => n.toClients == m.toClients + [Delivery(o.client, o.id, p.kind, p.body)]
              case None => n == m
  {
    OwnersAgreeAlways(events);
    var m := Run(events);
    assert OwnerAt(m.table, p.id) == OwnerIn(m.log, p.id);
  }

  /** CHANNEL_OPEN and OPEN_CONFIRMATION both make a channel for the client that sends them. */
  predicate Opening(p: FromClient) { p.COpen? || p.CConfirm? }

  /** The packet as the server gets it. */
  function Renamed(p: FromClient, slot: U32): FromClient {
    match p
    case COpen(ctype, _, rest) => COpen(ctype, slot, rest)
    case CConfirm(remote, _, rest) => CConfirm(remote, slot, rest)
    case CClose(_, _) => p
    case Pass(_, _) => p
  }

  /** Towards the server, CHANNEL_OPEN and OPEN_CONFIRMATION alike carry a slot that nobody held; from then on that
      slot is the client's, and all other slots keep their owners. */
  lemma OpeningIsExclusive(events: seq<Event>, client: nat, p: FromClient)
    requires Opening(p)
    ensures var m := Run(events);
            var n := Step(m, EvClient(client, p));
            var i := FirstFree(m.table);
            && i < TWO32
            && (!m.dead && !n.dead ==>
                  && n.toServer == m.toServer + [Renamed(p, i)]
                  && !Live(m.table, i) && OwnerAt(n.table, i) == Some(Owner(client, p.id))
                  && forall j: nat | j != i :: OwnerAt(n.table, j) == OwnerAt(m.table, j))
  {
    hide Run, FirstFree;
    TableBounded(events);
    if p.COpen? {
      CreatedFor(Run(events), Chan(Some(Owner(client, p.id)), None, false, false));
    } else {
      CreatedFor(Run(events), Chan(Some(Owner(client, p.id)), Some(p.remote), false, false));
    }
  }

  lemma CreatedFor(m: Mux, c: Chan)
    ensures var n, i := Create(m, c), FirstFree(m.table);
            && !Live(m.table, i) && n.toServer == m.toServer
            && (!n.dead ==> Live(n.table, i) && n.table[i].value == c)
            && forall j: nat | j != i :: OwnerAt(n.table, j) == OwnerAt(m.table, j)
  {
    hide FirstFree;
  }

  lemma {:induction false} TableBounded(events: seq<Event>)
    ensures |Run(events).table| <= CHANNELS_MAX_CHANNELS + 10
  {
    if events != [] {
      var m := Run(events[..|events| - 1]);
      TableBounded(events[..|events| - 1]);
      StepBounded(m, events[|events| - 1]);
    }
  }

  lemma StepBounded(m: Mux, ev: Event)
    requires |m.table| <= CHANNELS_MAX_CHANNELS + 10
    ensures |Step(m, ev).table| <= CHANNELS_MAX_CHANNELS + 10
  {
  }

  // ---------- closing ----------

  /** No two live channels have the same server id. */
  predicate Unique(t: Table) {
    forall i, j | 0 <= i < j < |t| ::
      t[i].Some? && t[j].Some? && t[i].value.remote.Some? ==> t[i].value.remote != t[j].value.remote
  }

  ghost predicate SlotsAgree(m: Mux) {
    && (forall i: nat :: At(m.table, i) == SlotIn(m.log, i))
    && (forall i: nat | Live(m.table, i) :: !(m.table[i].value.closeSent && m.table[i].value.closeRcvd))
  }

  /** Every slot that a packet freed had by then seen CLOSE pass in both directions. */
  predicate FreedAfterBoth(log: seq<Entry>) {
    forall k | 0 <= k < |log| && log[k].Freed? ::
      var s := SlotIn(log[..k], log[k].slot);
      s.Some? && s.value.remote.Some? && s.value.closeSent && s.value.closeRcvd
  }

  lemma FreedSnoc(log: seq<Entry>, e: Entry)
    requires FreedAfterBoth(log)
    requires e.Freed? ==> var s := SlotIn(log, e.slot);
                          s.Some? && s.value.remote.Some? && s.value.closeSent && s.value.closeRcvd
    ensures FreedAfterBoth(log + [e])
  {
    var l := log + [e];
    assert forall k | 0 <= k <= |log| :: l[..k] == log[..k];
    assert log[..|log|] == log;
  }

  /** A channel whose CLOSE has been noted upstream is a confirmed one. */
  ghost predicate Known(m: Mux) {
    forall i: nat | Live(m.table, i) :: m.table[i].value.closeSent ==> m.table[i].value.remote.Some?
  }

  ghost predicate CloseInv(m: Mux) { SlotsAgree(m) && FreedAfterBoth(m.log) && Known(m) }

  lemma CreateCloses(m: Mux, c: Chan)
    requires CloseInv(m) && !c.closeSent && !c.closeRcvd
    ensures CloseInv(Create(m, c))
  {
    if !TableFull(m.table) {
      var f := FirstFree(m.table);
      var n, log := Create(m, c), m.log + [Opened(f, c.owner)];
      FreedSnoc(m.log, Opened(f, c.owner));
      if c.remote.Some? { FreedSnoc(log, Confirmed(f, c.remote.value)); }
      forall i: nat ensures At(n.table, i) == SlotIn(n.log, i) {
        SlotSnoc(m.log, Opened(f, c.owner), i);
        if c.remote.Some? { SlotSnoc(log, Confirmed(f, c.remote.value), i); }
        assert At(m.table, i) == SlotIn(m.log, i);
      }
    }
  }

  lemma CloseUpCloses(m: Mux, remote: U32)
    requires CloseInv(m) && Unique(m.table)
    ensures CloseInv(CloseUp(m, remote))
  {
    hide SlotIn, FreedAfterBoth;
    var n, log := CloseUp(m, remote), m.log + [ClosedUp(remote)];
    var b := ByRemote(m.table, remote);
    FreedSnoc(m.log, ClosedUp(remote));
    if b.Some? {
      SlotSnoc(m.log, ClosedUp(remote), b.value);
      assert At(m.table, b.value) == SlotIn(m.log, b.value);
      if m.table[b.value].value.closeRcvd { FreedSnoc(log, Freed(b.value)); }
    }
    forall i: nat ensures At(n.table, i) == SlotIn(n.log, i) {
      SlotSnoc(m.log, ClosedUp(remote), i);
      if b.Some? { SlotSnoc(log, Freed(b.value), i); }
      assert At(m.table, i) == SlotIn(m.log, i);
    }
  }

  lemma UpstreamCloses(m: Mux, p: FromServer)
    requires CloseInv(m)
    ensures CloseInv(Upstream(m, p))
  {
    if !m.dead && Live(m.table, p.id) && m.table[p.id].value.owner.Some? {
      var o := m.table[p.id].value.owner.value;
      var d := Delivery(o.client, o.id, p.kind, p.body);
      var r := m.(toClients := m.toClients + [d], log := m.log + [Routed(p.id, d)]);
      RoutedCloses(m, r, Routed(p.id, d));
      SettleCloses(r, p);
    }
  }

  lemma RoutedCloses(m: Mux, r: Mux, e: Entry)
    requires CloseInv(m) && e.Routed? && r == m.(toClients := r.toClients, log := m.log + [e])
    ensures CloseInv(r)
  {
    FreedSnoc(m.log, e);
    forall i: nat ensures At(r.table, i) == SlotIn(r.log, i) {
      SlotSnoc(m.log, e, i);
      assert At(m.table, i) == SlotIn(m.log, i);
    }
  }

  lemma SettleCloses(m: Mux, p: FromServer)
    requires CloseInv(m) && Live(m.table, p.id)
    ensures CloseInv(Settle(m, p))
  {
    hide CloseInv;
    match p.kind
    case SConfirm(Some(remote)) => ConfirmCloses(m, p, remote);
    case SClose => CloseDownCloses(m, p);
    case _ =>
  }

  lemma ConfirmCloses(m: Mux, p: FromServer, remote: U32)
    requires CloseInv(m) && Live(m.table, p.id) && p.kind == SConfirm(Some(remote))
    ensures CloseInv(Settle(m, p))
  {
    hide SlotIn, FreedAfterBoth;
    var n := Settle(m, p);
    FreedSnoc(m.log, Confirmed(p.id, remote));
    forall i: nat ensures At(n.table, i) == SlotIn(n.log, i) {
      SlotSnoc(m.log, Confirmed(p.id, remote), i);
      assert At(m.table, i) == SlotIn(m.log, i);
    }
  }

  lemma CloseDownCloses(m: Mux, p: FromServer)
    requires CloseInv(m) && Live(m.table, p.id) && p.kind == SClose
    ensures CloseInv(Settle(m, p))
  {
    hide SlotIn, FreedAfterBoth;
    var n, log := Settle(m, p), m.log + [ClosedDown(p.id)];
    FreedSnoc(m.log, ClosedDown(p.id));
    SlotSnoc(m.log, ClosedDown(p.id), p.id);
    assert At(m.table, p.id) == SlotIn(m.log, p.id);
    if m.table[p.id].value.closeSent { FreedSnoc(log, Freed(p.id)); }
    forall i: nat ensures At(n.table, i) == SlotIn(n.log, i) {
      SlotSnoc(m.log, ClosedDown(p.id), i);
      SlotSnoc(log, Freed(p.id), i);
      assert At(m.table, i) == SlotIn(m.log, i);
    }
  }

  lemma DepartCloses(m: Mux, client: nat)
    requires CloseInv(m)
    ensures CloseInv(Depart(m, client))
  {
    var n := Depart(m, client);
    DetachFreed(m.log, m.table, client, |m.table|);
    forall i: nat ensures At(n.table, i) == SlotIn(n.log, i) {
      DetachEffect(m.log, m.table, client, |m.table|, i);
      assert At(m.table, i) == SlotIn(m.log, i);
    }
  }

  lemma {:induction false} DetachFreed(log: seq<Entry>, t: Table, client: nat, n: nat)
    requires n <= |t| && FreedAfterBoth(log)
    ensures FreedAfterBoth(log + DetachLog(t, client, n))
  {
    if n == 0 {
      assert log + [] == log;
    } else {
      DetachFreed(log, t, client, n - 1);
      var l := log + DetachLog(t, client, n - 1);
      if Owned(t, n - 1, client) {
        assert log + DetachLog(t, client, n) == l + [Detached(n - 1)];
        FreedSnoc(l, Detached(n - 1));
      } else {
        assert DetachLog(t, client, n) == DetachLog(t, client, n - 1);
      }
    }
  }

  lemma StepCloses(m: Mux, ev: Event)
    requires CloseInv(m) && Unique(m.table)
    ensures CloseInv(Step(m, ev))
  {
    match ev
    case EvClient(client, COpen(_, id, _)) =>
      CreateCloses(m, Chan(Some(Owner(client, id)), None, false, false));
    case EvClient(client, CConfirm(remote, id, _)) =>
      CreateCloses(m, Chan(Some(Owner(client, id)), Some(remote), false, false));
    case EvClient(_, CClose(remote, _)) => CloseUpCloses(m, remote);
    case EvClient(_, Pass(_, _)) =>
    case EvServer(q) => UpstreamCloses(m, q);
    case EvPlain(remote) => CreateCloses(m, Chan(None, remote, false, false));
    case EvDepart(client) => DepartCloses(m, client);
    case EvFree(j) =>
      FreedSnoc(m.log, Released(j));
      forall i: nat ensures At(Step(m, ev).table, i) == SlotIn(Step(m, ev).log, i) {
        SlotSnoc(m.log, Released(j), i);
        assert At(m.table, i) == SlotIn(m.log, i);
      }
  }

  /** Given unique live server ids: every slot is what its log entries make it, each entry that says a packet
      freed a slot follows CLOSE entries of both directions for it, and no live slot has both.  What this means
      for the packets themselves is `MuxPackets.FreedExactly`. */
  lemma {:induction false} CloseDiscipline(events: seq<Event>)
    requires forall k | 0 <= k <= |events| :: Unique(Run(events[..k]).table)
    ensures SlotsAgree(Run(events)) && FreedAfterBoth(Run(events).log)
    ensures CloseInv(Run(events))
  {
    if events != [] {
      var n := |events| - 1;
      assert forall k | 0 <= k <= n :: events[..n][..k] == events[..k];
      CloseDiscipline(events[..n]);
      assert Unique(Run(events[..n]).table);
      StepCloses(Run(events[..n]), events[n]);
    }
  }

  /** A refused opening is passed on but never frees the proxy channel: the slot stays taken
      until the client leaves. */
  lemma OpenFailureKeepsSlot(m: Mux, p: FromServer)
    requires p.kind == SFailure
    ensures Step(m, EvServer(p)).table == m.table
  {
  }
}
