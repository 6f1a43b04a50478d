/** Routing said of packets alone: who sent an opening, under which id, and what has passed since. */
module MuxPackets {
  import opened Bytes
  import opened MuxModel
  import opened MuxTheorems

  /** Every packet of a client reaches the server once, as it was sent but for the id of an opening, which becomes
      a slot that nobody held. */
  lemma Forwarding(events: seq<Event>, client: nat, p: FromClient)
    ensures var m := Run(events);
            var n := Step(m, EvClient(client, p));
            var i := FirstFree(m.table);
            && i < TWO32
            && (!m.dead && !n.dead ==> n.toServer == m.toServer + [Renamed(p, i)])
            && (m.dead ==> n.toServer == m.toServer)
  {
    hide Run, FirstFree;
    TableBounded(events);
  }

  /** Nothing else is sent to the server. */
  lemma NothingElseForwarded(m: Mux, ev: Event)
    requires !ev.EvClient?
    ensures Step(m, ev).toServer == m.toServer
  {
  }

  // ---------- what has passed since an opening ----------

  predicate Departed(mid: seq<Event>, c: nat) { EvDepart(c) in mid }

  predicate ServerClosed(mid: seq<Event>, i: nat) {
    exists k | 0 <= k < |mid| :: mid[k].EvServer? && mid[k].q.id == i && mid[k].q.kind == SClose
  }

  /** The server's id for the channel, from the opening itself or from the server's confirmation. */
  predicate KnownAs(p: FromClient, mid: seq<Event>, i: nat, r: U32) {
    (p.CConfirm? && p.remote == r)
    || exists k | 0 <= k < |mid| :: mid[k].EvServer? && mid[k].q.id == i && mid[k].q.kind == SConfirm(Some(r))
  }

  predicate ClientClosed(p: FromClient, mid: seq<Event>, i: nat) {
    exists k | 0 <= k < |mid| :: mid[k].EvClient? && mid[k].p.CClose? && KnownAs(p, mid, i, mid[k].p.remote)
  }

  /** The client is still there and CLOSE has not passed in both directions. */
  predicate StillOpen(c: nat, p: FromClient, mid: seq<Event>, i: nat) {
    !Departed(mid, c) && !(ServerClosed(mid, i) && ClientClosed(p, mid, i))
  }

  /** The slot is the client's, and what it remembers of CLOSE and the server's id has passed. */
  ghost predicate Holds(t: Table, i: nat, c: nat, p: FromClient, mid: seq<Event>)
    requires Opening(p)
  {
    && Live(t, i) && t[i].value.owner == Some(Owner(c, p.id))
    && (t[i].value.closeSent ==> ClientClosed(p, mid, i))
    && (t[i].value.closeRcvd ==> ServerClosed(mid, i))
    && (t[i].value.remote.Some? ==> KnownAs(p, mid, i, t[i].value.remote.value))
  }

  lemma Later(p: FromClient, mid: seq<Event>, ev: Event, c: nat, i: nat)
    ensures Departed(mid + [ev], c) <==> Departed(mid, c) || ev == EvDepart(c)
    ensures ServerClosed(mid, i) ==> ServerClosed(mid + [ev], i)
    ensures ClientClosed(p, mid, i) ==> ClientClosed(p, mid + [ev], i)
    ensures forall r | KnownAs(p, mid, i, r) :: KnownAs(p, mid + [ev], i, r)
    ensures ev.EvServer? && ev.q.id == i && ev.q.kind == SClose ==> ServerClosed(mid + [ev], i)
    ensures forall r | ev.EvServer? && ev.q.id == i && ev.q.kind == SConfirm(Some(r)) :: KnownAs(p, mid + [ev], i, r)
    ensures ev.EvClient? && ev.p.CClose? && KnownAs(p, mid, i, ev.p.remote) ==> ClientClosed(p, mid + [ev], i)
  {
    var l := mid + [ev];
    assert forall k | 0 <= k < |mid| :: l[k] == mid[k];
    assert l[|mid|] == ev;
    forall r | KnownAs(p, mid, i, r) ensures KnownAs(p, l, i, r) { KnownLater(p, mid, ev, i, r); }
  }

  lemma KnownLater(p: FromClient, mid: seq<Event>, ev: Event, i: nat, r: U32)
    requires KnownAs(p, mid, i, r)
    ensures KnownAs(p, mid + [ev], i, r)
  {
    var l := mid + [ev];
    assert forall k | 0 <= k < |mid| :: l[k] == mid[k];
  }

  // ---------- every step keeps it ----------

  lemma CreateHolds(m: Mux, i: nat, c: nat, p: FromClient, mid: seq<Event>, x: Chan)
    requires Opening(p) && Holds(m.table, i, c, p, mid)
    ensures Holds(Create(m, x).table, i, c, p, mid)
  {
    hide Departed, ServerClosed, ClientClosed, KnownAs;
  }

  lemma CloseHolds(m: Mux, remote: U32, ev: Event, i: nat, c: nat, p: FromClient, mid: seq<Event>)
    requires Opening(p) && Holds(m.table, i, c, p, mid) && ev.EvClient? && ev.p.CClose? && ev.p.remote == remote
    requires StillOpen(c, p, mid + [ev], i)
    ensures Holds(CloseUp(m, remote).table, i, c, p, mid + [ev])
  {
    hide Departed, ServerClosed, ClientClosed, KnownAs, ByRemote;
    Later(p, mid, ev, c, i);
  }

  lemma ServerHolds(m: Mux, q: FromServer, i: nat, c: nat, p: FromClient, mid: seq<Event>)
    requires Opening(p) && Holds(m.table, i, c, p, mid) && StillOpen(c, p, mid + [EvServer(q)], i)
    ensures Holds(Upstream(m, q).table, i, c, p, mid + [EvServer(q)])
  {
    hide Departed, ServerClosed, ClientClosed, KnownAs;
    Later(p, mid, EvServer(q), c, i);
  }

  lemma StepHolds(m: Mux, ev: Event, i: nat, c: nat, p: FromClient, mid: seq<Event>)
    requires Opening(p) && Holds(m.table, i, c, p, mid) && !m.dead
    requires StillOpen(c, p, mid + [ev], i)
    ensures Holds(Step(m, ev).table, i, c, p, mid + [ev])
  {
    hide Departed, ServerClosed, ClientClosed, KnownAs;
    Later(p, mid, ev, c, i);
    match ev
    case EvClient(client, COpen(_, id, _)) =>
      CreateHolds(m, i, c, p, mid, Chan(Some(Owner(client, id)), None, false, false));
    case EvClient(client, CConfirm(remote, id, _)) =>
      CreateHolds(m, i, c, p, mid, Chan(Some(Owner(client, id)), Some(remote), false, false));
    case EvClient(_, CClose(remote, _)) => CloseHolds(m, remote, ev, i, c, p, mid);
    case EvClient(_, Pass(_, _)) =>
    case EvServer(q) => ServerHolds(m, q, i, c, p, mid);
    case EvPlain(remote) => CreateHolds(m, i, c, p, mid, Chan(None, remote, false, false));
    case EvDepart(_) =>
    case EvFree(_) =>
  }

  /** Being open later means having been open before. */
  lemma OpenBefore(c: nat, p: FromClient, mid: seq<Event>, ev: Event, i: nat)
    requires StillOpen(c, p, mid + [ev], i)
    ensures StillOpen(c, p, mid, i)
  {
    hide Departed, ServerClosed, ClientClosed;
    Later(p, mid, ev, c, i);
  }

  lemma DeadStays(m: Mux, ev: Event)
    requires m.dead
    ensures Step(m, ev) == m
  {
  }

  lemma {:induction false} RunHolds(pre: seq<Event>, c: nat, p: FromClient, mid: seq<Event>)
    requires Opening(p) && !Run(pre + [EvClient(c, p)] + mid).dead
    requires StillOpen(c, p, mid, FirstFree(Run(pre).table))
    ensures Holds(Run(pre + [EvClient(c, p)] + mid).table, FirstFree(Run(pre).table), c, p, mid)
    decreases |mid|
  {
    hide Holds, StillOpen, Step, FirstFree;
    var i, open := FirstFree(Run(pre).table), pre + [EvClient(c, p)];
    if mid == [] {
      assert open + mid == open && open[..|pre|] == pre;
      FirstHolds(Run(pre), c, p);
    } else {
      var n := |mid| - 1;
      var all, before := open + mid, open + mid[..n];
      assert all[..|all| - 1] == before && all[|all| - 1] == mid[n] && mid == mid[..n] + [mid[n]];
      if Run(before).dead { DeadStays(Run(before), mid[n]); }
      OpenBefore(c, p, mid[..n], mid[n], i);
      RunHolds(pre, c, p, mid[..n]);
      StepHolds(Run(before), mid[n], i, c, p, mid[..n]);
    }
  }

  lemma FirstHolds(m: Mux, c: nat, p: FromClient)
    requires Opening(p) && !Step(m, EvClient(c, p)).dead
    ensures Holds(Step(m, EvClient(c, p)).table, FirstFree(m.table), c, p, [])
  {
    if m.dead { DeadStays(m, EvClient(c, p)); }
  }

  /** A client's opening goes to the server with some slot in place of the client's id, and from then on every
      packet of the server for that slot goes to that client alone and carries the client's own id, until the
      client leaves or CLOSE has passed in both directions; whatever the other clients do, and whichever ids
      they use. */
  lemma RoutedToOpener(pre: seq<Event>, c: nat, p: FromClient, mid: seq<Event>, q: FromServer)
    requires Opening(p) && !Run(pre + [EvClient(c, p)] + mid).dead
    requires q.id == FirstFree(Run(pre).table) && StillOpen(c, p, mid, q.id)
    ensures q.id < TWO32
    ensures Run(pre + [EvClient(c, p)]).toServer == Run(pre).toServer + [Renamed(p, q.id)]
    ensures var m := Run(pre + [EvClient(c, p)] + mid);
            Step(m, EvServer(q)).toClients == m.toClients + [Delivery(c, p.id, q.kind, q.body)]
  {
    hide Run, StillOpen, FirstFree, Renamed;
    var m := Run(pre + [EvClient(c, p)] + mid);
    RunHolds(pre, c, p, mid);
    OpenAlive(pre, c, p, mid);
    Forwarding(pre, c, p);
    Snoc(pre, EvClient(c, p));
    DeliveredTo(m, q, c, p, mid);
  }

  lemma Snoc(events: seq<Event>, ev: Event)
    ensures Run(events + [ev]) == Step(Run(events), ev)
  {
    hide Step;
    assert (events + [ev])[..|events|] == events;
  }

  lemma {:induction false} OpenAlive(pre: seq<Event>, c: nat, p: FromClient, mid: seq<Event>)
    requires !Run(pre + [EvClient(c, p)] + mid).dead
    ensures !Run(pre + [EvClient(c, p)]).dead && !Run(pre).dead
    decreases |mid|
  {
    hide Step;
    var open := pre + [EvClient(c, p)];
    Snoc(pre, EvClient(c, p));
    if Run(pre).dead { DeadStays(Run(pre), EvClient(c, p)); }
    if mid == [] {
      assert open + mid == open;
    } else {
      var n := |mid| - 1;
      assert open + mid == (open + mid[..n]) + [mid[n]];
      Snoc(open + mid[..n], mid[n]);
      if Run(open + mid[..n]).dead { DeadStays(Run(open + mid[..n]), mid[n]); }
      OpenAlive(pre, c, p, mid[..n]);
    }
  }

  lemma DeliveredTo(m: Mux, q: FromServer, c: nat, p: FromClient, mid: seq<Event>)
    requires Opening(p) && !m.dead && Holds(m.table, q.id, c, p, mid)
    ensures Step(m, EvServer(q)).toClients == m.toClients + [Delivery(c, p.id, q.kind, q.body)]
  {
  }

  // ---------- and nobody else ----------

  /** Event k is an opening for owner o that took slot i, and o's client has not left since. */
  ghost predicate Opener(events: seq<Event>, k: nat, i: nat, o: Owner) {
    && k < |events| && events[k].EvClient? && Opening(events[k].p)
    && events[k].client == o.client && events[k].p.id == o.id
    && FirstFree(Run(events[..k]).table) == i && !Departed(events[k + 1..], o.client)
  }

  lemma {:induction false} OwnerOpened(events: seq<Event>, i: nat, o: Owner) returns (k: nat)
    requires OwnerAt(Run(events).table, i) == Some(o) && !Run(events).dead
    ensures Opener(events, k, i, o)
    decreases |events|
  {
    hide Run, Departed;
    if events == [] {
      NoEvents();
      assert false;
    } else {
      var n := |events| - 1;
      var before, ev := events[..n], events[n];
      Snoc(before, ev);
      assert events == before + [ev];
      if Run(before).dead { DeadStays(Run(before), ev); }
      if OwnerAt(Run(before).table, i) == Some(o) && ev != EvDepart(o.client) {
        k := OwnerOpened(before, i, o);
        StillOpener(before, ev, k, i, o);
      } else {
        NewOwner(Run(before), ev, i, o);
        k := n;
        NoneAfter(events, o.client);
      }
    }
  }

  lemma NoEvents()
    ensures Run([]).table == []
  {
  }

  lemma StillOpener(before: seq<Event>, ev: Event, k: nat, i: nat, o: Owner)
    requires Opener(before, k, i, o) && ev != EvDepart(o.client)
    ensures Opener(before + [ev], k, i, o)
  {
    hide Run;
    var l := before + [ev];
    assert l[..k] == before[..k] && l[k + 1..] == before[k + 1..] + [ev];
  }

  lemma NoneAfter(events: seq<Event>, c: nat)
    requires events != []
    ensures events[..|events| - 1 + 1] == events && !Departed(events[|events| - 1 + 1..], c)
  {
  }

  /** Only an opening makes an owner. */
  lemma NewOwner(m: Mux, ev: Event, i: nat, o: Owner)
    requires !m.dead && OwnerAt(Step(m, ev).table, i) == Some(o)
    requires OwnerAt(m.table, i) != Some(o) || ev == EvDepart(o.client)
    ensures ev.EvClient? && Opening(ev.p) && ev.client == o.client && ev.p.id == o.id && FirstFree(m.table) == i
  {
  }

  /** What reaches a client reaches the one whose opening took the slot, and no other. */
  lemma RoutedOnlyToOpener(events: seq<Event>, q: FromServer)
    ensures var m := Run(events);
            var n := Step(m, EvServer(q));
            n.toClients == m.toClients
            || exists k, o :: Opener(events, k, q.id, o)
                              && n.toClients == m.toClients + [Delivery(o.client, o.id, q.kind, q.body)]
  {
    hide Run, Opener;
    var m := Run(events);
    var o := OwnerAt(m.table, q.id);
    if o.Some? && !m.dead {
      var k := OwnerOpened(events, q.id, o.value);
      assert Opener(events, k, q.id, o.value);
    }
  }

  // ---------- when the slot is given back ----------

  /** The server's id for the slot after `mid`: the latest one the server confirmed, or the one in the opening. */
  function IdAt(p: FromClient, mid: seq<Event>, i: nat): Option<U32> {
    if mid == [] then (if p.CConfirm? then Some(p.remote) else None)
    else
      var ev := mid[|mid| - 1];
      if ev.EvServer? && ev.q.id == i && ev.q.kind.SConfirm? && ev.q.kind.remote.Some? then ev.q.kind.remote
      else IdAt(p, mid[..|mid| - 1], i)
  }

  /** A client has sent a CLOSE naming the id the server had for the slot at that point. */
  predicate ClosedById(p: FromClient, mid: seq<Event>, i: nat) {
    exists k | 0 <= k < |mid| :: mid[k].EvClient? && mid[k].p.CClose? && IdAt(p, mid[..k], i) == Some(mid[k].p.remote)
  }

  /** CLOSE has passed in both directions. */
  predicate ClosedBothWays(p: FromClient, mid: seq<Event>, i: nat) { ServerClosed(mid, i) && ClosedById(p, mid, i) }

  lemma NextIds(p: FromClient, mid: seq<Event>, ev: Event, i: nat)
    ensures IdAt(p, mid + [ev], i)
            == if ev.EvServer? && ev.q.id == i && ev.q.kind.SConfirm? && ev.q.kind.remote.Some? then ev.q.kind.remote
               else IdAt(p, mid, i)
    ensures ClosedById(p, mid + [ev], i) <==>
            ClosedById(p, mid, i) || (ev.EvClient? && ev.p.CClose? && IdAt(p, mid, i) == Some(ev.p.remote))
    ensures ServerClosed(mid + [ev], i) <==>
            ServerClosed(mid, i) || (ev.EvServer? && ev.q.id == i && ev.q.kind == SClose)
  {
    var l := mid + [ev];
    assert l[..|mid|] == mid && l[|mid|] == ev;
    assert forall k | 0 <= k < |mid| :: l[k] == mid[k] && l[..k] == mid[..k];
    if ClosedById(p, mid, i) {
      var k :| 0 <= k < |mid| && mid[k].EvClient? && mid[k].p.CClose? && IdAt(p, mid[..k], i) == Some(mid[k].p.remote);
      assert l[k].EvClient? && l[k].p.CClose? && IdAt(p, l[..k], i) == Some(l[k].p.remote);
    }
  }

  /** The slot is the client's and remembers exactly what has passed. */
  ghost predicate Remembers(t: Table, i: nat, c: nat, p: FromClient, mid: seq<Event>)
    requires Opening(p)
  {
    && Live(t, i)
    && t[i] == Some(Chan(Some(Owner(c, p.id)), IdAt(p, mid, i), ClosedById(p, mid, i), ServerClosed(mid, i)))
  }

  /** Given back with the second CLOSE, and exactly remembered until then. */
  ghost predicate Settled(t: Table, i: nat, c: nat, p: FromClient, mid: seq<Event>)
    requires Opening(p)
  {
    if ClosedBothWays(p, mid, i) then !Live(t, i) else Remembers(t, i, c, p, mid)
  }

  lemma CreateSettles(m: Mux, i: nat, c: nat, p: FromClient, mid: seq<Event>, x: Chan)
    requires Opening(p) && Remembers(m.table, i, c, p, mid)
    ensures Remembers(Create(m, x).table, i, c, p, mid)
  {
    hide IdAt, ClosedById, ServerClosed;
  }

  /** With unique server ids, the client's CLOSE finds the slot exactly if it names the slot's id. */
  lemma FoundById(t: Table, i: nat, remote: U32)
    requires Unique(t) && Live(t, i)
    ensures ByRemote(t, remote) == Some(i) <==> t[i].value.remote == Some(remote)
  {
    hide Unique;
    var b := ByRemote(t, remote);
    if b.Some? && t[i].value.remote == Some(remote) && b.value != i { Clash(t, b.value, i); }
  }

  lemma Clash(t: Table, i: nat, j: nat)
    requires Unique(t) && Live(t, i) && Live(t, j) && t[i].value.remote.Some? && i != j
    ensures t[i].value.remote != t[j].value.remote
  {
  }

  lemma CloseSettles(m: Mux, ev: Event, i: nat, c: nat, p: FromClient, mid: seq<Event>)
    requires Opening(p) && Remembers(m.table, i, c, p, mid) && ev.EvClient? && ev.p.CClose? && Unique(m.table)
    requires !ClosedBothWays(p, mid, i)
    ensures Settled(CloseUp(m, ev.p.remote).table, i, c, p, mid + [ev])
  {
    hide IdAt, ClosedById, ServerClosed, ByRemote, Unique;
    NextIds(p, mid, ev, i);
    FoundById(m.table, i, ev.p.remote);
  }

  lemma ServerSettles(m: Mux, q: FromServer, i: nat, c: nat, p: FromClient, mid: seq<Event>)
    requires Opening(p) && Remembers(m.table, i, c, p, mid) && !ClosedBothWays(p, mid, i) && !m.dead
    ensures Settled(Upstream(m, q).table, i, c, p, mid + [EvServer(q)])
  {
    hide IdAt, ClosedById, ServerClosed;
    NextIds(p, mid, EvServer(q), i);
  }

  lemma StepSettles(m: Mux, ev: Event, i: nat, c: nat, p: FromClient, mid: seq<Event>)
    requires Opening(p) && Remembers(m.table, i, c, p, mid) && !m.dead && Unique(m.table)
    requires !ClosedBothWays(p, mid, i) && ev != EvDepart(c)
    ensures Settled(Step(m, ev).table, i, c, p, mid + [ev])
  {
    hide IdAt, ClosedById, ServerClosed, Unique;
    NextIds(p, mid, ev, i);
    match ev
    case EvClient(client, COpen(_, id, _)) =>
      CreateSettles(m, i, c, p, mid, Chan(Some(Owner(client, id)), None, false, false));
    case EvClient(client, CConfirm(remote, id, _)) =>
      CreateSettles(m, i, c, p, mid, Chan(Some(Owner(client, id)), Some(remote), false, false));
    case EvClient(_, CClose(_, _)) => CloseSettles(m, ev, i, c, p, mid);
    case EvClient(_, Pass(_, _)) =>
    case EvServer(q) => ServerSettles(m, q, i, c, p, mid);
    case EvPlain(remote) => CreateSettles(m, i, c, p, mid, Chan(None, remote, false, false));
    case EvDepart(_) =>
    case EvFree(_) =>
  }

  /** No two live channels have the same server id, at any point after the opening. */
  ghost predicate UniqueSince(open: seq<Event>, mid: seq<Event>) {
    forall k | 0 <= k <= |mid| :: Unique(Run(open + mid[..k]).table)
  }

  lemma {:induction false} RunSettles(pre: seq<Event>, c: nat, p: FromClient, mid: seq<Event>)
    requires Opening(p) && !Run(pre + [EvClient(c, p)] + mid).dead && !Departed(mid, c)
    requires UniqueSince(pre + [EvClient(c, p)], mid)
    requires mid != [] ==> !ClosedBothWays(p, mid[..|mid| - 1], FirstFree(Run(pre).table))
    ensures Settled(Run(pre + [EvClient(c, p)] + mid).table, FirstFree(Run(pre).table), c, p, mid)
    decreases |mid|
  {
    hide IdAt, ClosedById, ServerClosed, Step, FirstFree, Run, Unique;
    var i, open := FirstFree(Run(pre).table), pre + [EvClient(c, p)];
    if mid == [] {
      Snoc(pre, EvClient(c, p));
      assert open + mid == open;
      FirstSettles(Run(pre), c, p);
    } else {
      var n := |mid| - 1;
      var before := open + mid[..n];
      assert open + mid == before + [mid[n]] && mid == mid[..n] + [mid[n]];
      Snoc(before, mid[n]);
      if Run(before).dead { DeadStays(Run(before), mid[n]); }
      if n > 0 {
        assert mid[..n] == mid[..n - 1] + [mid[n - 1]];
        NextIds(p, mid[..n - 1], mid[n - 1], i);
      }
      UniqueBefore(open, mid);
      RunSettles(pre, c, p, mid[..n]);
      StepSettles(Run(before), mid[n], i, c, p, mid[..n]);
    }
  }

  lemma UniqueBefore(open: seq<Event>, mid: seq<Event>)
    requires mid != [] && UniqueSince(open, mid)
    ensures UniqueSince(open, mid[..|mid| - 1]) && Unique(Run(open + mid[..|mid| - 1]).table)
  {
    hide Run, Unique;
    var m := mid[..|mid| - 1];
    assert forall k | 0 <= k <= |m| :: m[..k] == mid[..k];
  }

  lemma FirstSettles(m: Mux, c: nat, p: FromClient)
    requires Opening(p) && !Step(m, EvClient(c, p)).dead
    ensures Settled(Step(m, EvClient(c, p)).table, FirstFree(m.table), c, p, [])
  {
    if m.dead { DeadStays(m, EvClient(c, p)); }
  }

  /** The slot of an opening is given back exactly by the CLOSE that makes it pass in both directions: the server's
      for the slot, and a client's for the id the server had for it.  Up to then the slot is the opener's, and the
      server's packets for it go there; with that CLOSE it is free, and a packet for it goes to nobody. */
  lemma FreedExactly(pre: seq<Event>, c: nat, p: FromClient, mid: seq<Event>, q: FromServer)
    requires Opening(p) && !Run(pre + [EvClient(c, p)] + mid).dead && !Departed(mid, c)
    requires UniqueSince(pre + [EvClient(c, p)], mid)
    requires q.id == FirstFree(Run(pre).table)
    requires mid != [] ==> !ClosedBothWays(p, mid[..|mid| - 1], q.id)
    ensures var m := Run(pre + [EvClient(c, p)] + mid);
            && (Live(m.table, q.id) <==> !ClosedBothWays(p, mid, q.id))
            && (Live(m.table, q.id) ==> m.table[q.id].value.owner == Some(Owner(c, p.id)))
            && Step(m, EvServer(q)).toClients
               == m.toClients + if ClosedBothWays(p, mid, q.id) then [] else [Delivery(c, p.id, q.kind, q.body)]
  {
    hide Run, Step, Settled, ClosedBothWays, FirstFree, UniqueSince;
    RunSettles(pre, c, p, mid);
    SettledRoutes(Run(pre + [EvClient(c, p)] + mid), c, p, mid, q);
  }

  lemma SettledRoutes(m: Mux, c: nat, p: FromClient, mid: seq<Event>, q: FromServer)
    requires Opening(p) && !m.dead && Settled(m.table, q.id, c, p, mid)
    ensures Live(m.table, q.id) <==> !ClosedBothWays(p, mid, q.id)
    ensures Live(m.table, q.id) ==> m.table[q.id].value.owner == Some(Owner(c, p.id))
    ensures Step(m, EvServer(q)).toClients
            == m.toClients + if ClosedBothWays(p, mid, q.id) then [] else [Delivery(c, p.id, q.kind, q.body)]
  {
    hide IdAt, ClosedById, ServerClosed;
  }
}
