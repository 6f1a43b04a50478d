/** How a channel ends: exactly when, once both sides stop reading, the closing handshake frees both. */
module ChannelEndings {
  import opened Bytes
  import opened ChannelModel
  import opened ChannelProtocol
  import opened ChannelSteps
  import opened ChannelReceive
  import opened ChannelTheorems
  import opened ChannelLiveness

  /** An input half has ended by saying EOF, because the peer closed, or because the peer cannot write. */
  predicate Ended(s: Endpoint, r: Endpoint) {
    s.istate == InClosed ==> s.eofSent || s.closeRcvd || r.writeFailed
  }

  predicate Endings(s: Sys) { Ended(s.a, s.b) && Ended(s.b, s.a) }

  // ---------- every step keeps it ----------

  /** From e to t nothing is taken back, and an input half that ends in this step ends properly. */
  predicate Onward(e: Endpoint, t: Endpoint) {
    && (e.eofSent ==> t.eofSent) && (e.closeRcvd ==> t.closeRcvd) && (e.writeFailed ==> t.writeFailed)
    && (t.istate == InClosed && e.istate != InClosed ==> t.eofSent || t.closeRcvd)
  }

  lemma ReadOnward(e: Endpoint, r: ReadResult)
    ensures Onward(e, HandleRfd(e, r))
  {
  }

  lemma WriteOnward(e: Endpoint, w: WriteResult)
    ensures Onward(e, HandleWfd(e, w))
  {
  }

  lemma ErrWriteOnward(e: Endpoint, w: WriteResult)
    ensures Onward(e, HandleEfdWrite(e, w))
  {
  }

  lemma ErrReadOnward(e: Endpoint, r: ReadResult)
    ensures Onward(e, HandleEfdRead(e, r))
  {
  }

  lemma CheckOnward(e: Endpoint)
    ensures Onward(e, CheckWindow(e))
  {
  }

  lemma PreOpenOnward(e: Endpoint)
    ensures Onward(e, PreOpen(e))
  {
  }

  lemma PollInputOnward(e: Endpoint)
    requires e.closeSent ==> e.istate == InClosed
    ensures Onward(e, PollInput(e))
  {
  }

  lemma PollExtendedOnward(e: Endpoint)
    ensures Onward(e, PollExtended(e))
  {
  }

  lemma ActivateOnward(e: Endpoint, windowMax: U32, usage: ExtUsage, efd: bool)
    ensures Onward(e, Activate(e, windowMax, usage, efd))
  {
  }

  lemma CollectOnward(e: Endpoint)
    ensures Onward(e, Collect(e))
  {
  }

  lemma ConfirmOnward(e: Endpoint, window: U32, maxpacket: U32)
    ensures Onward(e, InputOpenConfirmation(e, window, maxpacket))
  {
  }

  lemma DataOnward(e: Endpoint, data: seq<Byte>)
    ensures Onward(e, InputData(e, data))
  {
  }

  lemma ExtDataOnward(e: Endpoint, data: seq<Byte>)
    ensures Onward(e, InputExtendedData(e, data))
  {
  }

  lemma AdjustOnward(e: Endpoint, amount: U32)
    ensures Onward(e, InputWindowAdjust(e, amount))
  {
  }

  lemma EofOnward(e: Endpoint)
    requires e.closeSent ==> e.istate == InClosed
    ensures Onward(e, InputIeof(e))
  {
  }

  lemma CloseOnward(e: Endpoint)
    ensures Onward(e, RcvdOclose(e))
  {
  }

  lemma LocalEnds(s: Endpoint, r: Endpoint, ev: Event)
    requires Sound(s) && Ended(s, r) && Ended(r, s) && !ev.EvReceive?
    ensures Ended(Local(s, ev), r) && Ended(r, Local(s, ev))
  {
    hide HandleRfd, HandleWfd, HandleEfdWrite, HandleEfdRead, CheckWindow, PreOpen, PollInput, PollExtended, Activate,
         Collect;
    match ev
    case EvRead(res) => ReadOnward(s, res);
    case EvWrite(w) => WriteOnward(s, w);
    case EvErrWrite(w) => ErrWriteOnward(s, w);
    case EvErrRead(res) => ErrReadOnward(s, res);
    case EvCheckWindow => CheckOnward(s);
    case EvPreOpen => PreOpenOnward(s);
    case EvPollInput => PollInputOnward(s);
    case EvPollExtended => PollExtendedOnward(s);
    case EvActivate(windowMax, usage, efd) => ActivateOnward(s, windowMax, usage, efd);
    case EvCollect => CollectOnward(s);
  }

  lemma DispatchEnds(s: Endpoint, r: Endpoint, m: Msg)
    requires Sound(s) && Ended(s, r) && Ended(r, s) && (m.Eow? ==> r.writeFailed)
    ensures Ended(Dispatch(s, m), r) && Ended(r, Dispatch(s, m))
  {
    hide InputOpenConfirmation, InputData, InputExtendedData, InputWindowAdjust, InputIeof, RcvdOclose;
    match m
    case Confirm(window, maxpacket) => ConfirmOnward(s, window, maxpacket);
    case Data(data) => DataOnward(s, data);
    case ExtData(data) => ExtDataOnward(s, data);
    case Adjust(amount) => AdjustOnward(s, amount);
    case Eof => EofOnward(s);
    case Eow =>
    case Close => CloseOnward(s);
  }

  lemma StepEnds(s: Sys, atA: bool, ev: Event)
    requires Inv(s) && Endings(s)
    ensures Endings(Step(s, atA, ev))
  {
    hide Talk, Count, Flow, Local, Dispatch, Ended;
    var p := if atA then s else Swap(s);
    if ev.EvReceive? {
      if p.b.link != [] {
        var m, q := p.b.link[0], p.b.(link := p.b.link[1..]);
        ArrivesAlive(p.a, p.b, q, m);
        DispatchEnds(p.a, p.b, m);
        SameEnds(p.b, q, Dispatch(p.a, m));
      }
    } else {
      LocalEnds(p.a, p.b, ev);
    }
  }

  lemma SameEnds(r: Endpoint, q: Endpoint, s: Endpoint)
    requires q == r.(link := q.link) && Ended(s, r) && Ended(r, s)
    ensures Ended(s, q) && Ended(q, s)
  {
  }

  lemma {:induction false} ReachedEnds(start: Sys, schedule: seq<(bool, Event)>)
    requires Start(start)
    ensures Endings(Exec(start, schedule))
  {
    hide Inv, Step;
    if schedule != [] {
      var k := |schedule| - 1;
      ReachedEnds(start, schedule[..k]);
      Reachable(start, schedule[..k]);
      StepEnds(Exec(start, schedule[..k]), schedule[k].0, schedule[k].1);
    }
  }

  // ---------- at rest, everything is closed ----------

  /** Progress, the two halves' own steps, and descriptors that have come to their end. */
  predicate Orderly(ev: Event) {
    Progress(ev) || ev == EvRead(ReadFail) || ev == EvErrRead(ReadFail) || ev == EvPreOpen || ev == EvCollect
  }

  lemma OrderlyIsInternal(ev: Event)
    requires Orderly(ev)
    ensures Internal(ev)
  {
    if Progress(ev) { ProgressIsInternal(ev); }
  }

  lemma AtRest(s: Sys, atA: bool, ev: Event)
    requires Still(s, Orderly) && Orderly(ev) && !ev.EvReceive? && s.a.fault == NoFault && s.b.fault == NoFault
    ensures Local(if atA then s.a else s.b, ev) == if atA then s.a else s.b
  {
    hide Local;
    assert Step(s, atA, ev) == s;
  }

  lemma RestIsStuck(s: Sys)
    requires Still(s, Orderly)
    ensures Stuck(s)
  {
    hide Step, Progress;
    forall atA, ev | Progress(ev) ensures Step(s, atA, ev) == s { assert Orderly(ev); }
  }

  lemma RestSwap(s: Sys)
    requires Still(s, Orderly)
    ensures Still(Swap(s), Orderly)
  {
    hide StepA;
    forall atA, ev | Orderly(ev) ensures Step(Swap(s), atA, ev) == Swap(s) {
      assert Step(s, !atA, ev) == s;
      assert Swap(Swap(s)) == s;
    }
  }

  /** One side at rest towards the other: nothing it could still do on its own. */
  predicate Resting(e: Endpoint) {
    && HandleRfd(e, ReadFail) == e && HandleEfdRead(e, ReadFail) == e
    && PollInput(e) == e && PreOpen(e) == e && Collect(e) == e
  }

  lemma RestingSide(s: Sys, atA: bool)
    requires Still(s, Orderly) && s.a.fault == NoFault && s.b.fault == NoFault
    ensures Resting(if atA then s.a else s.b)
  {
    hide Still, HandleRfd, HandleEfdRead, PollInput, PreOpen, Collect;
    AtRest(s, atA, EvRead(ReadFail));
    AtRest(s, atA, EvErrRead(ReadFail));
    AtRest(s, atA, EvPollInput);
    AtRest(s, atA, EvPreOpen);
    AtRest(s, atA, EvCollect);
  }

  /** This side's input half has ended, or can: it is past its larval state, the other side has window left for it,
      and nothing it still holds is barred by an empty packet size. */
  predicate CanEnd(s: Endpoint, r: Endpoint) {
    || s.istate == InClosed
    || (s.ctype != Larval && r.localWindow > r.refused
        && (1 <= r.localMaxpacket || (s.input == [] && OwnErr(s) == [])))
  }

  /** A resting side that can end its input half has ended it. */
  lemma InputEnds(s: Endpoint, r: Endpoint)
    requires Shakes(s, r) && s.link == [] && r.link == [] && Resting(s) && CanEnd(s, r)
    requires s.ctype == Open && s.istate != InClosed ==> Left(s, r)
    ensures s.istate == InClosed
  {
    hide Resting;
    if s.istate != InClosed {
      StillTalking(s, r);
      InputHalfEnds(s);
    }
  }

  lemma InputHalfEnds(e: Endpoint)
    requires e.ctype == Open && e.input == [] && OwnErr(e) == [] && !e.Closing() && !e.eofSent && e.remoteWindow > 0
    requires Resting(e)
    ensures e.istate == InClosed
  {
    if e.istate == InOpen { RfdEnds(e, ReadFail); }
  }

  /** A resting receiver with nothing to write follows: its output half is closed too. */
  lemma OutputEnds(s: Endpoint, r: Endpoint)
    requires Shakes(s, r) && s.link == [] && r.link == [] && Ended(s, r) && s.istate == InClosed && r.istate == InClosed
    requires Resting(r) && r.output == [] && r.ctype != Opening
    requires r.ctype == Open && r.ostate == OutDrain ==> !r.EfdOutputActive()
    ensures r.ostate == OutClosed
  {
    hide HandleRfd, HandleEfdRead, PollInput, Collect;
  }

  /** With all four halves closed and the links empty, CLOSE has passed both ways and both sides are freed. */
  lemma BothFreed(s: Endpoint, r: Endpoint)
    requires Shakes(s, r) && s.link == [] && r.link == [] && Resting(s) && Resting(r)
    requires s.istate == InClosed && s.ostate == OutClosed && r.istate == InClosed && r.ostate == OutClosed
    ensures s.ctype == Freed && r.ctype == Freed
  {
    hide HandleRfd, HandleEfdRead, PollInput, PreOpen;
  }

  lemma RestCloses(s: Sys)
    requires Inv(s) && Endings(s) && Still(s, Orderly) && s.a.fault == NoFault && s.b.fault == NoFault
    ensures CanEnd(s.a, s.b) && CanEnd(s.b, s.a) <==> s.a.ctype == Freed && s.b.ctype == Freed
  {
    hide Still, Talk, Count, Flow, Resting, Stuck, Ended, Left;
    RestIsStuck(s);
    StuckSwap(s);
    InvSwap(s);
    StuckStands(s);
    StuckStands(Swap(s));
    RestingSide(s, true);
    RestingSide(s, false);
    if CanEnd(s.a, s.b) && CanEnd(s.b, s.a) {
      InputEnds(s.a, s.b);
      InputEnds(s.b, s.a);
      OutputEnds(s.a, s.b);
      OutputEnds(s.b, s.a);
      BothFreed(s.a, s.b);
    }
  }

  /** A usable receiver leaves the sender able to end. */
  lemma UsableEnds(s: Endpoint, r: Endpoint)
    requires Sound(s) && Sound(r) && Usable(s, r) && Usable(r, s)
    requires s.ctype == Open && s.istate != InClosed ==> Left(s, r)
    requires !r.errLost && !r.writeFailed ==> HeldErr(r) == []
    requires s.ctype != Opening
    ensures CanEnd(s, r)
  {
  }

  /** The closing handshake, exactly.  On every run, once the descriptors that are read from have come to their end
      and no further step changes anything, both channels are freed if and only if each side's input half has ended
      or had window left to end with; then everything has arrived, unless it was lost.  It does so whenever both
      receivers are usable. */
  lemma HandshakeCompletes(start: Sys, schedule: seq<(bool, Event)>)
    requires Start(start)
    ensures var s := Exec(start, schedule);
            Still(s, Orderly) ==>
              && (s.a.ctype == Freed && s.b.ctype == Freed <==> CanEnd(s.a, s.b) && CanEnd(s.b, s.a))
              && (s.a.ctype == Freed && s.b.ctype == Freed ==> Arrived(s.a, s.b) && Arrived(s.b, s.a))
    ensures var s := Exec(start, schedule);
            Still(s, Orderly) && Usable(s.a, s.b) && Usable(s.b, s.a) ==>
              && s.a.ctype == Freed && s.b.ctype == Freed
              && s.a.taken == s.b.given && s.a.errTaken == s.b.errGiven
              && s.b.taken == s.a.given && s.b.errTaken == s.a.errGiven
  {
    hide Exec, Start, Still, Talk, Count, Flow, Stuck, Left, CanEnd, Ended;
    Reachable(start, schedule);
    ReachedEnds(start, schedule);
    WindowSafety(start, schedule, false);
    var s := Exec(start, schedule);
    if Still(s, Orderly) {
      RestCloses(s);
      RestIsStuck(s);
      StuckSwap(s);
      InvSwap(s);
      StuckStands(s);
      StuckStands(Swap(s));
      if Usable(s.a, s.b) && Usable(s.b, s.a) {
        UsableEnds(s.a, s.b);
        UsableEnds(s.b, s.a);
      }
    }
  }

  /** And such a state can always be reached. */
  lemma ComesToRest(start: Sys, schedule: seq<(bool, Event)>) returns (more: seq<(bool, Event)>)
    requires Start(start)
    ensures (forall k | 0 <= k < |more| :: Orderly(more[k].1)) && Still(Exec(Exec(start, schedule), more), Orderly)
  {
    hide Exec, Start, Orderly, Internal, Inv;
    Reachable(start, schedule);
    forall ev | Orderly(ev) ensures Internal(ev) { OrderlyIsInternal(ev); }
    more := Settles(Exec(start, schedule), Orderly);
  }
}
