/** The moves an endpoint can make on its own, and that each of them keeps the invariant. */
module ChannelSteps {
  import opened Bytes
  import opened ChannelModel
  import opened ChannelProtocol

  // ---------- moves that leave a part of the invariant alone ----------

  predicate SameCount(s: Endpoint, t: Endpoint) {
    && t.remoteWindow == s.remoteWindow && t.localWindow == s.localWindow
    && t.localWindowMax == s.localWindowMax && t.localExceeded == s.localExceeded
    && t.localConsumed + |t.output| + |HeldErr(t)| == s.localConsumed + |s.output| + |HeldErr(s)|
    && DataLen(t.link) == DataLen(s.link) && Credits(t.link) == Credits(s.link)
    && t.writeFailed == s.writeFailed && t.errLost == s.errLost && t.dropped == s.dropped && t.refused == s.refused
  }

  lemma CountsFrame(s: Endpoint, t: Endpoint, r: Endpoint, q: Endpoint)
    requires Counts(s, r) && SameCount(s, t) && SameCount(r, q)
    ensures Counts(t, q)
  {
  }

  predicate SameFlow(s: Endpoint, t: Endpoint) {
    && t.taken == s.taken && t.given == s.given && t.errTaken == s.errTaken && t.errGiven == s.errGiven
    && t.input == s.input && t.output == s.output && HeldErr(t) == HeldErr(s) && OwnErr(t) == OwnErr(s)
    && DataOf(t.link) == DataOf(s.link) && ErrOf(t.link) == ErrOf(s.link)
    && t.writeFailed == s.writeFailed && t.errLost == s.errLost && t.dropped == s.dropped && t.refused == s.refused
  }

  lemma FlowsFrame(s: Endpoint, t: Endpoint, r: Endpoint, q: Endpoint)
    requires Flows(s, r) && SameFlow(s, t) && SameFlow(r, q)
    ensures Flows(t, q)
  {
  }

  /** Adding a count that fits does not wrap. */
  lemma NoWrap(x: U32, y: U32)
    requires x + y < TWO32
    ensures Add32(x, y) == x + y
  {
  }

  /** Three times a packet size is zero modulo 2^32 only for size zero. */
  lemma TripleIsZero(p: U32)
    ensures Mul32(p, 3) == 0 <==> p == 0
  {
    var q := 3 * p / TWO32;
    assert 3 * p == q * TWO32 + Mul32(p, 3);
    assert 0 <= q <= 2;
  }

  lemma KnownOf(s: Endpoint, r: Endpoint)
    requires Shakes(s, r) && Counts(s, r)
    ensures Sound(s) && Memory(s)
  {
  }

  /** Bytes from the peer can only be here if the peer is past its opening. */
  lemma PeerActive(s: Endpoint, r: Endpoint)
    requires Shake(r, s) && Stream(r, s) && s.output != [] && !s.writeFailed
    ensures r.ctype != Opening && r.ctype != Larval
  {
    assert |r.taken| >= |s.output|;
  }

  // ---------- the descriptors ----------

  lemma ReadKeeps(s: Endpoint, r: Endpoint, res: ReadResult)
    requires Inv(Sys(s, r))
    ensures Inv(Sys(HandleRfd(s, res), r))
  {
    hide Shakes, Counts, Flows, HandleRfd;
    if s.ctype == Open && s.istate == InOpen && |s.input| < Min(s.remoteWindow, CHAN_INPUT_MAX) && res != ReadAgain {
      if res == ReadFail || res == Got([]) {
        RfdEnds(s, res);
        EndInput(s, r);
      } else {
        RfdTakes(s, res.data);
        TakeInput(s, r, res.data[..Min(|res.data|, Room(s))]);
      }
    } else {
      RfdIdle(s, res);
    }
  }

  function Room(s: Endpoint): int { Min(CHANNEL_MAX_READ, Min(s.remoteWindow, CHAN_INPUT_MAX) - |s.input|) }

  lemma RfdEnds(s: Endpoint, res: ReadResult)
    requires s.ctype == Open && s.istate == InOpen && |s.input| < Min(s.remoteWindow, CHAN_INPUT_MAX)
    requires res == ReadFail || res == Got([])
    ensures HandleRfd(s, res) == s.(istate := InDrain)
  {
  }

  lemma RfdTakes(s: Endpoint, data: seq<Byte>)
    requires s.ctype == Open && s.istate == InOpen && |s.input| < Min(s.remoteWindow, CHAN_INPUT_MAX) && data != []
    ensures var got := data[..Min(|data|, Room(s))];
            HandleRfd(s, Got(data)) == s.(input := s.input + got, taken := s.taken + got)
  {
  }

  lemma RfdIdle(s: Endpoint, res: ReadResult)
    requires !(s.ctype == Open && s.istate == InOpen && |s.input| < Min(s.remoteWindow, CHAN_INPUT_MAX) && res != ReadAgain)
    ensures HandleRfd(s, res) == s
  {
  }

  lemma TakeInput(s: Endpoint, r: Endpoint, got: seq<Byte>)
    requires Inv(Sys(s, r)) && s.ctype == Open && s.istate == InOpen
    ensures Inv(Sys(s.(input := s.input + got, taken := s.taken + got), r))
  {
    hide Shake, Count, Flow;
    var t := s.(input := s.input + got, taken := s.taken + got);
    TakeInputFlows(s, t, r, got);
    TakeInputShakes(s, t, r, got);
    CountsFrame(s, t, r, r);
  }

  lemma EndInput(s: Endpoint, r: Endpoint)
    requires Inv(Sys(s, r)) && s.ctype == Open && s.istate == InOpen
    ensures Inv(Sys(s.(istate := InDrain), r))
  {
    hide Shake, Count, Flow;
    var t := s.(istate := InDrain);
    EndInputShakes(s, t, r);
    CountsFrame(s, t, r, r);
    FlowsFrame(s, t, r, r);
  }

  lemma TakeInputShakes(s: Endpoint, t: Endpoint, r: Endpoint, got: seq<Byte>)
    requires Shakes(s, r) && s.ctype == Open && s.istate == InOpen
    requires t == s.(input := s.input + got, taken := s.taken + got)
    ensures Shakes(t, r)
  {
  }

  lemma TakeInputFlows(s: Endpoint, t: Endpoint, r: Endpoint, got: seq<Byte>)
    requires Flows(s, r)
    requires t == s.(input := s.input + got, taken := s.taken + got)
    ensures Flows(t, r)
  {
    Regroup(r.given + r.output + DataOf(s.link), s.input, got);
  }

  lemma EndInputShakes(s: Endpoint, t: Endpoint, r: Endpoint)
    requires Shakes(s, r) && s.ctype == Open && s.istate == InOpen
    requires t == s.(istate := InDrain)
    ensures Shakes(t, r)
  {
  }

  lemma WriteKeeps(s: Endpoint, r: Endpoint, w: WriteResult)
    requires Inv(Sys(s, r))
    ensures Inv(Sys(HandleWfd(s, w), r))
  {
    hide Shakes, Counts, Flows, HandleWfd, WriteFailed;
    if s.ctype != Open || s.ostate == OutClosed || s.output == [] || w == WriteAgain {
      WfdIdle(s, w);
    } else if w.Took? && w.count > 0 {
      WfdGives(s, w);
      GiveOutput(s, r, Min(w.count, |s.output|));
    } else {
      WfdFails(s, w);
      FailOutput(s, r);
    }
  }

  lemma WfdIdle(s: Endpoint, w: WriteResult)
    requires s.ctype != Open || s.ostate == OutClosed || s.output == [] || w == WriteAgain
    ensures HandleWfd(s, w) == s
  {
  }

  lemma WfdGives(s: Endpoint, w: WriteResult)
    requires s.ctype == Open && s.ostate != OutClosed && s.output != [] && w.Took? && w.count > 0
    ensures var n := Min(w.count, |s.output|);
            HandleWfd(s, w) == s.(given := s.given + s.output[..n], output := s.output[n..],
                                  localConsumed := Add32(s.localConsumed, n % TWO32))
  {
  }

  lemma WfdFails(s: Endpoint, w: WriteResult)
    requires s.ctype == Open && s.ostate != OutClosed && s.output != [] && (w == WriteFail || w == Took(0))
    ensures HandleWfd(s, w) == WriteFailed(s)
  {
  }

  lemma GiveOutput(s: Endpoint, r: Endpoint, n: nat)
    requires Inv(Sys(s, r)) && s.ctype == Open && s.ostate != OutClosed && n <= |s.output|
    ensures Inv(Sys(s.(given := s.given + s.output[..n], output := s.output[n..],
                       localConsumed := Add32(s.localConsumed, n % TWO32)), r))
  {
    hide Shake, Count, Flow;
    KnownOf(s, r);
    var t := s.(given := s.given + s.output[..n], output := s.output[n..],
                localConsumed := Add32(s.localConsumed, n % TWO32));
    GiveOutputShakes(s, t, r, n);
    GiveOutputFlows(s, t, r, n);
    NoWrap(s.localConsumed, n);
    CountsFrame(s, t, r, r);
  }

  lemma FailOutput(s: Endpoint, r: Endpoint)
    requires Inv(Sys(s, r)) && s.ctype == Open && s.ostate != OutClosed && s.output != []
    ensures Inv(Sys(WriteFailed(s), r))
  {
    hide Shake, Count;
    KnownOf(s, r);
    PeerActive(s, r);
    var t := WriteFailed(s);
    LinkAppend(s.link, Eow, Heard(r));
    FailOutputShakes(s, t, r);
    FailOutputCounts(s, t, r);
    FailOutputFlows(s, t, r);
  }

  lemma GiveOutputShakes(s: Endpoint, t: Endpoint, r: Endpoint, n: nat)
    requires Shakes(s, r) && s.ctype == Open && s.ostate != OutClosed && n <= |s.output|
    requires t == s.(given := s.given + s.output[..n], output := s.output[n..],
                     localConsumed := t.localConsumed)
    ensures Shakes(t, r)
  {
  }

  lemma GiveOutputFlows(s: Endpoint, t: Endpoint, r: Endpoint, n: nat)
    requires Flows(s, r) && !s.writeFailed && n <= |s.output|
    requires t == s.(given := s.given + s.output[..n], output := s.output[n..],
                     localConsumed := t.localConsumed)
    ensures Flows(t, r)
  {
    Regroup(s.given, s.output[..n], s.output[n..]);
    assert s.output == s.output[..n] + s.output[n..];
    assert s.given + s.output == t.given + t.output;
  }

  lemma FailOutputShakes(s: Endpoint, t: Endpoint, r: Endpoint)
    requires Shakes(s, r) && s.ctype == Open && s.ostate != OutClosed
    requires r.ctype != Opening && r.ctype != Larval
    requires t == (if s.session then s.Send(Eow) else s).(output := [], ostate := OutClosed, writeFailed := true,
                                                                   dropped := s.dropped + |s.output|)
    ensures Shakes(t, r)
  {
    LinkAppend(s.link, Eow, Heard(r));
  }

  lemma FailOutputCounts(s: Endpoint, t: Endpoint, r: Endpoint)
    requires Counts(s, r) && !s.writeFailed
    requires DataLen(t.link) == DataLen(s.link) && Credits(t.link) == Credits(s.link)
    requires t == s.(output := [], ostate := OutClosed, writeFailed := true, dropped := s.dropped + |s.output|, link := t.link)
    ensures Counts(t, r)
  {
  }

  lemma FailOutputFlows(s: Endpoint, t: Endpoint, r: Endpoint)
    requires Flows(s, r) && !s.writeFailed
    requires DataOf(t.link) == DataOf(s.link) && ErrOf(t.link) == ErrOf(s.link)
    requires t == s.(output := [], ostate := OutClosed, writeFailed := true, dropped := s.dropped + |s.output|, link := t.link)
    ensures Flows(t, r)
  {
    Regroup(s.given, s.output, DataOf(r.link) + r.input);
    Regroup(s.given + s.output, DataOf(r.link), r.input);
  }

  lemma ErrWriteKeeps(s: Endpoint, r: Endpoint, w: WriteResult)
    requires Inv(Sys(s, r))
    ensures Inv(Sys(HandleEfdWrite(s, w), r))
  {
    hide Shakes, Counts, Flows;
    if s.ctype == Open && s.extUsage == ExtWrite && s.efdOpen {
      FailErr(s, r);
      if w.Took? { GiveErr(s, r, Min(w.count, |s.extended|)); }
    }
  }

  lemma GiveErr(s: Endpoint, r: Endpoint, n: nat)
    requires Inv(Sys(s, r)) && s.ctype == Open && s.extUsage == ExtWrite && s.efdOpen && n <= |s.extended|
    ensures Inv(Sys(s.(errGiven := s.errGiven + s.extended[..n], extended := s.extended[n..],
                       localConsumed := Add32(s.localConsumed, n % TWO32)), r))
  {
    hide Shake, Count, Flow;
    var t := s.(errGiven := s.errGiven + s.extended[..n], extended := s.extended[n..],
                localConsumed := Add32(s.localConsumed, n % TWO32));
    KnownOf(s, r);
    GiveErrShakes(s, t, r, n);
    GiveErrFlows(s, t, r, n);
    NoWrap(s.localConsumed, n);
    CountsFrame(s, t, r, r);
  }

  lemma FailErr(s: Endpoint, r: Endpoint)
    requires Inv(Sys(s, r)) && s.ctype == Open && s.extUsage == ExtWrite
    ensures Inv(Sys(s.(efdOpen := false, errLost := true), r))
  {
    hide Shake, Count, Flow;
    var t := s.(efdOpen := false, errLost := true);
    FailErrShakes(s, t, r);
    FailErrFlows(s, t, r);
  }

  lemma GiveErrShakes(s: Endpoint, t: Endpoint, r: Endpoint, n: nat)
    requires Shakes(s, r) && s.ctype == Open && s.extUsage == ExtWrite && s.efdOpen && n <= |s.extended|
    requires t == s.(errGiven := s.errGiven + s.extended[..n], extended := s.extended[n..],
                     localConsumed := t.localConsumed)
    ensures Shakes(t, r)
  {
  }

  lemma GiveErrFlows(s: Endpoint, t: Endpoint, r: Endpoint, n: nat)
    requires Flows(s, r) && !s.errLost && s.extUsage == ExtWrite && n <= |s.extended|
    requires t == s.(errGiven := s.errGiven + s.extended[..n], extended := s.extended[n..],
                     localConsumed := t.localConsumed)
    ensures Flows(t, r)
  {
    Regroup(s.errGiven, s.extended[..n], s.extended[n..]);
    assert s.extended == s.extended[..n] + s.extended[n..];
    assert s.errGiven + s.extended == t.errGiven + t.extended;
  }

  lemma FailErrShakes(s: Endpoint, t: Endpoint, r: Endpoint)
    requires Shakes(s, r) && Counts(s, r) && s.ctype == Open && s.extUsage == ExtWrite
    requires t == s.(efdOpen := false, errLost := true)
    ensures Shakes(t, r) && Counts(t, r)
  {
  }

  lemma FailErrFlows(s: Endpoint, t: Endpoint, r: Endpoint)
    requires Flows(s, r) && s.extUsage == ExtWrite
    requires t == s.(efdOpen := false, errLost := true)
    ensures Flows(t, r)
  {
    Regroup(s.errGiven, HeldErr(s), ErrOf(r.link) + OwnErr(r));
    Regroup(s.errGiven + HeldErr(s), ErrOf(r.link), OwnErr(r));
  }

  lemma ErrReadKeeps(s: Endpoint, r: Endpoint, res: ReadResult)
    requires Inv(Sys(s, r))
    ensures Inv(Sys(HandleEfdRead(s, res), r))
  {
    hide Shakes, Counts, Flows;
    if s.ctype == Open && s.extUsage != ExtWrite {
      EndErr(s, r);
      if s.extUsage == ExtRead && s.efdOpen && res.Got? {
        TakeErr(s, r, res.data[..Min(CHAN_RBUF, |res.data|)]);
      }
    }
  }

  lemma TakeErr(s: Endpoint, r: Endpoint, got: seq<Byte>)
    requires Inv(Sys(s, r)) && s.ctype == Open && s.extUsage == ExtRead && s.efdOpen
    ensures Inv(Sys(s.(extended := s.extended + got, errTaken := s.errTaken + got), r))
  {
    hide Shake, Count, Flow;
    var t := s.(extended := s.extended + got, errTaken := s.errTaken + got);
    TakeErrShakes(s, t, r, got);
    TakeErrFlows(s, t, r, got);
    CountsFrame(s, t, r, r);
  }

  lemma EndErr(s: Endpoint, r: Endpoint)
    requires Inv(Sys(s, r)) && s.ctype == Open && s.extUsage != ExtWrite
    ensures Inv(Sys(s.(efdOpen := false), r))
  {
    hide Shake, Count, Flow;
    var t := s.(efdOpen := false);
    EndErrShakes(s, t, r);
    CountsFrame(s, t, r, r);
    FlowsFrame(s, t, r, r);
  }

  lemma EndErrShakes(s: Endpoint, t: Endpoint, r: Endpoint)
    requires Shakes(s, r) && s.ctype == Open && s.extUsage != ExtWrite
    requires t == s.(efdOpen := false)
    ensures Shakes(t, r)
  {
  }

  lemma TakeErrShakes(s: Endpoint, t: Endpoint, r: Endpoint, got: seq<Byte>)
    requires Shakes(s, r) && s.ctype == Open && s.extUsage == ExtRead && s.efdOpen
    requires t == s.(extended := s.extended + got, errTaken := s.errTaken + got)
    ensures Shakes(t, r)
  {
  }

  lemma TakeErrFlows(s: Endpoint, t: Endpoint, r: Endpoint, got: seq<Byte>)
    requires Flows(s, r) && s.extUsage == ExtRead
    requires t == s.(extended := s.extended + got, errTaken := s.errTaken + got)
    ensures Flows(t, r)
  {
    Regroup(r.errGiven + HeldErr(r) + ErrOf(s.link), s.extended, got);
  }

  // ---------- packets towards the peer ----------

  lemma CheckWindowKeeps(s: Endpoint, r: Endpoint)
    requires Inv(Sys(s, r))
    ensures Inv(Sys(CheckWindow(s), r))
  {
    hide Shakes, Counts, Flows;
    NoRefillWrap(s, r);
    var t := CheckWindow(s);
    if t.localConsumed != s.localConsumed {
      Refill(s, t, r);
    } else {
      assert t == s;
    }
  }

  lemma NoRefillWrap(s: Endpoint, r: Endpoint)
    requires Counts(s, r)
    ensures Add32(s.localWindow, s.localConsumed) == s.localWindow + s.localConsumed
  {
    NoWrap(s.localWindow, s.localConsumed);
  }

  lemma Refill(s: Endpoint, t: Endpoint, r: Endpoint)
    requires Inv(Sys(s, r)) && s.ctype == Open && !s.Closing() && s.localWindow + s.localConsumed < TWO32
    requires t == s.(localWindow := s.localWindow + s.localConsumed, localConsumed := 0,
                     link := s.link + [Adjust(s.localConsumed)])
    ensures Inv(Sys(t, r))
  {
    hide Shake, Count, Flow;
    LinkAppend(s.link, Adjust(s.localConsumed), Heard(r));
    RefillShakes(s, t, r, s.localConsumed);
    RefillCounts(s, t, r);
    FlowsFrame(s, t, r, r);
  }

  lemma RefillShakes(s: Endpoint, t: Endpoint, r: Endpoint, n: U32)
    requires Shakes(s, r) && s.ctype == Open && !s.Closing()
    requires t == s.Send(Adjust(n)).(localWindow := t.localWindow, localConsumed := t.localConsumed)
    ensures Shakes(t, r)
  {
    LinkAppend(s.link, Adjust(n), Heard(r));
  }

  lemma RefillCounts(s: Endpoint, t: Endpoint, r: Endpoint)
    requires Counts(s, r)
    requires DataLen(t.link) == DataLen(s.link) && Credits(t.link) == Credits(s.link) + s.localConsumed
    requires s.localWindow + s.localConsumed < TWO32
    requires t == s.(localWindow := s.localWindow + s.localConsumed, localConsumed := 0, link := t.link)
    ensures Counts(t, r)
  {
  }

  lemma PreOpenKeeps(s: Endpoint, r: Endpoint)
    requires Inv(Sys(s, r))
    ensures Inv(Sys(PreOpen(s), r))
  {
    hide Shake, Count, Flow;
    var t := PreOpen(s);
    if t != s {
      FinishOutputShakes(s, t, r);
      CountsFrame(s, t, r, r);
      FlowsFrame(s, t, r, r);
    }
  }

  lemma FinishOutputShakes(s: Endpoint, t: Endpoint, r: Endpoint)
    requires Shakes(s, r) && s.ostate == OutDrain && s.output == [] && !s.EfdOutputActive()
    requires t == s.(ostate := OutClosed)
    ensures Shakes(t, r)
  {
  }

  lemma PollInputKeeps(s: Endpoint, r: Endpoint)
    requires Inv(Sys(s, r))
    ensures Inv(Sys(PollInput(s), r))
  {
    hide Shakes, Counts, Flows, PollInput;
    var ready := s.ctype == Open && !s.Closing() && s.istate != InClosed;
    var n := Min(|s.input|, Min(s.remoteWindow, s.remoteMaxpacket));
    if ready && s.input == [] && s.istate == InDrain && !s.EfdInputActive() {
      PollEnds(s);
      FinishInput(s, r);
    } else if ready && n > 0 {
      PollSends(s, n);
      SendData(s, r, n);
    } else {
      PollIdle(s);
    }
  }

  lemma PollEnds(s: Endpoint)
    requires s.ctype == Open && !s.Closing() && s.input == [] && s.istate == InDrain && !s.EfdInputActive()
    ensures PollInput(s) == s.Send(Eof).(eofSent := true, istate := InClosed)
  {
  }

  lemma PollSends(s: Endpoint, n: nat)
    requires s.ctype == Open && !s.Closing() && s.istate != InClosed
    requires n == Min(|s.input|, Min(s.remoteWindow, s.remoteMaxpacket)) > 0
    ensures PollInput(s)
         == s.Send(Data(s.input[..n])).(input := s.input[n..], remoteWindow := Sub32(s.remoteWindow, n))
  {
  }

  lemma PollIdle(s: Endpoint)
    requires var ready := s.ctype == Open && !s.Closing() && s.istate != InClosed;
             ready ==> (if s.input == [] then s.istate == InOpen || s.EfdInputActive()
                        else s.remoteWindow == 0 || s.remoteMaxpacket == 0)
    ensures PollInput(s) == s
  {
  }

  lemma SendData(s: Endpoint, r: Endpoint, n: nat)
    requires Inv(Sys(s, r)) && s.ctype == Open && !s.Closing() && s.istate != InClosed
    requires 0 < n <= |s.input| && n <= s.remoteWindow && n <= s.remoteMaxpacket
    ensures Inv(Sys(s.Send(Data(s.input[..n])).(input := s.input[n..],
                                                remoteWindow := Sub32(s.remoteWindow, n)), r))
  {
    hide Shake, Count, Flow;
    var t := s.Send(Data(s.input[..n])).(input := s.input[n..], remoteWindow := s.remoteWindow - n);
    LinkAppend(s.link, Data(s.input[..n]), Heard(r));
    SendDataShakes(s, t, r, n);
    SpendCounts(s, t, r, n);
    SendDataFlows(s, t, r, n);
  }

  lemma FinishInput(s: Endpoint, r: Endpoint)
    requires Inv(Sys(s, r)) && s.ctype == Open && !s.closeSent && s.istate == InDrain && s.input == []
    requires !s.EfdInputActive()
    ensures Inv(Sys(s.Send(Eof).(eofSent := true, istate := InClosed), r))
  {
    hide Shake, Count, Flow;
    var t := s.Send(Eof).(eofSent := true, istate := InClosed);
    LinkAppend(s.link, Eof, Heard(r));
    FinishInputShakes(s, t, r);
    CountsFrame(s, t, r, r);
    FlowsFrame(s, t, r, r);
  }

  lemma FinishInputShakes(s: Endpoint, t: Endpoint, r: Endpoint)
    requires Shakes(s, r) && s.ctype == Open && !s.closeSent && s.istate == InDrain && s.input == []
    requires !s.EfdInputActive()
    requires t == s.Send(Eof).(eofSent := true, istate := InClosed)
    ensures Shakes(t, r)
  {
    LinkAppend(s.link, Eof, Heard(r));
  }

  lemma SendDataShakes(s: Endpoint, t: Endpoint, r: Endpoint, n: nat)
    requires Shakes(s, r) && s.ctype == Open && !s.Closing() && s.istate != InClosed
    requires 0 < n <= |s.input| && n <= s.remoteMaxpacket
    requires t == s.Send(Data(s.input[..n])).(input := s.input[n..], remoteWindow := t.remoteWindow)
    ensures Shakes(t, r)
  {
    LinkAppend(s.link, Data(s.input[..n]), Heard(r));
  }

  lemma SpendCounts(s: Endpoint, t: Endpoint, r: Endpoint, n: nat)
    requires Counts(s, r) && n <= s.remoteWindow
    requires DataLen(t.link) == DataLen(s.link) + n && Credits(t.link) == Credits(s.link)
    requires t == s.(remoteWindow := s.remoteWindow - n, link := t.link, input := t.input, extended := t.extended)
    requires HeldErr(t) == HeldErr(s)
    ensures Counts(t, r)
  {
  }

  lemma SendDataFlows(s: Endpoint, t: Endpoint, r: Endpoint, n: nat)
    requires Flows(s, r) && n <= |s.input|
    requires DataOf(t.link) == DataOf(s.link) + s.input[..n] && ErrOf(t.link) == ErrOf(s.link)
    requires t == s.(input := s.input[n..], remoteWindow := t.remoteWindow, link := t.link)
    ensures Flows(t, r)
  {
    assert s.input == s.input[..n] + s.input[n..];
    Regroup(r.given + r.output + DataOf(s.link), s.input[..n], s.input[n..]);
    Regroup(r.given + r.output, DataOf(s.link), s.input[..n]);
  }

  lemma PollExtendedKeeps(s: Endpoint, r: Endpoint)
    requires Inv(Sys(s, r))
    ensures Inv(Sys(PollExtended(s), r))
  {
    hide Shakes, Counts, Flows;
    var n := Min(|s.extended|, Min(s.remoteWindow, s.remoteMaxpacket));
    if s.ctype == Open && !s.Closing() && !s.eofSent && s.extUsage == ExtRead && n > 0 {
      SendErr(s, r, n);
    }
  }

  lemma SendErr(s: Endpoint, r: Endpoint, n: nat)
    requires Inv(Sys(s, r)) && s.ctype == Open && !s.Closing() && !s.eofSent && s.extUsage == ExtRead
    requires 0 < n <= |s.extended| && n <= s.remoteWindow && n <= s.remoteMaxpacket
    ensures Inv(Sys(s.Send(ExtData(s.extended[..n])).(extended := s.extended[n..],
                                                      remoteWindow := Sub32(s.remoteWindow, n)), r))
  {
    hide Shake, Count, Flow;
    var t := s.Send(ExtData(s.extended[..n])).(extended := s.extended[n..], remoteWindow := s.remoteWindow - n);
    LinkAppend(s.link, ExtData(s.extended[..n]), Heard(r));
    SendErrShakes(s, t, r, n);
    SpendCounts(s, t, r, n);
    SendErrFlows(s, t, r, n);
  }

  lemma SendErrShakes(s: Endpoint, t: Endpoint, r: Endpoint, n: nat)
    requires Shakes(s, r) && s.ctype == Open && !s.Closing() && !s.eofSent && s.extUsage == ExtRead
    requires 0 < n <= |s.extended| && n <= s.remoteMaxpacket
    requires t == s.Send(ExtData(s.extended[..n])).(extended := s.extended[n..], remoteWindow := t.remoteWindow)
    ensures Shakes(t, r)
  {
    LinkAppend(s.link, ExtData(s.extended[..n]), Heard(r));
  }

  lemma SendErrFlows(s: Endpoint, t: Endpoint, r: Endpoint, n: nat)
    requires Flows(s, r) && n <= |s.extended| && s.extUsage == ExtRead
    requires ErrOf(t.link) == ErrOf(s.link) + s.extended[..n] && DataOf(t.link) == DataOf(s.link)
    requires t == s.(extended := s.extended[n..], remoteWindow := t.remoteWindow, link := t.link)
    ensures Flows(t, r)
  {
    assert s.extended == s.extended[..n] + s.extended[n..];
    Regroup(r.errGiven + HeldErr(r) + ErrOf(s.link), s.extended[..n], s.extended[n..]);
    Regroup(r.errGiven + HeldErr(r), ErrOf(s.link), s.extended[..n]);
  }

  lemma ActivateKeeps(s: Endpoint, r: Endpoint, windowMax: U32, usage: ExtUsage, efd: bool)
    requires Inv(Sys(s, r)) && !s.closeRcvd
    ensures Inv(Sys(Activate(s, windowMax, usage, efd), r))
  {
    hide Shake, Count, Flow;
    KnownOf(s, r);
    var t := Activate(s, windowMax, usage, efd);
    if t != s {
      LinkAppend(s.link, Adjust(windowMax), Heard(r));
      ActivateShakes(s, t, r, windowMax);
      ActivateCounts(s, t, r, windowMax);
      FlowsFrame(s, t, r, r);
    }
  }

  lemma ActivateShakes(s: Endpoint, t: Endpoint, r: Endpoint, windowMax: U32)
    requires Shakes(s, r) && s.ctype == Larval && !s.closeRcvd
    requires t == s.Send(Adjust(windowMax)).(ctype := Open, extUsage := t.extUsage, efdOpen := t.efdOpen,
                                             localWindow := windowMax, localWindowMax := windowMax)
    ensures Shakes(t, r)
  {
    LinkAppend(s.link, Adjust(windowMax), Heard(r));
  }

  lemma ActivateCounts(s: Endpoint, t: Endpoint, r: Endpoint, windowMax: U32)
    requires Counts(s, r) && Waiting(s)
    requires DataLen(t.link) == DataLen(s.link) && Credits(t.link) == Credits(s.link) + windowMax
    requires t == s.(ctype := Open, extUsage := t.extUsage, efdOpen := t.efdOpen,
                     localWindow := windowMax, localWindowMax := windowMax, link := t.link)
    ensures Counts(t, r)
  {
  }

  lemma CollectKeeps(s: Endpoint, r: Endpoint)
    requires Inv(Sys(s, r))
    ensures Inv(Sys(Collect(s), r))
  {
    hide Shakes, Counts, Flows;
    if s.ctype != Freed && s.istate == InClosed && s.ostate == OutClosed {
      if s.closeSent { if s.closeRcvd { Free(s, r); } } else { SendClose(s, r); }
    }
  }

  lemma SendClose(s: Endpoint, r: Endpoint)
    requires Inv(Sys(s, r)) && !s.closeSent && s.istate == InClosed && s.ostate == OutClosed
    ensures Inv(Sys(s.Send(Close).(closeSent := true, ctype := if s.closeRcvd then Freed else s.ctype), r))
  {
    hide Shake, Count, Flow;
    var t := s.Send(Close).(closeSent := true, ctype := if s.closeRcvd then Freed else s.ctype);
    LinkAppend(s.link, Close, Heard(r));
    SendCloseShakes(s, t, r);
    CountsFrame(s, t, r, r);
    FlowsFrame(s, t, r, r);
  }

  lemma Free(s: Endpoint, r: Endpoint)
    requires Inv(Sys(s, r)) && s.closeSent && s.closeRcvd
    ensures Inv(Sys(s.(ctype := Freed), r))
  {
    hide Shake, Count, Flow;
    var t := s.(ctype := Freed);
    FreeShakes(s, t, r);
    CountsFrame(s, t, r, r);
    FlowsFrame(s, t, r, r);
  }

  lemma SendCloseShakes(s: Endpoint, t: Endpoint, r: Endpoint)
    requires Shakes(s, r) && !s.closeSent && s.istate == InClosed && s.ostate == OutClosed
    requires t == s.Send(Close).(closeSent := true, ctype := if s.closeRcvd then Freed else s.ctype)
    ensures Shakes(t, r)
  {
    LinkAppend(s.link, Close, Heard(r));
  }

  lemma FreeShakes(s: Endpoint, t: Endpoint, r: Endpoint)
    requires Shakes(s, r) && s.closeSent && s.closeRcvd
    requires t == s.(ctype := Freed)
    ensures Shakes(t, r)
  {
  }
}
