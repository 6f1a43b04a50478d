/** Receiving a packet keeps the invariant of the pair. */
module ChannelReceive {
  import opened Bytes
  import opened ChannelModel
  import opened ChannelProtocol
  import opened ChannelSteps

  /** `q` is `r` after its oldest packet `m` has left the link. */
  predicate Took1(r: Endpoint, q: Endpoint, m: Msg) {
    r.link != [] && m == r.link[0] && q == r.(link := r.link[1..])
  }

  /** The oldest packet is one that the receiver's phase allows. */
  lemma HeadAllowed(s: Endpoint, r: Endpoint, q: Endpoint, m: Msg)
    requires Shake(r, s) && Took1(r, q, m)
    ensures Next(Heard(s), m) != Bad && Walk(Next(Heard(s), m), q.link) == Said(r)
    ensures Proper(m, r, s)
  {
    BadStays(q.link);
  }

  /** No packet reaches a freed channel, and only the confirmation reaches an opening one. */
  lemma ArrivesAlive(s: Endpoint, r: Endpoint, q: Endpoint, m: Msg)
    requires Shakes(s, r) && Took1(r, q, m)
    ensures s.ctype != Freed && (m.Confirm? <==> s.ctype == Opening)
    ensures m.Eow? ==> r.writeFailed
    ensures Heard(s) != Fresh && !m.Confirm? ==> !s.closeRcvd && (m.Eof? ==> !s.eofRcvd)
  {
    HeadAllowed(s, r, q, m);
  }

  /** Once the peer has closed its output without a failed write, this side has said all it had. */
  lemma {:induction false} PeerClosed(s: Endpoint, r: Endpoint)
    requires Shakes(s, r) && r.ostate == OutClosed && !r.writeFailed
    ensures s.istate == InClosed
  {
    if r.closeRcvd {
      if s.link != [] { BadStays(s.link[1..]); }
    } else {
      SilentAfterEof(Heard(r), s.link);
    }
  }

  /** Data only ever arrives at an open channel that has seen neither EOF nor CLOSE. */
  lemma DataAtOpen(s: Endpoint, r: Endpoint, q: Endpoint, m: Msg)
    requires Shake(s, r) && Shake(r, s) && Credit(r, s) && Took1(r, q, m) && (m.Data? || m.ExtData?)
    ensures s.ctype == Open && !s.eofRcvd && !s.closeRcvd
    ensures 0 < |m.data| <= s.localMaxpacket && |m.data| <= s.localWindow
    ensures s.ostate == OutClosed <==> s.writeFailed
    ensures s.ostate == OutOpen || s.ostate == OutClosed
  {
    HeadAllowed(s, r, q, m);
  }

  /** Taking a packet off the link: the receiver's own side is all that is left to check. */
  lemma TakenShakes(s: Endpoint, t: Endpoint, r: Endpoint, q: Endpoint, m: Msg)
    requires Shake(r, s) && Took1(r, q, m) && Shake(t, r)
    requires Heard(t) == Next(Heard(s), m)
    requires t.localMaxpacket == s.localMaxpacket && t.writeFailed == s.writeFailed
    ensures Shakes(t, q)
  {
    hide Talk;
    TakenTalk(s, t, r, q, m);
    assert Talk(t, q) by { TalkFrame(t, r, q); }
  }

  lemma TakenTalk(s: Endpoint, t: Endpoint, r: Endpoint, q: Endpoint, m: Msg)
    requires Talk(r, s) && Took1(r, q, m) && Sound(r)
    requires Heard(t) == Next(Heard(s), m)
    requires t.localMaxpacket == s.localMaxpacket && t.writeFailed == s.writeFailed
    ensures Talk(q, t)
  {
    assert forall x | x in q.link :: x in r.link && Proper(x, r, s);
  }

  lemma TalkFrame(t: Endpoint, r: Endpoint, q: Endpoint)
    requires Talk(t, r) && q == r.(link := q.link)
    ensures Talk(t, q)
  {
    assert forall x | x in t.link :: Proper(x, t, r) ==> Proper(x, t, q);
  }

  // ---------- the opening confirmation ----------

  lemma ConfirmKeeps(s: Endpoint, r: Endpoint, q: Endpoint, m: Msg)
    requires Inv(Sys(s, r)) && Took1(r, q, m) && m.Confirm?
    ensures Inv(Sys(Dispatch(s, m), q))
  {
    hide Shake, Count, Flow;
    ConfirmArrives(s, r, q, m);
    var t := s.(ctype := Open, remoteWindow := m.window, remoteMaxpacket := m.maxpacket);
    assert t == Dispatch(s, m);
    ConfirmShakes(s, t, r, q, m);
    FlowsFrame(s, t, r, q);
    ConfirmCounts(s, t, r, q, m);
  }

  lemma ConfirmArrives(s: Endpoint, r: Endpoint, q: Endpoint, m: Msg)
    requires Shakes(s, r) && Counts(s, r) && Took1(r, q, m) && m.Confirm?
    ensures s.ctype == Opening && s.link == [] && s.remoteWindow == 0
  {
    HeadAllowed(s, r, q, m);
  }

  lemma ConfirmShakes(s: Endpoint, t: Endpoint, r: Endpoint, q: Endpoint, m: Msg)
    requires Shakes(s, r) && Took1(r, q, m) && m.Confirm?
    requires t == s.(ctype := Open, remoteWindow := m.window, remoteMaxpacket := m.maxpacket)
    ensures Shakes(t, q)
  {
    HeadAllowed(s, r, q, m);
    TakenShakes(s, t, r, q, m);
  }

  lemma ConfirmCounts(s: Endpoint, t: Endpoint, r: Endpoint, q: Endpoint, m: Msg)
    requires Counts(s, r) && Took1(r, q, m) && m.Confirm? && s.remoteWindow == 0
    requires t == s.(ctype := Open, remoteWindow := m.window, remoteMaxpacket := m.maxpacket)
    ensures Counts(t, q)
  {
  }

  // ---------- data ----------

  lemma DataKeeps(s: Endpoint, r: Endpoint, q: Endpoint, m: Msg)
    requires Inv(Sys(s, r)) && Took1(r, q, m) && m.Data?
    ensures Inv(Sys(Dispatch(s, m), q))
  {
    hide Shake, Count, Flow;
    KnownOf(s, r);
    assert Credit(r, s) by { CreditOf(s, r); }
    DataAtOpen(s, r, q, m);
    var n := |m.data|;
    if s.writeFailed {
      NoWrap(s.localConsumed, n);
      var t := s.(localWindow := s.localWindow - n, localConsumed := s.localConsumed + n);
      ArriveShakes(s, t, r);
      TakenShakes(s, t, r, q, m);
      ArriveCounts(s, t, r, q, m);
      DiscardFlows(s, t, r, q, m);
    } else {
      var t := s.(localWindow := s.localWindow - n, output := s.output + m.data);
      ArriveShakes(s, t, r);
      TakenShakes(s, t, r, q, m);
      ArriveCounts(s, t, r, q, m);
      AcceptFlows(s, t, r, q, m);
    }
  }

  lemma CreditOf(s: Endpoint, r: Endpoint)
    requires Counts(s, r)
    ensures Credit(r, s) && Credit(s, r)
  {
  }

  lemma ArriveShakes(s: Endpoint, t: Endpoint, r: Endpoint)
    requires Shake(s, r) && s.ctype == Open && (s.ostate == OutClosed ==> t.output == s.output)
    requires t == s.(localWindow := t.localWindow, localConsumed := t.localConsumed, output := t.output)
    ensures Shake(t, r)
  {
  }

  lemma ArriveCounts(s: Endpoint, t: Endpoint, r: Endpoint, q: Endpoint, m: Msg)
    requires Counts(s, r) && Took1(r, q, m) && (m.Data? || m.ExtData?) && |m.data| <= s.localWindow
    requires t == s.(localWindow := s.localWindow - |m.data|, localConsumed := t.localConsumed,
                     output := t.output, extended := t.extended)
    requires t.localConsumed + |t.output| + |HeldErr(t)| ==
             s.localConsumed + |s.output| + |HeldErr(s)| + |m.data|
    ensures Counts(t, q)
  {
  }

  lemma DiscardFlows(s: Endpoint, t: Endpoint, r: Endpoint, q: Endpoint, m: Msg)
    requires Flows(s, r) && Took1(r, q, m) && m.Data? && s.writeFailed
    requires t == s.(localWindow := t.localWindow, localConsumed := t.localConsumed)
    ensures Flows(t, q)
  {
  }

  lemma AcceptFlows(s: Endpoint, t: Endpoint, r: Endpoint, q: Endpoint, m: Msg)
    requires Flows(s, r) && Took1(r, q, m) && m.Data? && !s.writeFailed
    requires t == s.(localWindow := t.localWindow, output := s.output + m.data)
    ensures Flows(t, q)
  {
    Regroup(s.given + s.output, m.data, DataOf(q.link));
    Regroup(s.given, s.output, m.data);
  }

  // ---------- stderr data ----------

  lemma ExtDataKeeps(s: Endpoint, r: Endpoint, q: Endpoint, m: Msg)
    requires Inv(Sys(s, r)) && Took1(r, q, m) && m.ExtData?
    ensures Inv(Sys(Dispatch(s, m), q))
  {
    hide Shake, Count, Flow;
    KnownOf(s, r);
    assert Credit(r, s) by { CreditOf(s, r); }
    DataAtOpen(s, r, q, m);
    if s.efdOpen && s.extUsage == ExtWrite {
      var t := s.(localWindow := s.localWindow - |m.data|, extended := s.extended + m.data);
      ErrArriveShakes(s, t, r);
      TakenShakes(s, t, r, q, m);
      ArriveCounts(s, t, r, q, m);
      ErrAcceptFlows(s, t, r, q, m);
    } else {
      var t := s.(errLost := true, refused := s.refused + |m.data|);
      ErrDropShakes(s, t, r);
      TakenShakes(s, t, r, q, m);
      ErrDropCounts(s, t, r, q, m);
      ErrDropFlows(s, t, r, q, m);
    }
  }

  lemma ErrArriveShakes(s: Endpoint, t: Endpoint, r: Endpoint)
    requires Shake(s, r) && s.ctype == Open && (s.ostate != OutClosed || s.writeFailed)
    requires s.efdOpen && s.extUsage == ExtWrite
    requires t == s.(localWindow := t.localWindow, extended := t.extended)
    ensures Shake(t, r)
  {
  }

  lemma ErrAcceptFlows(s: Endpoint, t: Endpoint, r: Endpoint, q: Endpoint, m: Msg)
    requires Flows(s, r) && Took1(r, q, m) && m.ExtData? && !s.errLost && s.extUsage == ExtWrite
    requires t == s.(localWindow := t.localWindow, extended := s.extended + m.data)
    ensures Flows(t, q)
  {
    Regroup(s.errGiven + s.extended, m.data, ErrOf(q.link));
    Regroup(s.errGiven, s.extended, m.data);
  }

  lemma ErrDropShakes(s: Endpoint, t: Endpoint, r: Endpoint)
    requires Shake(s, r) && s.ctype == Open && (!s.efdOpen || s.extUsage != ExtWrite)
    requires t == s.(errLost := true, refused := t.refused)
    ensures Shake(t, r)
  {
  }

  lemma ErrDropCounts(s: Endpoint, t: Endpoint, r: Endpoint, q: Endpoint, m: Msg)
    requires Counts(s, r) && Took1(r, q, m) && m.ExtData?
    requires t == s.(errLost := true, refused := s.refused + |m.data|)
    ensures Counts(t, q)
  {
  }

  lemma ErrDropFlows(s: Endpoint, t: Endpoint, r: Endpoint, q: Endpoint, m: Msg)
    requires Flows(s, r) && Took1(r, q, m) && m.ExtData?
    requires t == s.(errLost := true, refused := s.refused + |m.data|)
    ensures Flows(t, q)
  {
    Regroup(s.errGiven, HeldErr(s), ErrOf(r.link) + OwnErr(r));
    Regroup(s.errGiven + HeldErr(s), ErrOf(r.link), OwnErr(r));
  }

  // ---------- window adjustments ----------

  lemma AdjustKeeps(s: Endpoint, r: Endpoint, q: Endpoint, m: Msg)
    requires Inv(Sys(s, r)) && Took1(r, q, m) && m.Adjust?
    ensures Inv(Sys(Dispatch(s, m), q))
  {
    hide Shake, Count, Flow;
    KnownOf(s, r);
    assert Credit(s, r) by { CreditOf(s, r); }
    HeadAllowed(s, r, q, m);
    NoWrap(s.remoteWindow, m.amount);
    var t := s.(remoteWindow := s.remoteWindow + m.amount);
    AdjustShakes(s, t, r);
    TakenShakes(s, t, r, q, m);
    AdjustCounts(s, t, r, q, m);
    FlowsFrame(s, t, r, q);
  }

  lemma AdjustShakes(s: Endpoint, t: Endpoint, r: Endpoint)
    requires Shake(s, r) && s.ctype != Opening
    requires t == s.(remoteWindow := t.remoteWindow)
    ensures Shake(t, r)
  {
  }

  lemma AdjustCounts(s: Endpoint, t: Endpoint, r: Endpoint, q: Endpoint, m: Msg)
    requires Counts(s, r) && Took1(r, q, m) && m.Adjust? && s.remoteWindow + m.amount < TWO32
    requires t == s.(remoteWindow := s.remoteWindow + m.amount)
    ensures Counts(t, q)
  {
  }

  // ---------- the closing handshake ----------

  lemma EofKeeps(s: Endpoint, r: Endpoint, q: Endpoint, m: Msg)
    requires Inv(Sys(s, r)) && Took1(r, q, m) && m.Eof?
    ensures Inv(Sys(Dispatch(s, m), q))
  {
    hide Shake, Count, Flow, InputIeof;
    ArrivesAlive(s, r, q, m);
    EofShakes(s, r, q, m);
    EofQuiet(s);
    CountsFrame(s, InputIeof(s), r, q);
    FlowsFrame(s, InputIeof(s), r, q);
  }

  lemma EofQuiet(s: Endpoint)
    ensures SameCount(s, InputIeof(s)) && SameFlow(s, InputIeof(s))
  {
    LinkAppend(s.link, Eof, Fresh);
  }

  lemma EofShakes(s: Endpoint, r: Endpoint, q: Endpoint, m: Msg)
    requires Shakes(s, r) && Took1(r, q, m) && m.Eof?
    ensures Shakes(InputIeof(s), q)
  {
    hide Talk;
    HeadAllowed(s, r, q, m);
    var u, t := RcvdIeof(s), InputIeof(s);
    RcvdIeofShakes(s, u, r);
    if u.forceDrain && u.istate == InOpen { ForceDrainShakes(u, t, r, u.input == [] && !u.closeSent); }
    TakenShakes(s, t, r, q, m);
  }

  lemma RcvdIeofShakes(s: Endpoint, u: Endpoint, r: Endpoint)
    requires Shake(s, r) && s.ctype != Opening && s.ctype != Freed
    requires u == RcvdIeof(s)
    ensures Shake(u, r)
  {
    RcvdIeofSound(s, u);
  }

  lemma RcvdIeofSound(s: Endpoint, u: Endpoint)
    requires Sound(s) && s.ctype != Opening && s.ctype != Freed
    requires u == RcvdIeof(s)
    ensures Sound(u)
  {
  }

  lemma ForceDrainShakes(u: Endpoint, t: Endpoint, r: Endpoint, sends: bool)
    requires Shake(u, r) && u.eofRcvd && u.forceDrain && u.istate == InOpen && u.ctype != Opening
    requires sends ==> u.input == [] && !u.closeSent
    requires t == if sends then u.(istate := InClosed, eofSent := true, link := u.link + [Eof])
                  else u.(istate := if u.input == [] then InClosed else InDrain)
    ensures Shake(t, r)
  {
    LinkAppend(u.link, Eof, Heard(r));
  }

  lemma EowKeeps(s: Endpoint, r: Endpoint, q: Endpoint, m: Msg)
    requires Inv(Sys(s, r)) && Took1(r, q, m) && m.Eow?
    ensures Inv(Sys(Dispatch(s, m), q))
  {
    hide Shake, Count, Flow;
    ArrivesAlive(s, r, q, m);
    var t := RcvdEow(s);
    EowShakes(s, t, r);
    TakenShakes(s, t, r, q, m);
    CountsFrame(s, t, r, q);
    FlowsFrame(s, t, r, q);
  }

  lemma EowShakes(s: Endpoint, t: Endpoint, r: Endpoint)
    requires Shake(s, r) && r.writeFailed && s.ctype != Opening
    requires t == s.(istate := if s.istate == InOpen then InClosed else s.istate)
    ensures Shake(t, r)
  {
  }

  lemma CloseKeeps(s: Endpoint, r: Endpoint, q: Endpoint, m: Msg)
    requires Inv(Sys(s, r)) && Took1(r, q, m) && m.Close?
    ensures Inv(Sys(Dispatch(s, m), q))
  {
    hide Shake, Count, Flow;
    ArrivesAlive(s, r, q, m);
    CloserFinished(s, r, q, m);
    var t := RcvdOclose(s);
    CloseShakes(s, t, r);
    TakenShakes(s, t, r, q, m);
    LinkAppend(s.link, Eof, Heard(r));
    CountsFrame(s, t, r, q);
    FlowsFrame(s, t, r, q);
  }

  lemma CloseShakes(s: Endpoint, t: Endpoint, r: Endpoint)
    requires Shake(s, r) && s.ctype != Opening && !s.closeRcvd && (r.writeFailed || s.istate == InClosed)
    requires t == RcvdOclose(s)
    ensures Shake(t, r)
  {
    CloseSound(s, t);
    CloseTalk(s, t, r);
  }

  lemma CloseSound(s: Endpoint, t: Endpoint)
    requires Sound(s) && s.ctype != Opening && t == RcvdOclose(s)
    ensures Sound(t)
  {
  }

  lemma CloseTalk(s: Endpoint, t: Endpoint, r: Endpoint)
    requires Talk(s, r) && Sound(s) && s.ctype != Opening && t == RcvdOclose(s)
    requires r.writeFailed || s.istate == InClosed
    ensures Talk(t, r)
  {
    LinkAppend(s.link, Eof, Heard(r));
  }

  /** A sender of CLOSE has closed its output, so either its write failed or this side is finished. */
  lemma CloserFinished(s: Endpoint, r: Endpoint, q: Endpoint, m: Msg)
    requires Shakes(s, r) && Took1(r, q, m) && m.Close?
    ensures r.writeFailed || s.istate == InClosed
  {
    HeadAllowed(s, r, q, m);
    if q.link != [] { BadStays(q.link[1..]); }
    assert r.closeSent;
    if !r.writeFailed { PeerClosed(s, r); }
  }
}
