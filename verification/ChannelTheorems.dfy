/** What holds in every state that two endpoints can reach. */
module ChannelTheorems {
  import opened Bytes
  import opened ChannelModel
  import opened ChannelProtocol
  import opened ChannelSteps
  import opened ChannelReceive

  // ---------- the invariant is inductive ----------

  lemma LocalKeeps(s: Endpoint, r: Endpoint, ev: Event)
    requires Inv(Sys(s, r)) && !ev.EvReceive?
    ensures Inv(Sys(Local(s, ev), r))
  {
    hide Shakes, Counts, Flows;
    match ev
    case EvRead(res) => ReadKeeps(s, r, res);
    case EvWrite(w) => WriteKeeps(s, r, w);
    case EvErrWrite(w) => ErrWriteKeeps(s, r, w);
    case EvErrRead(res) => ErrReadKeeps(s, r, res);
    case EvCheckWindow => CheckWindowKeeps(s, r);
    case EvPreOpen => PreOpenKeeps(s, r);
    case EvPollInput => PollInputKeeps(s, r);
    case EvPollExtended => PollExtendedKeeps(s, r);
    case EvActivate(windowMax, usage, efd) =>
      if !s.closeRcvd { ActivateKeeps(s, r, windowMax, usage, efd); }
    case EvCollect => CollectKeeps(s, r);
  }

  lemma ReceiveKeeps(s: Endpoint, r: Endpoint)
    requires Inv(Sys(s, r)) && r.link != []
    ensures Inv(Sys(Dispatch(s, r.link[0]), r.(link := r.link[1..])))
  {
    hide Shakes, Counts, Flows, Dispatch;
    var m, q := r.link[0], r.(link := r.link[1..]);
    match m
    case Confirm(_, _) => ConfirmKeeps(s, r, q, m);
    case Data(_) => DataKeeps(s, r, q, m);
    case ExtData(_) => ExtDataKeeps(s, r, q, m);
    case Adjust(_) => AdjustKeeps(s, r, q, m);
    case Eof => EofKeeps(s, r, q, m);
    case Eow => EowKeeps(s, r, q, m);
    case Close => CloseKeeps(s, r, q, m);
  }

  lemma InvSwap(s: Sys)
    requires Inv(s)
    ensures Inv(Swap(s))
  {
  }

  lemma StepKeeps(s: Sys, atA: bool, ev: Event)
    requires Inv(s)
    ensures Inv(Step(s, atA, ev))
  {
    hide Shakes, Counts, Flows, Local, Dispatch;
    assert Inv(Swap(s)) by { InvSwap(s); }
    var p := if atA then s else Swap(s);
    if ev.EvReceive? {
      if p.b.link != [] { ReceiveKeeps(p.a, p.b); }
    } else {
      LocalKeeps(p.a, p.b, ev);
    }
    assert Inv(StepA(p, ev));
    assert Inv(Swap(StepA(p, ev))) by { InvSwap(StepA(p, ev)); }
  }

  lemma StartInv(s: Sys)
    requires Start(s)
    ensures Inv(s)
  {
    assert Walk(Fresh, s.b.link) == Walk(Live(false), s.b.link[1..]);
  }

  /** Every state reached from a freshly opened channel satisfies the invariant. */
  lemma {:induction false} Reachable(s: Sys, schedule: seq<(bool, Event)>)
    requires Start(s)
    ensures Inv(Exec(s, schedule))
  {
    if schedule == [] {
      StartInv(s);
    } else {
      var k := |schedule| - 1;
      Reachable(s, schedule[..k]);
      StepKeeps(Exec(s, schedule[..k]), schedule[k].0, schedule[k].1);
    }
  }

  // ---------- safety over whole runs ----------

  /** A state reached by a schedule, with either endpoint taken as the sender `a`. */
  function Reached(start: Sys, schedule: seq<(bool, Event)>, fromB: bool): Sys {
    var s := Exec(start, schedule);
    if fromB then Swap(s) else s
  }

  lemma ReachedInv(start: Sys, schedule: seq<(bool, Event)>, fromB: bool)
    requires Start(start)
    ensures Inv(Reached(start, schedule, fromB))
  {
    hide Inv, Start, Exec;
    Reachable(start, schedule);
    InvSwap(Exec(start, schedule));
  }

  /** The sender's window, the data and adjustments in flight and the stderr bytes refused so far
      add up to the receiver's window; so no run ever ends in the "peer ignored channel window"
      disconnect, the "adjust overflows" exit or any other fault. */
  lemma WindowSafety(start: Sys, schedule: seq<(bool, Event)>, fromB: bool)
    requires Start(start)
    ensures var s := Reached(start, schedule, fromB);
            && s.a.fault == NoFault && s.b.fault == NoFault
            && s.a.localExceeded == 0 && s.b.localExceeded == 0
            && s.a.remoteWindow + DataLen(s.a.link) + Credits(s.b.link) + s.b.refused == s.b.localWindow
            && (s.b.refused > 0 ==> s.b.errLost)
  {
    ReachedInv(start, schedule, fromB);
  }

  /** Unused window, consumed, buffered and dropped bytes account for the whole configured window,
      and bytes are dropped only by a failed write; so no window sum or difference wraps around. */
  lemma MemoryBound(start: Sys, schedule: seq<(bool, Event)>, fromB: bool)
    requires Start(start)
    ensures var b := Reached(start, schedule, fromB).b;
            && b.localWindow + b.localConsumed + |b.output| + |HeldErr(b)| + b.dropped == b.localWindowMax
            && (b.dropped > 0 ==> b.writeFailed)
            && Sub32(b.localWindowMax, b.localWindow) == b.localWindowMax - b.localWindow
            && Add32(b.localWindow, b.localConsumed) == b.localWindow + b.localConsumed
  {
    hide Talk, Flows, Credit, Reached;
    ReachedInv(start, schedule, fromB);
  }

  /** Bytes read at one end are, in order, those written at the other end, then those in its
      buffer, those in flight and those waiting to be sent; after a failed write what had been
      written is still a prefix.  The same holds of stderr. */
  lemma StreamIntegrity(start: Sys, schedule: seq<(bool, Event)>, fromB: bool)
    requires Start(start)
    ensures var s := Reached(start, schedule, fromB);
            && (!s.b.writeFailed ==>
                  s.a.taken == s.b.given + s.b.output + DataOf(s.a.link) + s.a.input)
            && (!s.b.errLost ==>
                  s.a.errTaken == s.b.errGiven + HeldErr(s.b) + ErrOf(s.a.link) + OwnErr(s.a))
            && s.b.given <= s.a.taken && s.b.errGiven <= s.a.errTaken
  {
    ReachedInv(start, schedule, fromB);
    var s := Reached(start, schedule, fromB);
    if !s.b.writeFailed {
      Regroup(s.b.given, s.b.output, DataOf(s.a.link) + s.a.input);
      Regroup(s.b.given + s.b.output, DataOf(s.a.link), s.a.input);
    }
    if !s.b.errLost {
      Regroup(s.b.errGiven, HeldErr(s.b), ErrOf(s.a.link) + OwnErr(s.a));
      Regroup(s.b.errGiven + HeldErr(s.b), ErrOf(s.a.link), OwnErr(s.a));
    }
  }

  /** The closing handshake loses nothing: if an end's output half is closed and no write
      failed there, then the peer's input half is closed for good and everything the peer ever
      read, stderr included unless it was refused, has been written. */
  lemma GracefulClose(start: Sys, schedule: seq<(bool, Event)>, fromB: bool)
    requires Start(start)
    ensures var s := Reached(start, schedule, fromB);
            s.b.ostate == OutClosed && !s.b.writeFailed ==>
              && s.a.istate == InClosed && s.b.given == s.a.taken
              && (!s.b.errLost ==> s.b.errGiven == s.a.errTaken)
  {
    ReachedInv(start, schedule, fromB);
    var s := Reached(start, schedule, fromB);
    if s.b.ostate == OutClosed && !s.b.writeFailed { ClosedMeansDelivered(s.a, s.b); }
  }

  lemma ClosedMeansDelivered(s: Endpoint, r: Endpoint)
    requires Shakes(s, r) && Flow(s, r) && r.ostate == OutClosed && !r.writeFailed
    ensures s.istate == InClosed && r.given == s.taken
    ensures !r.errLost ==> r.errGiven == s.errTaken
  {
    PeerClosed(s, r);
    if r.closeRcvd {
      if s.link != [] { BadStays(s.link[1..]); }
    } else {
      SilentAfterEof(Heard(r), s.link);
    }
  }

  /** A freed channel has nothing left to receive, and the other end has said CLOSE. */
  lemma FreedIsDone(start: Sys, schedule: seq<(bool, Event)>, fromB: bool)
    requires Start(start)
    ensures var s := Reached(start, schedule, fromB);
            s.b.ctype == Freed ==> s.a.link == [] && s.a.closeSent && s.b.closeSent
  {
    ReachedInv(start, schedule, fromB);
    var s := Reached(start, schedule, fromB);
    if s.b.ctype == Freed && s.a.link != [] { BadStays(s.a.link[1..]); }
  }

  // ---------- where the window accounting depends on how a channel is set up ----------

  /** Activating a larval channel grants a whole new window, whatever it had advertised before:
      the peer's credit stays covered exactly when the larval window was zero. */
  lemma ActivationNeedsEmptyWindow(s: Endpoint, r: Endpoint, windowMax: U32, usage: ExtUsage, efd: bool)
    requires s.ctype == Larval && Credit(r, s)
    ensures Credit(r, Activate(s, windowMax, usage, efd)) <==> s.localWindow == 0
  {
    LinkAppend(s.link, Adjust(windowMax), Fresh);
  }

  /** With a window of one byte, once that byte is consumed the receiver does not reopen the window, unless
      packets must be empty. */
  lemma WindowOfOneStalls(e: Endpoint)
    requires e.ctype == Open && !e.Closing()
    requires e.localWindowMax == 1 && e.localWindow == 0 && e.localConsumed == 1
    ensures CheckWindow(e) == e <==> e.localMaxpacket != 0
  {
    hide Mul32;
    TripleIsZero(e.localMaxpacket);
  }
}
