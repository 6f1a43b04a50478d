/**
 When a channel can stall.  Every step that takes in no new bytes uses up some of a finite
 amount of work; and when no such step is left, the receiver's window and what it refused decide
 whether everything that was read has come out and more is taken.
 */
module ChannelLiveness {
  import opened Bytes
  import opened ChannelModel
  import opened ChannelProtocol
  import opened ChannelSteps
  import opened ChannelReceive
  import opened ChannelTheorems

  // ---------- a bound on the work that is left ----------

  function IRank(i: IState): nat { match i case InOpen => 4 case InDrain => 2 case InClosed => 0 }
  function ORank(o: OState): nat { match o case OutOpen => 2 case OutDrain => 1 case OutClosed => 0 }
  function One(b: bool): nat { if b then 1 else 0 }

  /** A byte gets lighter at every stage: to be sent, in flight, buffered, consumed, credited. */
  function Bulk(e: Endpoint): nat {
    9 * (|e.input| + |OwnErr(e)|) + 5 * (|e.output| + |HeldErr(e)|) + 4 * e.localConsumed + Load(e.link)
  }

  function Load(q: seq<Msg>): nat { 7 * DataLen(q) + 2 * Credits(q) + |q| }

  /** The states an endpoint has yet to go through. */
  function Stages(e: Endpoint): nat {
    IRank(e.istate) + ORank(e.ostate) + One(e.efdOpen) + 2 * One(!e.closeSent)
    + One(e.ctype != Freed) + 3 * One(e.ctype == Opening)
  }

  function Work(e: Endpoint): nat { Bulk(e) + Stages(e) }

  /** The steps that bring no bytes in from a descriptor and do not activate a session. */
  predicate Internal(ev: Event) {
    match ev
    case EvRead(r) => r == ReadFail
    case EvErrRead(r) => r == ReadFail
    case EvActivate(_, _, _) => false
    case _ => true
  }

  lemma LoadAppend(q: seq<Msg>, m: Msg)
    ensures Load(q + [m]) == Load(q) + 1 + 7 * (if m.Data? || m.ExtData? then |m.data| else 0)
                             + 2 * (match m case Adjust(n) => n case Confirm(w, _) => w case _ => 0)
  {
    LinkAppend(q, m, Fresh);
  }

  lemma Roomy(s: Endpoint)
    requires Memory(s)
    ensures s.localConsumed + |s.output| + |HeldErr(s)| < TWO32
  {
  }

  lemma WriteWorks(s: Endpoint, w: WriteResult)
    requires Memory(s) && HandleWfd(s, w) != s
    ensures Work(HandleWfd(s, w)) < Work(s)
  {
    hide Work, Memory, Add32, HandleWfd, WriteFailed;
    Roomy(s);
    if s.ctype != Open || s.ostate == OutClosed || s.output == [] || w == WriteAgain {
      WfdIdle(s, w);
    } else if w.Took? && w.count > 0 {
      var n := Min(w.count, |s.output|);
      WfdGives(s, w);
      NoWrap(s.localConsumed, n);
      GivenBulk(s, HandleWfd(s, w), n);
    } else {
      WfdFails(s, w);
      EndBulk(s, WriteFailed(s));
    }
  }

  lemma GivenBulk(s: Endpoint, t: Endpoint, n: nat)
    requires t == s.(given := t.given, output := t.output, localConsumed := t.localConsumed)
    requires |t.output| == |s.output| - n && t.localConsumed == s.localConsumed + n && n > 0
    ensures Work(t) < Work(s)
  {
    hide Load;
  }

  lemma EndBulk(s: Endpoint, t: Endpoint)
    requires t == WriteFailed(s) && s.ostate != OutClosed && s.output != []
    ensures Work(t) < Work(s)
  {
    hide Load;
    LoadAppend(s.link, Eow);
    assert Stages(t) <= Stages(s) && Bulk(t) < Bulk(s);
  }

  lemma ErrWriteWorks(s: Endpoint, w: WriteResult)
    requires Memory(s) && HandleEfdWrite(s, w) != s
    ensures Work(HandleEfdWrite(s, w)) < Work(s)
  {
    hide Work, Memory, HandleEfdWrite;
    var t := HandleEfdWrite(s, w);
    if w.Took? && w.count > 0 {
      ErrTaken(s, w);
      ErrGivenBulk(s, t, Min(w.count, |s.extended|));
    } else {
      ErrEnded(s, w);
      ErrEndBulk(s, t);
    }
  }

  lemma ErrTaken(s: Endpoint, w: WriteResult)
    requires Memory(s) && HandleEfdWrite(s, w) != s && w.Took? && w.count > 0
    ensures var t, n := HandleEfdWrite(s, w), Min(w.count, |s.extended|);
            && t == s.(errGiven := t.errGiven, extended := t.extended, localConsumed := t.localConsumed)
            && s.extUsage == ExtWrite && |t.extended| == |s.extended| - n
            && t.localConsumed == s.localConsumed + n && n > 0
  {
    hide Memory;
    Roomy(s);
    NoWrap(s.localConsumed, Min(w.count, |s.extended|));
  }

  lemma ErrEnded(s: Endpoint, w: WriteResult)
    requires HandleEfdWrite(s, w) != s && !(w.Took? && w.count > 0)
    ensures HandleEfdWrite(s, w) == s.(efdOpen := false, errLost := true) && s.efdOpen
  {
    hide Add32;
  }

  lemma ErrGivenBulk(s: Endpoint, t: Endpoint, n: nat)
    requires t == s.(errGiven := t.errGiven, extended := t.extended, localConsumed := t.localConsumed)
    requires s.extUsage == ExtWrite && |t.extended| == |s.extended| - n
    requires t.localConsumed == s.localConsumed + n && n > 0
    ensures Work(t) < Work(s)
  {
  }

  lemma ErrEndBulk(s: Endpoint, t: Endpoint)
    requires t == s.(efdOpen := false, errLost := t.errLost) && s.efdOpen
    ensures Work(t) < Work(s)
  {
  }

  lemma ReadEndWorks(s: Endpoint)
    requires HandleRfd(s, ReadFail) != s
    ensures Work(HandleRfd(s, ReadFail)) < Work(s)
  {
    hide Load;
    assert HandleRfd(s, ReadFail) == s.(istate := InDrain) && s.istate == InOpen;
    assert Bulk(HandleRfd(s, ReadFail)) == Bulk(s);
  }

  lemma ErrReadEndWorks(s: Endpoint)
    requires HandleEfdRead(s, ReadFail) != s
    ensures Work(HandleEfdRead(s, ReadFail)) < Work(s)
  {
    hide Load;
    assert HandleEfdRead(s, ReadFail) == s.(efdOpen := false);
    assert Bulk(HandleEfdRead(s, ReadFail)) == Bulk(s);
  }

  lemma PreOpenWorks(s: Endpoint)
    requires PreOpen(s) != s
    ensures Work(PreOpen(s)) < Work(s)
  {
    hide Load;
    assert PreOpen(s) == s.(ostate := OutClosed) && s.ostate == OutDrain;
    assert Bulk(PreOpen(s)) == Bulk(s);
  }

  lemma CheckWindowWorks(s: Endpoint)
    requires CheckWindow(s) != s
    ensures Work(CheckWindow(s)) < Work(s)
  {
    hide Load;
    LoadAppend(s.link, Adjust(s.localConsumed));
  }

  lemma PollInputWorks(s: Endpoint)
    requires PollInput(s) != s
    ensures Work(PollInput(s)) < Work(s)
  {
    hide Load;
    if s.input == [] {
      LoadAppend(s.link, Eof);
      assert Bulk(PollInput(s)) <= Bulk(s) + 1;
    } else {
      LoadAppend(s.link, Data(s.input[..Min(|s.input|, Min(s.remoteWindow, s.remoteMaxpacket))]));
      assert Stages(PollInput(s)) == Stages(s);
    }
  }

  lemma PollExtendedWorks(s: Endpoint)
    requires PollExtended(s) != s
    ensures Work(PollExtended(s)) < Work(s)
  {
    hide Load;
    LoadAppend(s.link, ExtData(s.extended[..Min(|s.extended|, Min(s.remoteWindow, s.remoteMaxpacket))]));
  }

  lemma CollectWorks(s: Endpoint)
    requires Collect(s) != s
    ensures Work(Collect(s)) < Work(s)
  {
    hide Work;
    var t := Collect(s);
    assert t == s.(link := if s.closeSent then s.link else s.link + [Close], closeSent := true, ctype := t.ctype);
    CollectedBulk(s, t);
  }

  lemma CollectedBulk(s: Endpoint, t: Endpoint)
    requires t == s.(link := if s.closeSent then s.link else s.link + [Close], closeSent := true, ctype := t.ctype)
    requires s.ctype != Freed && ((t.ctype == s.ctype && !s.closeSent) || t.ctype == Freed)
    ensures Work(t) < Work(s)
  {
    hide Load;
    LoadAppend(s.link, Close);
    assert Bulk(t) <= Bulk(s) + One(!s.closeSent);
  }

  lemma LocalWorks(s: Endpoint, ev: Event)
    requires Memory(s) && Internal(ev) && !ev.EvReceive? && Local(s, ev) != s
    ensures Work(Local(s, ev)) < Work(s)
  {
    hide Work, Memory;
    match ev
    case EvWrite(w) => WriteWorks(s, w);
    case EvErrWrite(w) => ErrWriteWorks(s, w);
    case EvCheckWindow => CheckWindowWorks(s);
    case EvPollInput => PollInputWorks(s);
    case EvPollExtended => PollExtendedWorks(s);
    case EvCollect => CollectWorks(s);
    case EvPreOpen => PreOpenWorks(s);
    case EvRead(_) => ReadEndWorks(s);
    case EvErrRead(_) => ErrReadEndWorks(s);
  }

  /** Taking a packet moves its bytes one stage on. */
  lemma ReceiveWorks(s: Endpoint, r: Endpoint, q: Endpoint, m: Msg)
    requires Inv(Sys(s, r)) && Took1(r, q, m)
    ensures Work(Dispatch(s, m)) + Work(q) < Work(s) + Work(r)
  {
    hide Shake, Count, Flow, Work, Dispatch;
    KnownOf(s, r);
    CreditOf(s, r);
    ArrivesAlive(s, r, q, m);
    match m
    case Confirm(_, _) => ConfirmWorks(s, r, q, m);
    case Data(_) => DataAtOpen(s, r, q, m); DataWorks(s, r, q, m);
    case ExtData(_) => DataAtOpen(s, r, q, m); ExtDataWorks(s, r, q, m);
    case _ => SignalWorks(s, r, q, m);
  }

  lemma LoadHead(q: seq<Msg>)
    requires q != []
    ensures Load(q) == Load(q[1..]) + 1 + 7 * (if q[0].Data? || q[0].ExtData? then |q[0].data| else 0)
                       + 2 * (match q[0] case Adjust(n) => n case Confirm(w, _) => w case _ => 0)
  {
  }

  lemma HeadWorks(r: Endpoint, q: Endpoint, m: Msg)
    requires Took1(r, q, m)
    ensures Work(q) <= Work(r) - 1 - 7 * (if m.Data? || m.ExtData? then |m.data| else 0)
  {
    hide Load;
    LoadHead(r.link);
    assert Stages(q) == Stages(r);
  }

  lemma ConfirmWorks(s: Endpoint, r: Endpoint, q: Endpoint, m: Msg)
    requires Took1(r, q, m) && m.Confirm? && s.ctype == Opening
    ensures Work(Dispatch(s, m)) + Work(q) < Work(s) + Work(r)
  {
    assert Work(q) < Work(r) by { HeadWorks(r, q, m); }
    hide Load;
    assert Bulk(Dispatch(s, m)) == Bulk(s);
  }

  lemma DataWorks(s: Endpoint, r: Endpoint, q: Endpoint, m: Msg)
    requires Took1(r, q, m) && m.Data? && Memory(s) && s.ctype == Open
    requires 0 < |m.data| <= s.localMaxpacket && |m.data| <= s.localWindow
    ensures Work(Dispatch(s, m)) + Work(q) < Work(s) + Work(r)
  {
    hide Work, Dispatch;
    HeadWorks(r, q, m);
    DataBulk(s, m);
  }

  lemma DataBulk(s: Endpoint, m: Msg)
    requires m.Data? && s.ctype == Open && 0 < |m.data| <= s.localMaxpacket && |m.data| <= s.localWindow
    requires s.localConsumed + s.localWindow < TWO32
    ensures Work(Dispatch(s, m)) <= Work(s) + 5 * |m.data|
  {
    hide Load;
    var t := Dispatch(s, m);
    if s.ostate == OutOpen {
      assert t == s.(localWindow := t.localWindow, localExceeded := 0, output := s.output + m.data);
    } else {
      NoWrap(s.localConsumed, |m.data|);
      assert t == s.(localWindow := t.localWindow, localConsumed := s.localConsumed + |m.data|);
    }
    assert Stages(t) == Stages(s);
  }

  lemma ExtDataWorks(s: Endpoint, r: Endpoint, q: Endpoint, m: Msg)
    requires Took1(r, q, m) && m.ExtData? && s.ctype == Open && !s.eofRcvd
    ensures Work(Dispatch(s, m)) + Work(q) < Work(s) + Work(r)
  {
    hide Work, Dispatch;
    HeadWorks(r, q, m);
    ExtDataBulk(s, m);
  }

  lemma ExtDataBulk(s: Endpoint, m: Msg)
    requires m.ExtData? && s.ctype == Open && !s.eofRcvd
    ensures Work(Dispatch(s, m)) <= Work(s) + 5 * |m.data|
  {
    hide Work, InputExtendedData;
    ExtDataIs(s, m.data);
    if s.efdOpen && s.extUsage == ExtWrite && |m.data| <= s.localWindow {
      HeldBulk(s, s.(extended := s.extended + m.data, localWindow := s.localWindow - |m.data|), |m.data|);
    } else {
      WorkFrame(s, s.(errLost := true, refused := s.refused + |m.data|));
    }
  }

  lemma ExtDataIs(s: Endpoint, data: seq<Byte>)
    requires s.ctype == Open && !s.eofRcvd
    ensures InputExtendedData(s, data)
         == if s.efdOpen && s.extUsage == ExtWrite && |data| <= s.localWindow
            then s.(extended := s.extended + data, localWindow := s.localWindow - |data|)
            else s.(errLost := true, refused := s.refused + |data|)
  {
  }

  lemma HeldBulk(s: Endpoint, t: Endpoint, n: nat)
    requires t == s.(extended := t.extended, localWindow := t.localWindow)
    requires s.extUsage == ExtWrite && |t.extended| == |s.extended| + n
    ensures Work(t) == Work(s) + 5 * n
  {
  }

  lemma WorkFrame(s: Endpoint, t: Endpoint)
    requires t == s.(remoteWindow := t.remoteWindow, errLost := t.errLost, refused := t.refused, fault := t.fault)
    ensures Work(t) == Work(s)
  {
  }

  lemma SignalWorks(s: Endpoint, r: Endpoint, q: Endpoint, m: Msg)
    requires Took1(r, q, m) && s.ctype != Freed && s.ctype != Opening
    requires m.Adjust? || m.Eof? || m.Eow? || m.Close?
    ensures Work(Dispatch(s, m)) + Work(q) < Work(s) + Work(r)
  {
    hide Work, Dispatch;
    HeadWorks(r, q, m);
    match m
    case Adjust(_) => AdjustBulk(s, m);
    case Eof => EofBulk(s);
    case Eow => EowBulk(s);
    case Close => CloseBulk(s);
    case _ =>
  }

  lemma AdjustBulk(s: Endpoint, m: Msg)
    requires s.ctype != Freed && m.Adjust?
    ensures Work(Dispatch(s, m)) == Work(s)
  {
    hide Work, Add32;
    var w := Add32(s.remoteWindow, m.amount);
    if w < s.remoteWindow {
      WorkFrame(s, s.(fault := AdjustOverflows));
    } else {
      WorkFrame(s, s.(remoteWindow := w));
    }
  }

  lemma EofBulk(s: Endpoint)
    requires s.ctype != Freed
    ensures Work(Dispatch(s, Eof)) <= Work(s)
  {
    hide Load;
    var t := InputIeof(s);
    LoadAppend(s.link, Eof);
    assert Bulk(t) <= Bulk(s) + (if t.istate == s.istate then 0 else 1);
    assert Stages(t) <= Stages(s) - (if t.istate == s.istate then 0 else 2);
  }

  lemma EowBulk(s: Endpoint)
    requires s.ctype != Freed
    ensures Work(Dispatch(s, Eow)) <= Work(s)
  {
    hide Load;
    assert Bulk(RcvdEow(s)) == Bulk(s);
  }

  lemma CloseBulk(s: Endpoint)
    requires s.ctype != Freed
    ensures Work(Dispatch(s, Close)) <= Work(s)
  {
    hide Load;
    var t := RcvdOclose(s);
    LoadAppend(s.link, Eof);
    assert Bulk(t) <= Bulk(s) + (if s.istate == InDrain then 1 else 0);
    assert Stages(t) <= Stages(s) - (if s.istate == InDrain then 2 else 0);
  }

  function Total(s: Sys): nat { Work(s.a) + Work(s.b) }

  /** Every internal step that changes anything leaves strictly less work. */
  lemma StepWorks(s: Sys, atA: bool, ev: Event)
    requires Inv(s) && Internal(ev) && Step(s, atA, ev) != s
    ensures Total(Step(s, atA, ev)) < Total(s)
  {
    hide Shake, Count, Flow, Work, Local, Dispatch;
    var p := if atA then s else Swap(s);
    assert Inv(p) by { InvSwap(s); }
    KnownOf(p.a, p.b);
    if ev.EvReceive? {
      if p.b.link != [] { ReceiveWorks(p.a, p.b, p.b.(link := p.b.link[1..]), p.b.link[0]); }
    } else if Local(p.a, ev) != p.a {
      LocalWorks(p.a, ev);
    }
  }

  /** A schedule every step of which is internal and changes the state. */
  predicate Busy(s: Sys, schedule: seq<(bool, Event)>) {
    forall k | 0 <= k < |schedule| ::
      Internal(schedule[k].1) && Exec(s, schedule[..k + 1]) != Exec(s, schedule[..k])
  }

  /** So no run can go on for ever without new input: its length is bounded by the work there was. */
  lemma {:induction false} WorkRunsOut(s: Sys, schedule: seq<(bool, Event)>)
    requires Inv(s) && Busy(s, schedule)
    ensures Inv(Exec(s, schedule)) && Total(Exec(s, schedule)) + |schedule| <= Total(s)
  {
    hide Inv, Step, Total;
    if schedule != [] {
      var k := |schedule| - 1;
      var before := schedule[..k];
      assert schedule[..k + 1] == schedule;
      assert Busy(s, before) by {
        assert forall j | 0 <= j <= k :: before[..j] == schedule[..j];
      }
      WorkRunsOut(s, before);
      StepKeeps(Exec(s, before), schedule[k].0, schedule[k].1);
      StepWorks(Exec(s, before), schedule[k].0, schedule[k].1);
    }
  }

  // ---------- nothing is stuck ----------

  /** The steps that carry bytes forward: writing them out, asking for more, sending and receiving. */
  predicate Progress(ev: Event) {
    match ev
    case EvWrite(w) => w.Took? && w.count > 0
    case EvErrWrite(w) => w.Took? && w.count > 0
    case EvCheckWindow => true
    case EvPollInput => true
    case EvPollExtended => true
    case EvReceive => true
    case _ => false
  }

  /** No step of the kind `ok` changes anything, at either endpoint. */
  ghost predicate Still(s: Sys, ok: Event -> bool) {
    forall atA, ev | ok(ev) :: Step(s, atA, ev) == s
  }

  /** No bytes can be carried any further; both endpoints may well be open and idle. */
  ghost predicate Stuck(s: Sys) { Still(s, Progress) }

  /** Steps of one kind that bring in no bytes can always be taken until none of them is left. */
  lemma {:induction false} Settles(s: Sys, ok: Event -> bool) returns (more: seq<(bool, Event)>)
    requires Inv(s) && forall ev | ok(ev) :: Internal(ev)
    ensures (forall k | 0 <= k < |more| :: ok(more[k].1)) && Still(Exec(s, more), ok)
    decreases Total(s)
  {
    hide Inv, Step, Total, Internal;
    more := [];
    if !Still(s, ok) {
      var atA, ev :| ok(ev) && Step(s, atA, ev) != s;
      StepKeeps(s, atA, ev);
      StepWorks(s, atA, ev);
      more := Settles(Step(s, atA, ev), ok);
      ExecFrom(s, (atA, ev), more);
      more := [(atA, ev)] + more;
    }
  }

  lemma {:induction false} ExecFrom(s: Sys, x: (bool, Event), more: seq<(bool, Event)>)
    ensures Exec(s, [x] + more) == Exec(Step(s, x.0, x.1), more)
  {
    hide Step;
    if more == [] {
      assert [x] + more == [x] && [x][..0] == [];
      assert Exec(s, []) == s;
    } else {
      var k := |more| - 1;
      ExecFrom(s, x, more[..k]);
      assert ([x] + more)[..|more|] == [x] + more[..k];
    }
  }

  /** The receiver can take data: it is past its larval state, its window and the packet size
      are usable, and no write has failed and no stderr has been refused. */
  predicate Usable(s: Endpoint, r: Endpoint) {
    r.ctype != Larval && 2 <= r.localWindowMax && 1 <= r.localMaxpacket && !r.writeFailed && !r.errLost
  }

  /** What the receiver will never grant again: stderr it refused, output it dropped, stderr it cannot write. */
  function Leaked(r: Endpoint): nat { r.refused + r.dropped + |HeldErr(r)| }

  /** With the links empty and all output written, running the window check and delivering its adjustment leaves
      the sender all of the receiver's window but what was refused; and that window is at least half the
      configured one, or all of it but what was dropped or cannot be written. */
  lemma WindowReopens(s: Endpoint, r: Endpoint)
    requires Inv(Sys(s, r)) && s.link == [] && r.link == [] && r.output == []
    requires r.ctype == Open && !r.Closing()
    ensures var t := CheckWindow(r);
            && s.remoteWindow + Credits(t.link) + r.refused == t.localWindow
            && (t.localWindow >= r.localWindowMax / 2
                || t.localWindow + r.dropped + |HeldErr(r)| == r.localWindowMax)
            && (t == r || t.localWindow + r.dropped + |HeldErr(r)| == r.localWindowMax)
  {
    hide Shakes, Flows;
    LinkAppend(r.link, Adjust(r.localConsumed), Fresh);
    NoWrap(r.localWindow, r.localConsumed);
  }

  lemma QuietSide(s: Sys, atA: bool, ev: Event)
    requires Stuck(s) && Progress(ev) && !ev.EvReceive? && s.a.fault == NoFault && s.b.fault == NoFault
    ensures Local(if atA then s.a else s.b, ev) == if atA then s.a else s.b
  {
    hide Local;
    assert Step(s, atA, ev) == s;
  }

  lemma QuietLinks(s: Sys)
    requires Stuck(s) && s.a.fault == NoFault && s.b.fault == NoFault
    ensures s.a.link == [] && s.b.link == []
  {
    hide Dispatch, Local;
    assert Step(s, true, EvReceive) == s && Step(s, false, EvReceive) == s;
  }

  /** A receiver that has nothing more to write has emptied its buffer, and its stderr unless some was lost. */
  lemma DrainedReceiver(s: Endpoint, r: Endpoint)
    requires Shakes(s, r) && s.link == []
    requires HandleWfd(r, Took(1)) == r && HandleEfdWrite(r, Took(1)) == r
    ensures r.ctype != Opening && r.output == []
    ensures !r.errLost && !r.writeFailed ==> HeldErr(r) == []
    ensures r.ctype == Open && r.ostate == OutDrain ==> !r.EfdOutputActive()
  {
  }

  /** While this side may still send, neither side has begun to close. */
  lemma StillTalking(s: Endpoint, r: Endpoint)
    requires Shakes(s, r) && s.link == [] && r.link == [] && s.istate != InClosed
    ensures (s.ctype == Open || s.ctype == Larval) && !s.Closing() && !s.eofSent
    ensures (r.ctype == Open || r.ctype == Larval) && !r.Closing()
  {
  }

  /** An open sender's window is the receiver's, less what was refused; some is left unless half of the configured
      window has leaked, and none if all of it has; and with some left, nothing waits to be sent. */
  predicate Left(s: Endpoint, r: Endpoint) {
    && s.remoteWindow == r.localWindow - r.refused
    && (Leaked(r) < r.localWindowMax / 2 ==> r.localWindow > r.refused)
    && (r.localWindowMax <= Leaked(r) ==> r.localWindow == r.refused)
    && (r.localWindow > r.refused && 1 <= r.localMaxpacket ==> s.input == [] && OwnErr(s) == [])
  }

  lemma NothingToSend(s: Endpoint)
    requires PollInput(s) == s && PollExtended(s) == s
    requires s.ctype == Open && !s.Closing() && !s.eofSent && s.istate != InClosed
    requires s.remoteWindow > 0 && s.remoteMaxpacket > 0
    ensures s.input == [] && OwnErr(s) == []
  {
  }

  /** What was read at `s` has come out at `r`, unless it was lost there. */
  predicate Arrived(s: Endpoint, r: Endpoint) {
    && (!r.writeFailed ==> s.taken == r.given)
    && (!r.writeFailed && !r.errLost ==> s.errTaken == r.errGiven)
  }

  lemma AllArrived(s: Endpoint, r: Endpoint)
    requires Inv(Sys(s, r)) && s.link == [] && r.output == []
    requires s.istate != InClosed ==> s.input == [] && OwnErr(s) == []
    requires !r.errLost && !r.writeFailed ==> HeldErr(r) == []
    ensures Arrived(s, r)
  {
  }

  lemma NoneLost(s: Endpoint, r: Endpoint)
    requires Inv(Sys(s, r)) && s.link == [] && r.link == [] && r.output == []
    requires s.ctype == Open && s.istate != InClosed ==> Left(s, r)
    requires !r.errLost && !r.writeFailed ==> HeldErr(r) == []
    ensures Usable(s, r) ==> s.input == [] && OwnErr(s) == []
    ensures Usable(s, r) || (r.localWindow > r.refused && 1 <= r.localMaxpacket) || s.istate == InClosed ==> Arrived(s, r)
  {
    hide Count, Flow;
    if s.istate != InClosed { StillTalking(s, r); }
    if Usable(s, r) || (r.localWindow > r.refused && 1 <= r.localMaxpacket) || s.istate == InClosed {
      AllArrived(s, r);
    }
  }

  /** Where one direction stands when nothing moves any more. */
  lemma Delivered(s: Endpoint, r: Endpoint)
    requires Inv(Sys(s, r)) && s.link == [] && r.link == []
    requires HandleWfd(r, Took(1)) == r && HandleEfdWrite(r, Took(1)) == r && CheckWindow(r) == r
    requires PollInput(s) == s && PollExtended(s) == s
    ensures s.ctype == Open && s.istate != InClosed ==> Left(s, r)
    ensures Usable(s, r) && s.ctype == Open && s.istate != InClosed ==> s.remoteWindow >= r.localWindowMax / 2 > 0
    ensures Usable(s, r) ==> Arrived(s, r) && s.input == [] && OwnErr(s) == []
    ensures (r.localWindow > r.refused && 1 <= r.localMaxpacket) || s.istate == InClosed ==> Arrived(s, r)
  {
    hide HandleWfd, HandleEfdWrite, CheckWindow, PollInput, PollExtended, Flows;
    DrainedReceiver(s, r);
    if s.ctype == Open && s.istate != InClosed {
      StillTalking(s, r);
      assert s.remoteMaxpacket == r.localMaxpacket;
      if r.ctype == Open { WindowReopens(s, r); } else { assert Waiting(r); }
      if s.remoteWindow > 0 && s.remoteMaxpacket > 0 { NothingToSend(s); }
    }
    NoneLost(s, r);
  }

  lemma StuckSwap(s: Sys)
    requires Stuck(s)
    ensures Stuck(Swap(s))
  {
    hide StepA;
    forall atA, ev | Progress(ev) ensures Step(Swap(s), atA, ev) == Swap(s) {
      assert Step(s, !atA, ev) == s;
      assert Swap(Swap(s)) == s;
    }
  }

  lemma StuckStands(s: Sys)
    requires Inv(s) && Stuck(s) && s.a.fault == NoFault && s.b.fault == NoFault
    ensures s.a.ctype == Open && s.a.istate != InClosed ==> Left(s.a, s.b)
    ensures Usable(s.a, s.b) && s.a.ctype == Open && s.a.istate != InClosed ==>
              s.a.remoteWindow >= s.b.localWindowMax / 2 > 0
    ensures Usable(s.a, s.b) ==> Arrived(s.a, s.b)
    ensures (s.b.localWindow > s.b.refused && 1 <= s.b.localMaxpacket) || s.a.istate == InClosed ==> Arrived(s.a, s.b)
    ensures s.a.link == [] && s.b.link == []
    ensures s.b.ctype != Opening && s.b.output == []
    ensures !s.b.errLost && !s.b.writeFailed ==> HeldErr(s.b) == []
    ensures s.b.ctype == Open && s.b.ostate == OutDrain ==> !s.b.EfdOutputActive()
  {
    hide Shake, Count, Flow, Stuck, HandleWfd, HandleEfdWrite, CheckWindow, PollInput, PollExtended, Left, Usable, Arrived;
    QuietLinks(s);
    QuietSide(s, false, EvWrite(Took(1)));
    QuietSide(s, false, EvErrWrite(Took(1)));
    QuietSide(s, false, EvCheckWindow);
    QuietSide(s, true, EvPollInput);
    QuietSide(s, true, EvPollExtended);
    Delivered(s.a, s.b);
    DrainedReceiver(s.a, s.b);
  }

  /** An endpoint whose descriptors are not looked at any more, not even for their end. */
  ghost predicate Starved(s: Endpoint) {
    forall res :: HandleRfd(s, res) == s && HandleEfdRead(s, res) == s
  }

  ghost predicate TakesMore(s: Endpoint) {
    s.istate == InOpen ==> forall x: Byte :: HandleRfd(s, Got([x])).taken == s.taken + [x]
  }

  /** No deadlock, over whole runs, in either direction and for every receiver.  When no step carries bytes any
      further, an open sender has exactly the receiver's window less the stderr that was refused.  If that is
      positive and packets are not empty, everything read has come out, unless it was lost at the receiver, and the
      next byte offered is taken; if it is zero, the sender never reads again; and it is positive as long as less
      than half of the window has leaked.  By `WorkRunsOut` and `Settles`, a run without new input gets to such a
      state, and cannot go on for ever before it does. */
  lemma NoDeadlock(start: Sys, schedule: seq<(bool, Event)>, fromB: bool)
    requires Start(start)
    ensures var s := Reached(start, schedule, fromB);
            Stuck(s) && s.a.ctype == Open && s.a.istate != InClosed ==>
              && Left(s.a, s.b)
              && (s.b.localWindow > s.b.refused && 1 <= s.b.localMaxpacket ==> Arrived(s.a, s.b) && TakesMore(s.a))
              && (s.b.localWindow == s.b.refused ==> Starved(s.a))
    ensures var s := Reached(start, schedule, fromB);
            Stuck(s) && Usable(s.a, s.b) ==>
              && s.a.taken == s.b.given && s.a.errTaken == s.b.errGiven
              && (s.a.ctype == Open && s.a.istate != InClosed ==> s.a.remoteWindow >= s.b.localWindowMax / 2 > 0)
              && (s.a.ctype == Open ==> TakesMore(s.a))
  {
    hide Reached, Start, Stuck, Inv;
    ReachedInv(start, schedule, fromB);
    WindowSafety(start, schedule, fromB);
    var s := Reached(start, schedule, fromB);
    if Stuck(s) {
      StuckStands(s);
      if s.a.ctype == Open && s.a.istate != InClosed { OpenSender(s.a, s.b); }
    }
  }

  lemma OpenSender(s: Endpoint, r: Endpoint)
    requires s.ctype == Open && s.istate != InClosed && Left(s, r)
    ensures r.localWindow > r.refused && 1 <= r.localMaxpacket ==> TakesMore(s)
    ensures r.localWindow == r.refused ==> Starved(s)
  {
    hide HandleRfd;
    if r.localWindow > r.refused && 1 <= r.localMaxpacket && s.istate == InOpen {
      forall x: Byte ensures HandleRfd(s, Got([x])).taken == s.taken + [x] { TakesNext(s, x); }
    }
    if r.localWindow == r.refused {
      forall res ensures HandleRfd(s, res) == s && HandleEfdRead(s, res) == s { RfdIdle(s, res); }
    }
  }

  lemma TakesNext(e: Endpoint, x: Byte)
    requires e.ctype == Open && e.istate == InOpen && e.input == [] && e.remoteWindow > 0
    ensures HandleRfd(e, Got([x])).taken == e.taken + [x]
  {
    assert [x][..1] == [x];
  }

  /** The steps that carry bytes are among those that `WorkRunsOut` bounds. */
  lemma ProgressIsInternal(ev: Event)
    requires Progress(ev)
    ensures Internal(ev)
  {
  }
}
