/** Receivers whose window has leaked away: once stuck, no continuation ever carries another byte to them. */
module ChannelLosses {
  import opened Bytes
  import opened ChannelModel
  import opened ChannelProtocol
  import opened ChannelSteps
  import opened ChannelReceive
  import opened ChannelTheorems
  import opened ChannelLiveness
  import opened ChannelEndings
  import opened ChannelStalls

  // ---------- for ever ----------

  /** All window the sender could have was refused, nothing is left to write and nothing will be granted. */
  predicate Exhausted(r: Endpoint) {
    && (r.ctype == Open || r.ctype == Freed) && r.localWindow == r.refused && r.output == []
    && (HeldErr(r) == [] || !r.efdOpen || (r.istate == InClosed && r.ostate == OutClosed))
    && (r.Closing() || r.localConsumed == 0 || !Low(r.localMaxpacket, r.localWindowMax, r.localWindow))
  }

  predicate Low(maxpacket: U32, windowMax: U32, window: U32) {
    Mul32(maxpacket, 3) < Sub32(windowMax, window) || window < windowMax / 2
  }

  predicate SameIn(s: Endpoint, t: Endpoint) { t.taken == s.taken && t.errTaken == s.errTaken }
  predicate SameOut(s: Endpoint, t: Endpoint) { t.given == s.given && t.errGiven == s.errGiven }

  lemma SenderIdle(s: Endpoint, ev: Event)
    requires s.remoteWindow == 0 && !ev.EvReceive?
    ensures SameIn(s, Local(s, ev))
  {
    match ev
    case EvRead(_) =>
    case EvErrRead(_) =>
    case _ =>
  }

  /** What `Exhausted` and the descriptors' logs depend on. */
  predicate SameStand(r: Endpoint, t: Endpoint) {
    && (t.ctype == r.ctype || t.ctype == Freed) && t.localWindow == r.localWindow && t.refused == r.refused
    && t.output == r.output && t.extUsage == r.extUsage && (t.extended == r.extended || r.extUsage != ExtWrite)
    && (t.efdOpen ==> r.efdOpen) && (r.istate == InClosed ==> t.istate == InClosed)
    && (r.ostate == OutClosed ==> t.ostate == OutClosed)
    && (r.Closing() ==> t.Closing()) && t.localConsumed == r.localConsumed
    && t.localMaxpacket == r.localMaxpacket && t.localWindowMax == r.localWindowMax
    && SameOut(r, t)
  }

  lemma StandKept(r: Endpoint, t: Endpoint)
    requires Exhausted(r) && SameStand(r, t)
    ensures Exhausted(t) && SameOut(r, t)
  {
    hide Low;
  }

  lemma WritesStand(r: Endpoint, ev: Event)
    requires Exhausted(r) && (ev.EvWrite? || ev.EvErrWrite? || ev.EvCheckWindow?)
    ensures SameStand(r, Local(r, ev))
  {
    hide Mul32, Sub32, Add32;
  }

  lemma ReadsStand(r: Endpoint, ev: Event)
    requires ev.EvRead? || ev.EvErrRead? || ev.EvPreOpen? || ev.EvPollInput? || ev.EvPollExtended? || ev.EvCollect?
    ensures SameStand(r, Local(r, ev))
  {
    hide Sub32;
  }

  lemma ReceiverIdle(r: Endpoint, ev: Event)
    requires Exhausted(r) && !ev.EvReceive?
    ensures Exhausted(Local(r, ev)) && SameOut(r, Local(r, ev))
  {
    if ev.EvWrite? || ev.EvErrWrite? || ev.EvCheckWindow? {
      hide *;
      WritesStand(r, ev);
      StandKept(r, Local(r, ev));
    } else if !ev.EvActivate? {
      hide *;
      ReadsStand(r, ev);
      StandKept(r, Local(r, ev));
    } else {
      hide Low;
    }
  }

  lemma DataSameIn(s: Endpoint, data: seq<Byte>)
    ensures SameIn(s, InputData(s, data)) && SameIn(s, InputExtendedData(s, data))
  {
    hide Add32;
  }

  lemma EofSameIn(s: Endpoint)
    ensures SameIn(s, InputIeof(s))
  {
    hide RcvdIeof;
  }

  lemma CloseSameIn(s: Endpoint)
    ensures SameIn(s, RcvdOclose(s))
  {
  }

  lemma OpenSameIn(s: Endpoint, window: U32, maxpacket: U32)
    ensures SameIn(s, InputOpenConfirmation(s, window, maxpacket))
  {
  }

  lemma AdjustSameIn(s: Endpoint, amount: U32)
    ensures SameIn(s, InputWindowAdjust(s, amount))
  {
    hide Add32;
  }

  lemma RestSameIn(s: Endpoint)
    ensures SameIn(s, RcvdEow(s)) && SameIn(s, s.(fault := NoSuchChannel))
  {
  }

  lemma SenderHears(s: Endpoint, m: Msg)
    ensures SameIn(s, Dispatch(s, m))
  {
    hide SameIn, InputOpenConfirmation, InputData, InputExtendedData, InputWindowAdjust, InputIeof, RcvdEow, RcvdOclose;
    RestSameIn(s);
    match m
    case Confirm(window, maxpacket) => OpenSameIn(s, window, maxpacket);
    case Data(data) => DataSameIn(s, data);
    case ExtData(data) => DataSameIn(s, data);
    case Adjust(amount) => AdjustSameIn(s, amount);
    case Eof => EofSameIn(s);
    case Eow =>
    case Close => CloseSameIn(s);
  }

  lemma SignalStands(r: Endpoint, m: Msg)
    requires (r.ctype == Open || r.ctype == Freed) && !m.Data? && !m.ExtData?
    ensures SameStand(r, Dispatch(r, m))
  {
    hide Add32;
    match m
    case Confirm(_, _) =>
    case Adjust(_) =>
    case Eof =>
    case Eow =>
    case Close =>
  }

  lemma ReceiverHears(r: Endpoint, m: Msg)
    requires Exhausted(r) && !m.Data? && !m.ExtData?
    ensures Exhausted(Dispatch(r, m)) && SameOut(r, Dispatch(r, m))
  {
    hide Dispatch, SameStand;
    SignalStands(r, m);
    StandKept(r, Dispatch(r, m));
  }

  /** With no window left there are no data packets on the link either. */
  lemma NoDataOnLink(s: Endpoint, r: Endpoint)
    requires Shake(s, r) && Credit(s, r) && r.localWindow == r.refused
    ensures s.remoteWindow == 0 && (s.link != [] ==> !s.link[0].Data? && !s.link[0].ExtData?)
  {
    if s.link != [] { assert s.link[0] in s.link; }
  }

  lemma ExhaustedStep(s: Sys, atA: bool, ev: Event)
    requires Inv(s) && Exhausted(s.b)
    ensures var t := Step(s, atA, ev); Exhausted(t.b) && SameIn(s.a, t.a) && SameOut(s.b, t.b)
  {
    hide Shake, Credit, Memory, Flow, Local, Dispatch;
    assert Exhausted(s.b) ==> s.b.localWindow == s.b.refused;
    NoDataOnLink(s.a, s.b);
    if !ev.EvReceive? {
      if atA { SenderIdle(s.a, ev); } else { ReceiverIdle(s.b, ev); }
    } else if atA {
      if s.b.link != [] { SenderHears(s.a, s.b.link[0]); }
      StandKept(s.b, Step(s, atA, ev).b);
    } else if s.a.link != [] {
      ReceiverHears(s.b, s.a.link[0]);
    }
  }

  lemma {:induction false} ExhaustedExec(s: Sys, more: seq<(bool, Event)>)
    requires Inv(s) && Exhausted(s.b)
    ensures var t := Exec(s, more); Inv(t) && Exhausted(t.b) && SameIn(s.a, t.a) && SameOut(s.b, t.b)
  {
    hide Inv, Step, Exhausted;
    if more != [] {
      var k := |more| - 1;
      ExhaustedExec(s, more[..k]);
      StepKeeps(Exec(s, more[..k]), more[k].0, more[k].1);
      ExhaustedStep(Exec(s, more[..k]), more[k].0, more[k].1);
    }
  }

  lemma StuckExhausted(s: Sys)
    requires Inv(s) && Stuck(s) && s.a.fault == NoFault && s.b.fault == NoFault
    requires s.b.ctype == Open && s.b.localWindow == s.b.refused
    ensures Exhausted(s.b)
  {
    hide Stuck, Inv, CheckWindow, Left, Low;
    StuckStands(s);
    QuietSide(s, false, EvErrWrite(Took(1)));
    QuietSide(s, false, EvCheckWindow);
    NotLow(s.b);
  }

  lemma NotLow(r: Endpoint)
    requires CheckWindow(r) == r && r.ctype == Open
    ensures r.Closing() || r.localConsumed == 0 || !Low(r.localMaxpacket, r.localWindowMax, r.localWindow)
  {
    hide Mul32, Sub32, Add32;
  }

  /** The other half of `NoDeadlock`: a run that is stuck with an open receiver whose whole window was refused stays
      so, whatever either side does next.  Not one more byte goes in at the sender or comes out at the receiver. */
  lemma LeakIsForEver(start: Sys, schedule: seq<(bool, Event)>, fromB: bool, more: seq<(bool, Event)>)
    requires Start(start)
    ensures var s := Reached(start, schedule, fromB);
            var t := Exec(s, more);
            Stuck(s) && s.b.ctype == Open && s.b.localWindow == s.b.refused ==>
              SameIn(s.a, t.a) && SameOut(s.b, t.b) && t.a.remoteWindow == 0
  {
    hide Reached, Start, Stuck, Inv, Exec, Exhausted;
    ReachedInv(start, schedule, fromB);
    WindowSafety(start, schedule, fromB);
    var s := Reached(start, schedule, fromB);
    if Stuck(s) && s.b.ctype == Open && s.b.localWindow == s.b.refused {
      StuckExhausted(s);
      ExhaustedExec(s, more);
      ExhaustedWindow(Exec(s, more));
    }
  }

  lemma ExhaustedWindow(s: Sys)
    requires Inv(s) && Exhausted(s.b)
    ensures s.a.remoteWindow == 0
  {
    NoDataOnLink(s.a, s.b);
  }

  // ---------- such a run, with a window of any size ----------

  /** The acceptor takes no stderr; the opener reads as much of it as the acceptor's window allows. */
  predicate StderrUnwanted(s: Sys, data: seq<Byte>) {
    && Start(s) && s.b.ctype == Open && s.b.extUsage == ExtIgnore
    && s.a.extUsage == ExtRead && s.a.efdOpen && !s.a.forceDrain && s.a.localWindow > 0
    && 0 < |data| == s.b.localWindow <= s.b.localMaxpacket && |data| <= CHAN_RBUF
  }

  /** The stderr is read, sent and refused. */
  function RefusedRun(data: seq<Byte>): seq<(bool, Event)> {
    [(true, EvReceive), (true, EvErrRead(Got(data))), (true, EvPollExtended), (false, EvReceive)]
  }

  /** Then the acceptor's descriptor comes to its end, and the opener hears of it. */
  function EndedRun(data: seq<Byte>): seq<(bool, Event)> {
    RefusedRun(data) + [(false, EvRead(ReadFail)), (false, EvPollInput), (true, EvReceive)]
  }

  /** The opener on the way, with the window it has, and the acceptor. */
  function Opener(s: Sys, window: U32): Endpoint {
    s.a.(ctype := Open, remoteWindow := window, remoteMaxpacket := s.b.localMaxpacket)
  }

  function Acceptor(s: Sys, n: nat): Endpoint {
    s.b.(link := [], errLost := true, refused := n)
  }

  lemma {:induction false} Then(s: Sys, q: seq<(bool, Event)>, x: (bool, Event), t: Sys)
    requires Exec(s, q) == t
    ensures Exec(s, q + [x]) == Step(t, x.0, x.1)
  {
    hide Step;
    assert (q + [x])[..|q|] == q;
  }

  function Refused(s: Sys, data: seq<Byte>): Sys {
    Sys(Opener(s, 0).(errTaken := data), Acceptor(s, |data|))
  }

  function Halted(s: Sys, data: seq<Byte>): Sys {
    Sys(Opener(s, 0).(errTaken := data, eofRcvd := true, ostate := OutClosed),
        Acceptor(s, |data|).(istate := InClosed, eofSent := true))
  }

  lemma StepHear(s: Sys, data: seq<Byte>)
    requires StderrUnwanted(s, data)
    ensures Step(s, true, EvReceive) == Sys(Opener(s, |data|), s.b.(link := []))
  {
    assert s.b.link[1..] == [];
  }

  lemma StepTakeErr(s: Sys, data: seq<Byte>)
    requires StderrUnwanted(s, data)
    ensures Step(Sys(Opener(s, |data|), s.b.(link := [])), true, EvErrRead(Got(data)))
            == Sys(Opener(s, |data|).(extended := data, errTaken := data), s.b.(link := []))
  {
    assert data[..|data|] == data && [] + data == data;
  }

  lemma StepSendErr(s: Sys, data: seq<Byte>)
    requires StderrUnwanted(s, data)
    ensures Step(Sys(Opener(s, |data|).(extended := data, errTaken := data), s.b.(link := [])), true, EvPollExtended)
            == Sys(Opener(s, 0).(errTaken := data, link := [ExtData(data)]), s.b.(link := []))
  {
    assert data[..|data|] == data && data[|data|..] == [] && [] + [ExtData(data)] == [ExtData(data)];
  }

  lemma StepRefuse(s: Sys, data: seq<Byte>)
    requires StderrUnwanted(s, data)
    ensures Step(Sys(Opener(s, 0).(errTaken := data, link := [ExtData(data)]), s.b.(link := [])), false, EvReceive)
            == Refused(s, data)
  {
    assert [ExtData(data)][1..] == [];
  }

  lemma StuckRefused(s: Sys, data: seq<Byte>)
    requires StderrUnwanted(s, data)
    ensures Stuck(Refused(s, data))
  {
    hide Local, Dispatch;
    var w := Refused(s, data);
    forall atA, ev | Progress(ev) ensures Step(w, atA, ev) == w {
      if !ev.EvReceive? {
        IdleSide(w.a, ev);
        IdleSide(w.b, ev);
      }
    }
  }

  lemma RunRefused(start: Sys, data: seq<Byte>)
    requires StderrUnwanted(start, data)
    ensures Exec(start, RefusedRun(data)) == Refused(start, data)
  {
    hide Step, Start;
    StepHear(start, data);
    StepTakeErr(start, data);
    StepSendErr(start, data);
    StepRefuse(start, data);
    var q := RefusedRun(data);
    assert q[..3] + [q[3]] == q && q[..2] + [q[2]] == q[..3] && q[..1] + [q[1]] == q[..2] && q[..0] + [q[0]] == q[..1];
    Then(start, q[..0], q[0], start);
    Then(start, q[..1], q[1], Exec(start, q[..1]));
    Then(start, q[..2], q[2], Exec(start, q[..2]));
    Then(start, q[..3], q[3], Exec(start, q[..3]));
  }

  /** Whatever the size of its window, an acceptor that ignores stderr can be sent a window's worth of it: then the
      opener is open and idle, no byte has come out, none is buffered or on its way, neither side is closing, and
      still nothing can ever be carried again. */
  lemma StderrLeaksWindow(start: Sys, data: seq<Byte>, more: seq<(bool, Event)>)
    requires StderrUnwanted(start, data)
    ensures var s := Exec(start, RefusedRun(data));
            && s == Refused(start, data) && Stuck(s)
            && s.a.ctype == Open && s.a.istate == InOpen && s.b.ctype == Open
            && (2 <= |data| ==> Carries(s.b)) && s.b.localWindow == s.b.refused
            && SameIn(s.a, Exec(s, more).a) && Exec(s, more).a.remoteWindow == 0
  {
    hide Step, Stuck, Exec;
    RunRefused(start, data);
    StuckRefused(start, data);
    LeakIsForEver(start, RefusedRun(data), false, more);
  }

  lemma StepEnd(s: Sys, data: seq<Byte>)
    requires StderrUnwanted(s, data)
    ensures Step(Refused(s, data), false, EvRead(ReadFail))
            == Sys(Refused(s, data).a, Acceptor(s, |data|).(istate := InDrain))
  {
    hide HandleRfd;
    RfdEnds(Acceptor(s, |data|), ReadFail);
  }

  lemma StepSayEof(s: Sys, data: seq<Byte>)
    requires StderrUnwanted(s, data)
    ensures Step(Sys(Refused(s, data).a, Acceptor(s, |data|).(istate := InDrain)), false, EvPollInput)
            == Sys(Refused(s, data).a, Acceptor(s, |data|).(istate := InClosed, eofSent := true, link := [Eof]))
  {
    hide PollInput;
    PollEnds(Acceptor(s, |data|).(istate := InDrain));
    assert [] + [Eof] == [Eof];
  }

  lemma StepHearEof(s: Sys, data: seq<Byte>)
    requires StderrUnwanted(s, data)
    ensures Step(Sys(Refused(s, data).a, Acceptor(s, |data|).(istate := InClosed, eofSent := true, link := [Eof])),
                 true, EvReceive)
            == Halted(s, data)
  {
    assert [Eof][1..] == [];
  }

  lemma RunHalted(start: Sys, data: seq<Byte>)
    requires StderrUnwanted(start, data)
    ensures Exec(start, EndedRun(data)) == Halted(start, data)
  {
    hide Step, Start;
    RunRefused(start, data);
    StepEnd(start, data);
    StepSayEof(start, data);
    StepHearEof(start, data);
    var q, d := EndedRun(data), RefusedRun(data);
    assert q[..6] + [q[6]] == q && q[..5] + [q[5]] == q[..6] && q[..4] + [q[4]] == q[..5] && q[..4] == d;
    Then(start, q[..4], q[4], Refused(start, data));
    Then(start, q[..5], q[5], Exec(start, q[..5]));
    Then(start, q[..6], q[6], Exec(start, q[..6]));
  }

  /** And the handshake never completes: the acceptor has said EOF and the opener has closed its output half, but
      the opener, without window, cannot find out that its own descriptors have ended. */
  lemma StderrBlocksHandshake(start: Sys, data: seq<Byte>)
    requires StderrUnwanted(start, data)
    ensures var s := Exec(start, EndedRun(data));
            && s == Halted(start, data) && Still(s, Orderly) && !CanEnd(s.a, s.b)
            && s.a.ctype == Open && s.b.ctype == Open
  {
    hide Step, Still, Exec, Orderly;
    RunHalted(start, data);
    StillHalted(start, data);
  }

  lemma StillHalted(s: Sys, data: seq<Byte>)
    requires StderrUnwanted(s, data)
    ensures Still(Halted(s, data), Orderly)
  {
    hide Local, Dispatch;
    var w := Halted(s, data);
    forall atA, ev | Orderly(ev) ensures Step(w, atA, ev) == w {
      if !ev.EvReceive? {
        HaltedOpener(w.a, ev);
        HaltedAcceptor(w.b, ev);
      }
    }
  }

  lemma HaltedOpener(e: Endpoint, ev: Event)
    requires Orderly(ev) && !ev.EvReceive? && Memory(e) && e.remoteWindow == 0
    requires e.istate == InOpen && e.ostate == OutClosed && e.input == [] && e.output == [] && e.extended == []
    requires e.localConsumed == 0
    ensures Local(e, ev) == e
  {
    hide HandleRfd, Memory;
    if Progress(ev) {
      IdleSide(e, ev);
    } else if ev.EvRead? {
      RfdIdle(e, ev.r);
    }
  }

  lemma HaltedAcceptor(e: Endpoint, ev: Event)
    requires Orderly(ev) && !ev.EvReceive? && Memory(e) && e.eofSent
    requires e.istate == InClosed && e.ostate == OutOpen && e.input == [] && e.output == [] && e.extended == []
    requires e.localConsumed == 0
    ensures Local(e, ev) == e
  {
    hide HandleWfd, HandleEfdWrite, CheckWindow, PollInput, PollExtended, HandleRfd, Memory;
    match ev
    case EvRead(res) => RfdIdle(e, res);
    case EvWrite(w) => WfdIdle(e, w);
    case EvErrWrite(w) => EfdWriteIdle(e, w);
    case EvCheckWindow => CheckIdle(e);
    case EvPollInput => PollIdle(e);
    case EvPollExtended => PollExtendedIdle(e);
    case _ =>
  }
}
