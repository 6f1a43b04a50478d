/** Receivers whose window is too small from the start: they carry no more than a window's worth in all. */
module ChannelStalls {
  import opened Bytes
  import opened ChannelModel
  import opened ChannelProtocol
  import opened ChannelSteps
  import opened ChannelReceive
  import opened ChannelTheorems
  import opened ChannelLiveness

  /** A window of at least two bytes and packets that are not empty.  Such a receiver keeps carrying as long as less
      than half of its window has leaked; see `ChannelLiveness.NoDeadlock`. */
  predicate Carries(r: Endpoint) { 2 <= r.localWindowMax && 1 <= r.localMaxpacket }

  /** What has come out, as long as the receiver does not carry. */
  predicate Capped(e: Endpoint) {
    && (e.ctype == Larval ==> e.given == [] && e.errGiven == [])
    && (1 <= e.localMaxpacket && e.localWindowMax <= 1 ==> |e.given| + |e.errGiven| <= e.localConsumed)
    && (e.localMaxpacket == 0 ==> e.given == [] && e.errGiven == [] && e.output == [] && HeldErr(e) == [])
  }

  // ---------- local steps ----------

  lemma WriteCapped(e: Endpoint, w: WriteResult)
    requires Memory(e) && Capped(e)
    ensures Capped(HandleWfd(e, w))
  {
    hide Add32;
    var n := if w.Took? then Min(w.count, |e.output|) else 0;
    NoWrap(e.localConsumed, n);
  }

  lemma ErrWriteCapped(e: Endpoint, w: WriteResult)
    requires Memory(e) && Capped(e)
    ensures Capped(HandleEfdWrite(e, w))
  {
    hide Add32;
    var n := if w.Took? && e.extUsage == ExtWrite then Min(w.count, |e.extended|) else 0;
    NoWrap(e.localConsumed, n);
  }

  lemma CheckCapped(e: Endpoint)
    requires Memory(e) && Capped(e)
    ensures Capped(CheckWindow(e))
  {
    TripleIsZero(e.localMaxpacket);
    NeverGrants(e);
  }

  /** A window of at most one byte is never granted again. */
  lemma NeverGrants(e: Endpoint)
    requires Memory(e)
    ensures 1 <= e.localMaxpacket && e.localWindowMax <= 1 ==> CheckWindow(e) == e
  {
    hide Mul32;
    TripleIsZero(e.localMaxpacket);
  }

  lemma OtherCapped(e: Endpoint, ev: Event)
    requires Sound(e) && Capped(e) && !ev.EvReceive?
    requires !ev.EvWrite? && !ev.EvErrWrite? && !ev.EvCheckWindow?
    ensures Capped(Local(e, ev))
  {
    hide Sub32;
    match ev
    case EvRead(_) =>
    case EvErrRead(_) =>
    case EvPreOpen =>
    case EvPollInput =>
    case EvPollExtended =>
    case EvActivate(_, _, _) =>
    case EvCollect =>
  }

  lemma LocalCapped(e: Endpoint, ev: Event)
    requires Sound(e) && Memory(e) && Capped(e) && !ev.EvReceive?
    ensures Capped(Local(e, ev))
  {
    hide Sound, Memory, Capped;
    if ev.EvWrite? {
      WriteCapped(e, ev.w);
    } else if ev.EvErrWrite? {
      ErrWriteCapped(e, ev.w);
    } else if ev.EvCheckWindow? {
      CheckCapped(e);
    } else {
      OtherCapped(e, ev);
    }
  }

  // ---------- packets ----------

  lemma DataCapped(e: Endpoint, data: seq<Byte>)
    requires Capped(e) && Memory(e) && 0 < |data| <= e.localMaxpacket && |data| <= e.localWindow
    ensures Capped(InputData(e, data))
  {
    hide Add32;
    NoWrap(e.localConsumed, |data|);
  }

  lemma ConfirmCapped(e: Endpoint, window: U32, maxpacket: U32)
    requires Capped(e)
    ensures Capped(InputOpenConfirmation(e, window, maxpacket))
  {
  }

  lemma ExtDataCapped(e: Endpoint, data: seq<Byte>)
    requires Capped(e) && 0 < |data| <= e.localMaxpacket
    ensures Capped(InputExtendedData(e, data))
  {
  }

  lemma AdjustCapped(e: Endpoint, amount: U32)
    requires Capped(e)
    ensures Capped(InputWindowAdjust(e, amount))
  {
  }

  lemma EofCapped(e: Endpoint)
    requires Capped(e)
    ensures Capped(InputIeof(e))
  {
  }

  lemma EowCapped(e: Endpoint)
    requires Capped(e)
    ensures Capped(RcvdEow(e))
  {
  }

  lemma CloseCapped(e: Endpoint)
    requires Capped(e)
    ensures Capped(RcvdOclose(e))
  {
  }

  lemma SignalCapped(e: Endpoint, m: Msg)
    requires Capped(e) && !m.Data?
    requires m.ExtData? ==> 0 < |m.data| <= e.localMaxpacket
    ensures Capped(Dispatch(e, m))
  {
    hide Capped, InputOpenConfirmation, InputData, InputExtendedData, InputWindowAdjust, InputIeof, RcvdEow, RcvdOclose;
    SameCapped(e, e.(fault := NoSuchChannel));
    match m
    case Confirm(window, maxpacket) => ConfirmCapped(e, window, maxpacket);
    case ExtData(data) => ExtDataCapped(e, data);
    case Adjust(amount) => AdjustCapped(e, amount);
    case Eof => EofCapped(e);
    case Eow => EowCapped(e);
    case Close => CloseCapped(e);
    case _ =>
  }

  lemma DispatchCapped(e: Endpoint, m: Msg)
    requires Capped(e) && Memory(e)
    requires m.Data? || m.ExtData? ==> 0 < |m.data| <= e.localMaxpacket && |m.data| <= e.localWindow
    ensures Capped(Dispatch(e, m))
  {
    hide Capped, Memory, InputData;
    if !m.Data? {
      SignalCapped(e, m);
    } else if e.ctype == Freed {
      SameCapped(e, e.(fault := NoSuchChannel));
    } else {
      DataCapped(e, m.data);
    }
  }

  lemma HeadFits(s: Endpoint, r: Endpoint, m: Msg)
    requires Inv(Sys(s, r)) && r.link != [] && m == r.link[0]
    ensures m.Data? || m.ExtData? ==> 0 < |m.data| <= s.localMaxpacket && |m.data| <= s.localWindow
  {
    assert m in r.link;
  }

  lemma StepCapped(s: Sys, atA: bool, ev: Event)
    requires Inv(s) && Capped(s.a) && Capped(s.b)
    ensures Capped(Step(s, atA, ev).a) && Capped(Step(s, atA, ev).b)
  {
    hide Capped, Talk, Credit, Flow, Local, Dispatch;
    var p := if atA then s else Swap(s);
    assert Inv(p);
    if ev.EvReceive? {
      if p.b.link != [] {
        var m, q := p.b.link[0], p.b.(link := p.b.link[1..]);
        HeadFits(p.a, p.b, m);
        DispatchCapped(p.a, m);
        assert q == p.b.(link := q.link, fault := q.fault);
        SameCapped(p.b, q);
      }
    } else {
      LocalCapped(p.a, ev);
    }
  }

  lemma SameCapped(r: Endpoint, q: Endpoint)
    requires q == r.(link := q.link, fault := q.fault) && Capped(r)
    ensures Capped(q)
  {
  }

  lemma {:induction false} AlwaysCapped(start: Sys, schedule: seq<(bool, Event)>)
    requires Start(start)
    ensures Capped(Exec(start, schedule).a) && Capped(Exec(start, schedule).b)
  {
    hide Inv, Step;
    if schedule != [] {
      var k := |schedule| - 1;
      AlwaysCapped(start, schedule[..k]);
      Reachable(start, schedule[..k]);
      StepCapped(Exec(start, schedule[..k]), schedule[k].0, schedule[k].1);
    }
  }

  /** Towards a receiver that does not carry, whatever the schedule, no more than
      its window of at most one byte ever comes out, and nothing at all if packets must be empty. */
  lemma SmallWindowCarriesNoMore(start: Sys, schedule: seq<(bool, Event)>, fromB: bool)
    requires Start(start)
    ensures var b := Reached(start, schedule, fromB).b;
            !Carries(b) ==>
              && |b.given| + |b.errGiven| <= 1
              && |b.given| + |b.errGiven| <= b.localWindowMax
              && (b.localMaxpacket == 0 ==> b.given == [] && b.errGiven == [])
  {
    hide Exec, Start;
    AlwaysCapped(start, schedule);
    MemoryBound(start, schedule, fromB);
  }

  // ---------- such a run ----------

  /** One byte read, sent, received and written, after the confirmation. */
  function OneByte(x: Byte): seq<(bool, Event)> {
    [(true, EvReceive), (true, EvRead(Got([x]))), (true, EvPollInput), (false, EvReceive), (false, EvWrite(Took(1)))]
  }

  /** The states on the way. */
  function Confirmed(s: Sys): Sys {
    Sys(s.a.(ctype := Open, remoteWindow := 1, remoteMaxpacket := s.b.localMaxpacket), s.b.(link := []))
  }

  function Taken(s: Sys, x: Byte): Sys {
    Sys(s.a.(ctype := Open, remoteWindow := 1, remoteMaxpacket := s.b.localMaxpacket, input := [x], taken := [x]),
        s.b.(link := []))
  }

  function Sent(s: Sys, x: Byte): Sys {
    Sys(s.a.(ctype := Open, remoteWindow := 0, remoteMaxpacket := s.b.localMaxpacket, taken := [x], link := [Data([x])]),
        s.b.(link := []))
  }

  function Held(s: Sys, x: Byte): Sys {
    Sys(s.a.(ctype := Open, remoteWindow := 0, remoteMaxpacket := s.b.localMaxpacket, taken := [x]),
        s.b.(link := [], localWindow := 0, output := [x]))
  }

  function Written(s: Sys, x: Byte): Sys {
    Sys(s.a.(ctype := Open, remoteWindow := 0, remoteMaxpacket := s.b.localMaxpacket, taken := [x]),
        s.b.(link := [], localWindow := 0, localConsumed := 1, given := [x]))
  }

  predicate OneByteWindow(s: Sys) {
    Start(s) && s.b.ctype == Open && s.b.localWindow == 1 && 1 <= s.b.localMaxpacket
  }

  /** With a window of one byte, that byte arrives and then nothing moves any more, although the sender is open and
      would take another one if it had any window. */
  lemma OneByteThenStuck(start: Sys, x: Byte)
    requires OneByteWindow(start)
    ensures var s := Exec(start, OneByte(x));
            && s == Written(start, x) && Stuck(s) && s.b.given == [x]
            && s.a.ctype == Open && s.a.istate == InOpen && s.a.remoteWindow == 0
  {
    hide Step, Stuck;
    FiveSteps(start, OneByte(x));
    StepConfirm(start);
    StepTake(start, x);
    StepSend(start, x);
    StepHold(start, x);
    StepWrite(start, x);
    StuckWritten(start, x);
  }

  lemma FiveSteps(s: Sys, q: seq<(bool, Event)>)
    requires |q| == 5
    ensures Exec(s, q) == Step(Step(Step(Step(Step(s, q[0].0, q[0].1), q[1].0, q[1].1), q[2].0, q[2].1),
                                    q[3].0, q[3].1), q[4].0, q[4].1)
  {
    hide Step;
    assert q[..4][..3] == q[..3] && q[..3][..2] == q[..2] && q[..2][..1] == q[..1] && q[..1][..0] == [];
    assert Exec(s, q[..0]) == s;
    assert Exec(s, q[..1]) == Step(s, q[0].0, q[0].1);
    assert Exec(s, q[..2]) == Step(Exec(s, q[..1]), q[1].0, q[1].1);
    assert Exec(s, q[..3]) == Step(Exec(s, q[..2]), q[2].0, q[2].1);
    assert Exec(s, q[..4]) == Step(Exec(s, q[..3]), q[3].0, q[3].1);
  }

  lemma StepConfirm(s: Sys)
    requires OneByteWindow(s)
    ensures Step(s, true, EvReceive) == Confirmed(s)
  {
    assert s.b.link[1..] == [];
  }

  lemma StepTake(s: Sys, x: Byte)
    requires OneByteWindow(s)
    ensures Step(Confirmed(s), true, EvRead(Got([x]))) == Taken(s, x)
  {
    hide HandleRfd;
    RfdTakes(Confirmed(s).a, [x]);
    assert [x][..1] == [x] && [] + [x] == [x];
  }

  lemma StepSend(s: Sys, x: Byte)
    requires OneByteWindow(s)
    ensures Step(Taken(s, x), true, EvPollInput) == Sent(s, x)
  {
    hide PollInput;
    PollSends(Taken(s, x).a, 1);
    assert [x][..1] == [x] && [x][1..] == [] && [] + [Data([x])] == [Data([x])];
  }

  lemma StepHold(s: Sys, x: Byte)
    requires OneByteWindow(s)
    ensures Step(Sent(s, x), false, EvReceive) == Held(s, x)
  {
    assert [Data([x])][1..] == [] && [] + [x] == [x];
    assert Dispatch(Sent(s, x).b, Data([x])) == Held(s, x).b;
  }

  lemma StepWrite(s: Sys, x: Byte)
    requires OneByteWindow(s)
    ensures Step(Held(s, x), false, EvWrite(Took(1))) == Written(s, x)
  {
    hide HandleWfd;
    WfdGives(Held(s, x).b, Took(1));
    assert [x][..1] == [x] && [x][1..] == [] && [] + [x] == [x];
  }

  lemma StuckWritten(s: Sys, x: Byte)
    requires OneByteWindow(s)
    ensures Stuck(Written(s, x))
  {
    hide Local, Dispatch;
    var w := Written(s, x);
    forall atA, ev | Progress(ev) ensures Step(w, atA, ev) == w {
      if !ev.EvReceive? {
        IdleSide(w.a, ev);
        IdleSide(w.b, ev);
      }
    }
  }

  lemma IdleSide(e: Endpoint, ev: Event)
    requires Progress(ev) && !ev.EvReceive? && Memory(e)
    requires e.istate == InOpen && e.input == [] && e.output == [] && e.extended == []
    requires e.localConsumed == 0 || (e.localWindowMax <= 1 && 1 <= e.localMaxpacket)
    ensures Local(e, ev) == e
  {
    hide HandleWfd, HandleEfdWrite, CheckWindow, PollInput, PollExtended, Memory;
    match ev
    case EvWrite(w) => WfdIdle(e, w);
    case EvErrWrite(w) => EfdWriteIdle(e, w);
    case EvCheckWindow => if e.localConsumed == 0 { CheckIdle(e); } else { NeverGrants(e); }
    case EvPollInput => PollIdle(e);
    case EvPollExtended => PollExtendedIdle(e);
    case _ =>
  }

  lemma EfdWriteIdle(e: Endpoint, w: WriteResult)
    requires e.extended == []
    ensures HandleEfdWrite(e, w) == e
  {
  }

  lemma CheckIdle(e: Endpoint)
    requires e.localConsumed == 0
    ensures CheckWindow(e) == e
  {
  }

  lemma PollExtendedIdle(e: Endpoint)
    requires e.extended == []
    ensures PollExtended(e) == e
  {
  }
}
