/** Two channel objects run by any schedule: the whole-run theorems, said of the objects' own fields. */
module ChannelRun {
  import opened Bytes
  import opened ChannelModel
  import opened ChannelProtocol
  import opened ChannelTheorems
  import opened ChannelObject

  // ---------- each handler takes the object to the value of its function ----------

  method Read(c: Channel, r: ReadResult)
    modifies c
    ensures c.View() == HandleRfd(old(c.View()), r)
  {
    c.ChannelHandleRfd(r);
  }

  method Write(c: Channel, w: WriteResult)
    modifies c
    ensures c.View() == HandleWfd(old(c.View()), w)
  {
    c.ChannelHandleWfd(w);
  }

  method ErrWrite(c: Channel, w: WriteResult)
    modifies c
    ensures c.View() == HandleEfdWrite(old(c.View()), w)
  {
    hide Add32, Min, HandleEfdWrite;
    ErrWriteFrame(c.View(), w);
    c.ChannelHandleEfdWrite(w);
  }

  lemma ErrWriteFrame(e: Endpoint, w: WriteResult)
    ensures var t := HandleEfdWrite(e, w);
            t == e.(errGiven := t.errGiven, extended := t.extended, localConsumed := t.localConsumed,
                    efdOpen := t.efdOpen, errLost := t.errLost)
  {
    hide Add32, Min;
  }

  method ErrRead(c: Channel, r: ReadResult)
    modifies c
    ensures c.View() == HandleEfdRead(old(c.View()), r)
  {
    c.ChannelHandleEfdRead(r);
  }

  method Check(c: Channel)
    modifies c
    ensures c.View() == CheckWindow(old(c.View()))
  {
    c.ChannelCheckWindow();
  }

  method Finish(c: Channel)
    modifies c
    ensures c.View() == PreOpen(old(c.View()))
  {
    c.ChannelPreOpen();
  }

  method SendInput(c: Channel)
    modifies c
    ensures c.View() == PollInput(old(c.View()))
  {
    c.ChannelOutputPollInputOpen();
  }

  method SendExtended(c: Channel)
    modifies c
    ensures c.View() == PollExtended(old(c.View()))
  {
    c.ChannelOutputPollExtendedRead();
  }

  method GarbageCollect(c: Channel)
    modifies c
    ensures c.View() == Collect(old(c.View()))
  {
    c.ChannelGarbageCollect();
  }

  method TakeConfirm(c: Channel, window: U32, maxpacket: U32)
    modifies c
    ensures c.View() == InputOpenConfirmation(old(c.View()), window, maxpacket)
  {
    c.ChannelInputOpenConfirmation(window, maxpacket);
  }

  method TakeData(c: Channel, data: seq<Byte>)
    modifies c
    ensures c.View() == InputData(old(c.View()), data)
  {
    c.ChannelInputData(data);
  }

  method TakeExtended(c: Channel, data: seq<Byte>)
    modifies c
    ensures c.View() == InputExtendedData(old(c.View()), data)
  {
    c.ChannelInputExtendedData(data);
  }

  method TakeAdjust(c: Channel, amount: U32)
    modifies c
    ensures c.View() == InputWindowAdjust(old(c.View()), amount)
  {
    c.ChannelInputWindowAdjust(amount);
  }

  method TakeEof(c: Channel)
    modifies c
    ensures c.View() == InputIeof(old(c.View()))
  {
    c.ChannelInputIeof();
  }

  method TakeEow(c: Channel)
    modifies c
    ensures c.View() == RcvdEow(old(c.View()))
  {
    c.ChanRcvdEow();
  }

  method TakeClose(c: Channel)
    modifies c
    ensures c.View() == RcvdOclose(old(c.View()))
  {
    c.ChanRcvdOclose();
  }

  method SetFds(c: Channel, windowMax: U32, usage: ExtUsage, efd: bool)
    modifies c
    ensures c.View() == Activate(old(c.View()), windowMax, usage, efd)
  {
    if c.ctype == Larval {
      c.ChannelSetFds(efd, usage, windowMax);
    }
  }

  // ---------- steps of one object, of two, and whole runs ----------

  method LocalStep(c: Channel, ev: Event)
    requires !ev.EvReceive?
    modifies c
    ensures c.View() == Local(old(c.View()), ev)
  {
    hide HandleRfd, HandleWfd, HandleEfdWrite, HandleEfdRead, CheckWindow, PreOpen, PollInput, PollExtended, Activate,
         Collect;
    match ev
    case EvRead(r) => Read(c, r);
    case EvWrite(w) => Write(c, w);
    case EvErrWrite(w) => ErrWrite(c, w);
    case EvErrRead(r) => ErrRead(c, r);
    case EvCheckWindow => Check(c);
    case EvPreOpen => Finish(c);
    case EvPollInput => SendInput(c);
    case EvPollExtended => SendExtended(c);
    case EvActivate(windowMax, usage, efd) =>
      if !c.flags.closeRcvd {
        SetFds(c, windowMax, usage, efd);
      }
    case EvCollect => GarbageCollect(c);
  }

  /** A packet for a channel that is gone ends the connection. */
  method Refuse(c: Channel)
    modifies c
    ensures c.View() == old(c.View()).(fault := NoSuchChannel)
  {
    c.world := c.world.(fault := NoSuchChannel);
  }

  method Deliver(c: Channel, m: Msg)
    modifies c
    ensures c.View() == Dispatch(old(c.View()), m)
  {
    hide InputOpenConfirmation, InputData, InputExtendedData, InputWindowAdjust, InputIeof, RcvdEow, RcvdOclose;
    if c.ctype == Freed && !m.Adjust? {
      Refuse(c);
    } else {
      match m
      case Confirm(window, maxpacket) => TakeConfirm(c, window, maxpacket);
      case Data(data) => TakeData(c, data);
      case ExtData(data) => TakeExtended(c, data);
      case Adjust(amount) => TakeAdjust(c, amount);
      case Eof => TakeEof(c);
      case Eow => TakeEow(c);
      case Close => TakeClose(c);
    }
  }

  /** The packet at the head of the link leaves it. */
  method Unlink(c: Channel) returns (m: Msg)
    requires c.world.link != []
    modifies c
    ensures m == old(c.View()).link[0] && c.View() == old(c.View()).(link := old(c.View()).link[1..])
  {
    m := c.world.link[0];
    c.world := c.world.(link := c.world.link[1..]);
  }

  method OneStep(a: Channel, b: Channel, ev: Event)
    requires a != b
    modifies a, b
    ensures Sys(a.View(), b.View()) == StepA(Sys(old(a.View()), old(b.View())), ev)
  {
    hide Local, Dispatch;
    if ev.EvReceive? {
      if b.world.link != [] {
        var m := Unlink(b);
        Deliver(a, m);
      }
    } else {
      LocalStep(a, ev);
    }
  }

  method TakeStep(a: Channel, b: Channel, atA: bool, ev: Event)
    requires a != b
    modifies a, b
    ensures Sys(a.View(), b.View()) == Step(Sys(old(a.View()), old(b.View())), atA, ev)
  {
    hide StepA;
    if a.world.fault == NoFault && b.world.fault == NoFault {
      if atA {
        OneStep(a, b, ev);
      } else {
        OneStep(b, a, ev);
      }
    }
  }

  /** What the theorems say of a receiver r and the bytes that the sender s took in, on the objects themselves. */
  ghost predicate Kept(s: Channel, r: Channel)
    reads s, r
  {
    var held := if r.extUsage == ExtWrite then |r.extended| else 0;
    && r.world.fault == NoFault
    && s.remoteWindow + DataLen(s.world.link) + Credits(r.world.link) + r.world.refused == r.localWindow
    && r.localWindow + r.localConsumed + |r.output| + held + r.world.dropped == r.localWindowMax
    && (r.world.refused > 0 ==> r.world.errLost) && (r.world.dropped > 0 ==> r.world.writeFailed)
    && r.world.given <= s.world.taken
    && (!r.world.writeFailed ==> s.world.taken == r.world.given + r.output + DataOf(s.world.link) + s.input)
    && (r.ostate == OutClosed && !r.world.writeFailed ==> r.world.given == s.world.taken)
  }

  /** Any schedule, on two objects joined by their links. */
  method Run(a: Channel, b: Channel, schedule: seq<(bool, Event)>)
    requires a != b && Start(Sys(a.View(), b.View()))
    modifies a, b
    ensures Sys(a.View(), b.View()) == Exec(Sys(old(a.View()), old(b.View())), schedule)
    ensures Kept(a, b) && Kept(b, a)
  {
    hide Start, Step, Kept;
    ghost var start := Sys(a.View(), b.View());
    for k := 0 to |schedule|
      invariant Sys(a.View(), b.View()) == Exec(start, schedule[..k])
    {
      TakeStep(a, b, schedule[k].0, schedule[k].1);
      assert schedule[..k + 1][..k] == schedule[..k];
    }
    assert schedule[..|schedule|] == schedule;
    KeptBy(start, schedule, a, b, false);
    KeptBy(start, schedule, b, a, true);
  }

  lemma KeptBy(start: Sys, schedule: seq<(bool, Event)>, s: Channel, r: Channel, fromB: bool)
    requires Start(start) && Reached(start, schedule, fromB) == Sys(s.View(), r.View())
    ensures Kept(s, r)
  {
    hide Reached, Start;
    WindowSafety(start, schedule, fromB);
    MemoryBound(start, schedule, fromB);
    StreamIntegrity(start, schedule, fromB);
    GracefulClose(start, schedule, fromB);
  }
}
