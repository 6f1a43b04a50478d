/**
 The channel as the program keeps it: one mutable object whose handlers update its fields,
 buffers and outgoing packets in place.  Each handler changes only the fields it names,
 and changes them to what the corresponding function in `ChannelModel` gives for the old value.
 */
module ChannelObject {
  import opened Bytes
  import opened ChannelModel

  /** The bits of `flags` that the closing handshake uses. */
  datatype Flags = Flags(eofSent: bool, eofRcvd: bool, closeSent: bool, closeRcvd: bool)

  /** What is outside the channel: packets on their way, bytes that crossed the descriptors, what went wrong. */
  datatype World = World(
    link: seq<Msg>, taken: seq<Byte>, given: seq<Byte>, errTaken: seq<Byte>, errGiven: seq<Byte>,
    writeFailed: bool, errLost: bool, dropped: nat, refused: nat, fault: Fault)

  function FlagsOf(e: Endpoint): Flags { Flags(e.eofSent, e.eofRcvd, e.closeSent, e.closeRcvd) }

  function WorldOf(e: Endpoint): World {
    World(e.link, e.taken, e.given, e.errTaken, e.errGiven, e.writeFailed, e.errLost, e.dropped, e.refused, e.fault)
  }

  /** What a received CLOSE changes, part by part. */
  lemma OcloseParts(e: Endpoint)
    ensures var t, larval, drains := RcvdOclose(e), e.ctype == Larval, e.ctype != Larval && e.istate == InDrain;
            && t.istate == InClosed
            && t.ostate == (if larval then OutClosed else if e.ostate == OutOpen then OutDrain else e.ostate)
            && t.efdOpen == (e.efdOpen && (larval || e.istate == InClosed || e.extUsage == ExtWrite))
            && FlagsOf(t) == FlagsOf(e).(closeRcvd := true, eofSent := e.eofSent || drains)
            && WorldOf(t) == WorldOf(e).(link := if drains then e.link + [Eof] else e.link)
  {
  }

  class Channel {
    var ctype: ChanType
    const session: bool
    const forceDrain: bool
    var istate: IState
    var ostate: OState
    var flags: Flags
    var efdOpen: bool
    var extUsage: ExtUsage
    var remoteWindow: U32
    var remoteMaxpacket: U32
    var localWindow: U32
    var localExceeded: U32
    var localWindowMax: U32
    var localConsumed: U32
    const localMaxpacket: U32
    var input: seq<Byte>
    var output: seq<Byte>
    var extended: seq<Byte>
    var world: World

    function View(): Endpoint
      reads this
    {
      Endpoint(ctype, session, forceDrain, istate, ostate, flags.eofSent, flags.eofRcvd, flags.closeSent,
               flags.closeRcvd, efdOpen, extUsage, remoteWindow, remoteMaxpacket, localWindow, localExceeded,
               localWindowMax, localConsumed, localMaxpacket, input, output, extended, world.link,
               world.taken, world.given, world.errTaken, world.errGiven, world.writeFailed, world.errLost,
               world.dropped, world.refused, world.fault)
    }

    predicate EfdInputActive()
      reads `extUsage, `efdOpen, `extended
    {
      extUsage == ExtRead && (efdOpen || |extended| > 0)
    }

    predicate EfdOutputActive()
      reads `extUsage, `efdOpen, `flags, `extended
    {
      extUsage == ExtWrite && efdOpen && (!(flags.eofRcvd || flags.closeRcvd) || |extended| > 0)
    }

    /** channel_new: empty buffers, both halves open, the whole window unused. */
    constructor (t: ChanType, session: bool, forceDrain: bool, window: U32, maxpack: U32,
                 usage: ExtUsage, efd: bool)
      ensures View() == Endpoint(t, session, forceDrain, InOpen, OutOpen, false, false, false, false, efd, usage,
                                 0, 0, window, 0, window, 0, maxpack, [], [], [], [], [], [], [], [], false, false, 0, 0, NoFault)
    {
      this.ctype, this.session, this.forceDrain := t, session, forceDrain;
      istate, ostate, flags := InOpen, OutOpen, Flags(false, false, false, false);
      extUsage, efdOpen := usage, efd;
      localWindow, localWindowMax, localMaxpacket := window, window, maxpack;
      remoteWindow, remoteMaxpacket, localConsumed, localExceeded := 0, 0, 0, 0;
      input, output, extended := [], [], [];
      world := World([], [], [], [], [], false, false, 0, 0, NoFault);
    }

    // ---------- nchan.c ----------

    method ChanReadFailed()
      modifies `istate
      ensures var t := ReadFailed(old(View()));
              && istate == t.istate
    {
      match istate
      case InOpen => istate := InDrain;
      case _ =>
    }

    method ChanIbufEmpty()
      modifies `istate, `flags, `world
      ensures var t := IbufEmpty(old(View()));
              && istate == t.istate && flags == FlagsOf(t) && world == WorldOf(t)
    {
      if |input| > 0 { return; }
      match istate
      case InDrain =>
        if !flags.closeSent {
          world := world.(link := world.link + [Eof]);
          flags := flags.(eofSent := true);
        }
        istate := InClosed;
      case _ =>
    }

    method ChanObufEmpty()
      modifies `ostate, `output
      ensures var t := ObufEmpty(old(View()));
              && ostate == t.ostate && output == t.output
    {
      if |output| > 0 { return; }
      match ostate
      case OutDrain =>
        output := [];
        ostate := OutClosed;
      case _ =>
    }

    method ChanWriteFailed()
      modifies `output, `ostate, `world
      ensures var t := WriteFailed(old(View()));
              && output == t.output && ostate == t.ostate && world == WorldOf(t)
    {
      match ostate
      case OutClosed =>
      case _ =>
        world := world.(writeFailed := true, dropped := world.dropped + |output|);
        output := [];
        if session { world := world.(link := world.link + [Eow]); }
        ostate := OutClosed;
    }

    method ChanRcvdIeof()
      modifies `flags, `ostate, `output
      ensures var t := RcvdIeof(old(View()));
              && flags == FlagsOf(t) && ostate == t.ostate && output == t.output
    {
      flags := flags.(eofRcvd := true);
      if ostate == OutOpen { ostate := OutDrain; }
      if ostate == OutDrain && |output| == 0 && !EfdOutputActive() { ChanObufEmpty(); }
    }

    method ChanShutdownExtendedRead()
      modifies `efdOpen
      ensures efdOpen == (old(efdOpen) && (ctype == Larval || extUsage == ExtWrite))
    {
      if ctype == Larval || !efdOpen { return; }
      if extUsage != ExtRead && extUsage != ExtIgnore { return; }
      efdOpen := false;
    }

    /** The second half of chan_rcvd_oclose: the input ends, with an EOF if it was still draining. */
    method EndInput()
      modifies `flags, `istate, `efdOpen, `world
      ensures istate == InClosed
      ensures efdOpen == (old(efdOpen) && (old(istate) == InClosed || ctype == Larval || extUsage == ExtWrite))
      ensures flags == if old(istate) == InDrain then old(flags).(eofSent := true) else old(flags)
      ensures world == if old(istate) == InDrain then old(world).(link := old(world).link + [Eof]) else old(world)
    {
      match istate {
        case InOpen =>
          ChanShutdownExtendedRead();
          istate := InClosed;
        case InDrain =>
          world := world.(link := world.link + [Eof]);
          flags := flags.(eofSent := true);
          ChanShutdownExtendedRead();
          istate := InClosed;
        case InClosed =>
      }
    }

    method ChanRcvdOclose()
      modifies `flags, `istate, `ostate, `efdOpen, `world
      ensures var t := RcvdOclose(old(View()));
              && flags == FlagsOf(t) && istate == t.istate && ostate == t.ostate && efdOpen == t.efdOpen
              && world == WorldOf(t)
    {
      hide RcvdOclose;
      OcloseParts(View());
      assert FlagsOf(View()) == flags && WorldOf(View()) == world;
      hide FlagsOf, WorldOf;
      flags := flags.(closeRcvd := true);
      if ctype == Larval {
        ostate := OutClosed;
        istate := InClosed;
        return;
      }
      if ostate == OutOpen { ostate := OutDrain; }
      EndInput();
    }

    method ChanRcvdEow()
      modifies `istate
      ensures var t := RcvdEow(old(View()));
              && istate == t.istate
    {
      if istate == InOpen { istate := InClosed; }
    }

    // ---------- channels.c: descriptors ----------

    method ChannelHandleRfd(r: ReadResult)
      modifies `istate, `input, `world
      ensures var t := HandleRfd(old(View()), r);
              && istate == t.istate && input == t.input && world == WorldOf(t)
    {
      if ctype != Open || istate != InOpen { return; }
      var avail := CHAN_INPUT_MAX - |input|;
      if avail <= 0 { return; }
      var maxlen := CHANNEL_MAX_READ;
      var have := |input|;
      if have >= remoteWindow { return; }
      if maxlen > remoteWindow - have { maxlen := remoteWindow - have; }
      if maxlen > avail { maxlen := avail; }
      match r
      case ReadAgain =>
      case ReadFail => ChanReadFailed();
      case Got(data) =>
        if data == [] {
          ChanReadFailed();
        } else {
          var nr := Min(maxlen, |data|);
          input := input + data[..nr];
          world := world.(taken := world.taken + data[..nr]);
        }
    }

    method ChannelHandleWfd(w: WriteResult)
      modifies `output, `ostate, `world, `localConsumed
      ensures var t := HandleWfd(old(View()), w);
              && output == t.output && ostate == t.ostate && world == WorldOf(t)
              && localConsumed == t.localConsumed
    {
      if ctype != Open || ostate == OutClosed || |output| == 0 { return; }
      var olen := |output|;
      match w
      case WriteAgain =>
      case WriteFail => ChanWriteFailed();
      case Took(count) =>
        if count <= 0 {
          ChanWriteFailed();
        } else {
          var len := Min(count, olen);
          world := world.(given := world.given + output[..len]);
          output := output[len..];
          localConsumed := Add32(localConsumed, (olen - |output|) % TWO32);
        }
    }

    method ChannelHandleEfdWrite(w: WriteResult)
      modifies `efdOpen, `world, `extended, `localConsumed
      ensures var t := HandleEfdWrite(old(View()), w);
              && efdOpen == t.efdOpen && world == WorldOf(t) && extended == t.extended
              && localConsumed == t.localConsumed
    {
      if ctype != Open || extUsage != ExtWrite || !efdOpen || |extended| == 0 { return; }
      if istate == InClosed && ostate == OutClosed { return; }
      match w
      case WriteAgain =>
      case WriteFail =>
        efdOpen := false;
        world := world.(errLost := true);
      case Took(count) =>
        if count <= 0 {
          efdOpen := false;
          world := world.(errLost := true);
        } else {
          var len := Min(count, |extended|);
          world := world.(errGiven := world.errGiven + extended[..len]);
          extended := extended[len..];
          localConsumed := Add32(localConsumed, len % TWO32);
        }
    }

    method ChannelHandleEfdRead(r: ReadResult)
      modifies `efdOpen, `extended, `world
      ensures var t := HandleEfdRead(old(View()), r);
              && efdOpen == t.efdOpen && extended == t.extended && world == WorldOf(t)
    {
      if ctype != Open || extUsage == ExtWrite || !efdOpen || flags.eofSent { return; }
      if istate == InClosed && ostate == OutClosed { return; }
      if remoteWindow <= |extended| { return; }
      match r
      case ReadAgain =>
      case ReadFail => efdOpen := false;
      case Got(data) =>
        if data == [] {
          efdOpen := false;
        } else if extUsage != ExtIgnore {
          var len := Min(CHAN_RBUF, |data|);
          extended := extended + data[..len];
          world := world.(errTaken := world.errTaken + data[..len]);
        }
    }

    method ChannelCheckWindow()
      modifies `world, `localWindow, `localConsumed
      ensures var t := CheckWindow(old(View()));
              && world == WorldOf(t) && localWindow == t.localWindow && localConsumed == t.localConsumed
    {
      if ctype == Open && !(flags.closeSent || flags.closeRcvd)
         && (Sub32(localWindowMax, localWindow) > Mul32(localMaxpacket, 3)
             || localWindow < localWindowMax / 2)
         && localConsumed > 0 {
        world := world.(link := world.link + [Adjust(localConsumed)]);
        localWindow := Add32(localWindow, localConsumed);
        localConsumed := 0;
      }
    }

    method ChannelPreOpen()
      modifies `ostate, `output
      ensures var t := PreOpen(old(View()));
              && ostate == t.ostate && output == t.output
    {
      if ctype != Open { return; }
      if ostate == OutOpen || ostate == OutDrain {
        if |output| > 0 {
        } else if ostate == OutDrain {
          if !EfdOutputActive() { ChanObufEmpty(); }
        }
      }
    }

    // ---------- channels.c: packets to the peer ----------

    method ChannelOutputPollInputOpen()
      modifies `istate, `flags, `world, `input, `remoteWindow
      ensures var t := PollInput(old(View()));
              && istate == t.istate && flags == FlagsOf(t) && world == WorldOf(t) && input == t.input
              && remoteWindow == t.remoteWindow
    {
      if ctype != Open || flags.closeSent || flags.closeRcvd || istate == InClosed { return; }
      var len := |input|;
      if len == 0 {
        if istate == InDrain && !EfdInputActive() { ChanIbufEmpty(); }
        return;
      }
      if len > remoteWindow { len := remoteWindow; }
      if len > remoteMaxpacket { len := remoteMaxpacket; }
      if len == 0 { return; }
      world := world.(link := world.link + [Data(input[..len])]);
      input := input[len..];
      remoteWindow := Sub32(remoteWindow, len);
    }

    method ChannelOutputPollExtendedRead()
      modifies `world, `extended, `remoteWindow
      ensures var t := PollExtended(old(View()));
              && world == WorldOf(t) && extended == t.extended && remoteWindow == t.remoteWindow
    {
      if ctype != Open || flags.closeSent || flags.closeRcvd || flags.eofSent || extUsage != ExtRead { return; }
      var len := |extended|;
      if len > remoteWindow { len := remoteWindow; }
      if len > remoteMaxpacket { len := remoteMaxpacket; }
      if len == 0 { return; }
      world := world.(link := world.link + [ExtData(extended[..len])]);
      extended := extended[len..];
      remoteWindow := Sub32(remoteWindow, len);
    }

    method ChannelSetFds(efd: bool, usage: ExtUsage, windowMax: U32)
      requires ctype == Larval
      modifies `extUsage, `efdOpen, `ctype, `localWindow, `localWindowMax, `world
      ensures var t := Activate(old(View()), windowMax, usage, efd);
              && extUsage == t.extUsage && efdOpen == t.efdOpen && ctype == t.ctype
              && localWindow == t.localWindow && localWindowMax == t.localWindowMax && world == WorldOf(t)
    {
      extUsage := usage;
      efdOpen := efd;
      ctype := Open;
      localWindow := windowMax;
      localWindowMax := windowMax;
      world := world.(link := world.link + [Adjust(localWindow)]);
    }

    method ChannelGarbageCollect()
      modifies `ctype, `flags, `world
      ensures var t := Collect(old(View()));
              && ctype == t.ctype && flags == FlagsOf(t) && world == WorldOf(t)
    {
      if ctype == Freed || istate != InClosed || ostate != OutClosed { return; }
      if !flags.closeSent {
        world := world.(link := world.link + [Close]);
        flags := flags.(closeSent := true);
      }
      if flags.closeSent && flags.closeRcvd { ctype := Freed; }
    }

    // ---------- channels.c: packets from the peer ----------

    method ChannelInputData(data: seq<Byte>)
      modifies `localWindow, `localConsumed, `localExceeded, `world, `output
      ensures var t := InputData(old(View()), data);
              && localWindow == t.localWindow && localConsumed == t.localConsumed
              && localExceeded == t.localExceeded && world == WorldOf(t) && output == t.output
    {
      hide Add32;
      if ctype != Open { return; }
      var winLen := |data|;
      if ostate != OutOpen {
        if winLen > localWindow { localWindow := 0; } else { localWindow := localWindow - winLen; }
        localConsumed := Add32(localConsumed, winLen % TWO32);
        return;
      }
      if winLen > localMaxpacket { return; }
      if winLen > localWindow {
        localExceeded := Add32(localExceeded, (winLen - localWindow) % TWO32);
        localWindow := 0;
        if localExceeded > localWindowMax / 10 {
          world := world.(fault := PeerIgnoredWindow);
          return;
        }
      } else {
        localWindow := localWindow - winLen;
        localExceeded := 0;
      }
      output := output + data;
    }

    method ChannelInputExtendedData(data: seq<Byte>)
      modifies `world, `extended, `localWindow
      ensures var t := InputExtendedData(old(View()), data);
              && world == WorldOf(t) && extended == t.extended && localWindow == t.localWindow
    {
      if ctype != Open { return; }
      if flags.eofRcvd {
        world := world.(fault := ExtendedAfterEof);
        return;
      }
      if !efdOpen || extUsage != ExtWrite || |data| > localWindow {
        world := world.(errLost := true, refused := world.refused + |data|);
        return;
      }
      extended := extended + data;
      localWindow := localWindow - |data|;
    }

    method ChannelInputIeof()
      modifies `flags, `ostate, `output, `istate, `world
      ensures var t := InputIeof(old(View()));
              && flags == FlagsOf(t) && ostate == t.ostate && output == t.output && istate == t.istate
              && world == WorldOf(t)
    {
      ChanRcvdIeof();
      if forceDrain && istate == InOpen {
        istate := InDrain;
        if |input| == 0 { ChanIbufEmpty(); }
      }
    }

    method ChannelInputOpenConfirmation(window: U32, maxpacket: U32)
      modifies `world, `remoteWindow, `remoteMaxpacket, `ctype
      ensures var t := InputOpenConfirmation(old(View()), window, maxpacket);
              && world == WorldOf(t) && remoteWindow == t.remoteWindow && remoteMaxpacket == t.remoteMaxpacket
              && ctype == t.ctype
    {
      if ctype != Opening {
        world := world.(fault := NotOpening);
        return;
      }
      remoteWindow := window;
      remoteMaxpacket := maxpacket;
      ctype := Open;
    }

    method ChannelInputWindowAdjust(adjust: U32)
      modifies `world, `remoteWindow
      ensures var t := InputWindowAdjust(old(View()), adjust);
              && world == WorldOf(t) && remoteWindow == t.remoteWindow
    {
      if ctype == Freed { return; }
      var newRwin := Add32(remoteWindow, adjust);
      if newRwin < remoteWindow {
        world := world.(fault := AdjustOverflows);
        return;
      }
      remoteWindow := newRwin;
    }
  }
}
