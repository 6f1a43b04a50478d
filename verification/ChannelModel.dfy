/**
 One end of an SSH channel: its windows, buffers and half-close states, the descriptors
 behind it, and the packets it has queued for the peer.  Every handler is a function from
 endpoint to endpoint; the class in ChannelObject.dfy runs the same handlers in place.
 */
module ChannelModel {
  import opened Bytes

  const CHAN_RBUF := 16 * 1024
  const CHANNEL_MAX_READ := 32 * 1024
  const CHAN_INPUT_MAX := 16 * 1024 * 1024

  datatype ChanType = Opening | Larval | Open | Freed
  datatype IState = InOpen | InDrain | InClosed
  datatype OState = OutOpen | OutDrain | OutClosed
  datatype ExtUsage = ExtIgnore | ExtRead | ExtWrite

  /** Conditions under which the code gives up on the whole connection. */
  datatype Fault = NoFault | PeerIgnoredWindow | AdjustOverflows | ExtendedAfterEof
                 | NotOpening | NoSuchChannel

  datatype Msg =
    | Confirm(window: U32, maxpacket: U32)
    | Data(data: seq<Byte>)
    | ExtData(data: seq<Byte>)
    | Adjust(amount: U32)
    | Eof
    | Eow
    | Close

  /** What a descriptor read or write reported; an empty read is end of file. */
  datatype ReadResult = ReadAgain | ReadFail | Got(data: seq<Byte>)
  datatype WriteResult = WriteAgain | WriteFail | Took(count: nat)

  datatype Endpoint = Endpoint(
    // struct Channel
    ctype: ChanType, session: bool, forceDrain: bool,
    istate: IState, ostate: OState,
    eofSent: bool, eofRcvd: bool, closeSent: bool, closeRcvd: bool,
    efdOpen: bool, extUsage: ExtUsage,
    remoteWindow: U32, remoteMaxpacket: U32,
    localWindow: U32, localExceeded: U32, localWindowMax: U32,
    localConsumed: U32, localMaxpacket: U32,
    input: seq<Byte>, output: seq<Byte>, extended: seq<Byte>,
    // packets sent and not yet received by the peer
    link: seq<Msg>,
    // bytes that have crossed the descriptors so far
    taken: seq<Byte>, given: seq<Byte>, errTaken: seq<Byte>, errGiven: seq<Byte>,
    // what went wrong so far: output thrown away, stderr refused without being charged to the window
    writeFailed: bool, errLost: bool, dropped: nat, refused: nat, fault: Fault)
  {
    predicate Closing() { closeSent || closeRcvd }

    predicate EfdInputActive() { extUsage == ExtRead && (efdOpen || |extended| > 0) }

    predicate EfdOutputActive() {
      extUsage == ExtWrite && efdOpen && (!(eofRcvd || closeRcvd) || |extended| > 0)
    }

    function Send(m: Msg): Endpoint { this.(link := link + [m]) }
  }

  // ---------- state changes of the two halves (nchan.c) ----------

  /** An open input half starts to drain. */
  function ReadFailed(e: Endpoint): Endpoint { e.(istate := if e.istate == InOpen then InDrain else e.istate) }

  /** A drained input half closes, with an EOF unless CLOSE has been sent. */
  function IbufEmpty(e: Endpoint): Endpoint {
    var ends := e.input == [] && e.istate == InDrain;
    var says := ends && !e.closeSent;
    e.(istate := if ends then InClosed else e.istate,
       eofSent := e.eofSent || says,
       link := if says then e.link + [Eof] else e.link)
  }

  /** A drained output half closes. */
  function ObufEmpty(e: Endpoint): Endpoint {
    e.(ostate := if e.output == [] && e.ostate == OutDrain then OutClosed else e.ostate)
  }

  /** The output half closes and drops its buffer; a session tells the peer. */
  function WriteFailed(e: Endpoint): Endpoint {
    var open := e.ostate != OutClosed;
    e.(output := if open then [] else e.output,
       ostate := OutClosed,
       writeFailed := e.writeFailed || open,
       dropped := if open then e.dropped + |e.output| else e.dropped,
       link := if open && e.session then e.link + [Eow] else e.link)
  }

  function RcvdIeof(e: Endpoint): Endpoint {
    e.(eofRcvd := true,
       ostate := if e.ostate == OutClosed || (e.output == [] && !e.(eofRcvd := true).EfdOutputActive())
                 then OutClosed else OutDrain)
  }

  /** A larval channel is torn down at once; otherwise the output drains and the input ends,
      with an EOF if it was still draining. */
  function RcvdOclose(e: Endpoint): Endpoint {
    var larval := e.ctype == Larval;
    var ending := !larval && e.istate != InClosed;
    e.(closeRcvd := true, istate := InClosed,
       ostate := if larval then OutClosed else if e.ostate == OutOpen then OutDrain else e.ostate,
       efdOpen := e.efdOpen && !(ending && e.extUsage != ExtWrite),
       eofSent := e.eofSent || (ending && e.istate == InDrain),
       link := if ending && e.istate == InDrain then e.link + [Eof] else e.link)
  }

  function RcvdEow(e: Endpoint): Endpoint { e.(istate := if e.istate == InOpen then InClosed else e.istate) }

  // ---------- descriptor handlers ----------

  /** Input is read while the peer's window and the buffer have room; end of file starts the draining. */
  function HandleRfd(e: Endpoint, r: ReadResult): Endpoint {
    var ready := e.ctype == Open && e.istate == InOpen && |e.input| < CHAN_INPUT_MAX && |e.input| < e.remoteWindow;
    var ends := ready && (r == ReadFail || r == Got([]));
    var got := if ready && r.Got?
               then r.data[..Min(|r.data|, Min(CHANNEL_MAX_READ, Min(e.remoteWindow, CHAN_INPUT_MAX) - |e.input|))]
               else [];
    e.(istate := if ends then InDrain else e.istate,
       input := if got != [] then e.input + got else e.input,
       taken := if got != [] then e.taken + got else e.taken)
  }

  /** What was written leaves the buffer and counts as consumed. */
  function HandleWfd(e: Endpoint, w: WriteResult): Endpoint {
    var ready := e.ctype == Open && e.ostate != OutClosed && e.output != [];
    var n := if ready && w.Took? then Min(w.count, |e.output|) else 0;
    var fails := ready && n == 0 && w != WriteAgain;
    e.(given := if n > 0 then e.given + e.output[..n] else e.given,
       output := if n > 0 then e.output[n..] else if fails then [] else e.output,
       localConsumed := if n > 0 then Add32(e.localConsumed, n % TWO32) else e.localConsumed,
       ostate := if fails then OutClosed else e.ostate,
       writeFailed := e.writeFailed || fails,
       dropped := if fails then e.dropped + |e.output| else e.dropped,
       link := if fails && e.session then e.link + [Eow] else e.link)
  }

  function HandleEfdWrite(e: Endpoint, w: WriteResult): Endpoint {
    var ready := e.ctype == Open && e.extUsage == ExtWrite && e.efdOpen && e.extended != []
                 && !(e.istate == InClosed && e.ostate == OutClosed);
    var n := if ready && w.Took? then Min(w.count, |e.extended|) else 0;
    var fails := ready && n == 0 && w != WriteAgain;
    e.(errGiven := if n > 0 then e.errGiven + e.extended[..n] else e.errGiven,
       extended := if n > 0 then e.extended[n..] else e.extended,
       localConsumed := if n > 0 then Add32(e.localConsumed, n % TWO32) else e.localConsumed,
       efdOpen := e.efdOpen && !fails,
       errLost := e.errLost || fails)
  }

  function HandleEfdRead(e: Endpoint, r: ReadResult): Endpoint {
    var ready := e.ctype == Open && e.extUsage != ExtWrite && e.efdOpen && !e.eofSent
                 && !(e.istate == InClosed && e.ostate == OutClosed) && |e.extended| < e.remoteWindow;
    var ends := ready && (r == ReadFail || r == Got([]));
    var got := if ready && r.Got? && e.extUsage != ExtIgnore then r.data[..Min(CHAN_RBUF, |r.data|)] else [];
    e.(efdOpen := e.efdOpen && !ends,
       extended := if got != [] then e.extended + got else e.extended,
       errTaken := if got != [] then e.errTaken + got else e.errTaken)
  }

  /** Consumed bytes are granted again once the window is low. */
  function CheckWindow(e: Endpoint): Endpoint {
    var grants := e.ctype == Open && !e.Closing() && 0 < e.localConsumed
                  && (Mul32(e.localMaxpacket, 3) < Sub32(e.localWindowMax, e.localWindow)
                      || e.localWindow < e.localWindowMax / 2);
    e.(link := if grants then e.link + [Adjust(e.localConsumed)] else e.link,
       localWindow := if grants then Add32(e.localWindow, e.localConsumed) else e.localWindow,
       localConsumed := if grants then 0 else e.localConsumed)
  }

  /** The part of channel_pre_open that finishes a drained output half. */
  function PreOpen(e: Endpoint): Endpoint {
    var ends := e.ctype == Open && e.ostate == OutDrain && e.output == [] && !e.EfdOutputActive();
    e.(ostate := if ends then OutClosed else e.ostate)
  }

  // ---------- packets towards the peer ----------

  /** One data packet within window and packet size; after the last of them, EOF. */
  function PollInput(e: Endpoint): Endpoint {
    var ready := e.ctype == Open && !e.Closing() && e.istate != InClosed;
    var ends := ready && e.input == [] && e.istate == InDrain && !e.EfdInputActive();
    var n := if ready then Min(|e.input|, Min(e.remoteWindow, e.remoteMaxpacket)) else 0;
    e.(istate := if ends then InClosed else e.istate,
       eofSent := e.eofSent || ends,
       link := if ends then e.link + [Eof] else if n > 0 then e.link + [Data(e.input[..n])] else e.link,
       input := if n > 0 then e.input[n..] else e.input,
       remoteWindow := if n > 0 then Sub32(e.remoteWindow, n) else e.remoteWindow)
  }

  function PollExtended(e: Endpoint): Endpoint {
    var ready := e.ctype == Open && !e.Closing() && !e.eofSent && e.extUsage == ExtRead;
    var n := if ready then Min(|e.extended|, Min(e.remoteWindow, e.remoteMaxpacket)) else 0;
    e.(link := if n > 0 then e.link + [ExtData(e.extended[..n])] else e.link,
       extended := if n > 0 then e.extended[n..] else e.extended,
       remoteWindow := if n > 0 then Sub32(e.remoteWindow, n) else e.remoteWindow)
  }

  /** channel_set_fds: a larval session gets its descriptors and its real window. */
  function Activate(e: Endpoint, windowMax: U32, usage: ExtUsage, efd: bool): Endpoint {
    var larval := e.ctype == Larval;
    e.(link := if larval then e.link + [Adjust(windowMax)] else e.link,
       ctype := if larval then Open else e.ctype,
       extUsage := if larval then usage else e.extUsage,
       efdOpen := if larval then efd else e.efdOpen,
       localWindow := if larval then windowMax else e.localWindow,
       localWindowMax := if larval then windowMax else e.localWindowMax)
  }

  /** channel_garbage_collect over chan_is_dead: send CLOSE once both halves are closed, then free. */
  function Collect(e: Endpoint): Endpoint {
    var dead := e.ctype != Freed && e.istate == InClosed && e.ostate == OutClosed;
    e.(link := if dead && !e.closeSent then e.link + [Close] else e.link,
       closeSent := e.closeSent || dead,
       ctype := if dead && e.closeRcvd then Freed else e.ctype)
  }

  // ---------- packets from the peer ----------

  /** Data is stored and charged to the window; faked as consumed when there is no output half to take it;
      ignored when larger than a packet may be; and the end of the connection when far beyond the window. */
  function InputData(e: Endpoint, data: seq<Byte>): Endpoint {
    var n := |data|;
    var fakes := e.ctype == Open && e.ostate != OutOpen;
    var takes := e.ctype == Open && e.ostate == OutOpen && n <= e.localMaxpacket;
    var exceeds := takes && n > e.localWindow;
    var exceeded := if exceeds then Add32(e.localExceeded, (n - e.localWindow) % TWO32) else 0;
    var gross := exceeds && exceeded > e.localWindowMax / 10;
    e.(localWindow := if !fakes && !takes then e.localWindow else if n > e.localWindow then 0 else e.localWindow - n,
       localConsumed := if fakes then Add32(e.localConsumed, n % TWO32) else e.localConsumed,
       localExceeded := if takes then exceeded else e.localExceeded,
       output := if takes && !gross then e.output + data else e.output,
       fault := if gross then PeerIgnoredWindow else e.fault)
  }

  function InputExtendedData(e: Endpoint, data: seq<Byte>): Endpoint {
    var open := e.ctype == Open && !e.eofRcvd;
    var takes := open && e.efdOpen && e.extUsage == ExtWrite && |data| <= e.localWindow;
    e.(extended := if takes then e.extended + data else e.extended,
       localWindow := if takes then e.localWindow - |data| else e.localWindow,
       errLost := e.errLost || (open && !takes),
       refused := if open && !takes then e.refused + |data| else e.refused,
       fault := if e.ctype == Open && e.eofRcvd then ExtendedAfterEof else e.fault)
  }

  function InputWindowAdjust(e: Endpoint, amount: U32): Endpoint {
    var w := Add32(e.remoteWindow, amount);
    var wraps := e.ctype != Freed && w < e.remoteWindow;
    e.(remoteWindow := if e.ctype == Freed || wraps then e.remoteWindow else w,
       fault := if wraps then AdjustOverflows else e.fault)
  }

  /** EOF from the peer; with `forceDrain` it also ends this side's input. */
  function InputIeof(e: Endpoint): Endpoint {
    var force := e.forceDrain && e.istate == InOpen;
    var sends := force && e.input == [] && !e.closeSent;
    e.(eofRcvd := true,
       ostate := RcvdIeof(e).ostate,
       istate := if !force then e.istate else if e.input == [] then InClosed else InDrain,
       eofSent := e.eofSent || sends,
       link := if sends then e.link + [Eof] else e.link)
  }

  function InputOpenConfirmation(e: Endpoint, window: U32, maxpacket: U32): Endpoint {
    var opening := e.ctype == Opening;
    e.(ctype := if opening then Open else e.ctype,
       remoteWindow := if opening then window else e.remoteWindow,
       remoteMaxpacket := if opening then maxpacket else e.remoteMaxpacket,
       fault := if opening then e.fault else NotOpening)
  }

  function Dispatch(e: Endpoint, m: Msg): Endpoint {
    if e.ctype == Freed && !m.Adjust? then e.(fault := NoSuchChannel)
    else
      match m
      case Confirm(window, maxpacket) => InputOpenConfirmation(e, window, maxpacket)
      case Data(data) => InputData(e, data)
      case ExtData(data) => InputExtendedData(e, data)
      case Adjust(amount) => InputWindowAdjust(e, amount)
      case Eof => InputIeof(e)
      case Eow => RcvdEow(e)
      case Close => RcvdOclose(e)
  }
}
