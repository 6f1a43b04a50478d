/**
 Two endpoints of one stream channel, joined by a first-in first-out link in each
 direction, and the invariant that every step of either endpoint keeps.
 */
module ChannelProtocol {
  import opened Bytes
  import opened ChannelModel

  datatype Sys = Sys(a: Endpoint, b: Endpoint)

  datatype Event =
    | EvRead(r: ReadResult)
    | EvWrite(w: WriteResult)
    | EvErrWrite(w: WriteResult)
    | EvErrRead(r: ReadResult)
    | EvCheckWindow
    | EvPreOpen
    | EvPollInput
    | EvPollExtended
    | EvActivate(windowMax: U32, usage: ExtUsage, efd: bool)
    | EvCollect
    | EvReceive

  /** A step of one endpoint that takes no packet.  The request that activates a larval
      session comes from the peer, so it cannot follow the peer's CLOSE. */
  function Local(e: Endpoint, ev: Event): Endpoint
    requires !ev.EvReceive?
  {
    match ev
    case EvRead(r) => HandleRfd(e, r)
    case EvWrite(w) => HandleWfd(e, w)
    case EvErrWrite(w) => HandleEfdWrite(e, w)
    case EvErrRead(r) => HandleEfdRead(e, r)
    case EvCheckWindow => CheckWindow(e)
    case EvPreOpen => PreOpen(e)
    case EvPollInput => PollInput(e)
    case EvPollExtended => PollExtended(e)
    case EvActivate(windowMax, usage, efd) =>
      if e.closeRcvd then e else Activate(e, windowMax, usage, efd)
    case EvCollect => Collect(e)
  }

  function StepA(s: Sys, ev: Event): Sys {
    if ev.EvReceive? then
      if s.b.link == [] then s
      else Sys(Dispatch(s.a, s.b.link[0]), s.b.(link := s.b.link[1..]))
    else Sys(Local(s.a, ev), s.b)
  }

  /** One step of either endpoint; nothing happens once the connection has been given up. */
  function Step(s: Sys, atA: bool, ev: Event): Sys {
    if s.a.fault != NoFault || s.b.fault != NoFault then s
    else if atA then StepA(s, ev)
    else Swap(StepA(Swap(s), ev))
  }

  /** The state reached from `s` by a schedule of steps. */
  function Exec(s: Sys, schedule: seq<(bool, Event)>): Sys {
    if schedule == [] then s
    else
      var k := |schedule| - 1;
      Step(Exec(s, schedule[..k]), schedule[k].0, schedule[k].1)
  }

  /** The opener waits for the acceptor's confirmation; each has advertised its own window, and
      a larval acceptor advertises none. */
  predicate Start(s: Sys) {
    && s.a.ctype == Opening && (s.b.ctype == Open || s.b.ctype == Larval)
    && Newborn(s.a) && Newborn(s.b)
    && s.a.link == [] && s.a.remoteWindow == 0
    && s.b.link == [Confirm(s.b.localWindow, s.b.localMaxpacket)]
    && s.b.remoteWindow == s.a.localWindow && s.b.remoteMaxpacket == s.a.localMaxpacket
    && (s.b.ctype == Larval ==>
          s.b.localWindow == 0 && s.b.extUsage == ExtIgnore && !s.b.efdOpen && !s.b.forceDrain)
  }

  predicate Newborn(e: Endpoint) {
    && e.istate == InOpen && e.ostate == OutOpen
    && !e.eofSent && !e.eofRcvd && !e.closeSent && !e.closeRcvd
    && e.localWindowMax == e.localWindow && e.localConsumed == 0 && e.localExceeded == 0
    && e.input == [] && e.output == [] && e.extended == []
    && e.taken == [] && e.given == [] && e.errTaken == [] && e.errGiven == []
    && !e.writeFailed && !e.errLost && e.dropped == 0 && e.refused == 0 && e.fault == NoFault
    && (e.forceDrain ==> e.extUsage == ExtIgnore && !e.efdOpen)
  }

  function Swap(s: Sys): Sys { Sys(s.b, s.a) }

  // ---------- what a link carries ----------

  function DataLen(q: seq<Msg>): nat {
    if q == [] then 0
    else (if q[0].Data? || q[0].ExtData? then |q[0].data| else 0) + DataLen(q[1..])
  }

  function Credits(q: seq<Msg>): nat {
    if q == [] then 0
    else (match q[0] case Adjust(n) => n case Confirm(w, _) => w case _ => 0) + Credits(q[1..])
  }

  function DataOf(q: seq<Msg>): seq<Byte> {
    if q == [] then [] else (if q[0].Data? then q[0].data else []) + DataOf(q[1..])
  }

  function ErrOf(q: seq<Msg>): seq<Byte> {
    if q == [] then [] else (if q[0].ExtData? then q[0].data else []) + ErrOf(q[1..])
  }

  /** How far the conversation in one direction has come: before the confirmation, open, after
      CLOSE, or in an order the protocol forbids.  `eof` says whether EOF has passed. */
  datatype Phase = Fresh | Live(eof: bool) | Done(eof: bool) | Bad

  function Next(p: Phase, m: Msg): Phase {
    match p
    case Fresh => if m.Confirm? then Live(false) else Bad
    case Live(eof) =>
      (match m
       case Confirm(_, _) => Bad
       case Data(_) => if eof then Bad else p
       case ExtData(_) => if eof then Bad else p
       case Eof => if eof then Bad else Live(true)
       case Close => Done(eof)
       case _ => p)
    case Done(_) => Bad
    case Bad => Bad
  }

  /** The phase reached from `p` by hearing the whole of `q`. */
  function Walk(p: Phase, q: seq<Msg>): Phase
    decreases q
  {
    if q == [] then p else Walk(Next(p, q[0]), q[1..])
  }

  lemma {:induction false} LinkAppend(q: seq<Msg>, m: Msg, p: Phase)
    ensures DataLen(q + [m]) == DataLen(q) + (if m.Data? || m.ExtData? then |m.data| else 0)
    ensures Credits(q + [m]) ==
            Credits(q) + (match m case Adjust(n) => n case Confirm(w, _) => w case _ => 0)
    ensures DataOf(q + [m]) == DataOf(q) + (if m.Data? then m.data else [])
    ensures ErrOf(q + [m]) == ErrOf(q) + (if m.ExtData? then m.data else [])
    ensures Walk(p, q + [m]) == Next(Walk(p, q), m)
    decreases q
  {
    if q == [] {
      assert q + [m] == [m];
    } else {
      LinkAppend(q[1..], m, Next(p, q[0]));
      assert (q + [m])[1..] == q[1..] + [m];
      Regroup(if q[0].Data? then q[0].data else [], DataOf(q[1..]), if m.Data? then m.data else []);
      Regroup(if q[0].ExtData? then q[0].data else [], ErrOf(q[1..]), if m.ExtData? then m.data else []);
    }
  }

  lemma Regroup<T>(x: seq<T>, y: seq<T>, z: seq<T>)
    ensures x + (y + z) == (x + y) + z
  {
  }

  /** Once EOF has been heard, whatever is still on the link carries no data. */
  lemma {:induction false} SilentAfterEof(p: Phase, q: seq<Msg>)
    requires (p.Live? || p.Done?) && p.eof && Walk(p, q) != Bad
    ensures DataLen(q) == 0 && DataOf(q) == [] && ErrOf(q) == []
    ensures !Walk(p, q).Fresh? && Walk(p, q).eof
    decreases q
  {
    if q != [] {
      assert Next(p, q[0]) != Bad by { BadStays(q[1..]); }
      SilentAfterEof(Next(p, q[0]), q[1..]);
    }
  }

  lemma {:induction false} BadStays(q: seq<Msg>)
    ensures Walk(Bad, q) == Bad
  {
    if q != [] { BadStays(q[1..]); }
  }

  // ---------- the invariant, one direction at a time ----------

  /** Received stderr bytes still buffered, and local stderr bytes not yet sent. */
  function HeldErr(r: Endpoint): seq<Byte> { if r.extUsage == ExtWrite then r.extended else [] }
  function OwnErr(s: Endpoint): seq<Byte> { if s.extUsage == ExtRead then s.extended else [] }

  /** An endpoint that has not exchanged any data yet. */
  predicate Blank(e: Endpoint) {
    e.input == [] && e.output == [] && e.extended == [] && e.localConsumed == 0
    && e.taken == [] && !e.eofSent && !e.closeSent
  }

  predicate Unopened(s: Endpoint) {
    Blank(s) && s.link == [] && s.remoteWindow == 0
    && s.istate == InOpen && s.ostate == OutOpen && !s.eofRcvd && !s.closeRcvd
  }

  predicate Waiting(s: Endpoint) {
    Blank(s) && s.localWindow == 0 && s.localWindowMax == 0 && s.extUsage == ExtIgnore && !s.efdOpen
    && (s.istate == InOpen || s.closeRcvd) && !s.errLost
  }

  /** What one endpoint's state says about itself. */
  predicate Sound(e: Endpoint) {
    && e.fault == NoFault
    && (e.ctype == Opening ==> Unopened(e))
    && (e.ctype == Larval ==> Waiting(e))
    && (e.ctype == Freed ==> e.closeSent && e.closeRcvd)
    && (e.forceDrain ==> e.extUsage == ExtIgnore && !e.efdOpen && e.ctype != Larval)
    && (e.closeSent ==> e.istate == InClosed && e.ostate == OutClosed)
    && (e.eofSent ==> e.istate == InClosed)
    && (e.closeRcvd ==> e.istate == InClosed)
    && (e.ostate == OutOpen ==> !e.eofRcvd && !e.closeRcvd && !e.writeFailed)
    && (e.ostate == OutDrain ==> (e.eofRcvd || e.closeRcvd) && !e.writeFailed)
    && (e.ostate == OutClosed ==> e.output == [] && (e.eofRcvd || e.closeRcvd || e.writeFailed))
    && (e.ostate == OutClosed && !e.writeFailed && !e.errLost ==> HeldErr(e) == [])
    && (e.extUsage == ExtWrite && !e.efdOpen && !e.errLost ==> e.extended == [])
    && (e.extUsage == ExtIgnore ==> e.extended == [])
    && (e.errLost ==> e.extUsage != ExtWrite || !e.efdOpen)
    && (e.refused > 0 ==> e.errLost) && (e.dropped > 0 ==> e.writeFailed)
  }

  /** What the sender `s` has said so far, and what the receiver `r` has heard of it. */
  function Said(s: Endpoint): Phase { if s.closeSent then Done(s.eofSent) else Live(s.eofSent) }

  function Heard(r: Endpoint): Phase {
    if r.ctype == Opening then Fresh else if r.closeRcvd then Done(r.eofRcvd) else Live(r.eofRcvd)
  }

  predicate Proper(m: Msg, s: Endpoint, r: Endpoint) {
    && (m.Data? || m.ExtData? ==> 0 < |m.data| <= r.localMaxpacket)
    && (m.Eow? ==> s.writeFailed)
    && (m.Confirm? ==> m.maxpacket == s.localMaxpacket)
  }

  predicate Talk(s: Endpoint, r: Endpoint) {
    && Walk(Heard(r), s.link) == Said(s)
    && (forall m | m in s.link :: Proper(m, s, r))
    && (s.ctype != Opening ==> s.remoteMaxpacket == r.localMaxpacket)
    && (s.ctype == Opening || s.ctype == Larval ==> !r.writeFailed)
    && (s.istate == InClosed && !r.writeFailed ==>
          s.input == [] && OwnErr(s) == [] && (s.extUsage == ExtRead ==> !s.efdOpen))
  }

  predicate Shake(s: Endpoint, r: Endpoint) { Sound(s) && Talk(s, r) }

  /** The sender's window, what is on its way and what was refused make up the receiver's window. */
  predicate Credit(s: Endpoint, r: Endpoint) {
    s.remoteWindow + DataLen(s.link) + Credits(r.link) + r.refused == r.localWindow
  }

  /** Unused window, consumed, buffered and dropped bytes add up to the configured window. */
  predicate Memory(r: Endpoint) {
    r.localWindow + r.localConsumed + |r.output| + |HeldErr(r)| + r.dropped == r.localWindowMax
    && r.localExceeded == 0
  }

  predicate Count(s: Endpoint, r: Endpoint) { Credit(s, r) && Memory(r) }

  /** Bytes that entered at `s` are, in order, out at `r`, buffered at `r`, in flight or at `s`. */
  predicate Stream(s: Endpoint, r: Endpoint) {
    if r.writeFailed then r.given <= s.taken
    else s.taken == r.given + r.output + DataOf(s.link) + s.input
  }

  predicate ErrStream(s: Endpoint, r: Endpoint) {
    if r.errLost then r.errGiven <= s.errTaken
    else s.errTaken == r.errGiven + HeldErr(r) + ErrOf(s.link) + OwnErr(s)
  }

  predicate Flow(s: Endpoint, r: Endpoint) { Stream(s, r) && ErrStream(s, r) }

  predicate Shakes(s: Endpoint, r: Endpoint) { Shake(s, r) && Shake(r, s) }
  predicate Counts(s: Endpoint, r: Endpoint) { Count(s, r) && Count(r, s) }
  predicate Flows(s: Endpoint, r: Endpoint) { Flow(s, r) && Flow(r, s) }

  predicate Inv(s: Sys) { Shakes(s.a, s.b) && Counts(s.a, s.b) && Flows(s.a, s.b) }
}
