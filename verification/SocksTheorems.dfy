/** Decoding a well-formed SOCKS request does not depend on how it is split across reads. */
module SocksTheorems {
  import opened Bytes
  import opened SocksModel

  predicate NulFree(s: seq<Byte>) { forall i | 0 <= i < |s| :: s[i] != 0 }

  /** A well-formed request, as the client means it. */
  datatype Wish =
    | Wish4(port: nat, addr: seq<Byte>, user: seq<Byte>)
    | Wish4a(port: nat, mark: Byte, user: seq<Byte>, name: seq<Byte>)
    | Wish5(methods: seq<Byte>, host: Host, port: nat)

  /** A request the parser accepts when it sees the whole of it at once. */
  predicate Acceptable(w: Wish) {
    && w.port < 65536
    && match w
       case Wish4(_, addr, user) => |addr| == 4 && !Is4a(addr) && NulFree(user) && |user| <= MAXLEN
       case Wish4a(_, mark, user, name) =>
         mark != 0 && NulFree(user) && |user| <= MAXLEN && NulFree(name) && |name| <= MAXLEN
       case Wish5(methods, host, _) =>
         && |methods| < 256 && 0 in methods
         && (match host
             case Ip4(addr) => |addr| == 4
             case Ip6(addr) => |addr| == 16
             case Name(name) => |name| < 256 && NulFree(name))
  }

  /** Its strings stay below the limit, instead of reaching it. */
  predicate Short(w: Wish) {
    match w
    case Wish4(_, _, user) => |user| < MAXLEN
    case Wish4a(_, _, user, name) => |user| < MAXLEN && |name| < MAXLEN
    case Wish5(_, _, _) => true
  }

  predicate WellFormed(w: Wish) { Acceptable(w) && Short(w) }

  function Port(p: nat): seq<Byte>
    requires p < 65536
  {
    [p / 256, p % 256]
  }

  /** The greeting of SOCKS5; the other versions have none. */
  function Greeting(w: Wish): seq<Byte>
    requires Acceptable(w)
  {
    if w.Wish5? then [5, |w.methods|] + w.methods else []
  }

  /** Version, command, port and address of SOCKS4. */
  function Fixed4(port: nat, addr: seq<Byte>): seq<Byte>
    requires port < 65536
  {
    [4, 1] + Port(port) + addr
  }

  function Message(w: Wish): seq<Byte>
    requires Acceptable(w)
  {
    match w
    case Wish4(port, addr, user) => Fixed4(port, addr) + (user + [0])
    case Wish4a(port, mark, user, name) => Fixed4(port, [0, 0, 0, mark]) + (user + [0] + (name + [0]))
    case Wish5(_, host, port) =>
      [5, 1, 0]
      + (match host
         case Ip4(addr) => [1] + addr
         case Ip6(addr) => [4] + addr
         case Name(name) => [3, |name|] + name)
      + Port(port)
  }

  function TargetOf(w: Wish): Target {
    match w
    case Wish4(port, addr, _) => Target(Ip4(addr), port)
    case Wish4a(port, _, _, name) => Target(Name(name), port)
    case Wish5(_, host, port) => Target(host, port)
  }

  function ReplyTo(w: Wish): seq<Byte>
    requires Acceptable(w)
  {
    if w.Wish5? then Reply5(w.port) else REPLY4
  }

  // ---------- NUL-terminated strings ----------

  lemma FindNulIs(b: seq<Byte>, k: nat)
    requires k <= |b| && NulFree(b[..k]) && (k < |b| ==> b[k] == 0)
    ensures FindNul(b) == k
  {
    assert forall i | 0 <= i < k :: b[..k][i] == b[i];
  }

  lemma StringComplete(s: seq<Byte>, t: seq<Byte>)
    requires NulFree(s) && |s| <= MAXLEN
    ensures GetNulTerminated(s + [0] + t) == Got(s, t)
  {
    var b := s + [0] + t;
    assert b[..|s|] == s && b[|s| + 1..] == t;
    FindNulIs(b, |s|);
  }

  lemma StringIncomplete(p: seq<Byte>, s: seq<Byte>)
    requires NulFree(s) && |s| < MAXLEN && p < s + [0]
    ensures GetNulTerminated(p) == More
  {
    assert p == s[..|p|];
    assert p[..|p|] == p;
    FindNulIs(p, |p|);
  }

  // ---------- a complete message is recognised, whatever follows ----------

  lemma AfterFixed4(port: nat, addr: seq<Byte>, tail: seq<Byte>)
    requires port < 65536 && |addr| == 4 && tail != []
    ensures Parse4(Fixed4(port, addr) + tail) == Strings4(1, port, addr, tail)
  {
    var b := Fixed4(port, addr) + tail;
    assert b[4..8] == addr && b[8..] == tail;
    assert U16(b[2], b[3]) == port;
  }

  lemma Complete4(w: Wish, t: seq<Byte>)
    requires Acceptable(w) && !w.Wish5?
    ensures Parse4(Message(w) + t) == Got(TargetOf(w), t)
  {
    hide Parse4, GetNulTerminated;
    match w
    case Wish4(port, addr, user) =>
      AfterFixed4(port, addr, user + [0] + t);
      assert Message(w) + t == Fixed4(port, addr) + (user + [0] + t);
      StringComplete(user, t);
    case Wish4a(port, mark, user, name) =>
      var tail := user + [0] + (name + [0] + t);
      AfterFixed4(port, [0, 0, 0, mark], tail);
      assert Message(w) + t == Fixed4(port, [0, 0, 0, mark]) + tail;
      StringComplete(user, name + [0] + t);
      StringComplete(name, t);
    case _ =>
  }

  lemma CompleteAuth(w: Wish, t: seq<Byte>)
    requires Acceptable(w) && w.Wish5?
    ensures ParseAuth(Greeting(w) + t) == Got((), t)
  {
    var b := Greeting(w) + t;
    assert b[2..2 + |w.methods|] == w.methods && b[2 + |w.methods|..] == t;
  }

  lemma CompleteRequest(w: Wish, t: seq<Byte>)
    requires Acceptable(w) && w.Wish5?
    ensures ParseRequest(Message(w) + t) == Got(TargetOf(w), t)
  {
    hide Address, ParseRequest;
    match w.host
    case Ip4(addr) =>
      assert Message(w) + t == [5, 1, 0, 1] + addr + Port(w.port) + t;
      AddressIs([5, 1, 0, 1], addr, w.port, t);
      RequestIs([5, 1, 0, 1], Message(w) + t, |addr|);
    case Ip6(addr) =>
      assert Message(w) + t == [5, 1, 0, 4] + addr + Port(w.port) + t;
      AddressIs([5, 1, 0, 4], addr, w.port, t);
      RequestIs([5, 1, 0, 4], Message(w) + t, |addr|);
    case Name(name) =>
      assert Message(w) + t == [5, 1, 0, 3, |name|] + name + Port(w.port) + t;
      AddressIs([5, 1, 0, 3, |name|], name, w.port, t);
      RequestIs([5, 1, 0, 3, |name|], Message(w) + t, |name|);
      assert name[..|name|] == name;
      FindNulIs(name, |name|);
  }

  /** The front decides where the address is and how long. */
  lemma RequestIs(f: seq<Byte>, b: seq<Byte>, n: nat)
    requires |f| >= 4 && f[0] == 5 && f[1] == 1 && f[2] == 0 && f <= b
    requires (f[3] == 1 && |f| == 4 && n == 4) || (f[3] == 4 && |f| == 4 && n == 16) || (f[3] == 3 && |f| == 5 && n == f[4])
    ensures ParseRequest(b) == Address(b, |f|, n)
  {
    hide Address;
  }

  /** The address and port that stand after the front f. */
  lemma AddressIs(f: seq<Byte>, addr: seq<Byte>, port: nat, t: seq<Byte>)
    requires |f| >= 4 && port < 65536
    ensures var host := if f[3] == 1 then Ip4(addr) else if f[3] == 4 then Ip6(addr) else Name(addr[..FindNul(addr)]);
            Address(f + addr + Port(port) + t, |f|, |addr|) == Got(Target(host, port), t)
  {
    hide FindNul, U16, Port;
    PortIs(port);
    Layout(f, addr, Port(port), t);
  }

  lemma Layout(f: seq<Byte>, a: seq<Byte>, p: seq<Byte>, t: seq<Byte>)
    requires |f| >= 4 && |p| == 2
    ensures var b, end := f + a + p + t, |f| + |a|;
            && |b| >= end + 2 && b[|f|..end] == a && b[end + 2..] == t && b[3] == f[3]
            && b[end] == p[0] && b[end + 1] == p[1]
  {
  }

  lemma PortIs(port: nat)
    requires port < 65536
    ensures |Port(port)| == 2 && U16(Port(port)[0], Port(port)[1]) == port
  {
  }

  // ---------- a proper prefix asks for more ----------

  lemma Partial4(w: Wish, p: seq<Byte>)
    requires WellFormed(w) && !w.Wish5? && p < Message(w)
    ensures Parse4(p) == More
  {
    hide GetNulTerminated, Fixed4, Strings4;
    if |p| >= 9 {
      var addr := if w.Wish4? then w.addr else [0, 0, 0, w.mark];
      var f, q := Fixed4(w.port, addr), p[8..];
      FixedLength(w.port, addr);
      CutFront(f, if w.Wish4? then w.user + [0] else w.user + [0] + (w.name + [0]), p);
      AfterFixed4(w.port, addr, q);
      if w.Wish4? {
        StringIncomplete(q, w.user);
      } else {
        TwoStrings(q, w.user, w.name);
      }
      PartialStrings(w.port, addr, q);
    }
  }

  lemma FixedLength(port: nat, addr: seq<Byte>)
    requires port < 65536
    ensures |Fixed4(port, addr)| == 4 + |addr|
  {
  }

  lemma CutFront(f: seq<Byte>, x: seq<Byte>, p: seq<Byte>)
    requires p < f + x && |f| <= |p|
    ensures p == f + p[|f|..] && p[|f|..] < x
  {
    assert p == (f + x)[..|p|];
    assert p[|f|..] == x[..|p| - |f|];
  }

  lemma PartialStrings(port: int, addr: seq<Byte>, q: seq<Byte>)
    requires |addr| == 4
    requires var g := GetNulTerminated(q); g == More || (g.Got? && Is4a(addr) && GetNulTerminated(g.rest) == More)
    ensures Strings4(1, port, addr, q) == More
  {
    hide GetNulTerminated;
  }

  lemma TwoStrings(p: seq<Byte>, user: seq<Byte>, name: seq<Byte>)
    requires NulFree(user) && |user| < MAXLEN && NulFree(name) && |name| < MAXLEN
    requires p < user + [0] + (name + [0])
    ensures var g := GetNulTerminated(p);
            g == More || (g.Got? && GetNulTerminated(g.rest) == More)
  {
    if |p| <= |user| {
      StringIncomplete(p, user);
    } else {
      var q := p[|user| + 1..];
      assert p == user + [0] + q;
      StringComplete(user, q);
      assert q < name + [0];
      StringIncomplete(q, name);
    }
  }

  lemma PartialAuth(w: Wish, p: seq<Byte>)
    requires WellFormed(w) && w.Wish5? && p < Greeting(w)
    ensures ParseAuth(p) == More
  {
  }

  lemma PartialRequest(w: Wish, p: seq<Byte>)
    requires WellFormed(w) && w.Wish5? && p < Message(w)
    ensures ParseRequest(p) == More
  {
    var m := Message(w);
    assert forall i | 0 <= i < |p| :: p[i] == m[i];
  }

  // ---------- chunking ----------

  /** The state after the bytes `p` of a stream that begins with the wish. */
  function Expected(w: Wish, p: seq<Byte>): Socks
    requires WellFormed(w)
  {
    var g, m := Greeting(w), Greeting(w) + Message(w);
    if |p| < |g| then FRESH.(input := p)
    else if |p| < |m| then
      Socks(p[|g|..], if w.Wish5? then AUTH_REPLY else [], w.Wish5?, None, Dynamic)
    else
      Socks(p[|m|..], (if w.Wish5? then AUTH_REPLY else []) + ReplyTo(w), w.Wish5?,
            Some(TargetOf(w)), Connecting)
  }

  lemma Parse4Reached(w: Wish, p: seq<Byte>)
    requires WellFormed(w) && !w.Wish5? && (p <= Message(w) || Message(w) <= p)
    ensures Pre(FRESH.(input := p)) == Expected(w, p)
  {
    var m := Message(w);
    assert Greeting(w) + m == m;
    assert p[0..] == p;
    if |p| < |m| {
      Partial4(w, p);
    } else {
      assert p == m + p[|m|..];
      Complete4(w, p[|m|..]);
    }
  }

  /** From a state in which the greeting is done. */
  lemma RequestReached(w: Wish, r: seq<Byte>, s: Socks)
    requires WellFormed(w) && w.Wish5? && (r <= Message(w) || Message(w) <= r)
    requires s == Socks(r, AUTH_REPLY, true, None, Dynamic)
    ensures Request(s) == Expected(w, Greeting(w) + r)
  {
    var g, m := Greeting(w), Message(w);
    assert (g + r)[|g|..] == r;
    if |r| < |m| {
      PartialRequest(w, r);
    } else {
      assert r == m + r[|m|..];
      assert (g + r)[|g + m|..] == r[|m|..];
      CompleteRequest(w, r[|m|..]);
    }
  }

  lemma Parse5Reached(w: Wish, p: seq<Byte>)
    requires WellFormed(w) && w.Wish5? && (p <= Greeting(w) + Message(w) || Greeting(w) + Message(w) <= p)
    ensures Pre(FRESH.(input := p)) == Expected(w, p)
  {
    hide ParseRequest, Request, Message;
    var g := Greeting(w);
    if |p| < |g| {
      PartialAuth(w, p);
    } else {
      var r := p[|g|..];
      assert p == g + r;
      CompleteAuth(w, r);
      assert r <= Message(w) || Message(w) <= r;
      RequestReached(w, r, Socks(r, AUTH_REPLY, true, None, Dynamic));
      assert |p| >= 3 && p[0] == 5 && [] + AUTH_REPLY == AUTH_REPLY;
    }
  }

  lemma FeedReached(w: Wish, p: seq<Byte>, c: seq<Byte>)
    requires WellFormed(w)
    requires p + c <= Greeting(w) + Message(w) || Greeting(w) + Message(w) <= p + c
    ensures Feed(Expected(w, p), c) == Expected(w, p + c)
  {
    hide Pre, Message;
    var g, m := Greeting(w), Greeting(w) + Message(w);
    if |p| >= |m| {
      assert (p + c)[|m|..] == p[|m|..] + c;
    } else if |p| < |g| {
      Parse5Reached(w, p + c);
    } else {
      var r := p[|g|..] + c;
      assert (p + c)[|g|..] == r;
      if w.Wish5? {
        assert p + c == g + r;
        assert r <= Message(w) || Message(w) <= r;
        LaterReached(w, r);
      } else {
        assert m == Message(w) && p[0..] == p;
        Parse4Reached(w, p + c);
      }
    }
  }

  /** A later call looks at the buffer only when it holds at least three bytes. */
  lemma LaterReached(w: Wish, r: seq<Byte>)
    requires WellFormed(w) && w.Wish5? && (r <= Message(w) || Message(w) <= r)
    ensures Pre(Socks(r, AUTH_REPLY, true, None, Dynamic)) == Expected(w, Greeting(w) + r)
  {
    var s := Socks(r, AUTH_REPLY, true, None, Dynamic);
    RequestReached(w, r, s);
    if |r| < 3 {
      assert (Greeting(w) + r)[|Greeting(w)|..] == r;
    } else {
      assert r[0] == Message(w)[0];
    }
  }

  function Joined(chunks: seq<seq<Byte>>): seq<Byte> {
    if chunks == [] then [] else Joined(chunks[..|chunks| - 1]) + chunks[|chunks| - 1]
  }

  /** However a well-formed request and the bytes after it are cut into chunks, the channel ends
      with the same target, the same reply and exactly the later bytes left in its buffer; and
      at every point before the end it has consumed nothing but a finished greeting. */
  lemma {:induction false} ChunkingIsIrrelevant(w: Wish, later: seq<Byte>, chunks: seq<seq<Byte>>)
    requires WellFormed(w) && Joined(chunks) <= Greeting(w) + Message(w) + later
    ensures FeedAll(FRESH, chunks) == Expected(w, Joined(chunks))
    ensures Joined(chunks) == Greeting(w) + Message(w) + later ==>
              var s := FeedAll(FRESH, chunks);
              && s.phase == Connecting && s.target == Some(TargetOf(w)) && s.input == later
              && s.output == (if w.Wish5? then AUTH_REPLY else []) + ReplyTo(w)
  {
    var m := Greeting(w) + Message(w);
    if chunks == [] {
      EmptyExpected(w);
    } else {
      var n := |chunks| - 1;
      var p, c := Joined(chunks[..n]), chunks[n];
      assert p <= p + c;
      ChunkingIsIrrelevant(w, later, chunks[..n]);
      FeedReached(w, p, c);
    }
    if Joined(chunks) == m + later { assert (m + later)[|m|..] == later; }
  }

  lemma EmptyExpected(w: Wish)
    requires WellFormed(w)
    ensures Expected(w, []) == FRESH
  {
  }

  // ---------- the limit on string lengths ----------

  /** A string of exactly the maximal length, read without its terminator, is refused. */
  lemma FullStringAlone(s: seq<Byte>)
    requires NulFree(s) && |s| == MAXLEN
    ensures GetNulTerminated(s) == Bad
  {
    assert s[..|s|] == s;
    FindNulIs(s, |s|);
  }

  /** What is read up to just before the terminator of a string of maximal length. */
  function FatalFront(w: Wish): seq<Byte>
    requires Acceptable(w) && !Short(w)
  {
    Fixed4(w.port, if w.Wish4? then w.addr else [0, 0, 0, w.mark])
    + if |w.user| == MAXLEN then w.user else w.user + [0] + w.name
  }

  lemma FatalFrontIsBad(w: Wish)
    requires Acceptable(w) && !Short(w)
    ensures Parse4(FatalFront(w)) == Bad
  {
    hide Parse4, GetNulTerminated, Fixed4;
    var addr := if w.Wish4? then w.addr else [0, 0, 0, w.mark];
    AfterFixed4(w.port, addr, if |w.user| == MAXLEN then w.user else w.user + [0] + w.name);
    if |w.user| == MAXLEN {
      FullStringAlone(w.user);
    } else {
      StringComplete(w.user, w.name);
      FullStringAlone(w.name);
    }
  }

  lemma FatalFrontIsFront(w: Wish)
    requires Acceptable(w) && !Short(w)
    ensures FatalFront(w) + [0] <= Message(w)
    ensures |FatalFront(w)| >= 9 && FatalFront(w)[0] == 4
  {
    hide GetNulTerminated;
    var f := Fixed4(w.port, if w.Wish4? then w.addr else [0, 0, 0, w.mark]);
    if w.Wish4? {
      assert Message(w) == f + (w.user + [0]) == FatalFront(w) + [0];
    } else if |w.user| == MAXLEN {
      assert Message(w) == FatalFront(w) + [0] + (w.name + [0]);
    } else {
      assert Message(w) == FatalFront(w) + [0];
    }
  }

  /** So a request whose string reaches the limit is killed by a read that ends just before
      that string's terminator. */
  lemma UnluckySplit(w: Wish, later: seq<Byte>) returns (chunks: seq<seq<Byte>>)
    requires Acceptable(w) && !Short(w)
    ensures Joined(chunks) == Greeting(w) + Message(w) + later && FeedAll(FRESH, chunks).phase == Dead
  {
    hide Parse4, Message, FatalFront;
    FatalFrontIsBad(w);
    FatalFrontIsFront(w);
    var head := FatalFront(w);
    var rest := (Message(w) + later)[|head|..];
    chunks := [head, rest];
    assert Greeting(w) + Message(w) + later == Message(w) + later;
    assert Message(w) + later == head + rest;
    assert chunks[..1] == [head];
    JoinedOne(head);
    OneChunk(head);
    FirstRead(head, Bad);
  }

  /** A request that is accepted when read at once (`AcceptedAtOnce`) is accepted under every split exactly if its
      strings stay below the limit. */
  lemma SplitExactly(w: Wish, later: seq<Byte>)
    requires Acceptable(w)
    ensures Short(w) <==>
            forall chunks | Joined(chunks) == Greeting(w) + Message(w) + later ::
              FeedAll(FRESH, chunks).phase == Connecting
  {
    hide FeedAll, Joined, Message, Greeting;
    if Short(w) {
      forall chunks | Joined(chunks) == Greeting(w) + Message(w) + later
        ensures FeedAll(FRESH, chunks).phase == Connecting
      {
        ChunkingIsIrrelevant(w, later, chunks);
      }
    } else {
      var chunks := UnluckySplit(w, later);
      assert FeedAll(FRESH, chunks).phase == Dead;
    }
  }

  lemma FirstRead(b: seq<Byte>, r: Parsed<Target>)
    requires |b| >= 3 && b[0] == 4 && Parse4(b) == r && (r == Bad || r.Got?)
    ensures if r == Bad then Feed(FRESH, b).phase == Dead
            else Feed(FRESH, b) == Socks(r.rest, REPLY4, false, Some(r.value), Connecting)
  {
    hide Parse4, Request, ParseAuth;
    var s := FRESH.(input := FRESH.input + b);
    assert s.input == b && [] + REPLY4 == REPLY4;
    assert Feed(FRESH, b) == Pre(s);
  }

  /** Read at once, every acceptable request is accepted, strings of the maximal length included. */
  lemma AcceptedAtOnce(w: Wish, later: seq<Byte>)
    requires Acceptable(w)
    ensures FeedAll(FRESH, [Greeting(w) + Message(w) + later])
         == Socks(later, (if w.Wish5? then AUTH_REPLY else []) + ReplyTo(w), w.Wish5?, Some(TargetOf(w)), Connecting)
  {
    hide FeedAll, Joined, Parse4, Message;
    var all := Greeting(w) + Message(w) + later;
    if Short(w) {
      JoinedOne(all);
      ChunkingIsIrrelevant(w, later, [all]);
      AllRead(w, later);
    } else {
      assert all == Message(w) + later;
      Starts4(w, later);
      Complete4(w, later);
      OneChunk(all);
      FirstRead(all, Got(TargetOf(w), later));
      assert [] + REPLY4 == REPLY4;
    }
  }

  lemma AllRead(w: Wish, later: seq<Byte>)
    requires WellFormed(w)
    ensures Expected(w, Greeting(w) + Message(w) + later)
         == Socks(later, (if w.Wish5? then AUTH_REPLY else []) + ReplyTo(w), w.Wish5?, Some(TargetOf(w)), Connecting)
  {
    hide Greeting, Message;
    var m := Greeting(w) + Message(w);
    assert (m + later)[|m|..] == later;
  }

  lemma Starts4(w: Wish, later: seq<Byte>)
    requires Acceptable(w) && !w.Wish5?
    ensures |Message(w) + later| >= 3 && (Message(w) + later)[0] == 4
  {
  }

  lemma JoinedOne(c: seq<Byte>)
    ensures Joined([c]) == c
  {
    assert [c][..0] == [];
  }

  lemma OneChunk(c: seq<Byte>)
    ensures FeedAll(FRESH, [c]) == Feed(FRESH, c)
  {
    assert [c][..0] == [];
  }
}
