/** Decoding of arbitrary byte streams: exactly when the outcome depends on how they are split across reads. */
module SocksStreams {
  import opened Bytes
  import opened SocksModel
  import opened SocksTheorems

  /** A SOCKS4 stream one of whose strings, terminated, has exactly the maximal length. */
  predicate FullString(x: seq<Byte>) {
    && |x| >= 9 && x[0] == 4
    && var user := GetNulTerminated(x[8..]);
       && user.Got?
       && (|user.value| == MAXLEN
           || (Is4a(x[4..8]) && GetNulTerminated(user.rest).Got? && |GetNulTerminated(user.rest).value| == MAXLEN))
  }

  /** A complete and acceptable SOCKS5 greeting, followed by a byte that does not begin a SOCKS5 request. */
  predicate Mixed(x: seq<Byte>) {
    |x| >= 2 && x[0] == 5 && |x| > 2 + x[1] as int && 0 in x[2..2 + x[1] as int] && x[2 + x[1] as int] != 5
  }

  predicate Uneven(x: seq<Byte>) { FullString(x) || Mixed(x) }

  /** The state after `p` has been read at once. */
  function AtOnce(p: seq<Byte>): Socks { Pre(FRESH.(input := p)) }

  // ---------- more bytes ----------

  lemma StringExtends(b: seq<Byte>, c: seq<Byte>)
    ensures var g, h := GetNulTerminated(b), GetNulTerminated(b + c);
            && (g.Got? ==> h == Got(g.value, g.rest + c))
            && (g == Bad ==> h == Bad || (h.Got? && |h.value| == MAXLEN))
            && !g.Crash?
  {
    var k := FindNul(b);
    var j := FindNul(b + c);
    assert forall i | 0 <= i < |b| :: (b + c)[i] == b[i];
    if k < |b| {
      assert (b + c)[..k] == b[..k] && (b + c)[k + 1..] == b[k + 1..] + c;
      assert NulFree((b + c)[..k]);
      FindNulIs(b + c, k);
    } else {
      assert j >= |b|;
    }
  }

  /** The rest of a SOCKS4 request after its fixed part. */
  lemma StringsExtend(cmd: Byte, port: int, addr: seq<Byte>, b: seq<Byte>, c: seq<Byte>)
    requires |addr| == 4
    requires var h := GetNulTerminated(b + c); h.Got? ==> |h.value| < MAXLEN
    requires var h := GetNulTerminated(b + c);
             h.Got? && Is4a(addr) && GetNulTerminated(h.rest).Got? ==> |GetNulTerminated(h.rest).value| < MAXLEN
    ensures var g, h := Strings4(cmd, port, addr, b), Strings4(cmd, port, addr, b + c);
            && (g.Got? ==> h == Got(g.value, g.rest + c))
            && (g == Bad ==> h == Bad)
            && !g.Crash?
  {
    hide GetNulTerminated, Is4a;
    StringExtends(b, c);
    var g := GetNulTerminated(b);
    if g.Got? { StringExtends(g.rest, c); }
  }

  lemma Parse4Extends(p: seq<Byte>, c: seq<Byte>)
    requires !FullString(p + c) && |p| >= 9 && p[0] == 4
    ensures var g, h := Parse4(p), Parse4(p + c);
            && (g.Got? ==> h == Got(g.value, g.rest + c))
            && (g == Bad ==> h == Bad)
            && !g.Crash?
  {
    hide GetNulTerminated, Is4a, Strings4;
    SameFixed(p, c);
    ShortStrings(p + c);
    StringsExtend(p[1], U16(p[2], p[3]), p[4..8], p[8..], c);
  }

  lemma SameFixed(p: seq<Byte>, c: seq<Byte>)
    requires |p| >= 9
    ensures (p + c)[8..] == p[8..] + c && (p + c)[4..8] == p[4..8] && (p + c)[..8] == p[..8]
    ensures forall i | 0 <= i < 9 :: (p + c)[i] == p[i]
  {
  }

  lemma ShortStrings(x: seq<Byte>)
    requires !FullString(x) && |x| >= 9 && x[0] == 4
    ensures var h := GetNulTerminated(x[8..]);
            && (h.Got? ==> |h.value| < MAXLEN)
            && (h.Got? && Is4a(x[4..8]) && GetNulTerminated(h.rest).Got? ==> |GetNulTerminated(h.rest).value| < MAXLEN)
  {
    hide Is4a;
    StringLimit(x[8..]);
    if GetNulTerminated(x[8..]).Got? { StringLimit(GetNulTerminated(x[8..]).rest); }
  }

  lemma StringLimit(b: seq<Byte>)
    ensures GetNulTerminated(b).Got? ==> |GetNulTerminated(b).value| <= MAXLEN
  {
  }

  /** What a refused request leaves unread only grows. */
  lemma Unread4Extends(p: seq<Byte>, c: seq<Byte>)
    requires !FullString(p + c) && |p| >= 9 && p[0] == 4 && Parse4(p) == Bad
    ensures Unread4(p + c) == Unread4(p) + c
  {
    hide GetNulTerminated, Is4a;
    SameFixed(p, c);
    ShortStrings(p + c);
    StringExtends(p[8..], c);
    var g := GetNulTerminated(p[8..]);
    if g.Got? { StringExtends(g.rest, c); }
  }

  lemma Socks4Extends(p: seq<Byte>, c: seq<Byte>)
    requires !FullString(p + c) && |p| >= 3 && p[0] == 4
    ensures Feed(AtOnce(p), c) == AtOnce(p + c)
  {
    hide Parse4, Unread4, FullString;
    if |p| < 9 {
      ShortParse4(p);
    } else {
      Parse4Extends(p, c);
      if Parse4(p) == Bad { Unread4Extends(p, c); }
    }
  }

  lemma ShortParse4(p: seq<Byte>)
    requires |p| < 9
    ensures Parse4(p) == More
  {
  }

  // ---------- SOCKS5 ----------

  lemma AuthExtends(p: seq<Byte>, c: seq<Byte>)
    requires |p| >= 1 && p[0] == 5
    ensures var g, h := ParseAuth(p), ParseAuth(p + c);
            && (g.Got? ==> h == Got((), g.rest + c))
            && (g == Bad ==> h == Bad)
            && !g.Crash?
  {
    if |p| >= 2 && |p| >= 2 + p[1] as int {
      var n := 2 + p[1] as int;
      assert (p + c)[2..n] == p[2..n] && (p + c)[n..] == p[n..] + c;
    }
  }

  lemma RequestExtends(r: seq<Byte>, c: seq<Byte>)
    ensures var g, h := ParseRequest(r), ParseRequest(r + c);
            && (g.Got? ==> h == Got(g.value, g.rest + c))
            && (g == Bad ==> h == Bad)
            && (g.Crash? <==> |r| >= 1 && r[0] != 5)
  {
    hide Address;
    assert forall i | 0 <= i < |r| :: (r + c)[i] == r[i];
    if |r| >= 5 || (|r| == 4 && r[3] != 3) {
      AddressExtends(r, c, if r[3] == 3 then 5 else 4, if r[3] == 1 then 4 else if r[3] == 4 then 16 else if |r| >= 5 then r[4] else 0);
    }
    NeverBad(r);
  }

  lemma AddressExtends(r: seq<Byte>, c: seq<Byte>, off: nat, len: nat)
    requires 4 <= off <= |r|
    ensures var g, h := Address(r, off, len), Address(r + c, off, len);
            (g.Got? && h == Got(g.value, g.rest + c)) || g == More
  {
    hide FindNul;
    var end := off + len;
    if |r| >= end + 2 {
      assert (r + c)[off..end] == r[off..end] && (r + c)[end + 2..] == r[end + 2..] + c;
    }
  }

  lemma NeverBad(r: seq<Byte>)
    ensures forall off: nat, len: nat | 4 <= off <= |r| :: Address(r, off, len) == More || Address(r, off, len).Got?
  {
  }

  /** After the greeting, what a later call does with more bytes is what one call does with all of them. */
  lemma AfterGreeting(r: seq<Byte>, c: seq<Byte>)
    requires (r + c) != [] ==> (r + c)[0] == 5
    ensures Feed(Request(Socks(r, AUTH_REPLY, true, None, Dynamic)), c)
            == Request(Socks(r + c, AUTH_REPLY, true, None, Dynamic))
  {
    hide ParseRequest, Reply5;
    RequestExtends(r, c);
    RequestPort(r);
    assert r != [] ==> r[0] == (r + c)[0];
    if |r + c| < 3 { ShortRequest(r + c); }
    assert ParseRequest(r) == More ==> Feed(Socks(r, AUTH_REPLY, true, None, Dynamic), c)
                                       == Pre(Socks(r + c, AUTH_REPLY, true, None, Dynamic));
  }

  lemma ShortRequest(r: seq<Byte>)
    requires |r| < 4 && (r != [] ==> r[0] == 5)
    ensures ParseRequest(r) == More
  {
  }

  lemma Socks5Extends(p: seq<Byte>, c: seq<Byte>)
    requires !Mixed(p + c) && |p| >= 3 && p[0] == 5
    ensures Feed(AtOnce(p), c) == AtOnce(p + c)
  {
    hide ParseAuth, Request;
    AuthExtends(p, c);
    var g := ParseAuth(p);
    assert [] + AUTH_REPLY == AUTH_REPLY;
    if g.Got? {
      GreetingRest(p, c);
      AfterGreeting(g.rest, c);
    }
  }

  lemma GreetingRest(p: seq<Byte>, c: seq<Byte>)
    requires !Mixed(p + c) && |p| >= 3 && p[0] == 5 && ParseAuth(p).Got?
    ensures var r := ParseAuth(p).rest + c; r != [] ==> r[0] == 5
  {
    var n := 2 + p[1] as int;
    assert (p + c)[2..n] == p[2..n] && (p + c)[n..] == p[n..] + c;
  }

  // ---------- every way of cutting a stream ----------

  lemma OneMore(p: seq<Byte>, c: seq<Byte>)
    requires !Uneven(p + c)
    ensures Feed(AtOnce(p), c) == AtOnce(p + c)
  {
    hide FullString, Mixed, Parse4, Decode5, Unread4;
    if |p| >= 3 {
      if p[0] == 4 { Socks4Extends(p, c); } else if p[0] == 5 { Socks5Extends(p, c); }
    }
  }

  /** Whatever spoils a stream spoils every longer one. */
  lemma UnevenStays(p: seq<Byte>, c: seq<Byte>)
    requires Uneven(p)
    ensures Uneven(p + c)
  {
    hide GetNulTerminated, Is4a;
    if FullString(p) {
      SameFixed(p, c);
      StringExtends(p[8..], c);
      StringExtends(GetNulTerminated(p[8..]).rest, c);
    } else {
      assert (p + c)[2..2 + p[1] as int] == p[2..2 + p[1] as int];
    }
  }

  lemma EvenBefore(p: seq<Byte>, x: seq<Byte>)
    requires p <= x && !Uneven(x)
    ensures !Uneven(p)
  {
    hide Uneven;
    assert p + x[|p|..] == x;
    if Uneven(p) { UnevenStays(p, x[|p|..]); }
  }

  lemma {:induction false} EvenChunks(x: seq<Byte>, chunks: seq<seq<Byte>>)
    requires !Uneven(x) && Joined(chunks) <= x
    ensures FeedAll(FRESH, chunks) == AtOnce(Joined(chunks))
  {
    hide Uneven, Feed, AtOnce;
    if chunks == [] {
      NothingRead();
    } else {
      var n := |chunks| - 1;
      var p, c := Joined(chunks[..n]), chunks[n];
      var q := p + c;
      assert p <= x;
      EvenChunks(x, chunks[..n]);
      EvenBefore(q, x);
      OneMore(p, c);
    }
  }

  lemma NothingRead()
    ensures AtOnce([]) == FRESH
  {
  }

  // ---------- and the cuts that spoil it ----------

  lemma TwoChunks(p: seq<Byte>, c: seq<Byte>)
    ensures Joined([p, c]) == p + c && FeedAll(FRESH, [p, c]) == Feed(AtOnce(p), c)
  {
    hide Pre;
    var q := [p, c];
    assert q[..1] == [p];
    JoinedOne(p);
    OneChunk(p);
    assert FRESH.input + p == p;
  }

  /** Up to just before the terminator the string is refused and everything stays unread. */
  lemma FullIsRefused(p: seq<Byte>)
    requires |p| >= 9 && p[0] == 4 && Parse4(p) == Bad && Unread4(p) == p
    ensures Feed(AtOnce(p), [0]) == FRESH.(phase := Dead, input := p + [0])
  {
    hide Parse4, Unread4;
  }

  /** With it, the request is complete, wants more, or is at least consumed. */
  lemma FullIsTaken(q: seq<Byte>)
    requires |q| >= 9 && q[0] == 4 && Parse4(q) != Crash && (Parse4(q) == Bad ==> Unread4(q) != q)
    ensures AtOnce(q) != FRESH.(phase := Dead, input := q)
  {
    hide Parse4, Unread4;
  }

  lemma StringThenNul(b: seq<Byte>)
    requires GetNulTerminated(b).Got? && |GetNulTerminated(b).value| == MAXLEN
    ensures GetNulTerminated(b[..MAXLEN]) == Bad && GetNulTerminated(b[..MAXLEN + 1]) == Got(b[..MAXLEN], [])
    ensures |b| > MAXLEN && b[MAXLEN] == 0
  {
    var s := b[..MAXLEN];
    assert FindNul(b) == MAXLEN;
    assert NulFree(s);
    FullStringAlone(s);
    StringComplete(s, []);
    assert b[..MAXLEN + 1] == s + [0] + [];
  }

  lemma FullUserCut(x: seq<Byte>)
    requires |x| >= 9 && x[0] == 4 && GetNulTerminated(x[8..]).Got? && |GetNulTerminated(x[8..]).value| == MAXLEN
    ensures |x| >= 8 + MAXLEN + 1
    ensures var p, q := x[..8 + MAXLEN], x[..8 + MAXLEN + 1];
            p + [0] == q && Feed(AtOnce(p), [0]) != AtOnce(q)
  {
    hide GetNulTerminated, Is4a, Feed, AtOnce;
    StringThenNul(x[8..]);
    var p, q := x[..8 + MAXLEN], x[..8 + MAXLEN + 1];
    assert p[8..] == x[8..][..MAXLEN] && q[8..] == x[8..][..MAXLEN + 1];
    assert p + [0] == q;
    EmptyString();
    FullIsRefused(p);
    FullIsTaken(q);
  }

  lemma EmptyString()
    ensures GetNulTerminated([]) == More
  {
  }

  /** Where the name ends that follows a shorter user name. */
  lemma FullNameCut(x: seq<Byte>)
    requires |x| >= 9 && x[0] == 4 && Is4a(x[4..8]) && GetNulTerminated(x[8..]).Got?
    requires var h := GetNulTerminated(GetNulTerminated(x[8..]).rest); h.Got? && |h.value| == MAXLEN
    ensures exists n: nat | n < |x| ::
              var p, q := x[..n], x[..n + 1]; p + [0] == q && Feed(AtOnce(p), [0]) != AtOnce(q)
  {
    hide GetNulTerminated, Feed, AtOnce;
    var u := GetNulTerminated(x[8..]);
    UserParts(x[8..]);
    var n := 8 + |u.value| + 1 + MAXLEN;
    StringThenNul(u.rest);
    var p, q := x[..n], x[..n + 1];
    NameCutStrings(x, u.value, u.rest);
    assert p + [0] == q;
    assert p[4..8] == x[4..8] && q[4..8] == x[4..8];
    FullIsRefused(p);
    FullIsTaken(q);
  }

  lemma UserParts(b: seq<Byte>)
    requires GetNulTerminated(b).Got?
    ensures var u := GetNulTerminated(b); b == u.value + [0] + u.rest && NulFree(u.value) && |u.value| <= MAXLEN
  {
  }

  lemma NameCutStrings(x: seq<Byte>, user: seq<Byte>, rest: seq<Byte>)
    requires |x| >= 9 && x[8..] == user + [0] + rest && NulFree(user) && |user| <= MAXLEN && |rest| > MAXLEN
    ensures var n := 8 + |user| + 1 + MAXLEN;
            && n < |x| && x[n] == rest[MAXLEN]
            && GetNulTerminated(x[..n][8..]) == Got(user, rest[..MAXLEN])
            && GetNulTerminated(x[..n + 1][8..]) == Got(user, rest[..MAXLEN + 1])
  {
    hide GetNulTerminated;
    var n := 8 + |user| + 1 + MAXLEN;
    assert x[n] == x[8..][n - 8];
    assert x[..n][8..] == user + [0] + rest[..MAXLEN];
    assert x[..n + 1][8..] == user + [0] + rest[..MAXLEN + 1];
    StringComplete(user, rest[..MAXLEN]);
    StringComplete(user, rest[..MAXLEN + 1]);
  }

  /** At the end of the greeting: read apart, the next byte waits; read together, it is the fatal exit. */
  lemma MixedCut(x: seq<Byte>)
    requires Mixed(x)
    ensures var n := 2 + x[1] as int;
            var p, q := x[..n], x[..n + 1]; p + [x[n]] == q && Feed(AtOnce(p), [x[n]]) != AtOnce(q)
  {
    var n := 2 + x[1] as int;
    var p, q := x[..n], x[..n + 1];
    assert p + [x[n]] == q;
    assert p[2..n] == x[2..n] && q[2..n] == x[2..n] && p[n..] == [] && q[n..] == [x[n]];
    assert ParseAuth(p) == Got((), []) && ParseAuth(q) == Got((), [x[n]]);
    assert |p| >= 3;
    assert AtOnce(p).phase == Dynamic && AtOnce(p).input == [];
    assert Feed(AtOnce(p), [x[n]]).phase == Dynamic;
  }

  ghost predicate Spoils(x: seq<Byte>, chunks: seq<seq<Byte>>) {
    Joined(chunks) <= x && FeedAll(FRESH, chunks) != Feed(FRESH, Joined(chunks))
  }

  lemma SpoiledBy(x: seq<Byte>, n: nat)
    requires n < |x| && Feed(AtOnce(x[..n]), [x[n]]) != AtOnce(x[..n + 1])
    ensures Spoils(x, [x[..n], [x[n]]])
  {
    hide Pre;
    TwoChunks(x[..n], [x[n]]);
    assert x[..n] + [x[n]] == x[..n + 1];
    assert FRESH.input + x[..n + 1] == x[..n + 1];
  }

  lemma UnevenSpoils(x: seq<Byte>) returns (chunks: seq<seq<Byte>>)
    requires Uneven(x)
    ensures Spoils(x, chunks)
  {
    hide Spoils, Feed, AtOnce, GetNulTerminated;
    var n: nat;
    if Mixed(x) {
      n := 2 + x[1] as int;
      MixedCut(x);
    } else if |GetNulTerminated(x[8..]).value| == MAXLEN {
      n := 8 + MAXLEN;
      FullUserCut(x);
      assert x[..n + 1][n] == 0;
    } else {
      FullNameCut(x);
      n :| n < |x| && x[..n] + [0] == x[..n + 1] && Feed(AtOnce(x[..n]), [0]) != AtOnce(x[..n + 1]);
      assert x[..n + 1][n] == 0;
    }
    SpoiledBy(x, n);
    chunks := [x[..n], [x[n]]];
  }

  /** For any bytes whatever: at every point of the stream the decoder's state is the same under every way of cutting
      it, if and only if the stream holds no terminated SOCKS4 string of exactly the maximal length and no SOCKS5
      greeting that is followed by another version's byte. */
  lemma ChunkingMatters(x: seq<Byte>)
    ensures (forall chunks | Joined(chunks) <= x :: FeedAll(FRESH, chunks) == Feed(FRESH, Joined(chunks)))
            <==> !Uneven(x)
  {
    hide Uneven, Joined, FeedAll;
    if Uneven(x) {
      var chunks := UnevenSpoils(x);
      assert Joined(chunks) <= x && FeedAll(FRESH, chunks) != Feed(FRESH, Joined(chunks));
    } else {
      forall chunks | Joined(chunks) <= x ensures FeedAll(FRESH, chunks) == Feed(FRESH, Joined(chunks)) {
        EvenChunks(x, chunks);
        assert FRESH.input + Joined(chunks) == Joined(chunks);
      }
    }
  }
}
