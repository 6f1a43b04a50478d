/** Network addresses: masks, comparison and increment on 32-bit words, and what they compute. */
module Cidr {
  import opened Bytes
  import opened Bits
  import opened BitmapModel
  import opened CidrMath

  datatype Family = Inet | Inet6 | OtherFamily

  function Width(af: Family): nat { match af case Inet => 32 case Inet6 => 128 case OtherFamily => 0 }

  predicate MasklenValid(af: Family, l: nat) { af != OtherFamily && l <= Width(af) }

  /** The address as a number; the words are in host order, most significant first. */
  function Num(af: Family, w: seq<U32>): nat
    requires |w| == 4
  {
    match af case Inet => w[0] case Inet6 => Val4(w) case OtherFamily => 0
  }

  class XAddr {
    var af: Family
    var a32: seq<U32>
    var scope: U32

    predicate Valid()
      reads this
    {
      |a32| == 4
    }

    function N(): nat
      requires Valid()
      reads this
    {
      Num(af, a32)
    }

    constructor ()
      ensures Valid() && af == OtherFamily && scope == 0
    {
      af, a32, scope := OtherFamily, [0, 0, 0, 0], 0;
    }

    /** addr_netmask */
    method Netmask(f: Family, l: U32) returns (r: int)
      modifies this
      ensures r == if MasklenValid(f, l) then 0 else -1
      ensures r != 0 ==> unchanged(this)
      ensures r == 0 ==> Valid() && af == f && N() == NetMask(Width(f), l)
    {
      if !MasklenValid(f, l) { return -1; }
      af, a32, scope := f, [0, 0, 0, 0], 0;
      match f
      case Inet =>
        if l == 0 { return 0; }
        ShiftedOnes(l);
        a32 := a32[0 := 0xffff_ffff * Pow2(32 - l) % TWO32];
        return 0;
      case Inet6 =>
        var i, left := 0, l;
        while i < 4 && left >= 32
          invariant 0 <= i <= 4 && left == l - 32 * i
          invariant |a32| == 4 && af == Inet6
          invariant forall j | 0 <= j < 4 :: a32[j] == if j < i then 0xffff_ffff else 0
        {
          a32 := a32[i := 0xffff_ffff];
          i, left := i + 1, left - 32;
        }
        if i < 4 && left != 0 {
          ShiftedOnes(left);
          a32 := a32[i := 0xffff_ffff * Pow2(32 - left) % TWO32];
        }
        MaskWords(a32, l);
        return 0;
      case OtherFamily => return -1;
    }

    /** addr_invert */
    method Invert() returns (r: int)
      requires Valid()
      modifies `a32
      ensures Valid() && r == (if af == OtherFamily then -1 else 0)
      ensures r == 0 ==> N() == Pow2(Width(af)) - 1 - old(N())
    {
      WordSize();
      Pow128();
      match af
      case Inet =>
        a32 := a32[0 := 0xffff_ffff - a32[0]];
        return 0;
      case Inet6 =>
        a32 := [0xffff_ffff - a32[0], 0xffff_ffff - a32[1], 0xffff_ffff - a32[2], 0xffff_ffff - a32[3]];
        return 0;
      case OtherFamily => return -1;
    }

    /** addr_hostmask */
    method Hostmask(f: Family, l: U32) returns (r: int)
      modifies this
      ensures r == if MasklenValid(f, l) then 0 else -1
      ensures r == 0 ==> Valid() && af == f && N() == HostMask(Width(f), l)
    {
      r := Netmask(f, l);
      if r == -1 { return -1; }
      r := Invert();
    }

    /** addr_and; copying `a` first means that a destination which is also `b` counts as `a` twice. */
    method And(a: XAddr, b: XAddr) returns (r: int)
      requires a.Valid() && b.Valid()
      modifies this
      ensures r == if old(a.af) == old(b.af) && old(a.af) != OtherFamily then 0 else -1
      ensures r == 0 ==> Valid() && af == old(a.af) && scope == old(a.scope)
      ensures r == 0 ==> N() == Bits.And(old(a.N()), if this == b then old(a.N()) else old(b.N()))
    {
      if a.af != b.af { return -1; }
      af, a32, scope := a.af, a.a32, a.scope;
      match af
      case Inet =>
        AndFits(a32[0], b.a32[0]);
        a32 := a32[0 := Bits.And(a32[0], b.a32[0])];
        return 0;
      case Inet6 =>
        ghost var was, other := a32, b.a32;
        for i := 0 to 4
          invariant Valid() && af == old(a.af) && scope == old(a.scope) && (this != b ==> b.a32 == other)
          invariant forall j | 0 <= j < 4 :: a32[j] == if j < i then Bits.And(was[j], other[j]) else was[j]
        {
          AndFits(a32[i], b.a32[i]);
          a32 := a32[i := Bits.And(a32[i], b.a32[i])];
        }
        AndWords(was, other, a32);
        return 0;
      case OtherFamily => return -1;
    }

    /** addr_or */
    method Or(a: XAddr, b: XAddr) returns (r: int)
      requires a.Valid() && b.Valid()
      modifies this
      ensures r == if old(a.af) == old(b.af) && old(a.af) != OtherFamily then 0 else -1
      ensures r == 0 ==> Valid() && af == old(a.af) && scope == old(a.scope)
      ensures r == 0 ==> N() == Bits.Or(old(a.N()), if this == b then old(a.N()) else old(b.N()))
    {
      if a.af != b.af { return -1; }
      af, a32, scope := a.af, a.a32, a.scope;
      match af
      case Inet =>
        OrFits(a32[0], b.a32[0]);
        a32 := a32[0 := Bits.Or(a32[0], b.a32[0])];
        return 0;
      case Inet6 =>
        ghost var was, other := a32, b.a32;
        for i := 0 to 4
          invariant Valid() && af == old(a.af) && scope == old(a.scope) && (this != b ==> b.a32 == other)
          invariant forall j | 0 <= j < 4 :: a32[j] == if j < i then Bits.Or(was[j], other[j]) else was[j]
        {
          OrFits(a32[i], b.a32[i]);
          a32 := a32[i := Bits.Or(a32[i], b.a32[i])];
        }
        OrWords(was, other, a32);
        return 0;
      case OtherFamily => return -1;
    }

    /** addr_cmp: IPv6 addresses are compared a byte at a time, then by scope. */
    method Cmp(b: XAddr) returns (r: int)
      requires Valid() && b.Valid()
      ensures af != b.af ==> r == if af == Inet6 then 1 else -1
      ensures af == b.af == Inet ==> Sign(r) == Sign(N() - b.N())
      ensures af == b.af == Inet6 && N() != b.N() ==> Sign(r) == Sign(N() - b.N())
      ensures af == b.af == Inet6 && N() == b.N() ==> Sign(r) == Sign(scope - b.scope)
      ensures af == b.af == OtherFamily ==> r == -1
    {
      if af != b.af { return if af == Inet6 then 1 else -1; }
      match af
      case Inet =>
        if a32[0] == b.a32[0] { return 0; }
        return if a32[0] > b.a32[0] then 1 else -1;
      case Inet6 =>
        for i := 0 to 16
          invariant forall j | 0 <= j < i :: AddrByte(a32, j) == AddrByte(b.a32, j)
        {
          if AddrByte(a32, i) - AddrByte(b.a32, i) != 0 {
            FirstByteDecides(a32, b.a32, i);
            return AddrByte(a32, i) - AddrByte(b.a32, i);
          }
        }
        SameBytes(a32, b.a32);
        if scope == b.scope { return 0; }
        return if scope > b.scope then 1 else -1;
      case OtherFamily => return -1;
    }

    /** addr_is_all0s */
    method IsAll0s() returns (r: int)
      requires Valid()
      ensures r == if af != OtherFamily && N() == 0 then 0 else -1
    {
      match af
      case Inet => return if a32[0] == 0 then 0 else -1;
      case Inet6 =>
        for i := 0 to 4
          invariant forall j | 0 <= j < i :: a32[j] == 0
        {
          if a32[i] != 0 { return -1; }
        }
        return 0;
      case OtherFamily => return -1;
    }

    /** addr_increment: add one with carry, wrapping around at the end. */
    method Increment()
      requires Valid()
      modifies `a32
      ensures Valid() && (af != OtherFamily ==> N() == Next(old(N()), Width(af)))
    {
      hide Val4, Pow2;
      match af
      case Inet =>
        assert Pow2(32) == TWO32 by { WordSize(); }
        a32 := a32[0 := (a32[0] + 1) % TWO32];
      case Inet6 =>
        var i := 0;
        var carry := true;
        while i < 4 && carry
          invariant 0 <= i <= 4 && Valid()
          invariant carry ==> forall j | 0 <= j < 4 ::
            a32[j] == (if j > 3 - i then 0 else old(a32)[j]) && (j > 3 - i ==> old(a32)[j] == 0xffff_ffff)
          invariant !carry ==> Val4(a32) == Val4(old(a32)) + 1
          decreases 4 - i, carry
        {
          var n := (a32[3 - i] + 1) % TWO32;
          a32 := a32[3 - i := n];
          if n != 0 {
            carry := false;
            CarryStops(old(a32), a32, i);
          } else {
            i := i + 1;
          }
        }
        Carried(old(a32), a32, carry);
      case OtherFamily =>
    }

    /** addr_host_is_all0s: 0 exactly when the address starts a block of that size. */
    method HostIsAll0s(masklen: U32) returns (r: int)
      requires Valid()
      ensures r == if MasklenValid(af, masklen) && N() % Pow2(Width(af) - masklen) == 0 then 0 else -1
    {
      var mask := new XAddr();
      var result := new XAddr();
      r := mask.Hostmask(af, masklen);
      if r == -1 { return -1; }
      AndHostMask(N(), Width(af), masklen);
      r := result.And(this, mask);
      if r == -1 { return -1; }
      r := result.IsAll0s();
    }

    /** addr_host_to_all1s: move to the last address of the block. */
    method HostToAll1s(masklen: U32) returns (r: int)
      requires Valid()
      modifies this
      ensures r == if MasklenValid(af, masklen) then 0 else -1
      ensures r != 0 ==> unchanged(this)
      ensures r == 0 ==> Valid() && af == old(af) && scope == old(scope) && N() == Last(old(N()), Width(af), masklen)
    {
      var mask := new XAddr();
      r := mask.Hostmask(af, masklen);
      if r == -1 { return -1; }
      OrHostMask(N(), Width(af), masklen);
      r := Or(this, mask);
    }

    /** addr_netmatch: 0 exactly when `net` starts a block and this address lies in it. */
    method Netmatch(net: XAddr, masklen: U32) returns (r: int)
      requires Valid() && net.Valid()
      ensures r == 0 <==>
              && af == net.af && MasklenValid(af, masklen) && (af == Inet6 ==> scope == net.scope)
              && net.N() % Pow2(Width(af) - masklen) == 0
              && net.N() <= N() <= Last(net.N(), Width(af), masklen)
    {
      hide Pow2, Bits.And, Val4, NetMask;
      if af != net.af { return -1; }
      var mask := new XAddr();
      var result := new XAddr();
      r := mask.Netmask(af, masklen);
      if r == -1 { return -1; }
      r := result.And(this, mask);
      if r == -1 { return -1; }
      NumBound(af, a32);
      AndNetMask(N(), Width(af), masklen);
      BlockIsInterval(N(), net.N(), Width(af) - masklen);
      r := result.Cmp(net);
    }
  }

  function Sign(x: int): int { if x < 0 then -1 else if x > 0 then 1 else 0 }

  /** The last address of the block of prefix length l that x lies in. */
  function Last(x: nat, w: nat, l: nat): nat
    requires l <= w
  {
    x - x % Pow2(w - l) + Pow2(w - l) - 1
  }

  // ---------- words, bytes and numbers ----------

  lemma Pow128()
    ensures Pow2(128) == TWO32 * TWO32 * TWO32 * TWO32
  {
    WordSize();
    Pow2Add(32, 32);
    Pow2Add(64, 64);
  }

  lemma Val4Bound(w: seq<U32>)
    requires |w| == 4
    ensures Val4(w) < Pow2(128)
  {
    Pow128();
  }

  /** Adding one to word 3 - i after the lower words have wrapped adds one to the number. */
  lemma CarryStops(v: seq<U32>, w: seq<U32>, i: nat)
    requires |v| == |w| == 4 && i < 4 && w[3 - i] as int == v[3 - i] as int + 1
    requires forall j | 0 <= j < 4 && j != 3 - i ::
               w[j] == (if j > 3 - i then 0 else v[j]) && (j > 3 - i ==> v[j] == 0xffff_ffff)
    ensures Val4(w) == Val4(v) + 1
  {
  }

  lemma Carried(v: seq<U32>, w: seq<U32>, carry: bool)
    requires |v| == |w| == 4
    requires !carry ==> Val4(w) == Val4(v) + 1
    requires carry ==> forall j | 0 <= j < 4 :: v[j] == 0xffff_ffff && w[j] == 0
    ensures Val4(w) == Next(Val4(v), 128)
  {
    Pow128();
    Val4Bound(w);
    if !carry { NextIs(Val4(v), 128); }
  }

  lemma NumBound(af: Family, w: seq<U32>)
    requires |w| == 4
    ensures Num(af, w) < Pow2(Width(af))
  {
    WordSize();
    Val4Bound(w);
  }

  lemma Val4Bits(w: seq<U32>, k: nat)
    requires |w| == 4
    ensures Bit(Val4(w), k) <==> k < 128 && Bit(w[3 - k / 32], k % 32)
  {
    var b := Join(w[0], w[1]);
    var c := Join(b, w[2]);
    JoinBits(c, w[3], k);
    if k >= 32 { JoinBits(b, w[2], k - 32); }
    if k >= 64 { JoinBits(w[0], w[1], k - 64); }
    if k >= 128 { WordSize(); BitBound(w[0], 32, k - 96); }
  }

  lemma ShiftedOnes(l: nat)
    requires 0 < l <= 32
    ensures 0xffff_ffff * Pow2(32 - l) % TWO32 == NetMask(32, l)
  {
    WordSize();
    var p := Pow2(32 - l);
    Pow2Mono(32 - l, 31);
    assert 0xffff_ffff * p == TWO32 * (p - 1) + (TWO32 - p);
    QuotientIs(0xffff_ffff * p, TWO32, p - 1, TWO32 - p);
  }

  lemma MaskWords(w: seq<U32>, l: nat)
    requires |w| == 4 && l <= 128
    requires forall j | 0 <= j < 4 ::
               w[j] == if 32 * (j + 1) <= l then 0xffff_ffff else if l <= 32 * j then 0 else NetMask(32, l - 32 * j)
    ensures Val4(w) == NetMask(128, l)
  {
    hide Val4, Bit;
    WordSize();
    forall k: nat ensures Bit(Val4(w), k) == Bit(NetMask(128, l), k) {
      Val4Bits(w, k);
      NetMaskBits(128, l, k);
      if k < 128 {
        var j := 3 - k / 32;
        OnesBits(32, k % 32);
        BitZero(k % 32);
        if 32 * j < l < 32 * (j + 1) { NetMaskBits(32, l - 32 * j, k % 32); }
      }
    }
    Ext(Val4(w), NetMask(128, l));
  }

  lemma AndWords(a: seq<U32>, b: seq<U32>, c: seq<U32>)
    requires |a| == |b| == |c| == 4 && forall j | 0 <= j < 4 :: c[j] == And(a[j], b[j])
    ensures Val4(c) == And(Val4(a), Val4(b))
  {
    JoinAnd(a[0], a[1], b[0], b[1]);
    JoinAnd(Join(a[0], a[1]), a[2], Join(b[0], b[1]), b[2]);
    JoinAnd(Join(Join(a[0], a[1]), a[2]), a[3], Join(Join(b[0], b[1]), b[2]), b[3]);
  }

  lemma OrWords(a: seq<U32>, b: seq<U32>, c: seq<U32>)
    requires |a| == |b| == |c| == 4 && forall j | 0 <= j < 4 :: c[j] == Or(a[j], b[j])
    ensures Val4(c) == Or(Val4(a), Val4(b))
  {
    JoinOr(a[0], a[1], b[0], b[1]);
    JoinOr(Join(a[0], a[1]), a[2], Join(b[0], b[1]), b[2]);
    JoinOr(Join(Join(a[0], a[1]), a[2]), a[3], Join(Join(b[0], b[1]), b[2]), b[3]);
  }

  /** addr8[i], the i-th byte in network order. */
  function AddrByte(w: seq<U32>, i: nat): Byte
    requires |w| == 4 && i < 16
  {
    Shr(w[i / 4], 24 - 8 * (i % 4)) % 256
  }

  function AddrBytes(w: seq<U32>): seq<Byte>
    requires |w| == 4
  {
    seq(16, i requires 0 <= i < 16 => AddrByte(w, i))
  }

  lemma BytesValue(w: seq<U32>)
    requires |w| == 4
    ensures Value(AddrBytes(w)) == Val4(w)
  {
    hide Value, Val4, AddrByte, Bit;
    var s := AddrBytes(w);
    forall k: nat ensures Bit(Value(s), k) == Bit(Val4(w), k) {
      ValueBits(s, k);
      Val4Bits(w, k);
      if k < 128 { AddrByteBit(w, 15 - k / 8, k % 8); }
    }
    Ext(Value(s), Val4(w));
  }

  lemma AddrByteBit(w: seq<U32>, i: nat, k: nat)
    requires |w| == 4 && i < 16 && k < 8
    ensures Bit(AddrByte(w, i), k) <==> Bit(w[i / 4], 24 - 8 * (i % 4) + k)
  {
    WordSize();
    var x, s := w[i / 4], 24 - 8 * (i % 4);
    BitMod(Shr(x, s), 8, k);
    BitShr(x, s, k);
  }

  /** The first differing byte decides the order of the numbers. */
  lemma {:induction false} Lexicographic(s: seq<Byte>, t: seq<Byte>, i: nat)
    requires |s| == |t| && i < |s| && s[..i] == t[..i] && s[i] < t[i]
    ensures Value(s) < Value(t)
  {
    var n := |s| - 1;
    if i < n {
      assert s[..n][..i] == s[..i] && t[..n][..i] == t[..i];
      Lexicographic(s[..n], t[..n], i);
    } else {
      assert s[..n] == t[..n];
    }
  }

  lemma FirstByteDecides(a: seq<U32>, b: seq<U32>, i: nat)
    requires |a| == |b| == 4 && i < 16 && AddrByte(a, i) != AddrByte(b, i)
    requires forall j | 0 <= j < i :: AddrByte(a, j) == AddrByte(b, j)
    ensures Sign(AddrByte(a, i) - AddrByte(b, i)) == Sign(Val4(a) - Val4(b)) != 0
  {
    var s, t := AddrBytes(a), AddrBytes(b);
    BytesValue(a);
    BytesValue(b);
    assert s[..i] == t[..i];
    if s[i] < t[i] { Lexicographic(s, t, i); } else { Lexicographic(t, s, i); }
  }

  lemma SameBytes(a: seq<U32>, b: seq<U32>)
    requires |a| == |b| == 4 && forall j | 0 <= j < 16 :: AddrByte(a, j) == AddrByte(b, j)
    ensures Val4(a) == Val4(b)
  {
    BytesValue(a);
    BytesValue(b);
    assert AddrBytes(a) == AddrBytes(b);
  }

  // ---------- walking a block ----------

  function Next(x: nat, w: nat): nat { (x + 1) % Pow2(w) }

  /** The number after k increments of a w-bit address. */
  function After(x: nat, w: nat, k: nat): nat {
    if k == 0 then x else Next(After(x, w, k - 1), w)
  }

  lemma NextIs(x: nat, w: nat)
    requires x + 1 < Pow2(w)
    ensures Next(x, w) == x + 1
  {
    QuotientIs(x + 1, Pow2(w), 0, x + 1);
  }

  lemma {:induction false} AfterIs(x: nat, w: nat, k: nat)
    requires x + k < Pow2(w)
    ensures After(x, w, k) == x + k
  {
    hide Pow2, Next;
    if k > 0 {
      AfterIs(x, w, k - 1);
      NextIs(x + k - 1, w);
    }
  }

  /** Incrementing from the first address of a block reaches the last one after exactly
      2^(w-l) - 1 steps, and passes through every address of the block on the way. */
  lemma WalkBlock(net: nat, w: nat, l: nat, k: nat)
    requires l <= w && net < Pow2(w) && net % Pow2(w - l) == 0 && k < Pow2(w - l)
    ensures After(net, w, k) == net + k
    ensures After(net, w, k) == Last(net, w, l) <==> k == Pow2(w - l) - 1
  {
    BlockFits(net, w, l);
    AfterIs(net, w, k);
  }

  lemma BlockFits(net: nat, w: nat, l: nat)
    requires l <= w && net < Pow2(w) && net % Pow2(w - l) == 0
    ensures net + Pow2(w - l) <= Pow2(w)
  {
    hide Pow2;
    var p, q, n := Pow2(w - l), net / Pow2(w - l), Pow2(l);
    Pow2Add(l, w - l);
    assert n * p == p * n;
    assert net == p * q;
    if q >= n {
      MulMono(p, n, q);
      assert false;
    }
    MulMono(p, q + 1, n);
    assert p * (q + 1) == p * q + p;
  }

  /** Counting up on the address itself: from the first address of a block, k increments give its k-th address, and
      the last one of the block exactly when none is left. */
  method Walk(x: XAddr, l: nat, k: nat)
    requires x.Valid() && x.af != OtherFamily && l <= Width(x.af)
    requires x.N() < Pow2(Width(x.af)) && x.N() % Pow2(Width(x.af) - l) == 0 && k < Pow2(Width(x.af) - l)
    modifies x`a32
    ensures x.Valid() && x.N() == old(x.N()) + k
    ensures x.N() == Last(old(x.N()), Width(x.af), l) <==> k == Pow2(Width(x.af) - l) - 1
  {
    hide Pow2, Last, Next;
    for i := 0 to k
      invariant x.Valid() && x.N() == After(old(x.N()), Width(x.af), i)
    {
      x.Increment();
    }
    WalkBlock(old(x.N()), Width(x.af), l, k);
  }
}
