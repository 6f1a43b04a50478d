/** Sets of naturals held as words or as big-endian byte strings. */
module BitmapModel {
  import opened Bytes
  import opened Bits

  const BITMAP_MAX := 0x100_0000

  // ---------- words ----------

  predicate InWords(d: seq<U32>, n: nat) { n / 32 < |d| && Bit(d[n / 32], n % 32) }

  ghost function Elems(d: seq<U32>): set<nat> { set n: nat | n < 32 * |d| && InWords(d, n) }

  lemma ElemsIs(d: seq<U32>, n: nat)
    ensures n in Elems(d) <==> InWords(d, n)
  {
  }

  lemma WordSize()
    ensures Pow2(32) == TWO32 && Pow2(31) == 0x8000_0000 && Pow2(8) == 256 && Pow2(24) == 0x100_0000
  {
    assert Pow2(8) == 256;
    assert Pow2(16) == 0x1_0000;
    assert Pow2(24) == 0x100_0000;
    assert Pow2(31) == 0x8000_0000;
    assert Pow2(32) == 2 * Pow2(31);
  }

  lemma {:induction false} Pow2Mono(m: nat, n: nat)
    requires m <= n
    ensures Pow2(m) <= Pow2(n)
    decreases n
  {
    if m < n { Pow2Mono(m, n - 1); }
  }

  /** The operators stay within a word. */
  lemma OrFits(x: U32, y: U32)
    ensures Or(x, y) < TWO32
  {
    WordSize();
    forall k: nat | k >= 32 ensures !Bit(Or(x, y), k) {
      BitOr(x, y, k);
      BitBound(x, 32, k);
      BitBound(y, 32, k);
    }
    BoundBit(Or(x, y), 32);
  }

  lemma {:induction false} AndNotFits(x: nat, y: nat)
    ensures AndNot(x, y) <= x
  {
    if x > 0 { AndNotFits(x / 2, y / 2); }
  }

  /** Changing one word changes membership only at that word's digits. */
  lemma SetWord(d: seq<U32>, n: nat)
    requires n / 32 < |d|
    ensures Pow2(n % 32) < TWO32 && Or(d[n / 32], Pow2(n % 32)) < TWO32
    ensures Elems(d[n / 32 := Or(d[n / 32], Pow2(n % 32))]) == Elems(d) + {n}
  {
    hide Or, Pow2, Bit;
    WordSize();
    Pow2Mono(n % 32, 31);
    OrFits(d[n / 32], Pow2(n % 32));
    var e := d[n / 32 := Or(d[n / 32], Pow2(n % 32))];
    forall m: nat ensures m in Elems(e) <==> m in Elems(d) || m == n {
      if m / 32 == n / 32 {
        BitOr(d[n / 32], Pow2(n % 32), m % 32);
        BitPow2(n % 32, m % 32);
      }
    }
  }

  lemma ClearWord(d: seq<U32>, n: nat)
    requires n / 32 < |d|
    ensures AndNot(d[n / 32], Pow2(n % 32)) < TWO32
    ensures Elems(d[n / 32 := AndNot(d[n / 32], Pow2(n % 32))]) == Elems(d) - {n}
  {
    AndNotFits(d[n / 32], Pow2(n % 32));
    var e := d[n / 32 := AndNot(d[n / 32], Pow2(n % 32))];
    forall m: nat ensures m in Elems(e) <==> m in Elems(d) && m != n {
      if m / 32 == n / 32 {
        BitAndNot(d[n / 32], Pow2(n % 32), m % 32);
        BitPow2(n % 32, m % 32);
      }
    }
  }

  /** Zero words hold nothing, wherever they are. */
  lemma ZeroWords(d: seq<U32>, e: seq<U32>)
    requires forall i | 0 <= i < |d| :: if i < |e| then e[i] == d[i] else d[i] == 0
    requires forall i | 0 <= i < |e| :: if i < |d| then e[i] == d[i] else e[i] == 0
    ensures Elems(d) == Elems(e)
  {
    forall n: nat ensures n in Elems(d) <==> n in Elems(e) { BitZero(n % 32); }
  }

  // ---------- big-endian bytes ----------

  predicate InBytes(s: seq<Byte>, n: nat) { n / 8 < |s| && Bit(s[|s| - 1 - n / 8], n % 8) }

  ghost function BigEndian(s: seq<Byte>): set<nat> { set n: nat | n < 8 * |s| && InBytes(s, n) }

  /** No leading zero byte. */
  predicate Minimal(s: seq<Byte>) { s == [] || s[0] != 0 }

  /** The number the bytes spell out. */
  function Value(s: seq<Byte>): nat {
    if s == [] then 0 else 256 * Value(s[..|s| - 1]) + s[|s| - 1]
  }

  /** Its binary digits are the members: it is the sum of 2^n over the set. */
  lemma {:induction false} ValueBits(s: seq<Byte>, n: nat)
    ensures Bit(Value(s), n) <==> n in BigEndian(s)
    decreases |s|
  {
    if s == [] {
      BitZero(n);
    } else {
      var t := s[..|s| - 1];
      var low := s[|s| - 1];
      WordSize();
      if n < 8 {
        BitMod(Value(s), 8, n);
        QuotientIs(Value(s), 256, Value(t), low);
      } else {
        ValueBits(t, n - 8);
        QuotientIs(Value(s), 256, Value(t), low);
        BitShr(Value(s), 8, n - 8);
        assert (n - 8) / 8 == n / 8 - 1 && (n - 8) % 8 == n % 8;
      }
    }
  }

  /** Only one string without leading zeros holds a given set. */
  lemma MinimalUnique(s: seq<Byte>, t: seq<Byte>)
    requires Minimal(s) && Minimal(t) && BigEndian(s) == BigEndian(t)
    ensures s == t
  {
    NoLonger(s, t);
    NoLonger(t, s);
    forall i | 0 <= i < |s| ensures s[i] == t[i] {
      SameByte(s, t, i);
    }
  }

  lemma SameByte(s: seq<Byte>, t: seq<Byte>, i: nat)
    requires |s| == |t| && BigEndian(s) == BigEndian(t) && i < |s|
    ensures s[i] == t[i]
  {
    WordSize();
    forall k: nat ensures Bit(s[i], k) == Bit(t[i], k) {
      if k < 8 {
        var n := 8 * (|s| - 1 - i) + k;
        assert n / 8 == |s| - 1 - i && n % 8 == k;
        assert n in BigEndian(s) <==> n in BigEndian(t);
      } else {
        BitBound(s[i], 8, k);
        BitBound(t[i], 8, k);
      }
    }
    Ext(s[i], t[i]);
  }

  /** A non-zero leading byte cannot be missing from an equal set. */
  lemma NoLonger(s: seq<Byte>, t: seq<Byte>)
    requires Minimal(s) && BigEndian(s) == BigEndian(t)
    ensures |s| <= |t|
  {
    if s != [] {
      var k := SomeBit(s[0]);
      var n := 8 * (|s| - 1) + k;
      assert n / 8 == |s| - 1 && n % 8 == k;
      assert n in BigEndian(s);
      assert n in BigEndian(t);
    }
  }

  lemma SomeBit(b: Byte) returns (k: nat)
    requires b != 0
    ensures k < 8 && Bit(b, k)
  {
    WordSize();
    if forall j: nat | j < 8 :: !Bit(b, j) {
      forall j: nat ensures Bit(b, j) == Bit(0, j) {
        BitZero(j);
        if j >= 8 { BitBound(b, 8, j); }
      }
      Ext(b, 0);
      assert false;
    }
    k :| k < 8 && Bit(b, k);
  }

  function Strip(s: seq<Byte>): (t: seq<Byte>)
    ensures Minimal(t)
  {
    if s != [] && s[0] == 0 then Strip(s[1..]) else s
  }

  lemma {:induction false} StripSame(s: seq<Byte>)
    ensures BigEndian(Strip(s)) == BigEndian(s)
  {
    if s != [] && s[0] == 0 {
      var t := s[1..];
      StripSame(t);
      forall n: nat ensures n in BigEndian(t) <==> n in BigEndian(s) {
        BitZero(n % 8);
        if n / 8 < |t| { assert t[|t| - 1 - n / 8] == s[|s| - 1 - n / 8]; }
      }
    }
  }

  // ---------- round trips ----------

  /** Writing out a bitmap that was read from `s` gives `s` without its leading zeros. */
  lemma WriteAfterRead(s: seq<Byte>, t: seq<Byte>)
    requires Minimal(t) && BigEndian(t) == BigEndian(s)
    ensures t == Strip(s)
  {
    StripSame(s);
    MinimalUnique(t, Strip(s));
  }

  /** A written string is short enough to be read back exactly when no element is BITMAP_MAX. */
  lemma ReadAfterWrite(t: seq<Byte>)
    requires Minimal(t) && forall n | n in BigEndian(t) :: n <= BITMAP_MAX
    ensures |t| <= BITMAP_MAX / 8 <==> BITMAP_MAX !in BigEndian(t)
  {
    if |t| > BITMAP_MAX / 8 {
      var k := SomeBit(t[0]);
      var n := 8 * (|t| - 1) + k;
      assert n / 8 == |t| - 1 && n % 8 == k;
      assert n in BigEndian(t);
      assert n == BITMAP_MAX;
    }
  }

  /** The top bit is accepted by bitmap_set_bit, yet its string is refused. */
  lemma TopBitDoesNotReturn()
    ensures var t := [1] + seq(BITMAP_MAX / 8, _ => 0);
            Minimal(t) && BITMAP_MAX in BigEndian(t) && |t| > BITMAP_MAX / 8
  {
    var t: seq<Byte> := [1] + seq(BITMAP_MAX / 8, _ => 0);
    assert t[|t| - 1 - BITMAP_MAX / 8] == 1;
  }
}
