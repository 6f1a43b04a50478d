/** The growable bitmap: words in an array, the number of words, and the index of the top word. */
module BitmapObject {
  import opened Bytes
  import opened Bits
  import opened BitmapModel

  class Bitmap {
    var d: array<U32>
    var len: nat
    var top: nat

    ghost function Set(): set<nat>
      reads this, d
    {
      Elems(d[..])
    }

    /** `top` is a word, every word above it is zero, and no element exceeds the maximum. */
    ghost predicate Valid()
      reads this, d
    {
      && len == d.Length && top < len
      && (forall i | top < i < len :: d[i] == 0)
      && (forall n | n in Set() :: n <= BITMAP_MAX)
    }

    /** bitmap_new */
    constructor ()
      ensures Valid() && fresh(d) && Set() == {}
    {
      d := new U32[1](_ => 0);
      len, top := 1, 0;
      new;
      ZeroWords(d[..], []);
    }

    /** bitmap_zero */
    method Zero()
      requires Valid()
      modifies d, `top
      ensures Valid() && Set() == {} && top == 0
    {
      forall i | 0 <= i < len { d[i] := 0; }
      top := 0;
      ZeroWords(d[..], []);
    }

    /** bitmap_test_bit */
    method TestBit(n: U32) returns (r: bool)
      requires Valid()
      ensures r <==> n in Set()
    {
      ElemsIs(d[..], n);
      BitZero(n % 32);
      if len == 0 || n / 32 > top { return false; }
      BitShr(d[n / 32], n % 32, 0);
      return Shr(d[n / 32], n % 32) % 2 == 1;
    }

    /** reserve: grow the array, with zeros, until it has a word for `n`. */
    method Reserve(n: U32) returns (ok: bool)
      requires Valid()
      modifies `d, `len
      ensures Valid() && Set() == old(Set()) && (d == old(d) || fresh(d))
      ensures ok == (n <= BITMAP_MAX) && (ok ==> n / 32 < len)
      ensures !ok ==> d == old(d)
    {
      if top >= len || n > BITMAP_MAX { return false; }
      var nlen := n / 32 + 1;
      if len < nlen {
        var tmp := new U32[nlen](_ => 0);
        forall i | 0 <= i < len { tmp[i] := d[i]; }
        ZeroWords(d[..], tmp[..]);
        d := tmp;
        len := nlen;
      }
      return true;
    }

    /** bitmap_set_bit */
    method SetBit(n: U32) returns (ok: bool)
      requires Valid()
      modifies this, d
      ensures Valid() && (d == old(d) || fresh(d))
      ensures ok == (n <= BITMAP_MAX)
      ensures Set() == if ok then old(Set()) + {n} else old(Set())
    {
      ok := Reserve(n);
      if !ok { return; }
      var offset := n / 32;
      SetWord(d[..], n);
      if offset > top { top := offset; }
      d[offset] := Or(d[offset], Pow2(n % 32));
    }

    /** retop */
    method Retop()
      requires Valid()
      modifies `top
      ensures Valid() && Set() == old(Set()) && top <= old(top)
      ensures top == 0 || d[top] != 0
    {
      if top >= len { return; }
      while top > 0 && d[top] == 0
        invariant Valid() && Set() == old(Set()) && top <= old(top)
        decreases top
      {
        top := top - 1;
      }
    }

    /** bitmap_clear_bit */
    method ClearBit(n: U32)
      requires Valid()
      modifies d, `top
      ensures Valid() && Set() == old(Set()) - {n}
    {
      ElemsIs(d[..], n);
      BitZero(n % 32);
      if top >= len || n > BITMAP_MAX { return; }
      var offset := n / 32;
      if offset > top { return; }
      ClearWord(d[..], n);
      d[offset] := AndNot(d[offset], Pow2(n % 32));
      Retop();
    }

    /** bitmap_nbits: one more than the greatest element, or 0. */
    method NBits() returns (bits: nat)
      requires Valid()
      modifies `top
      ensures Valid() && Set() == old(Set())
      ensures Set() == {} ==> bits == 0
      ensures Set() != {} ==> bits > 0 && bits - 1 in Set() && forall n | n in Set() :: n < bits
      ensures bits <= 32 * (top + 1) && (bits == 0 || 32 * top < bits)
    {
      bits := 0;
      Retop();
      if top >= len { return; }
      if len == 0 || (top == 0 && d[0] == 0) {
        ZeroWords(d[..], []);
        return;
      }
      var c := LeadingZeros(d[top]);
      bits := (top + 1) * 32 - c;
      Greatest(d[..], top, c);
    }

    /** bitmap_nbytes */
    method NBytes() returns (n: nat)
      requires Valid()
      modifies `top
      ensures Valid() && Set() == old(Set())
      ensures n <= 4 * (top + 1)
      ensures Set() == {} ==> n == 0
      ensures Set() != {} ==> n > 0 && (exists m | m in Set() :: m / 8 == n - 1) && forall m | m in Set() :: m / 8 < n
    {
      var bits := NBits();
      n := (bits + 7) / 8;
      if Set() != {} { assert (bits - 1) / 8 == n - 1; }
    }

    /** bitmap_to_string: the shortest big-endian string, or failure exactly if the buffer is too small for it. */
    method ToString(s: array<Byte>, size: nat) returns (ok: bool, ghost need: nat)
      requires Valid() && size <= s.Length && s as object != d
      modifies `top, s
      ensures Valid() && Set() == old(Set())
      ensures Set() == {} ==> need == 0
      ensures Set() != {} ==> need > 0 && exists m | m in Set() :: m / 8 == need - 1
      ensures forall m | m in Set() :: m / 8 < need
      ensures ok == (size >= need) && (!ok ==> s[..] == old(s[..]))
      ensures ok ==> need <= s.Length && s[need..] == old(s[need..])
      ensures ok ==> BigEndian(s[..need]) == Set() && Minimal(s[..need])
    {
      var count := NBytes();
      need := count;
      if size < count || top >= len { return false, need; }
      var l := if size > count then count else size;
      WriteBytes(d, s, top, l);
      Written(d[..], s[..count]);
      return true, need;
    }

    /** bitmap_from_string */
    method FromString(s: seq<Byte>) returns (ok: bool)
      requires Valid()
      modifies this, d
      ensures Valid() && (d == old(d) || fresh(d))
      ensures ok == (|s| <= BITMAP_MAX / 8)
      ensures Set() == if ok then BigEndian(s) else old(Set())
    {
      hide ReadSoFar, Elems, Or, Pow2, BigEndian;
      var l := |s|;
      if l > BITMAP_MAX / 8 { return false; }
      ok := Reserve(l * 8);
      Zero();
      if l == 0 {
        assert BigEndian(s) == {} by { NoBytes(); }
        return true;
      }
      top := (l + 3) / 4 - 1;
      NoneRead(d[..], s);
      ReadBytes(d, s);
      AllRead(d[..], s);
      Retop();
    }
  }

  /** A bitmap written out and read into another one: the set arrives exactly if it does not hold the largest number. */
  method WriteThenRead(b: Bitmap, c: Bitmap, s: array<Byte>) returns (ok: bool)
    requires b.Valid() && c.Valid() && b != c && b.d != c.d && s as object != b.d && s as object != c.d
    requires s.Length > BITMAP_MAX / 8
    modifies b`top, s, c, c.d
    ensures b.Valid() && c.Valid() && b.Set() == old(b.Set())
    ensures ok <==> BITMAP_MAX !in b.Set()
    ensures c.Set() == if ok then b.Set() else old(c.Set())
  {
    var fits;
    ghost var need;
    fits, need := b.ToString(s, s.Length);
    assert fits;
    var n := b.NBytes();
    assert n == need;
    ReadAfterWrite(s[..n]);
    ok := c.FromString(s[..n]);
  }

  /** The loop of bitmap_from_string: bytes from the front of the string to the top of the words. */
  method ReadBytes(d: array<U32>, s: seq<Byte>)
    requires 0 < |s| <= 4 * d.Length && ReadSoFar(d[..], s, 0)
    modifies d
    ensures ReadSoFar(d[..], s, |s|)
    ensures forall j | (|s| - 1) / 4 < j < d.Length :: d[j] == old(d[j])
  {
    hide ReadSoFar, Or, Pow2;
    var l := |s|;
    var offset: int, shift := (l + 3) / 4 - 1, (l + 3) % 4 * 8;
    var i := 0;
    while i < l
      invariant 0 <= i <= l && offset == (l - 1 - i) / 4 && shift == (l - 1 - i) % 4 * 8
      invariant forall j | (l - 1) / 4 < j < d.Length :: d[j] == old(d[j])
      invariant ReadSoFar(d[..], s, i)
    {
      ReadByte(d[..], s, i);
      NextPlace(l - 1 - i);
      d[offset] := Or(d[offset], s[i] * Pow2(shift));
      if shift == 0 {
        offset := offset - 1;
        shift := 24;
      } else {
        shift := shift - 8;
      }
      i := i + 1;
    }
  }

  /** The two loops of bitmap_to_string: bytes from the bottom of the words to the end of the string. */
  method WriteBytes(d: array<U32>, s: array<Byte>, top: nat, count: nat)
    requires top < d.Length && count <= 4 * (top + 1) && count <= s.Length && s as object != d
    modifies s
    ensures forall m | 0 <= m < count :: s[count - 1 - m] == WordByte(d[..], m)
    ensures s[count..] == old(s[count..])
  {
    hide WordByte, Shr;
    var i, k := 0, 0;
    while i < top + 1
      invariant 0 <= i <= top + 1 && k == Min(4 * i, count)
      invariant forall m | 0 <= m < k :: s[count - 1 - m] == WordByte(d[..], m)
      invariant s[count..] == old(s[count..])
      modifies s
    {
      var j := 0;
      while j < 4 && k < count
        invariant 0 <= j <= 4 && k == Min(4 * i + j, count)
        invariant forall m | 0 <= m < k :: s[count - 1 - m] == WordByte(d[..], m)
        invariant s[count..] == old(s[count..])
        modifies s
      {
        ByteOf(d[..], i, j);
        s[count - 1 - k] := Shr(d[i], 8 * j) % 256;
        k := k + 1;
        j := j + 1;
      }
      i := i + 1;
    }
  }

  lemma ByteOf(d: seq<U32>, i: nat, j: nat)
    requires i < |d| && j < 4
    ensures WordByte(d, 4 * i + j) == Shr(d[i], 8 * j) % 256
  {
  }

  /** The shifting loop of bitmap_nbits: how far a non-zero word is from showing its top bit. */
  method LeadingZeros(x: U32) returns (c: nat)
    requires x > 0
    ensures c <= 31 && Bit(x, 31 - c) && forall k: nat | k > 31 - c :: !Bit(x, k)
  {
    hide Bit, Pow2;
    var w: U32 := x;
    c := 0;
    NoShift(x);
    while !Bit(w, 31)
      invariant w == x * Pow2(c) && 0 < w < TWO32
      decreases TWO32 - w
    {
      OneShift(x, c, w);
      w := 2 * w % TWO32;
      c := c + 1;
    }
    TopBit(x, c, w);
    forall k: nat | k > 31 - c ensures !Bit(x, k) { NoHigherBit(x, c, k); }
  }

  lemma NoShift(x: U32)
    ensures x == x * Pow2(0)
  {
  }

  /** Shifting out a clear top bit doubles the word. */
  lemma OneShift(x: U32, c: nat, w: U32)
    requires w == x * Pow2(c) && !Bit(w, 31)
    ensures 2 * w % TWO32 == 2 * w == x * Pow2(c + 1)
  {
    hide Bit;
    MsbClear(w);
    assert x * (2 * Pow2(c)) == 2 * (x * Pow2(c));
  }

  // ---------- the arithmetic behind the loops ----------

  /** Going down one byte: within the word, or to the top of the word below. */
  lemma NextPlace(p: nat)
    ensures p % 4 == 0 ==> (p - 1) / 4 == p / 4 - 1 && (p - 1) % 4 == 3
    ensures p % 4 != 0 ==> (p - 1) / 4 == p / 4 && (p - 1) % 4 == p % 4 - 1
  {
  }

  /** The highest bit of the highest non-zero word is the greatest element. */
  lemma Greatest(d: seq<U32>, top: nat, c: nat)
    requires top < |d| && (forall i | top < i < |d| :: d[i] == 0)
    requires c <= 31 && Bit(d[top], 31 - c) && forall k: nat | k > 31 - c :: !Bit(d[top], k)
    ensures var bits := (top + 1) * 32 - c;
            bits - 1 in Elems(d) && forall n | n in Elems(d) :: n < bits
  {
    var bits := (top + 1) * 32 - c;
    assert (bits - 1) / 32 == top && (bits - 1) % 32 == 31 - c;
    forall n | n in Elems(d) ensures n < bits { BitZero(n % 32); }
  }

  lemma MsbClear(w: U32)
    requires !Bit(w, 31)
    ensures w < 0x8000_0000
  {
    WordSize();
    forall k: nat | k >= 31 ensures !Bit(w, k) { if k > 31 { BitBound(w, 32, k); } }
    BoundBit(w, 31);
  }

  /** When the shifted word shows its top bit, the word has its highest bit at 31 - c. */
  lemma TopBit(x: U32, c: nat, w: U32)
    requires w == x * Pow2(c) && Bit(w, 31) && 0 < w
    ensures c <= 31 && Bit(x, 31 - c)
  {
    BitShl(x, c, 31);
  }

  lemma NoHigherBit(x: U32, c: nat, k: nat)
    requires c <= 31 < c + k && x * Pow2(c) < TWO32
    ensures !Bit(x, k)
  {
    hide Bit, Pow2;
    assert x * Pow2(c) < Pow2(32) by { WordSize(); }
    BitShl(x, c, c + k);
    BitBound(x * Pow2(c), 32, c + k);
  }

  /** The m-th byte from the bottom. */
  function WordByte(d: seq<U32>, m: nat): Byte
    requires m / 4 < |d|
  {
    Shr(d[m / 4], 8 * (m % 4)) % 256
  }

  lemma WordByteBit(d: seq<U32>, m: nat, k: nat)
    requires m / 4 < |d| && k < 8
    ensures Bit(WordByte(d, m), k) <==> InWords(d, 8 * m + k)
  {
    WordSize();
    var x := d[m / 4];
    BitMod(Shr(x, 8 * (m % 4)), 8, k);
    BitShr(x, 8 * (m % 4), k);
    assert (8 * m + k) / 32 == m / 4 && (8 * m + k) % 32 == 8 * (m % 4) + k;
  }

  /** Writing the bytes from the bottom up, as far as the greatest element, writes the set. */
  lemma Written(d: seq<U32>, s: seq<Byte>)
    requires |s| <= 4 * |d|
    requires forall m | 0 <= m < |s| :: s[|s| - 1 - m] == WordByte(d, m)
    requires Elems(d) == {} ==> s == []
    requires forall n | n in Elems(d) :: n / 8 < |s|
    requires Elems(d) != {} ==> exists n | n in Elems(d) :: n / 8 == |s| - 1
    ensures BigEndian(s) == Elems(d) && Minimal(s)
  {
    forall n: nat ensures n in BigEndian(s) <==> n in Elems(d) {
      if n / 8 < |s| { WordByteBit(d, n / 8, n % 8); }
    }
    if s != [] {
      var n :| n in Elems(d) && n / 8 == |s| - 1;
      WordByteBit(d, n / 8, n % 8);
      BitZero(n % 8);
      assert s[0] == WordByte(d, |s| - 1);
    }
  }

  /** After i bytes, the words hold exactly the elements of those top bytes. */
  predicate ReadSoFar(d: seq<U32>, s: seq<Byte>, i: nat)
    requires i <= |s|
  {
    forall n: nat | n < 32 * |d| :: InWords(d, n) <==> |s| - i <= n / 8 && InBytes(s, n)
  }

  lemma NoneRead(d: seq<U32>, s: seq<Byte>)
    requires Elems(d) == {}
    ensures ReadSoFar(d, s, 0)
  {
    forall n: nat ensures !InWords(d, n) { ElemsIs(d, n); }
  }

  lemma NoBytes()
    ensures BigEndian([]) == {}
  {
  }

  lemma ReadByte(d: seq<U32>, s: seq<Byte>, i: nat)
    requires i < |s| && (|s| - 1) / 4 < |d| && ReadSoFar(d, s, i)
    ensures var m := |s| - 1 - i;
            var x := s[i] * Pow2(m % 4 * 8);
            && x < TWO32 && Or(d[m / 4], x) < TWO32
            && ReadSoFar(d[m / 4 := Or(d[m / 4], x)], s, i + 1)
  {
    hide Bit, Or, Pow2;
    var m := |s| - 1 - i;
    var shift := m % 4 * 8;
    var x := s[i] * Pow2(shift);
    ByteFits(s[i], shift);
    OrFits(d[m / 4], x);
    var e := d[m / 4 := Or(d[m / 4], x)];
    forall n: nat | n < 32 * |d| ensures InWords(e, n) <==> |s| - (i + 1) <= n / 8 && InBytes(s, n) {
      assert InWords(d, n) <==> |s| - i <= n / 8 && InBytes(s, n);
      if n / 32 == m / 4 {
        BitOr(d[m / 4], x, n % 32);
        ShiftedByte(s[i], m % 4, n % 32);
        Placed(n, m);
      }
    }
  }

  /** A byte moved up by j bytes occupies the eight bits from 8 * j. */
  lemma ShiftedByte(b: Byte, j: nat, k: nat)
    requires j < 4
    ensures Bit(b * Pow2(j * 8), k) <==> k / 8 == j && Bit(b, k % 8)
  {
    hide Bit, Pow2;
    BitShl(b, j * 8, k);
    if k >= j * 8 + 8 {
      assert b < Pow2(8) by { WordSize(); }
      BitBound(b, 8, k - j * 8);
    }
  }

  lemma Placed(n: nat, m: nat)
    requires n / 32 == m / 4
    ensures n % 32 / 8 == m % 4 <==> n / 8 == m
    ensures n % 32 % 8 == n % 8
  {
  }

  lemma ByteFits(b: Byte, shift: nat)
    requires shift <= 24
    ensures b * Pow2(shift) < TWO32
  {
    WordSize();
    Pow2Mono(shift, 24);
    MulMono(b, Pow2(shift), 0x100_0000);
  }

  lemma AllRead(d: seq<U32>, s: seq<Byte>)
    requires ReadSoFar(d, s, |s|) && (|s| - 1) / 4 < |d| && s != []
    requires |s| <= BITMAP_MAX / 8
    ensures Elems(d) == BigEndian(s)
    ensures forall n | n in Elems(d) :: n <= BITMAP_MAX
  {
  }
}
