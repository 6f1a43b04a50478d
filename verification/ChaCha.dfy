/** The ChaCha20 stream cipher as a keystream, and the block loop that applies it. */
module ChaCha {
  import opened Slices

  type Words = s: seq<bv32> | |s| == 16 witness seq(16, _ => 0)

  // ---------- the block function ----------

  function Rotl16(v: bv32): bv32 { (v << 16) | (v >> 16) }
  function Rotl12(v: bv32): bv32 { (v << 12) | (v >> 20) }
  function Rotl8(v: bv32): bv32 { (v << 8) | (v >> 24) }
  function Rotl7(v: bv32): bv32 { (v << 7) | (v >> 25) }

  datatype Quad = Quad(a: bv32, b: bv32, c: bv32, d: bv32)

  function Quarter(q: Quad): Quad {
    var a := q.a + q.b;
    var d := Rotl16(q.d ^ a);
    var c := q.c + d;
    var b := Rotl12(q.b ^ c);
    var a := a + b;
    var d := Rotl8(d ^ a);
    var c := c + d;
    Quad(a, Rotl7(b ^ c), c, d)
  }

  /** The test vector of section 2.1.1 of RFC 8439. */
  lemma QuarterVector()
    ensures Quarter(Quad(0x11111111, 0x01020304, 0x9b8d6f43, 0x01234567))
         == Quad(0xea2a92f4, 0xcb1cf8ce, 0x4581472e, 0x5881c4bb)
  {
  }

  function QuarterRound(x: Words, a: nat, b: nat, c: nat, d: nat): Words
    requires a < 16 && b < 16 && c < 16 && d < 16
  {
    var q := Quarter(Quad(x[a], x[b], x[c], x[d]));
    x[a := q.a][b := q.b][c := q.c][d := q.d]
  }

  function Columns(x: Words): Words {
    var x := QuarterRound(x, 0, 4, 8, 12);
    var x := QuarterRound(x, 1, 5, 9, 13);
    var x := QuarterRound(x, 2, 6, 10, 14);
    QuarterRound(x, 3, 7, 11, 15)
  }

  function Diagonals(x: Words): Words {
    var x := QuarterRound(x, 0, 5, 10, 15);
    var x := QuarterRound(x, 1, 6, 11, 12);
    var x := QuarterRound(x, 2, 7, 8, 13);
    QuarterRound(x, 3, 4, 9, 14)
  }

  function DoubleRound(x: Words): Words { Diagonals(Columns(x)) }

  /** The i-th column (k == 0) or diagonal (k == 1) of the four-by-four state. */
  function Line(x: Words, i: nat, k: nat): Quad
    requires i < 4
  {
    Quad(x[i], x[4 + (i + k) % 4], x[8 + (i + 2 * k) % 4], x[12 + (i + 3 * k) % 4])
  }

  /** A quarter round changes its four words and no other. */
  lemma QuarterAt(x: Words, a: nat, b: nat, c: nat, d: nat)
    requires a < 16 && b < 16 && c < 16 && d < 16 && a !in {b, c, d} && b !in {c, d} && c != d
    ensures var r, q := QuarterRound(x, a, b, c, d), Quarter(Quad(x[a], x[b], x[c], x[d]));
            r[a] == q.a && r[b] == q.b && r[c] == q.c && r[d] == q.d
            && forall i | 0 <= i < 16 && i !in {a, b, c, d} :: r[i] == x[i]
  {
    hide Quarter;
  }

  /** A double round puts every column, then every diagonal, through the quarter round on its own. */
  lemma RoundByLines(x: Words, i: nat)
    requires i < 4
    ensures Line(Columns(x), i, 0) == Quarter(Line(x, i, 0))
    ensures Line(Diagonals(x), i, 1) == Quarter(Line(x, i, 1))
  {
    hide Quarter, Columns, Diagonals, Line;
    ColumnLine(x, i);
    DiagonalLine(x, i);
  }

  lemma ColumnLine(x: Words, i: nat)
    requires i < 4
    ensures Line(Columns(x), i, 0) == Quarter(Line(x, i, 0))
  {
    hide Quarter, Columns;
    ColumnsOf(x);
    if i == 0 { } else if i == 1 { } else if i == 2 { } else { }
  }

  lemma DiagonalLine(x: Words, i: nat)
    requires i < 4
    ensures Line(Diagonals(x), i, 1) == Quarter(Line(x, i, 1))
  {
    hide Quarter, Diagonals;
    DiagonalsOf(x);
    if i == 0 { } else if i == 1 { } else if i == 2 { } else { }
  }

  lemma ColumnsOf(x: Words)
    ensures var r := Columns(x); Quad(r[0], r[4], r[8], r[12]) == Quarter(Quad(x[0], x[4], x[8], x[12]))
    ensures var r := Columns(x); Quad(r[1], r[5], r[9], r[13]) == Quarter(Quad(x[1], x[5], x[9], x[13]))
    ensures var r := Columns(x); Quad(r[2], r[6], r[10], r[14]) == Quarter(Quad(x[2], x[6], x[10], x[14]))
    ensures var r := Columns(x); Quad(r[3], r[7], r[11], r[15]) == Quarter(Quad(x[3], x[7], x[11], x[15]))
  {
    hide Quarter, QuarterRound;
    QuarterAt(x, 0, 4, 8, 12);
    var x1 := QuarterRound(x, 0, 4, 8, 12);
    QuarterAt(x1, 1, 5, 9, 13);
    var x2 := QuarterRound(x1, 1, 5, 9, 13);
    QuarterAt(x2, 2, 6, 10, 14);
    var x3 := QuarterRound(x2, 2, 6, 10, 14);
    QuarterAt(x3, 3, 7, 11, 15);
  }

  lemma DiagonalsOf(x: Words)
    ensures var r := Diagonals(x); Quad(r[0], r[5], r[10], r[15]) == Quarter(Quad(x[0], x[5], x[10], x[15]))
    ensures var r := Diagonals(x); Quad(r[1], r[6], r[11], r[12]) == Quarter(Quad(x[1], x[6], x[11], x[12]))
    ensures var r := Diagonals(x); Quad(r[2], r[7], r[8], r[13]) == Quarter(Quad(x[2], x[7], x[8], x[13]))
    ensures var r := Diagonals(x); Quad(r[3], r[4], r[9], r[14]) == Quarter(Quad(x[3], x[4], x[9], x[14]))
  {
    hide Quarter, QuarterRound;
    QuarterAt(x, 0, 5, 10, 15);
    var x1 := QuarterRound(x, 0, 5, 10, 15);
    QuarterAt(x1, 1, 6, 11, 12);
    var x2 := QuarterRound(x1, 1, 6, 11, 12);
    QuarterAt(x2, 2, 7, 8, 13);
    var x3 := QuarterRound(x2, 2, 7, 8, 13);
    QuarterAt(x3, 3, 4, 9, 14);
  }

  function Rounds(x: Words, n: nat): Words { if n == 0 then x else DoubleRound(Rounds(x, n - 1)) }

  function AddWords(x: Words, y: Words): Words { seq(16, i requires 0 <= i < 16 => x[i] + y[i]) }

  const ROUNDS: nat := 20

  function Block(j: Words): Words { AddWords(Rounds(j, ROUNDS / 2), j) }

  // ---------- words and bytes ----------

  function U32ToLittle(w: bv32): (s: seq<bv8>)
    ensures |s| == 4
  {
    [(w & 0xff) as bv8, ((w >> 8) & 0xff) as bv8, ((w >> 16) & 0xff) as bv8, ((w >> 24) & 0xff) as bv8]
  }

  function LittleToU32(s: seq<bv8>): bv32
    requires |s| == 4
  {
    (s[0] as bv32) | ((s[1] as bv32) << 8) | ((s[2] as bv32) << 16) | ((s[3] as bv32) << 24)
  }

  function Serialize(x: seq<bv32>): (s: seq<bv8>)
    ensures |s| == 4 * |x|
  {
    if x == [] then [] else Serialize(x[..|x| - 1]) + U32ToLittle(x[|x| - 1])
  }

  /** Exclusive-or of words is exclusive-or of their bytes. */
  lemma WordXor(w: bv32, m: seq<bv8>)
    requires |m| == 4
    ensures U32ToLittle(w ^ LittleToU32(m)) == Xor(m, U32ToLittle(w))
  {
    ByteXor0(w, m[0], m[1], m[2], m[3]);
    ByteXor1(w, m[0], m[1], m[2], m[3]);
    ByteXor2(w, m[0], m[1], m[2], m[3]);
    ByteXor3(w, m[0], m[1], m[2], m[3]);
  }

  function Pack(a: bv8, b: bv8, c: bv8, d: bv8): bv32 {
    (a as bv32) | ((b as bv32) << 8) | ((c as bv32) << 16) | ((d as bv32) << 24)
  }

  lemma ByteXor0(w: bv32, a: bv8, b: bv8, c: bv8, d: bv8)
    ensures ((w ^ Pack(a, b, c, d)) & 0xff) as bv8 == a ^ ((w & 0xff) as bv8)
  {
  }

  lemma ByteXor1(w: bv32, a: bv8, b: bv8, c: bv8, d: bv8)
    ensures (((w ^ Pack(a, b, c, d)) >> 8) & 0xff) as bv8 == b ^ (((w >> 8) & 0xff) as bv8)
  {
  }

  lemma ByteXor2(w: bv32, a: bv8, b: bv8, c: bv8, d: bv8)
    ensures (((w ^ Pack(a, b, c, d)) >> 16) & 0xff) as bv8 == c ^ (((w >> 16) & 0xff) as bv8)
  {
  }

  lemma ByteXor3(w: bv32, a: bv8, b: bv8, c: bv8, d: bv8)
    ensures (((w ^ Pack(a, b, c, d)) >> 24) & 0xff) as bv8 == d ^ (((w >> 24) & 0xff) as bv8)
  {
  }

  // ---------- the counter and the keystream ----------

  function Count64(lo: bv32, hi: bv32): bv64 { ((hi as bv64) << 32) + (lo as bv64) }

  function Counter(j: Words): bv64 { Count64(j[12], j[13]) }

  /** The block counter with carry into its upper half. */
  function Next(j: Words): Words {
    var j := j[12 := j[12] + 1];
    if j[12] == 0 then j[13 := j[13] + 1] else j
  }

  lemma NextCounter(j: Words)
    ensures Counter(Next(j)) == Counter(j) + 1
  {
    hide Count64;
    var lo, hi := j[12], j[13];
    if lo + 1 == 0 {
      assert Counter(Next(j)) == Count64(lo + 1, hi + 1);
      CarryOut(lo, hi);
    } else {
      assert Counter(Next(j)) == Count64(lo + 1, hi);
      NoCarry(lo, hi);
    }
  }

  lemma CarryOut(lo: bv32, hi: bv32)
    requires lo + 1 == 0
    ensures Count64(lo + 1, hi + 1) == Count64(lo, hi) + 1
  {
    assert lo == 0xffff_ffff;
    CarryShift(hi);
  }

  lemma NoCarry(lo: bv32, hi: bv32)
    requires lo + 1 != 0
    ensures Count64(lo + 1, hi) == Count64(lo, hi) + 1
  {
    Widen(lo);
  }

  lemma CarryShift(hi: bv32)
    ensures ((hi + 1) as bv64) << 32 == ((hi as bv64) << 32) + 0x1_0000_0000
  {
  }

  lemma Widen(lo: bv32)
    requires lo + 1 != 0
    ensures (lo + 1) as bv64 == (lo as bv64) + 1
  {
  }

  function Advance(j: Words, n: nat): Words { if n == 0 then j else Next(Advance(j, n - 1)) }

  /** `x` increased n times by one, modulo 2^64. */
  function Plus(x: bv64, n: nat): bv64 { if n == 0 then x else Plus(x, n - 1) + 1 }

  /** After n blocks the 64-bit counter is n further on. */
  lemma {:induction false} AdvanceCounter(j: Words, n: nat)
    ensures Counter(Advance(j, n)) == Plus(Counter(j), n)
  {
    hide Counter, Next;
    if n > 0 {
      AdvanceCounter(j, n - 1);
      NextCounter(Advance(j, n - 1));
    }
  }

  /** Only the counter words move. */
  lemma {:induction false} AdvanceKeeps(j: Words, n: nat)
    ensures Advance(j, n)[..12] == j[..12] && Advance(j, n)[14..] == j[14..]
  {
    hide Next;
    if n > 0 {
      AdvanceKeeps(j, n - 1);
      NextKeeps(Advance(j, n - 1));
    }
  }

  lemma NextKeeps(j: Words)
    ensures Next(j)[..12] == j[..12] && Next(j)[14..] == j[14..]
  {
  }

  function BlockBytes(j: Words): (s: seq<bv8>)
    ensures |s| == 64
  {
    Serialize(Block(j))
  }

  /** The first n bytes of the keystream from state j. */
  function Keystream(j: Words, n: nat): (s: seq<bv8>)
    ensures |s| == n
    decreases n
  {
    if n <= 64 then BlockBytes(j)[..n] else BlockBytes(j) + Keystream(Next(j), n - 64)
  }

  function Blocks(n: nat): nat { (n + 63) / 64 }

  lemma {:induction false} AdvanceNext(j: Words, n: nat)
    ensures Advance(Next(j), n) == Advance(j, n + 1)
  {
    if n > 0 { AdvanceNext(j, n - 1); }
  }

  /** A call cut at a multiple of 64 bytes continues where it stopped. */
  lemma {:induction false} KeystreamSplit(j: Words, a: nat, b: nat)
    requires a % 64 == 0
    ensures Keystream(j, a + b) == Keystream(j, a) + Keystream(Advance(j, a / 64), b)
    decreases a
  {
    hide BlockBytes, Next;
    var x := BlockBytes(j);
    if a == 0 {
      assert Keystream(j, 0) == [];
    } else if a == 64 {
      assert Keystream(j, 64) == x;
      assert Advance(j, 1) == Next(Advance(j, 0));
      if b == 0 { assert Keystream(Next(j), 0) == []; }
    } else {
      KeystreamSplit(Next(j), a - 64, b);
      AdvanceNext(j, a / 64 - 1);
      assert (a - 64) / 64 == a / 64 - 1;
      var y, z := Keystream(Next(j), a - 64), Keystream(Advance(j, a / 64), b);
      assert x + (y + z) == (x + y) + z;
    }
  }

  lemma {:induction false} KeystreamPrefix(j: Words, m: nat, n: nat)
    requires m <= n
    ensures Keystream(j, n)[..m] == Keystream(j, m)
    decreases n
  {
    hide BlockBytes, Next;
    if n > 64 {
      if m > 64 { KeystreamPrefix(Next(j), m - 64, n - 64); }
    }
  }

  /** Encryption and decryption are the same operation. */
  function Crypt(j: Words, m: seq<bv8>): (c: seq<bv8>)
    ensures |c| == |m|
  {
    Xor(m, Keystream(j, |m|))
  }

  lemma CryptTwice(j: Words, m: seq<bv8>)
    ensures Crypt(j, Crypt(j, m)) == m
  {
    XorTwice(m, Keystream(j, |m|));
  }

  lemma CryptSplit(j: Words, m: seq<bv8>, n: seq<bv8>)
    requires |m| % 64 == 0
    ensures Crypt(j, m + n) == Crypt(j, m) + Crypt(Advance(j, |m| / 64), n)
  {
    hide Xor, Keystream, Advance;
    KeystreamSplit(j, |m|, |n|);
    XorAppend(m, Keystream(j, |m|), n, Keystream(Advance(j, |m| / 64), |n|));
  }
}
