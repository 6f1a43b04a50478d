/** The cipher context and its block loop, writing through arrays that may be one and the same. */
module ChaChaObject {
  import opened ChaCha
  import opened Slices

  const SIGMA: seq<bv8> :=
    [0x65, 0x78, 0x70, 0x61, 0x6e, 0x64, 0x20, 0x33, 0x32, 0x2d, 0x62, 0x79, 0x74, 0x65, 0x20, 0x6b]
  const TAU: seq<bv8> :=
    [0x65, 0x78, 0x70, 0x61, 0x6e, 0x64, 0x20, 0x31, 0x36, 0x2d, 0x62, 0x79, 0x74, 0x65, 0x20, 0x6b]

  /** A 128-bit key is used twice. */
  function Doubled(key: seq<bv8>): (k: seq<bv8>)
    requires |key| == 32 || |key| == 16
    ensures |k| == 32
  {
    if |key| == 32 then key else key + key
  }

  function Constants(key: seq<bv8>): (c: seq<bv8>)
    ensures |c| == 16
  {
    if |key| == 32 then SIGMA else TAU
  }

  /** chacha_keysetup on a cleared context, with a key of 256 or 128 bits */
  function KeySetup(key: seq<bv8>): Words
    requires |key| == 32 || |key| == 16
  {
    var bytes := Constants(key) + Doubled(key);
    seq(12, i requires 0 <= i < 12 => LittleToU32(bytes[4 * i..4 * i + 4])) + [0, 0, 0, 0]
  }

  /** The constant words, for 256 bits those of section 2.3 of RFC 8439, then the key as little-endian words. */
  lemma KeySetupIs(key: seq<bv8>)
    requires |key| == 32 || |key| == 16
    ensures KeySetup(key)[..4] == if |key| == 32 then [0x61707865, 0x3320646e, 0x79622d32, 0x6b206574]
                                  else [0x61707865, 0x3120646e, 0x79622d36, 0x6b206574]
    ensures Serialize(KeySetup(key)[4..12]) == if |key| == 32 then key else key + key
    ensures KeySetup(key)[12..] == [0, 0, 0, 0]
  {
    hide LittleToU32, Serialize;
    var w, k := KeySetup(key), Doubled(key);
    SetupWords(key);
    SigmaWords();
    TauWords();
    KeyWords(k, w[4..12], 8);
    assert w[4..12][..8] == w[4..12] && k[..32] == k;
  }

  lemma SetupWords(key: seq<bv8>)
    requires |key| == 32 || |key| == 16
    ensures var w, c, k := KeySetup(key), Constants(key), Doubled(key);
            && (forall i | 0 <= i < 4 :: w[i] == LittleToU32(c[4 * i..4 * i + 4]))
            && (forall i | 0 <= i < 8 :: w[4..12][i] == LittleToU32(k[4 * i..4 * i + 4]))
  {
    hide LittleToU32, Constants, Doubled;
    var c, k := Constants(key), Doubled(key);
    var bytes := c + k;
    forall i | 0 <= i < 4 ensures bytes[4 * i..4 * i + 4] == c[4 * i..4 * i + 4] {}
    forall i | 0 <= i < 8 ensures bytes[4 * (i + 4)..4 * (i + 4) + 4] == k[4 * i..4 * i + 4] {}
  }

  lemma SigmaWords()
    ensures LittleToU32(SIGMA[0..4]) == 0x61707865 && LittleToU32(SIGMA[4..8]) == 0x3320646e
    ensures LittleToU32(SIGMA[8..12]) == 0x79622d32 && LittleToU32(SIGMA[12..16]) == 0x6b206574
  {
  }

  lemma TauWords()
    ensures LittleToU32(TAU[0..4]) == 0x61707865 && LittleToU32(TAU[4..8]) == 0x3120646e
    ensures LittleToU32(TAU[8..12]) == 0x79622d36 && LittleToU32(TAU[12..16]) == 0x6b206574
  {
  }

  lemma {:induction false} KeyWords(key: seq<bv8>, w: seq<bv32>, n: nat)
    requires |key| == 32 && |w| == 8 && n <= 8
    requires forall i | 0 <= i < 8 :: w[i] == LittleToU32(key[4 * i..4 * i + 4])
    ensures Serialize(w[..n]) == key[..4 * n]
  {
    hide LittleToU32, U32ToLittle;
    if n > 0 {
      KeyWords(key, w, n - 1);
      assert w[..n][..n - 1] == w[..n - 1];
      LittleBack(key[4 * n - 4..4 * n]);
    }
  }

  lemma LittleBack(s: seq<bv8>)
    requires |s| == 4
    ensures U32ToLittle(LittleToU32(s)) == s
  {
    assert 0 ^ LittleToU32(s) == LittleToU32(s);
    WordXor(0, s);
    assert U32ToLittle(0) == [0, 0, 0, 0];
  }

  /** chacha_ivsetup: only the counter and nonce words are set. */
  function IvSetup(j: Words, iv: seq<bv8>, counter: seq<bv8>): Words
    requires |iv| == 8 && |counter| == 8
  {
    j[..12] + [LittleToU32(counter[..4]), LittleToU32(counter[4..]), LittleToU32(iv[..4]), LittleToU32(iv[4..])]
  }

  function XorWords(x: seq<bv32>, m: seq<bv8>): (r: seq<bv32>)
    requires |m| == 4 * |x|
    ensures |r| == |x|
  {
    seq(|x|, i requires 0 <= i < |x| => x[i] ^ LittleToU32(m[4 * i..4 * i + 4]))
  }

  lemma {:induction false} SerializeXor(x: seq<bv32>, m: seq<bv8>)
    requires |m| == 4 * |x|
    ensures Serialize(XorWords(x, m)) == Xor(m, Serialize(x))
  {
    hide U32ToLittle, LittleToU32, Xor, XorWords, Serialize;
    if x == [] {
      assert Serialize(XorWords(x, m)) == [] && Xor(m, Serialize(x)) == [];
    } else {
      var n := |x| - 1;
      var front, back, y := m[..4 * n], m[4 * n..], XorWords(x, m);
      SerializeXor(x[..n], front);
      XorWordsSplit(x, m);
      WordXor(x[n], back);
      assert m == front + back;
      SerializeSnoc(x);
      SerializeSnoc(y);
      XorAppend(front, Serialize(x[..n]), back, U32ToLittle(x[n]));
    }
  }

  lemma SerializeSnoc(x: seq<bv32>)
    requires x != []
    ensures Serialize(x) == Serialize(x[..|x| - 1]) + U32ToLittle(x[|x| - 1])
  {
    hide U32ToLittle;
  }

  lemma XorWordsSplit(x: seq<bv32>, m: seq<bv8>)
    requires |m| == 4 * |x| && x != []
    ensures var n := |x| - 1;
            var y := XorWords(x, m);
            y[..n] == XorWords(x[..n], m[..4 * n]) && y[n] == x[n] ^ LittleToU32(m[4 * n..])
  {
    hide LittleToU32;
    var n := |x| - 1;
    assert forall i | 0 <= i < n :: m[..4 * n][4 * i..4 * i + 4] == m[4 * i..4 * i + 4];
    assert m[4 * n..4 * n + 4] == m[4 * n..];
  }

  /** The twenty rounds and the final addition. */
  method RunBlock(j: Words) returns (x: Words)
    ensures x == Block(j)
  {
    hide DoubleRound, AddWords;
    x := j;
    var i := ROUNDS;
    while i > 0
      invariant 0 <= i <= ROUNDS && i % 2 == 0 && x == Rounds(j, (ROUNDS - i) / 2)
    {
      x := DoubleRound(x);
      i := i - 2;
    }
    x := AddWords(x, j);
  }

  /** One block: all words are read and combined before any is stored, so `m` may be `c`. */
  method XorBlock(j: Words, m: array<bv8>, mo: nat, c: array<bv8>, co: nat)
    requires mo + 64 <= m.Length && co + 64 <= c.Length
    modifies c
    ensures c[..] == Splice(old(c[..]), co, Xor(old(m[mo..mo + 64]), BlockBytes(j)))
  {
    hide Block, U32ToLittle, LittleToU32, Splice;
    var x := RunBlock(j);
    SerializeXor(x, m[mo..mo + 64]);
    var y := XorWords(x, m[mo..mo + 64]);
    StoreWords(y, c, co);
  }

  method StoreWords(y: seq<bv32>, c: array<bv8>, co: nat)
    requires co + 4 * |y| <= c.Length
    modifies c
    ensures c[..] == Splice(old(c[..]), co, Serialize(y))
  {
    hide U32ToLittle, Splice;
    var i := 0;
    Untouched(c[..], co);
    while i < |y|
      invariant 0 <= i <= |y|
      invariant c[..] == Splice(old(c[..]), co, Serialize(y[..i]))
    {
      assert y[..i + 1][..i] == y[..i];
      var b := U32ToLittle(y[i]);
      var p := co + 4 * i;
      ghost var was := c[..];
      c[p], c[p + 1], c[p + 2], c[p + 3] := b[0], b[1], b[2], b[3];
      Stored(was, c[..], p, b);
      SpliceMore(old(c[..]), co, Serialize(y[..i]), b);
      i := i + 1;
    }
    assert y[..|y|] == y;
  }

  lemma Stored(was: seq<bv8>, now: seq<bv8>, p: nat, b: seq<bv8>)
    requires |b| == 4 && p + 4 <= |was| && now == was[p := b[0]][p + 1 := b[1]][p + 2 := b[2]][p + 3 := b[3]]
    ensures now == Splice(was, p, b)
  {
  }

  class Ctx {
    var input: Words

    constructor (key: seq<bv8>)
      requires |key| == 32 || |key| == 16
      ensures input == KeySetup(key)
    {
      input := KeySetup(key);
    }

    method SetIv(iv: seq<bv8>, counter: seq<bv8>)
      requires |iv| == 8 && |counter| == 8
      modifies this
      ensures input == IvSetup(old(input), iv, counter)
    {
      hide LittleToU32;
      input := input[12 := LittleToU32(counter[..4])][13 := LittleToU32(counter[4..])];
      input := input[14 := LittleToU32(iv[..4])][15 := LittleToU32(iv[4..])];
    }

    /** chacha_encrypt_bytes, with source and destination disjoint or the same place. */
    method EncryptBytes(m: array<bv8>, mo: nat, c: array<bv8>, co: nat, bytes: nat)
      requires mo + bytes <= m.Length && co + bytes <= c.Length && (m == c ==> mo == co)
      modifies this, c
      ensures c[..] == Splice(old(c[..]), co, Crypt(old(input), old(m[mo..mo + bytes])))
      ensures input == Advance(old(input), Blocks(bytes))
    {
      hide Next, BlockBytes, Xor, Keystream, Crypt, Splice, Advance, Blocks;
      NoBytes(input);
      Untouched(c[..], co);
      if bytes == 0 {
        return;
      }
      var j := input;
      var done := 0;
      ghost var from, to := m[..], c[..];
      ghost var plain := from[mo..mo + bytes];
      while done < bytes
        invariant 0 <= done <= bytes && (done == bytes || done % 64 == 0)
        invariant j == Advance(old(input), Blocks(done))
        invariant c[..] == Splice(to, co, Crypt(old(input), plain[..done]))
        invariant m != c ==> m[..] == from
        modifies c
      {
        var n := if bytes - done < 64 then bytes - done else 64;
        ghost var was := c[..];
        Unread(m == c, from, to, m[..], mo, co, Crypt(old(input), plain[..done]), n, bytes);
        EncryptPart(j, m, mo + done, c, co + done, n);
        Turn(old(input), plain, done, n, to, co, was, c[..]);
        j := Next(j);
        done := done + n;
      }
      assert plain[..bytes] == plain;
      input := j;
    }
  }

  /** The part still to be read is as it was, in place or not. */
  lemma Unread(same: bool, from: seq<bv8>, to: seq<bv8>, now: seq<bv8>, mo: nat, co: nat, x: seq<bv8>, n: nat, bytes: nat)
    requires mo + bytes <= |from| && co + bytes <= |to| && |x| + n <= bytes && |now| == |from|
    requires if same then from == to && mo == co && now == Splice(to, co, x) else now == from
    ensures now[mo + |x|..mo + |x| + n] == from[mo..mo + bytes][|x|..|x| + n]
  {
    hide Splice;
    Rest(to, co, x, n, bytes);
    SubSlice(from, mo, bytes, |x|, n);
  }

  /** One more part encrypted and stored. */
  lemma Turn(j: Words, plain: seq<bv8>, done: nat, n: nat, to: seq<bv8>, co: nat, was: seq<bv8>, now: seq<bv8>)
    requires done % 64 == 0 && 0 < n <= 64 && done + n <= |plain| && co + |plain| <= |to|
    requires was == Splice(to, co, Crypt(j, plain[..done]))
    requires now == Splice(was, co + done, Crypt(Advance(j, Blocks(done)), plain[done..done + n]))
    ensures now == Splice(to, co, Crypt(j, plain[..done + n]))
    ensures Next(Advance(j, Blocks(done))) == Advance(j, Blocks(done + n))
  {
    hide Splice, Crypt, Advance, Next;
    CryptMore(j, plain, done, n);
    SpliceMore(to, co, Crypt(j, plain[..done]), Crypt(Advance(j, Blocks(done)), plain[done..done + n]));
  }

  /** In place, the part still to be read is as it was. */
  lemma Rest(to: seq<bv8>, co: nat, x: seq<bv8>, n: nat, bytes: nat)
    requires co + bytes <= |to| && |x| + n <= bytes
    ensures Splice(to, co, x)[co + |x|..co + |x| + n] == to[co..co + bytes][|x|..|x| + n]
  {
    SpliceApart(to, co, x, co + |x|, co + |x| + n);
    SubSlice(to, co, bytes, |x|, n);
  }

  /** One turn of the block loop; a short last block goes through a temporary buffer. */
  method EncryptPart(j: Words, m: array<bv8>, mo: nat, c: array<bv8>, co: nat, n: nat)
    requires 0 < n <= 64 && mo + n <= m.Length && co + n <= c.Length
    modifies c
    ensures c[..] == Splice(old(c[..]), co, Crypt(j, old(m[mo..mo + n])))
  {
    hide BlockBytes, Xor, Crypt, Splice;
    ghost var part := m[mo..mo + n];
    if n < 64 {
      var tmp := new bv8[64];
      forall i | 0 <= i < n { tmp[i] := m[mo + i]; }
      ghost var full := tmp[..];
      assert full[..n] == part && tmp[0..64] == full;
      XorBlock(j, tmp, 0, tmp, 0);
      SpliceAt(full, 0, Xor(full, BlockBytes(j)));
      assert tmp[..][0..64] == tmp[..];
      ShortBlock(j, part, full);
      ghost var was := c[..];
      assert was == old(c[..]);
      forall i | 0 <= i < n { c[co + i] := tmp[i]; }
      assert c[..][co..co + n] == tmp[..][..n] == Crypt(j, part);
      IsSplice(was, c[..], co, Crypt(j, part));
    } else {
      XorBlock(j, m, mo, c, co);
      ShortBlock(j, part, part);
      ghost var x := Xor(part, BlockBytes(j));
      assert x[..64] == x;
    }
  }

  lemma CryptMore(j: Words, plain: seq<bv8>, done: nat, n: nat)
    requires done % 64 == 0 && 0 < n <= 64 && done + n <= |plain|
    ensures Crypt(j, plain[..done + n])
         == Crypt(j, plain[..done]) + Crypt(Advance(j, Blocks(done)), plain[done..done + n])
    ensures Advance(j, Blocks(done + n)) == Next(Advance(j, Blocks(done)))
  {
    hide Crypt, Next;
    CryptSplit(j, plain[..done], plain[done..done + n]);
    assert plain[..done + n] == plain[..done] + plain[done..done + n];
  }

  lemma NoBytes(j: Words)
    ensures Crypt(j, []) == [] && Advance(j, Blocks(0)) == j
  {
  }

  /** Up to a block, encrypting is combining with the front of the block's bytes. */
  lemma ShortBlock(j: Words, part: seq<bv8>, full: seq<bv8>)
    requires |part| <= 64 && |full| == 64 && full[..|part|] == part
    ensures Xor(full, BlockBytes(j))[..|part|] == Crypt(j, part)
  {
    hide BlockBytes;
  }
}
