/** chacha20-poly1305@openssh.com: sealing, opening and reading the packet length. */
module ChachaPoly {
  import opened ChaCha
  import opened ChaChaObject
  import opened Slices

  const ZERO8: seq<bv8> := [0, 0, 0, 0, 0, 0, 0, 0]
  const ONE8: seq<bv8> := [1, 0, 0, 0, 0, 0, 0, 0]

  type Tag = t: seq<bv8> | |t| == 16 witness seq(16, _ => 0)

  /** Poly1305: message and key to tag. */
  type Mac = (seq<bv8>, seq<bv8>) -> Tag

  datatype Option<T> = None | Some(value: T)

  /** The sequence number as a big-endian 64-bit nonce. */
  function SeqBuf(seqnr: bv32): (s: seq<bv8>)
    ensures |s| == 8
  {
    var b := U32ToLittle(seqnr);
    [0, 0, 0, 0, b[3], b[2], b[1], b[0]]
  }

  function PeekU32(s: seq<bv8>): bv32
    requires |s| == 4
  {
    LittleToU32([s[3], s[2], s[1], s[0]])
  }

  /** The authenticated length is a sum of two 32-bit numbers. */
  function Covered(n: nat): (m: nat)
    ensures m <= n
  {
    n % 0x1_0000_0000
  }

  function PolyKey(main: Words, seqnr: bv32): seq<bv8> { Keystream(IvSetup(main, SeqBuf(seqnr), ZERO8), 32) }

  /** Both halves of a packet under their own keys and counters. */
  function Body(main: Words, header: Words, seqnr: bv32, m: seq<bv8>, aadlen: nat): (c: seq<bv8>)
    requires aadlen <= |m|
    ensures |c| == |m|
  {
    Crypt(IvSetup(header, SeqBuf(seqnr), ZERO8), m[..aadlen]) + Crypt(IvSetup(main, SeqBuf(seqnr), ONE8), m[aadlen..])
  }

  function Sign(auth: Mac, key: seq<bv8>, c: seq<bv8>): Tag { auth(c[..Covered(|c|)], key) }

  function Seal(auth: Mac, main: Words, header: Words, seqnr: bv32, p: seq<bv8>, aadlen: nat): (c: seq<bv8>)
    requires aadlen <= |p|
    ensures |c| == |p| + 16
  {
    var c := Body(main, header, seqnr, p, aadlen);
    c + Sign(auth, PolyKey(main, seqnr), c)
  }

  function Open(auth: Mac, main: Words, header: Words, seqnr: bv32, c: seq<bv8>, aadlen: nat): (r: Option<seq<bv8>>)
    requires aadlen + 16 <= |c|
    ensures r.Some? ==> |r.value| == |c| - 16
  {
    var n := |c| - 16;
    if Sign(auth, PolyKey(main, seqnr), c[..n]) != c[n..] then None
    else Some(Body(main, header, seqnr, c[..n], aadlen))
  }

  function Length(header: Words, seqnr: bv32, c: seq<bv8>): (r: Option<bv32>)
    ensures r.Some? <==> |c| >= 4
  {
    if |c| < 4 then None else Some(PeekU32(Crypt(IvSetup(header, SeqBuf(seqnr), ZERO8), c[..4])))
  }

  // ---------- theorems ----------

  ghost predicate SameKey(j: Words, k: Words) { j[..12] == k[..12] }

  lemma BodyTwice(main: Words, header: Words, seqnr: bv32, m: seq<bv8>, aadlen: nat)
    requires aadlen <= |m|
    ensures Body(main, header, seqnr, Body(main, header, seqnr, m, aadlen), aadlen) == m
  {
    hide Crypt, IvSetup, SeqBuf;
    var h, k := IvSetup(header, SeqBuf(seqnr), ZERO8), IvSetup(main, SeqBuf(seqnr), ONE8);
    CryptTwice(h, m[..aadlen]);
    CryptTwice(k, m[aadlen..]);
    var c := Body(main, header, seqnr, m, aadlen);
    assert c[..aadlen] == Crypt(h, m[..aadlen]) && c[aadlen..] == Crypt(k, m[aadlen..]);
    assert m == m[..aadlen] + m[aadlen..];
  }

  /** What the contexts were last used for makes no difference. */
  lemma UsedBefore(main: Words, header: Words, main': Words, header': Words, seqnr: bv32, m: seq<bv8>, aadlen: nat)
    requires aadlen <= |m| && SameKey(main, main') && SameKey(header, header')
    ensures Body(main, header, seqnr, m, aadlen) == Body(main', header', seqnr, m, aadlen)
    ensures PolyKey(main, seqnr) == PolyKey(main', seqnr)
  {
    hide Crypt, SeqBuf, Keystream, LittleToU32;
    assert forall c | |c| == 8 :: IvSetup(main, SeqBuf(seqnr), c) == IvSetup(main', SeqBuf(seqnr), c);
    assert forall c | |c| == 8 :: IvSetup(header, SeqBuf(seqnr), c) == IvSetup(header', SeqBuf(seqnr), c);
  }

  /** A packet opens exactly when it is the sealing of what it opens to. */
  lemma OpenIffSealed(auth: Mac, main: Words, header: Words, main': Words, header': Words,
                      seqnr: bv32, c: seq<bv8>, p: seq<bv8>, aadlen: nat)
    requires aadlen <= |p| && |c| == |p| + 16 && SameKey(main, main') && SameKey(header, header')
    ensures Open(auth, main', header', seqnr, c, aadlen) == Some(p)
       <==> c == Seal(auth, main, header, seqnr, p, aadlen)
  {
    hide Body, Sign, PolyKey, SameKey;
    var n := |p|;
    UsedBefore(main, header, main', header', seqnr, p, aadlen);
    UsedBefore(main, header, main', header', seqnr, c[..n], aadlen);
    BodyTwice(main, header, seqnr, p, aadlen);
    BodyTwice(main, header, seqnr, c[..n], aadlen);
    var s := Seal(auth, main, header, seqnr, p, aadlen);
    assert s[..n] == Body(main, header, seqnr, p, aadlen);
    assert c == c[..n] + c[n..];
  }

  /** The length read ahead of the packet is the one decryption recovers. */
  lemma LengthAgrees(auth: Mac, main: Words, header: Words, header': Words, seqnr: bv32, c: seq<bv8>, aadlen: nat)
    requires 4 <= aadlen && aadlen + 16 <= |c| && SameKey(header, header')
    requires Open(auth, main, header, seqnr, c, aadlen).Some?
    ensures Length(header', seqnr, c)
         == Some(PeekU32(Open(auth, main, header, seqnr, c, aadlen).value[..4]))
  {
    hide Crypt, SeqBuf, LittleToU32, Sign, PolyKey, PeekU32;
    var h := IvSetup(header, SeqBuf(seqnr), ZERO8);
    assert h == IvSetup(header', SeqBuf(seqnr), ZERO8);
    var m := c[..|c| - 16];
    assert m[..aadlen] == c[..aadlen];
    CryptPrefix(h, c[..aadlen], 4);
    assert c[..aadlen][..4] == c[..4];
    assert Open(auth, main, header, seqnr, c, aadlen).value[..4] == Crypt(h, c[..aadlen])[..4];
  }

  lemma CryptPrefix(j: Words, m: seq<bv8>, n: nat)
    requires n <= |m|
    ensures Crypt(j, m)[..n] == Crypt(j, m[..n])
  {
    hide Keystream;
    KeystreamPrefix(j, n, |m|);
  }

  lemma CryptZeros(j: Words, z: seq<bv8>)
    requires forall i | 0 <= i < |z| :: z[i] == 0
    ensures Crypt(j, z) == Keystream(j, |z|)
  {
    hide Keystream;
    forall i | 0 <= i < |z| ensures Crypt(j, z)[i] == Keystream(j, |z|)[i] { ZeroXor(Keystream(j, |z|)[i]); }
  }

  lemma ZeroXor(x: bv8)
    ensures 0 ^ x == x
  {
  }
}
