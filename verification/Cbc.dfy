/** Cipher block chaining over a sixteen-byte block cipher. */
module Cbc {
  import opened Slices

  type Block = b: seq<bv8> | |b| == 16 witness seq(16, _ => 0)
  type Cipher = Block -> Block

  ghost predicate Inverse(e: Cipher, d: Cipher) {
    (forall b :: d(e(b)) == b) && (forall b :: e(d(b)) == b)
  }

  function Encrypt(e: Cipher, iv: Block, p: seq<bv8>): (c: seq<bv8>)
    requires |p| % 16 == 0
    ensures |c| == |p|
    decreases |p|
  {
    if p == [] then [] else
      var b: Block := e(Xor(p[..16], iv));
      b + Encrypt(e, b, p[16..])
  }

  function Decrypt(d: Cipher, iv: Block, c: seq<bv8>): (p: seq<bv8>)
    requires |c| % 16 == 0
    ensures |p| == |c|
    decreases |c|
  {
    if c == [] then [] else Xor(d(c[..16]), iv) + Decrypt(d, c[..16], c[16..])
  }

  /** The vector left for the next call: the last block of ciphertext. */
  function NextIv(iv: Block, c: seq<bv8>): Block
    requires |c| % 16 == 0
  {
    if c == [] then iv else c[|c| - 16..]
  }

  // ---------- each undoes the other ----------

  lemma {:induction false} DecryptEncrypt(e: Cipher, d: Cipher, iv: Block, p: seq<bv8>)
    requires Inverse(e, d) && |p| % 16 == 0
    ensures Decrypt(d, iv, Encrypt(e, iv, p)) == p
    decreases |p|
  {
    hide Xor;
    if p != [] {
      var b: Block := e(Xor(p[..16], iv));
      DecryptEncrypt(e, d, b, p[16..]);
      var c := Encrypt(e, iv, p);
      assert c[..16] == b && c[16..] == Encrypt(e, b, p[16..]);
      XorTwice(p[..16], iv);
    }
  }

  lemma {:induction false} EncryptDecrypt(e: Cipher, d: Cipher, iv: Block, c: seq<bv8>)
    requires Inverse(e, d) && |c| % 16 == 0
    ensures Encrypt(e, iv, Decrypt(d, iv, c)) == c
    decreases |c|
  {
    hide Xor;
    if c != [] {
      var b: Block := c[..16];
      EncryptDecrypt(e, d, b, c[16..]);
      var p := Decrypt(d, iv, c);
      assert p[..16] == Xor(d(b), iv) && p[16..] == Decrypt(d, b, c[16..]);
      XorTwice(d(b), iv);
    }
  }

  // ---------- why decryption runs backwards ----------

  /** Decrypting in place from the front would find plaintext where the previous ciphertext block was. */
  function FrontToBack(d: Cipher, iv: Block, c: seq<bv8>): (p: seq<bv8>)
    requires |c| % 16 == 0
    ensures |p| == |c|
    decreases |c|
  {
    if c == [] then [] else
      var b: Block := Xor(d(c[..16]), iv);
      b + FrontToBack(d, b, c[16..])
  }

  /** That is right exactly if every block but the last decrypts to itself. */
  lemma {:induction false} FrontToBackWhen(d: Cipher, iv: Block, c: seq<bv8>)
    requires |c| % 16 == 0 && c != []
    ensures FrontToBack(d, iv, c) == Decrypt(d, iv, c) <==> Decrypt(d, iv, c)[..|c| - 16] == c[..|c| - 16]
    decreases |c|
  {
    hide Xor;
    var b: Block := Xor(d(c[..16]), iv);
    var r, p, f := c[16..], Decrypt(d, iv, c), FrontToBack(d, iv, c);
    assert p[..16] == b == f[..16];
    assert p[16..] == Decrypt(d, c[..16], r) && f[16..] == FrontToBack(d, b, r);
    assert f == p <==> f[16..] == p[16..] by { assert f == f[..16] + f[16..] && p == p[..16] + p[16..]; }
    if |c| > 16 {
      assert p[..|c| - 16] == b + p[16..][..|r| - 16] && c[..|c| - 16] == c[..16] + r[..|r| - 16];
      if b == c[..16] {
        FrontToBackWhen(d, b, r);
        assert p[..|c| - 16] == c[..|c| - 16] <==> p[16..][..|r| - 16] == r[..|r| - 16] by {
          assert p[..|c| - 16][16..] == p[16..][..|r| - 16] && c[..|c| - 16][16..] == r[..|r| - 16];
        }
      } else {
        XorCancels(d(r[..16]), b, c[..16]);
        assert p[16..][..16] != f[16..][..16];
        assert p[..|c| - 16][..16] == b && c[..|c| - 16][..16] == c[..16];
      }
    }
  }

  lemma XorCancels(x: Block, y: Block, z: Block)
    requires y != z
    ensures Xor(x, y) != Xor(x, z)
  {
    hide Xor;
    XorSwap(x, y);
    XorSwap(x, z);
    XorTwice(y, x);
    XorTwice(z, x);
  }

  lemma XorSwap(x: Block, y: Block)
    ensures Xor(x, y) == Xor(y, x)
  {
  }

  /** Two blocks are enough to get it wrong, whatever the cipher and the blocks are. */
  lemma FrontToBackWrong(d: Cipher, c: seq<bv8>) returns (iv: Block)
    requires |c| == 32
    ensures FrontToBack(d, iv, c) != Decrypt(d, iv, c)
  {
    hide Xor;
    var zeros: Block, ones: Block := seq(16, _ => 0), seq(16, _ => 1);
    assert zeros[0] != ones[0];
    XorCancels(d(c[..16]), zeros, ones);
    iv := if Xor(d(c[..16]), zeros) != c[..16] then zeros else ones;
    FrontToBackWhen(d, iv, c);
    assert Decrypt(d, iv, c)[..16] == Xor(d(c[..16]), iv);
  }

  // ---------- consecutive calls ----------

  lemma {:induction false} EncryptSplit(e: Cipher, iv: Block, p: seq<bv8>, q: seq<bv8>)
    requires |p| % 16 == 0 && |q| % 16 == 0
    ensures var c := Encrypt(e, iv, p); Encrypt(e, iv, p + q) == c + Encrypt(e, NextIv(iv, c), q)
    decreases |p|
  {
    hide Xor;
    if p == [] {
      assert p + q == q;
    } else {
      var b: Block := e(Xor(p[..16], iv));
      EncryptSplit(e, b, p[16..], q);
      assert (p + q)[..16] == p[..16] && (p + q)[16..] == p[16..] + q;
      var c := Encrypt(e, b, p[16..]);
      assert NextIv(iv, b + c) == NextIv(b, c);
    }
  }

  lemma {:induction false} DecryptSplit(d: Cipher, iv: Block, c: seq<bv8>, r: seq<bv8>)
    requires |c| % 16 == 0 && |r| % 16 == 0
    ensures Decrypt(d, iv, c + r) == Decrypt(d, iv, c) + Decrypt(d, NextIv(iv, c), r)
    decreases |c|
  {
    hide Xor;
    if c == [] {
      assert c + r == r;
    } else {
      DecryptSplit(d, c[..16], c[16..], r);
      assert (c + r)[..16] == c[..16] && (c + r)[16..] == c[16..] + r;
      assert NextIv(iv, c) == NextIv(c[..16], c[16..]);
    }
  }

  ghost predicate Whole(ms: seq<seq<bv8>>) { forall m | m in ms :: |m| % 16 == 0 }

  function Concat(ms: seq<seq<bv8>>): (s: seq<bv8>)
    requires Whole(ms)
    ensures |s| % 16 == 0
  {
    if ms == [] then [] else ms[0] + Concat(ms[1..])
  }

  /** One encrypting context, called once for each message. */
  function EncryptAll(e: Cipher, iv: Block, ps: seq<seq<bv8>>): (r: (seq<bv8>, Block))
    requires Whole(ps)
    decreases |ps|
  {
    if ps == [] then ([], iv) else
      var c := Encrypt(e, iv, ps[0]);
      var rest := EncryptAll(e, NextIv(iv, c), ps[1..]);
      (c + rest.0, rest.1)
  }

  function DecryptAll(d: Cipher, iv: Block, cs: seq<seq<bv8>>): (r: (seq<bv8>, Block))
    requires Whole(cs)
    decreases |cs|
  {
    if cs == [] then ([], iv) else
      var rest := DecryptAll(d, NextIv(iv, cs[0]), cs[1..]);
      (Decrypt(d, iv, cs[0]) + rest.0, rest.1)
  }

  lemma {:induction false} EncryptAllIsOne(e: Cipher, iv: Block, ps: seq<seq<bv8>>)
    requires Whole(ps)
    ensures var c := Encrypt(e, iv, Concat(ps)); EncryptAll(e, iv, ps) == (c, NextIv(iv, c))
    decreases |ps|
  {
    hide Encrypt;
    if ps == [] {
      NoEncrypt(e, iv);
    } else {
      var c := Encrypt(e, iv, ps[0]);
      EncryptAllIsOne(e, NextIv(iv, c), ps[1..]);
      EncryptSplit(e, iv, ps[0], Concat(ps[1..]));
      IvSplit(iv, c, Encrypt(e, NextIv(iv, c), Concat(ps[1..])));
    }
  }

  lemma NoEncrypt(e: Cipher, iv: Block)
    ensures Encrypt(e, iv, []) == []
  {
  }

  lemma IvSplit(iv: Block, c: seq<bv8>, r: seq<bv8>)
    requires |c| % 16 == 0 && |r| % 16 == 0
    ensures NextIv(iv, c + r) == NextIv(NextIv(iv, c), r)
  {
    if r == [] { assert c + r == c; } else { assert (c + r)[|c + r| - 16..] == r[|r| - 16..]; }
  }

  lemma {:induction false} DecryptAllIsOne(d: Cipher, iv: Block, cs: seq<seq<bv8>>)
    requires Whole(cs)
    ensures DecryptAll(d, iv, cs) == (Decrypt(d, iv, Concat(cs)), NextIv(iv, Concat(cs)))
    decreases |cs|
  {
    if cs == [] {
    } else {
      DecryptAllIsOne(d, NextIv(iv, cs[0]), cs[1..]);
      DecryptSplit(d, iv, cs[0], Concat(cs[1..]));
      IvSplit(iv, cs[0], Concat(cs[1..]));
    }
  }

  /** However each side cuts the stream into calls, the plaintext arrives and both hold the same vector. */
  lemma Conversation(e: Cipher, d: Cipher, iv: Block, ps: seq<seq<bv8>>, cs: seq<seq<bv8>>)
    requires Inverse(e, d) && Whole(ps) && Whole(cs)
    requires Concat(cs) == EncryptAll(e, iv, ps).0
    ensures DecryptAll(d, iv, cs) == (Concat(ps), EncryptAll(e, iv, ps).1)
  {
    EncryptAllIsOne(e, iv, ps);
    DecryptAllIsOne(d, iv, cs);
    DecryptEncrypt(e, d, iv, Concat(ps));
  }

  // ---------- the context ----------

  /** One block of plaintext out of the middle. */
  lemma DecryptAt(d: Cipher, iv: Block, c: seq<bv8>, n: nat)
    requires |c| % 16 == 0 && n % 16 == 0 && n + 16 <= |c|
    ensures Decrypt(d, iv, c)[n..n + 16] == Xor(d(c[n..n + 16]), if n == 0 then iv else c[n - 16..n])
  {
    hide Xor;
    var rest := c[n..];
    DecryptSplit(d, iv, c[..n], rest);
    assert c == c[..n] + rest && rest[..16] == c[n..n + 16];
    if n > 0 { assert NextIv(iv, c[..n]) == c[n - 16..n]; }
    var v := NextIv(iv, c[..n]);
    assert Decrypt(d, v, rest)[..16] == Xor(d(rest[..16]), v);
    assert Decrypt(d, iv, c)[n..n + 16] == Decrypt(d, v, rest)[..16];
  }

  lemma EncryptNext(e: Cipher, iv: Block, p: seq<bv8>, n: nat)
    requires n % 16 == 0 && n + 16 <= |p|
    ensures var c := Encrypt(e, iv, p[..n]);
            var b: Block := e(Xor(p[n..n + 16], NextIv(iv, c)));
            Encrypt(e, iv, p[..n + 16]) == c + b && NextIv(iv, c + b) == b
  {
    hide Xor;
    var q := p[n..n + 16];
    EncryptSplit(e, iv, p[..n], q);
    assert p[..n + 16] == p[..n] + q && q[..16] == q;
    var v := NextIv(iv, Encrypt(e, iv, p[..n]));
    assert Encrypt(e, v, q) == e(Xor(q, v)) by { var b: Block := e(Xor(q, v)); assert q[16..] == []; NoEncrypt(e, b); }
  }

  datatype Outcome = Done | Fatal | NoContext

  method PutBlock(a: array<bv8>, at: nat, b: Block)
    requires at + 16 <= a.Length
    modifies a
    ensures a[..] == Splice(old(a[..]), at, b)
  {
    forall j | 0 <= j < 16 { a[at + j] := b[j]; }
    assert a[..][at..at + 16] == b;
    IsSplice(old(a[..]), a[..], at, b);
  }

  /** One turn of the decrypting loop: the block before it is read after this one is overwritten. */
  method DecryptOne(d: Cipher, iv: Block, dest: array<bv8>, to: nat, src: array<bv8>, from: nat, n: nat)
    requires n == 0 || 16 <= n
    requires to + n + 16 <= dest.Length && from + n + 16 <= src.Length && (src == dest ==> from == to)
    modifies dest
    ensures dest[..] == Splice(old(dest[..]), to + n, Xor(d(old(src[from + n..from + n + 16])),
                                                          if n == 0 then iv else old(src[from + n - 16..from + n])))
  {
    hide Splice, Xor;
    ghost var was := dest[..];
    var plain: Block := d(src[from + n..from + n + 16]);
    PutBlock(dest, to + n, plain);
    if n > 0 {
      SpliceApart(was, to + n, plain, to + n - 16, to + n);
      assert src[..][from + n - 16..from + n] == old(src[..])[from + n - 16..from + n];
    }
    var ivp := if n == 0 then iv else src[from + n - 16..from + n];
    PutBlock(dest, to + n, Xor(plain, ivp));
    SpliceTwice(was, to + n, plain, Xor(plain, ivp));
  }

  class Context {
    var iv: Block

    constructor (v: Block)
      ensures iv == v
    {
      iv := v;
    }

    /** ssh_rijndael_cbc, encrypting: front to back */
    method EncryptBlocks(e: Cipher, dest: array<bv8>, to: nat, src: array<bv8>, from: nat, len: nat)
      requires len % 16 == 0 && to + len <= dest.Length && from + len <= src.Length && (src == dest ==> from == to)
      modifies this, dest
      ensures var c := Encrypt(e, old(iv), old(src[from..from + len]));
              dest[..] == Splice(old(dest[..]), to, c) && iv == NextIv(old(iv), c)
    {
      hide Encrypt, Splice, NextIv, Xor;
      ghost var sent, was := src[..], dest[..];
      ghost var p := sent[from..from + len];
      var cprev := iv;
      var n := 0;
      NoEncrypt(e, iv);
      Untouched(was, to);
      IvNone(iv);
      while n < len
        invariant 0 <= n <= len && n % 16 == 0
        invariant dest[..] == Splice(was, to, Encrypt(e, old(iv), p[..n]))
        invariant cprev == NextIv(old(iv), Encrypt(e, old(iv), p[..n]))
        invariant src != dest ==> src[..] == sent
        modifies dest
      {
        ghost var c := Encrypt(e, old(iv), p[..n]);
        SubSlice(sent, from, len, n, 16);
        SpliceApart(was, to, c, to + n, to + n + 16);
        assert src[..][from + n..from + n + 16] == p[n..n + 16];
        cprev := e(Xor(src[from + n..from + n + 16], cprev));
        PutBlock(dest, to + n, cprev);
        SpliceMore(was, to, c, cprev);
        EncryptNext(e, old(iv), p, n);
        n := n + 16;
      }
      assert p[..len] == p;
      iv := cprev;
    }

    /** ssh_rijndael_cbc, decrypting: back to front, so that in place every block still finds the one before it */
    method DecryptBlocks(d: Cipher, dest: array<bv8>, to: nat, src: array<bv8>, from: nat, len: nat)
      requires 0 < len && len % 16 == 0
      requires to + len <= dest.Length && from + len <= src.Length && (src == dest ==> from == to)
      modifies this, dest
      ensures var c := old(src[from..from + len]);
              dest[..] == Splice(old(dest[..]), to, Decrypt(d, old(iv), c)) && iv == NextIv(old(iv), c)
    {
      hide Decrypt, Splice, Xor, NextIv;
      ghost var sent, was := src[..], dest[..];
      ghost var c := sent[from..from + len];
      ghost var p := Decrypt(d, iv, c);
      var buf := src[from + len - 16..from + len];
      SubSlice(sent, from, len, len - 16, 16);
      var n := len;
      Untouched(was, to + len);
      assert p[n..] == [];
      while n > 0
        invariant 0 <= n <= len && n % 16 == 0
        invariant dest[..] == Splice(was, to + n, p[n..])
        invariant src[..] == if src == dest then dest[..] else sent
        modifies dest
      {
        n := n - 16;
        ghost var here := dest[..];
        Before(sent, was, c, p, from, to, len, n);
        DecryptOne(d, iv, dest, to, src, from, n);
        Turn(d, iv, c, was, to, n, here, dest[..]);
      }
      assert p[0..] == p;
      LastBlock(iv, c);
      iv := buf;
    }

    /** ssh_rijndael_cbc; `attached` says whether the cipher context is there at all. */
    method Run(e: Cipher, d: Cipher, attached: bool, encrypt: bool,
               dest: array<bv8>, to: nat, src: array<bv8>, from: nat, len: nat)
      returns (r: Outcome)
      requires to + len <= dest.Length && from + len <= src.Length && (src == dest ==> from == to)
      modifies this, dest
      ensures r == Fatal <==> len % 16 != 0
      ensures r == NoContext <==> len > 0 && len % 16 == 0 && !attached
      ensures r != Done ==> dest[..] == old(dest[..]) && iv == old(iv)
      ensures r == Done && encrypt ==>
                var c := Encrypt(e, old(iv), old(src[from..from + len]));
                dest[..] == Splice(old(dest[..]), to, c) && iv == NextIv(old(iv), c)
      ensures r == Done && !encrypt ==>
                var c := old(src[from..from + len]);
                dest[..] == Splice(old(dest[..]), to, Decrypt(d, old(iv), c)) && iv == NextIv(old(iv), c)
    {
      hide Splice;
      if len == 0 {
        Untouched(dest[..], to);
        return Done;
      }
      if len % 16 != 0 {
        return Fatal;
      }
      if !attached {
        return NoContext;
      }
      if encrypt {
        EncryptBlocks(e, dest, to, src, from, len);
      } else {
        DecryptBlocks(d, dest, to, src, from, len);
      }
      r := Done;
    }
  }

  /** One more block decrypted and stored. */
  lemma Turn(d: Cipher, iv: Block, c: seq<bv8>, was: seq<bv8>, to: nat, n: nat, here: seq<bv8>, now: seq<bv8>)
    requires |c| % 16 == 0 && n % 16 == 0 && n + 16 <= |c| && to + |c| <= |was|
    requires here == Splice(was, to + n + 16, Decrypt(d, iv, c)[n + 16..])
    requires now == Splice(here, to + n, Xor(d(c[n..n + 16]), if n == 0 then iv else c[n - 16..n]))
    ensures now == Splice(was, to + n, Decrypt(d, iv, c)[n..])
  {
    hide Decrypt, Splice, Xor;
    var p := Decrypt(d, iv, c);
    DecryptAt(d, iv, c, n);
    SpliceLess(was, to + n, p[n..n + 16], p[n + 16..]);
    assert p[n..] == p[n..n + 16] + p[n + 16..];
  }

  /** Going backwards, the blocks up to this one are still ciphertext. */
  lemma Before(sent: seq<bv8>, was: seq<bv8>, c: seq<bv8>, p: seq<bv8>, from: nat, to: nat, len: nat, n: nat)
    requires from + len <= |sent| && c == sent[from..from + len] && |p| == len && to + len <= |was|
    requires n % 16 == 0 && n + 16 <= len
    ensures sent[from + n..from + n + 16] == c[n..n + 16]
    ensures n > 0 ==> sent[from + n - 16..from + n] == c[n - 16..n]
    ensures var now := Splice(was, to + n + 16, p[n + 16..]);
            now[to + n..to + n + 16] == was[to + n..to + n + 16]
            && (n > 0 ==> now[to + n - 16..to + n] == was[to + n - 16..to + n])
  {
    SubSlice(sent, from, len, n, 16);
    SpliceApart(was, to + n + 16, p[n + 16..], to + n, to + n + 16);
    if n > 0 {
      SubSlice(sent, from, len, n - 16, 16);
      SpliceApart(was, to + n + 16, p[n + 16..], to + n - 16, to + n);
    }
  }

  lemma LastBlock(iv: Block, c: seq<bv8>)
    requires |c| % 16 == 0 && c != []
    ensures NextIv(iv, c) == c[|c| - 16..|c|]
  {
  }

  lemma SpliceTwice(s: seq<bv8>, at: nat, x: Block, y: Block)
    requires at + 16 <= |s|
    ensures Splice(Splice(s, at, x), at, y) == Splice(s, at, y)
  {
  }

  lemma IvNone(iv: Block)
    ensures NextIv(iv, []) == iv
  {
  }
}
