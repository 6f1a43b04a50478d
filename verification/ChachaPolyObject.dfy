/** The cipher context of chacha20-poly1305@openssh.com, working on packets in place. */
module ChachaPolyObject {
  import opened ChaCha
  import opened ChaChaObject
  import opened ChachaPoly
  import opened Slices

  method PutTag(dest: array<bv8>, at: nat, tag: Tag)
    requires at + 16 <= dest.Length
    modifies dest
    ensures dest[..] == Splice(old(dest[..]), at, tag)
  {
    forall i | 0 <= i < 16 { dest[at + i] := tag[i]; }
    assert dest[..][at..at + 16] == tag;
    IsSplice(old(dest[..]), dest[..], at, tag);
  }

  class Context {
    const main: Ctx
    const header: Ctx

    ghost predicate Valid() { main != header }

    constructor (m: Ctx, h: Ctx)
      requires m != h
      ensures Valid() && main == m && header == h
    {
      main, header := m, h;
    }

    static method New(key: seq<bv8>) returns (r: Context?)
      ensures r == null <==> |key| != 64
      ensures r != null ==> r.Valid() && fresh(r) && fresh(r.main) && fresh(r.header)
      ensures r != null ==> r.main.input == KeySetup(key[..32]) && r.header.input == KeySetup(key[32..])
    {
      if |key| != 64 {
        return null;
      }
      var m := new Ctx(key[..32]);
      var h := new Ctx(key[32..]);
      r := new Context(m, h);
    }

    method MakeKey(seqnr: bv32) returns (key: seq<bv8>)
      modifies main
      ensures key == PolyKey(old(main.input), seqnr) && SameKey(main.input, old(main.input))
    {
      hide Keystream, SeqBuf, LittleToU32, Splice, Crypt, IvSetup, Advance;
      var buf := new bv8[32](_ => 0);
      main.SetIv(SeqBuf(seqnr), ZERO8);
      ghost var j, z := main.input, buf[..];
      assert z[0..32] == z;
      CryptZeros(j, z);
      main.EncryptBytes(buf, 0, buf, 0, 32);
      KeyKept(old(main.input), SeqBuf(seqnr), ZERO8, Blocks(32));
      SpliceAt(z, 0, Keystream(j, 32));
      key := buf[..];
      assert key == key[0..32];
    }

    method CryptBody(seqnr: bv32, dest: array<bv8>, d: nat, src: array<bv8>, s: nat, len: nat, aadlen: nat)
      requires Valid()
      requires d + aadlen + len <= dest.Length && s + aadlen + len <= src.Length && (src == dest ==> s == d)
      modifies main, header, dest
      ensures dest[..] == Splice(old(dest[..]), d,
                                 Body(old(main.input), old(header.input), seqnr, old(src[s..s + aadlen + len]), aadlen))
      ensures SameKey(main.input, old(main.input)) && SameKey(header.input, old(header.input))
    {
      hide Keystream, SeqBuf, Splice, Crypt, IvSetup, Advance;
      ghost var from, to, p := src[..], dest[..], src[s..s + aadlen + len];
      ghost var hj := IvSetup(header.input, SeqBuf(seqnr), ZERO8);
      ghost var mj := IvSetup(main.input, SeqBuf(seqnr), ONE8);
      ghost var x, y := Crypt(hj, p[..aadlen]), Crypt(mj, p[aadlen..]);
      Parts(from, s, aadlen, len);
      if aadlen != 0 {
        header.SetIv(SeqBuf(seqnr), ZERO8);
        header.EncryptBytes(src, s, dest, d, aadlen);
        KeyKept(old(header.input), SeqBuf(seqnr), ZERO8, Blocks(aadlen));
      } else {
        Nothing(hj, to, d);
      }
      assert dest[..] == Splice(to, d, x);
      main.SetIv(SeqBuf(seqnr), ONE8);
      SpliceApart(to, d, x, d + aadlen, d + aadlen + len);
      assert src[..][s + aadlen..s + aadlen + len] == p[aadlen..];
      main.EncryptBytes(src, s + aadlen, dest, d + aadlen, len);
      KeyKept(old(main.input), SeqBuf(seqnr), ONE8, Blocks(len));
      SpliceMore(to, d, x, y);
    }

    /** chachapoly_crypt */
    method Run(auth: Mac, seqnr: bv32, dest: array<bv8>, d: nat, src: array<bv8>, s: nat,
               len: nat, aadlen: nat, doEncrypt: bool) returns (ok: bool)
      requires Valid()
      requires d + aadlen + len + (if doEncrypt then 16 else 0) <= dest.Length
      requires s + aadlen + len + (if doEncrypt then 0 else 16) <= src.Length && (src == dest ==> s == d)
      modifies main, header, dest
      ensures doEncrypt ==> ok && dest[..] == Splice(old(dest[..]), d,
                Seal(auth, old(main.input), old(header.input), seqnr, old(src[s..s + aadlen + len]), aadlen))
      ensures !doEncrypt ==>
                var r := Open(auth, old(main.input), old(header.input), seqnr, old(src[s..s + aadlen + len + 16]), aadlen);
                ok == r.Some? && dest[..] == if ok then Splice(old(dest[..]), d, r.value) else old(dest[..])
      ensures SameKey(main.input, old(main.input)) && SameKey(header.input, old(header.input))
    {
      hide Body, PolyKey, Splice, Sign;
      ghost var mj, hj := main.input, header.input;
      var key := MakeKey(seqnr);
      var n := aadlen + len;
      assert src[s..s + n] == old(src[s..s + n]);
      if !doEncrypt {
        var packet := src[s..s + n + 16];
        assert packet[..n] == src[s..s + n];
        if Sign(auth, key, packet[..n]) != packet[n..] {
          return false;
        }
      }
      ghost var body := Body(mj, hj, seqnr, src[s..s + n], aadlen);
      UsedBefore(mj, hj, main.input, hj, seqnr, src[s..s + n], aadlen);
      CryptBody(seqnr, dest, d, src, s, len, aadlen);
      if doEncrypt {
        SpliceAt(old(dest[..]), d, body);
        assert dest[d..d + n] == dest[..][d..d + n] == body;
        var tag := Sign(auth, key, dest[d..d + n]);
        PutTag(dest, d + n, tag);
        SpliceMore(old(dest[..]), d, body, tag);
      }
      ok := true;
    }

    /** chachapoly_get_length: the bytes are read, the packet is left alone. */
    method GetLength(seqnr: bv32, cp: seq<bv8>) returns (plen: Option<bv32>)
      requires Valid()
      modifies header
      ensures plen == Length(old(header.input), seqnr, cp)
      ensures SameKey(header.input, old(header.input))
    {
      hide Keystream, SeqBuf, LittleToU32, Splice, Crypt, PeekU32, IvSetup, Advance;
      if |cp| < 4 {
        return None;
      }
      var buf := new bv8[4](i requires 0 <= i < |cp| => cp[i]);
      assert buf[..] == cp[..4];
      assert buf[0..4] == cp[..4];
      header.SetIv(SeqBuf(seqnr), ZERO8);
      ghost var j := header.input;
      header.EncryptBytes(buf, 0, buf, 0, 4);
      KeyKept(old(header.input), SeqBuf(seqnr), ZERO8, Blocks(4));
      SpliceAt(cp[..4], 0, Crypt(j, cp[..4]));
      assert buf[..] == buf[..][0..4];
      plen := Some(PeekU32(buf[..]));
    }
  }

  lemma KeyKept(j: Words, iv: seq<bv8>, counter: seq<bv8>, n: nat)
    requires |iv| == 8 && |counter| == 8
    ensures SameKey(Advance(IvSetup(j, iv, counter), n), j)
  {
    hide LittleToU32;
    AdvanceKeeps(IvSetup(j, iv, counter), n);
  }

  lemma Parts(from: seq<bv8>, s: nat, aadlen: nat, len: nat)
    requires s + aadlen + len <= |from|
    ensures var p := from[s..s + aadlen + len];
            p[..aadlen] == from[s..s + aadlen] && p[aadlen..] == from[s + aadlen..s + aadlen + len]
  {
  }

  lemma Nothing(j: Words, to: seq<bv8>, d: nat)
    requires d <= |to|
    ensures Splice(to, d, Crypt(j, [])) == to
  {
    Untouched(to, d);
    NoBytes(j);
  }
}
