/** The serialiser and its inverse, appending to and consuming from a packet buffer. */
module KeyOptionsObject {
  import opened Bytes
  import opened Wire
  import opened KeyOptions

  class Buffer {
    var data: seq<Byte>

    constructor (d: seq<Byte>)
      ensures data == d
    {
      data := d;
    }

    ghost predicate Valid()
      reads this
    {
      |data| <= SIZE_MAX
    }

    /** sshbuf_put: all or nothing, up to the buffer's maximum size */
    method Put(s: seq<Byte>) returns (ok: bool)
      requires Valid()
      modifies this
      ensures Valid() && (ok <==> |old(data)| + |s| <= SIZE_MAX)
      ensures data == if ok then old(data) + s else old(data)
    {
      ok := |data| + |s| <= SIZE_MAX;
      if ok {
        data := data + s;
      }
    }

    method PutString(s: seq<Byte>) returns (ok: bool)
      requires Valid()
      modifies this
      ensures Valid() && (ok <==> |old(data)| + 4 + |s| <= SIZE_MAX)
      ensures data == if ok then old(data) + Lengthed(s) else old(data)
    {
      hide U32Bytes;
      if |s| > SIZE_MAX - 4 {
        return false;
      }
      ok := Put(U32Bytes(|s|) + s);
    }

    method GetU8() returns (ok: bool, v: Byte)
      modifies this
      ensures ok == ReadU8(old(data)).Got? && (if ok then Got(v, data) == ReadU8(old(data)) else data == old(data))
    {
      if |data| < 1 {
        return false, 0;
      }
      ok, v, data := true, data[0], data[1..];
    }

    method GetU32() returns (ok: bool, v: U32)
      modifies this
      ensures ok == ReadU32(old(data)).Got? && (if ok then Got(v, data) == ReadU32(old(data)) else data == old(data))
    {
      if |data| < 4 {
        return false, 0;
      }
      ok, v, data := true, U32Of(data), data[4..];
    }

    method GetU64() returns (ok: bool, v: U64)
      modifies this
      ensures ok == ReadU64(old(data)).Got? && (if ok then Got(v, data) == ReadU64(old(data)) else data == old(data))
    {
      if |data| < 8 {
        return false, 0;
      }
      ok, v, data := true, U32Of(data) * TWO32 + U32Of(data[4..]), data[8..];
    }

    /** sshbuf_peek_string_direct: the string at the front, which is left there. */
    method PeekString() returns (ok: bool, s: seq<Byte>)
      ensures ok == ReadStr(data).Got? && (ok ==> 4 + |s| <= |data| && Got(s, data[4 + |s|..]) == ReadStr(data))
    {
      if |data| < 4 {
        return false, [];
      }
      var n := U32Of(data);
      if n > SIZE_MAX - 4 || |data| - 4 < n {
        return false, [];
      }
      ok, s := true, data[4..4 + n];
    }

    method GetString() returns (ok: bool, s: seq<Byte>)
      modifies this
      ensures ok == ReadStr(old(data)).Got? && (if ok then Got(s, data) == ReadStr(old(data)) else data == old(data))
    {
      hide ReadStr;
      ok, s := PeekString();
      if ok {
        data := data[4 + |s|..];
      }
    }

    /** sshbuf_get_cstring: a string with a NUL before its end is refused and stays where it is. */
    method GetCString() returns (ok: bool, s: CStr)
      modifies this
      ensures ok == ReadCStr(old(data)).Got? && (if ok then Got(s, data) == ReadCStr(old(data)) else data == old(data))
    {
      hide ReadStr;
      s := [];
      var t: seq<Byte>;
      ok, t := PeekString();
      if !ok {
        return;
      }
      var z := 0;
      while z < |t| && t[z] != 0
        invariant 0 <= z <= |t|
        invariant forall i | 0 <= i < z :: t[i] != 0
      {
        z := z + 1;
      }
      if |t| > 0 && z < |t| - 1 {
        assert t[z] == 0;
        return false, [];
      }
      data := data[4 + |t|..];
      s := t[..z];
      assert z == |t| ==> t[..z] == t;
    }
  }

  // ---------- writing ----------

  method SerialiseNullable(m: Buffer, s: Option<CStr>) returns (ok: bool)
    requires m.Valid()
    modifies m
    ensures m.Valid() && (ok <==> |old(m.data)| + |NullableBytes(s)| <= SIZE_MAX)
    ensures ok ==> m.data == old(m.data) + NullableBytes(s)
  {
    hide Lengthed;
    ok := m.Put([if s.None? then 1 else 0]);
    if ok {
      ok := m.PutString(if s.None? then [] else s.value);
    }
  }

  method SerialiseArray(m: Buffer, a: seq<CStr>) returns (ok: bool)
    requires m.Valid()
    modifies m
    ensures m.Valid() && (ok <==> |old(m.data)| + |ArrayBytes(a)| <= SIZE_MAX)
    ensures ok ==> m.data == old(m.data) + ArrayBytes(a)
  {
    hide Lengthed, U32Bytes, StringsBytes;
    var n := |a|;
    if n > 0x7fff_ffff {
      return false;
    }
    var b := new Buffer([]);
    var i := 0;
    NoStrings();
    while i < n
      invariant 0 <= i <= n && fresh(b) && b.Valid()
      invariant b.data == StringsBytes(a[..i])
      modifies b
    {
      OneMore(a, i);
      ok := b.PutString(a[i]);
      if !ok {
        Grows(a, i + 1);
        return;
      }
      i := i + 1;
    }
    assert a[..n] == a;
    ok := m.Put(U32Bytes(n));
    if ok {
      ok := m.PutString(b.data);
    }
  }

  lemma NoStrings()
    ensures StringsBytes([]) == []
  {
  }

  lemma OneMore(a: seq<CStr>, i: nat)
    requires i < |a|
    ensures StringsBytes(a[..i + 1]) == StringsBytes(a[..i]) + Lengthed(a[i])
  {
    assert a[..i + 1][..i] == a[..i];
  }

  /** A prefix of an array is no longer than the whole. */
  lemma {:induction false} Grows(a: seq<CStr>, i: nat)
    requires i <= |a|
    ensures |StringsBytes(a[..i])| <= |StringsBytes(a)|
    decreases |a| - i
  {
    if i < |a| {
      assert a[..i + 1][..i] == a[..i];
      Grows(a, i + 1);
    } else {
      assert a[..i] == a;
    }
  }

  method SerialiseFlags(m: Buffer, f: Flags) returns (ok: bool)
    requires m.Valid()
    modifies m
    ensures m.Valid() && (ok <==> |old(m.data)| + 9 <= SIZE_MAX)
    ensures ok ==> m.data == old(m.data) + FlagBytes(f)
  {
    var s := FlagBytes(f);
    var i := 0;
    ok := true;
    while i < 9
      invariant 0 <= i <= 9 && ok && m.Valid() && m.data == old(m.data) + s[..i]
    {
      ok := m.Put([s[i]]);
      if !ok {
        return;
      }
      i := i + 1;
    }
    assert s[..9] == s;
  }

  method SerialiseHead(m: Buffer, o: Opts) returns (ok: bool)
    requires m.Valid()
    modifies m
    ensures m.Valid() && (ok <==> |old(m.data)| + |Head(o)| <= SIZE_MAX)
    ensures ok ==> m.data == old(m.data) + Head(o)
  {
    hide FlagBytes, U64Bytes, U32Bytes;
    ok := SerialiseFlags(m, o.flags);
    if ok {
      ok := m.Put(U64Bytes(o.validBefore));
    }
    if ok {
      ok := m.Put([if o.forceTunDevice == -1 then 1 else 0]);
    }
    if ok {
      ok := m.Put(U32Bytes(if o.forceTunDevice < 0 then 0 else o.forceTunDevice));
    }
  }

  method SerialiseStrings(m: Buffer, o: Opts) returns (ok: bool)
    requires m.Valid()
    modifies m
    ensures m.Valid() && (ok <==> |old(m.data)| + |Strings(o)| <= SIZE_MAX)
    ensures ok ==> m.data == old(m.data) + Strings(o)
  {
    hide NullableBytes;
    ok := SerialiseNullable(m, o.certPrincipals);
    if ok {
      ok := SerialiseNullable(m, o.forceCommand);
    }
    if ok {
      ok := SerialiseNullable(m, o.requiredFromHostCert);
    }
    if ok {
      ok := SerialiseNullable(m, o.requiredFromHostKeys);
    }
  }

  method SerialiseArrays(m: Buffer, o: Opts) returns (ok: bool)
    requires m.Valid()
    modifies m
    ensures m.Valid() && (ok <==> |old(m.data)| + |Arrays(o)| <= SIZE_MAX)
    ensures ok ==> m.data == old(m.data) + Arrays(o)
  {
    hide ArrayBytes;
    ok := SerialiseArray(m, o.env);
    if ok {
      ok := SerialiseArray(m, o.permitopen);
    }
    if ok {
      ok := SerialiseArray(m, o.permitlisten);
    }
  }

  /** sshauthopt_serialise: fails exactly when the buffer cannot hold the encoding. */
  method Serialise(opts: Opts, m: Buffer, untrusted: bool) returns (ok: bool)
    requires m.Valid()
    modifies m
    ensures ok <==> |old(m.data)| + |Encode(Redacted(opts, untrusted))| <= SIZE_MAX
    ensures ok ==> m.data == old(m.data) + Encode(Redacted(opts, untrusted))
  {
    hide Head, Strings, Arrays;
    var o := Redacted(opts, untrusted);
    ok := SerialiseHead(m, o);
    if ok {
      ok := SerialiseStrings(m, o);
    }
    if ok {
      ok := SerialiseArrays(m, o);
    }
  }

  // ---------- reading ----------

  method DeserialiseNullable(m: Buffer) returns (ok: bool, s: Option<CStr>)
    modifies m
    ensures ok == ReadNullable(old(m.data)).Got? && (ok ==> Got(s, m.data) == ReadNullable(old(m.data)))
  {
    hide ReadCStr;
    s := None;
    var flag: Byte;
    ok, flag := m.GetU8();
    if ok {
      var t: CStr;
      ok, t := m.GetCString();
      if ok && flag == 0 {
        s := Some(t);
      }
    }
  }

  method DeserialiseArray(m: Buffer) returns (ok: bool, a: seq<CStr>)
    modifies m
    ensures ok == ReadArray(old(m.data)).Got? && (ok ==> Got(a, m.data) == ReadArray(old(m.data)))
  {
    hide ReadCStr, ReadStr, U32Of;
    a := [];
    var n: U32;
    var inner: seq<Byte>;
    ok, n := m.GetU32();
    if !ok {
      return;
    }
    ok, inner := m.GetString();
    if !ok {
      return;
    }
    if n > 0x7fff_ffff {
      return false, [];
    }
    var b := new Buffer(inner);
    var i := 0;
    while i < n
      invariant 0 <= i <= n && fresh(b) && ok
      invariant ReadStrings(inner, i) == Got(a, b.data)
      modifies b
    {
      var s: CStr;
      ok, s := b.GetCString();
      if !ok {
        Stuck(inner, i + 1, n);
        return;
      }
      a := a + [s];
      i := i + 1;
    }
  }

  /** Once a string cannot be read, no longer array can. */
  lemma {:induction false} Stuck(b: seq<Byte>, i: nat, n: nat)
    requires i <= n && ReadStrings(b, i).Fail?
    ensures ReadStrings(b, n).Fail?
    decreases n
  {
    hide ReadCStr;
    if i < n { Stuck(b, i, n - 1); }
  }

  method DeserialiseFlags(m: Buffer) returns (ok: bool, f: Flags)
    modifies m
    ensures ok <==> |old(m.data)| >= 9
    ensures ok ==> f == FlagsOf(old(m.data)) && m.data == old(m.data)[9..]
  {
    f := Flags(0, 0, 0, 0, 0, 0, 0, 0, 0);
    var s: seq<Byte> := [];
    var i := 0;
    ok := true;
    while i < 9
      invariant 0 <= i <= 9 && ok && i <= |old(m.data)|
      invariant s == old(m.data)[..i] && m.data == old(m.data)[i..]
    {
      var v: Byte;
      ok, v := m.GetU8();
      if !ok {
        return;
      }
      s := s + [v];
      i := i + 1;
    }
    f := FlagsOf(s);
  }

  method DeserialiseHead(m: Buffer) returns (ok: bool, h: HeadPart)
    modifies m
    ensures ok == ReadHead(old(m.data)).Got? && (ok ==> Got(h, m.data) == ReadHead(old(m.data)))
  {
    hide FlagsOf, U32Of;
    h := HeadPart(Flags(0, 0, 0, 0, 0, 0, 0, 0, 0), 0, 0);
    var f: Flags;
    var v: U64;
    var u: Byte;
    var t: U32;
    ok, f := DeserialiseFlags(m);
    if !ok {
      return;
    }
    ok, v := m.GetU64();
    if !ok {
      return;
    }
    ok, u := m.GetU8();
    if !ok {
      return;
    }
    ok, t := m.GetU32();
    if ok {
      h := HeadPart(f, v, if u != 0 then -1 else ToI32(t));
    }
  }

  method DeserialiseStrings(m: Buffer) returns (ok: bool, s: seq<Option<CStr>>)
    modifies m
    ensures ok == ReadFour(old(m.data)).Got? && (ok ==> Got(s, m.data) == ReadFour(old(m.data)))
  {
    hide ReadNullable;
    s := [];
    var s0, s1, s2, s3: Option<CStr>;
    ok, s0 := DeserialiseNullable(m);
    if !ok {
      return;
    }
    ok, s1 := DeserialiseNullable(m);
    if !ok {
      return;
    }
    ok, s2 := DeserialiseNullable(m);
    if !ok {
      return;
    }
    ok, s3 := DeserialiseNullable(m);
    s := [s0, s1, s2, s3];
  }

  method DeserialiseArrays(m: Buffer) returns (ok: bool, a: seq<seq<CStr>>)
    modifies m
    ensures ok == ReadThree(old(m.data)).Got? && (ok ==> Got(a, m.data) == ReadThree(old(m.data)))
  {
    hide ReadArray;
    a := [];
    var a0, a1, a2: seq<CStr>;
    ok, a0 := DeserialiseArray(m);
    if !ok {
      return;
    }
    ok, a1 := DeserialiseArray(m);
    if !ok {
      return;
    }
    ok, a2 := DeserialiseArray(m);
    a := [a0, a1, a2];
  }

  /** sshauthopt_deserialise */
  method Deserialise(m: Buffer) returns (r: Option<Opts>)
    modifies m
    ensures r.Some? <==> Decode(old(m.data)).Got?
    ensures r.Some? ==> Got(r.value, m.data) == Decode(old(m.data))
  {
    hide ReadHead, ReadFour, ReadThree;
    r := None;
    var ok, h := DeserialiseHead(m);
    if ok {
      var s: seq<Option<CStr>>;
      ok, s := DeserialiseStrings(m);
      if ok {
        var a: seq<seq<CStr>>;
        ok, a := DeserialiseArrays(m);
        if ok {
          r := Some(Build(h, s, a));
        }
      }
    }
  }
}
