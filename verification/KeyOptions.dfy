/** Key options as they cross the privilege separation boundary. */
module KeyOptions {
  import opened Bytes
  import opened Wire

  type I32 = x: int | -0x8000_0000 <= x < 0x8000_0000

  datatype Option<+T> = None | Some(value: T)

  datatype Flags = Flags(
    permitPortForwarding: I32, permitAgentForwarding: I32, permitX11Forwarding: I32, permitPty: I32,
    permitUserRc: I32, restricted: I32, certAuthority: I32, noRequireUserPresence: I32, requireVerify: I32)

  datatype Opts = Opts(
    flags: Flags, validBefore: U64, forceTunDevice: I32,
    certPrincipals: Option<CStr>, forceCommand: Option<CStr>,
    requiredFromHostCert: Option<CStr>, requiredFromHostKeys: Option<CStr>,
    env: seq<CStr>, permitopen: seq<CStr>, permitlisten: seq<CStr>)

  // ---------- writing ----------

  function FlagBytes(f: Flags): (s: seq<Byte>)
    ensures |s| == 9
  {
    [f.permitPortForwarding % 256, f.permitAgentForwarding % 256, f.permitX11Forwarding % 256, f.permitPty % 256,
     f.permitUserRc % 256, f.restricted % 256, f.certAuthority % 256, f.noRequireUserPresence % 256,
     f.requireVerify % 256]
  }

  function TunBytes(t: I32): seq<Byte> { [if t == -1 then 1 else 0] + U32Bytes(if t < 0 then 0 else t) }

  /** The length of a string is written in 32 bits. */
  function Lengthed(s: seq<Byte>): (r: seq<Byte>)
    ensures |r| == 4 + |s|
  {
    U32Bytes(|s| % TWO32) + s
  }

  function NullableBytes(s: Option<CStr>): seq<Byte> {
    if s.None? then [1] + Lengthed([]) else [0] + Lengthed(s.value)
  }

  function StringsBytes(a: seq<CStr>): (r: seq<Byte>)
    ensures |r| >= 4 * |a|
  {
    if a == [] then [] else StringsBytes(a[..|a| - 1]) + Lengthed(a[|a| - 1])
  }

  function ArrayBytes(a: seq<CStr>): seq<Byte> { U32Bytes(|a| % TWO32) + Lengthed(StringsBytes(a)) }

  function Head(o: Opts): seq<Byte> { FlagBytes(o.flags) + U64Bytes(o.validBefore) + TunBytes(o.forceTunDevice) }

  function Strings(o: Opts): seq<Byte> {
    NullableBytes(o.certPrincipals) + NullableBytes(o.forceCommand)
    + NullableBytes(o.requiredFromHostCert) + NullableBytes(o.requiredFromHostKeys)
  }

  function Arrays(o: Opts): seq<Byte> { ArrayBytes(o.env) + ArrayBytes(o.permitopen) + ArrayBytes(o.permitlisten) }

  function Encode(o: Opts): seq<Byte> { Head(o) + Strings(o) + Arrays(o) }

  /** What an untrusted reader is given in place of the options. */
  const YES: CStr := [121, 101, 115]
  const TRUE: CStr := [116, 114, 117, 101]

  function Redacted(o: Opts, untrusted: bool): Opts {
    if !untrusted then o
    else o.(certPrincipals := Some(YES), forceCommand := Some(TRUE), requiredFromHostCert := None,
            requiredFromHostKeys := None, env := [], permitopen := [], permitlisten := [])
  }

  // ---------- reading ----------

  function FlagsOf(b: seq<Byte>): Flags
    requires |b| >= 9
  {
    Flags(b[0], b[1], b[2], b[3], b[4], b[5], b[6], b[7], b[8])
  }

  function ToI32(n: U32): I32 { if n >= 0x8000_0000 then n - TWO32 else n }

  function ReadTun(b: seq<Byte>): Read<I32> {
    if |b| < 5 then Fail else Got(if b[0] != 0 then -1 else ToI32(U32Of(b[1..])), b[5..])
  }

  function ReadNullable(b: seq<Byte>): Read<Option<CStr>> {
    if |b| < 1 then Fail
    else match ReadCStr(b[1..])
         case Fail => Fail
         case Got(s, rest) => Got(if b[0] != 0 then None else Some(s), rest)
  }

  /** n strings from the front of b; what follows them is ignored. */
  function ReadStrings(b: seq<Byte>, n: nat): Read<seq<CStr>> {
    if n == 0 then Got([], b)
    else match ReadStrings(b, n - 1)
         case Fail => Fail
         case Got(a, r) =>
           match ReadCStr(r)
           case Fail => Fail
           case Got(s, rest) => Got(a + [s], rest)
  }

  function ReadArray(b: seq<Byte>): Read<seq<CStr>> {
    if |b| < 4 then Fail
    else match ReadStr(b[4..])
         case Fail => Fail
         case Got(inner, rest) =>
           if U32Of(b) > 0x7fff_ffff then Fail
           else match ReadStrings(inner, U32Of(b))
                case Fail => Fail
                case Got(a, _) => Got(a, rest)
  }

  datatype HeadPart = HeadPart(flags: Flags, validBefore: U64, tun: I32)

  function ReadHead(b: seq<Byte>): Read<HeadPart> {
    if |b| < 9 then Fail
    else match ReadU64(b[9..])
         case Fail => Fail
         case Got(v, r) =>
           match ReadTun(r)
           case Fail => Fail
           case Got(t, rest) => Got(HeadPart(FlagsOf(b), v, t), rest)
  }

  function ReadFour(b: seq<Byte>): (r: Read<seq<Option<CStr>>>)
    ensures r.Got? ==> |r.value| == 4
  {
    match ReadNullable(b)
    case Fail => Fail
    case Got(s0, b) =>
      match ReadNullable(b)
      case Fail => Fail
      case Got(s1, b) =>
        match ReadNullable(b)
        case Fail => Fail
        case Got(s2, b) =>
          match ReadNullable(b)
          case Fail => Fail
          case Got(s3, b) => Got([s0, s1, s2, s3], b)
  }

  function ReadThree(b: seq<Byte>): (r: Read<seq<seq<CStr>>>)
    ensures r.Got? ==> |r.value| == 3
  {
    match ReadArray(b)
    case Fail => Fail
    case Got(a0, b) =>
      match ReadArray(b)
      case Fail => Fail
      case Got(a1, b) =>
        match ReadArray(b)
        case Fail => Fail
        case Got(a2, b) => Got([a0, a1, a2], b)
  }

  function Build(h: HeadPart, s: seq<Option<CStr>>, a: seq<seq<CStr>>): Opts
    requires |s| == 4 && |a| == 3
  {
    Opts(h.flags, h.validBefore, h.tun, s[0], s[1], s[2], s[3], a[0], a[1], a[2])
  }

  function Decode(b: seq<Byte>): Read<Opts> {
    match ReadHead(b)
    case Fail => Fail
    case Got(h, b) =>
      match ReadFour(b)
      case Fail => Fail
      case Got(s, b) =>
        match ReadThree(b)
        case Fail => Fail
        case Got(a, b) => Got(Build(h, s, a), b)
  }

  // ---------- the round trip ----------

  /** What survives of the options: flags modulo 256, and no tunnel number below minus one. */
  function CanonFlags(f: Flags): Flags { FlagsOf(FlagBytes(f)) }

  function Canon(o: Opts): Opts {
    o.(flags := CanonFlags(o.flags), forceTunDevice := if o.forceTunDevice < -1 then 0 else o.forceTunDevice)
  }

  predicate Short(s: Option<CStr>) { s.Some? ==> |s.value| <= SIZE_MAX - 4 }

  lemma ReadTunBack(t: I32, rest: seq<Byte>)
    ensures ReadTun(TunBytes(t) + rest) == Got(if t < -1 then 0 else t, rest)
  {
    hide U32Of, U32Bytes;
    var n := if t < 0 then 0 else t;
    var b := TunBytes(t) + rest;
    U32RoundTrip(n, rest);
    assert b[1..] == U32Bytes(n) + rest && b[5..] == rest;
  }

  lemma ReadHeadBack(o: Opts, rest: seq<Byte>)
    ensures ReadHead(Head(o) + rest)
         == Got(HeadPart(Canon(o).flags, o.validBefore, Canon(o).forceTunDevice), rest)
  {
    hide FlagBytes, U64Bytes, TunBytes, ReadU64, ReadTun, FlagsOf;
    var f, v, t := FlagBytes(o.flags), U64Bytes(o.validBefore), TunBytes(o.forceTunDevice);
    var b := Head(o) + rest;
    assert b == f + (v + (t + rest));
    FlagsPrefix(f, v + (t + rest));
    assert b[9..] == v + (t + rest);
    ReadU64Back(o.validBefore, t + rest);
    ReadTunBack(o.forceTunDevice, rest);
  }

  lemma FlagsPrefix(f: seq<Byte>, rest: seq<Byte>)
    requires |f| == 9
    ensures FlagsOf(f + rest) == FlagsOf(f)
  {
  }

  lemma ReadNullableBack(s: Option<CStr>, rest: seq<Byte>)
    requires Short(s)
    ensures ReadNullable(NullableBytes(s) + rest) == Got(s, rest)
  {
    hide ReadCStr, Str, Lengthed;
    var v: CStr := if s.None? then [] else s.value;
    LengthedIsStr(v);
    ReadCStrBack(v, rest);
    var b := NullableBytes(s) + rest;
    assert b[1..] == Str(v) + rest;
  }

  lemma LengthedIsStr(s: seq<Byte>)
    requires |s| <= SIZE_MAX
    ensures Lengthed(s) == Str(s)
  {
    hide U32Bytes;
  }

  lemma ReadFourBack(o: Opts, rest: seq<Byte>)
    requires |Strings(o)| <= SIZE_MAX
    ensures ReadFour(Strings(o) + rest)
         == Got([o.certPrincipals, o.forceCommand, o.requiredFromHostCert, o.requiredFromHostKeys], rest)
  {
    hide ReadNullable, NullableBytes;
    var n0, n1 := NullableBytes(o.certPrincipals), NullableBytes(o.forceCommand);
    var n2, n3 := NullableBytes(o.requiredFromHostCert), NullableBytes(o.requiredFromHostKeys);
    NullableLength(o.certPrincipals); NullableLength(o.forceCommand);
    NullableLength(o.requiredFromHostCert); NullableLength(o.requiredFromHostKeys);
    assert Strings(o) + rest == n0 + (n1 + (n2 + (n3 + rest)));
    ReadNullableBack(o.certPrincipals, n1 + (n2 + (n3 + rest)));
    ReadNullableBack(o.forceCommand, n2 + (n3 + rest));
    ReadNullableBack(o.requiredFromHostCert, n3 + rest);
    ReadNullableBack(o.requiredFromHostKeys, rest);
  }

  lemma NullableLength(s: Option<CStr>)
    ensures |NullableBytes(s)| == 5 + (if s.Some? then |s.value| else 0)
  {
  }

  lemma {:induction false} ReadStringsBack(a: seq<CStr>, rest: seq<Byte>)
    requires |StringsBytes(a)| <= SIZE_MAX
    ensures ReadStrings(StringsBytes(a) + rest, |a|) == Got(a, rest)
    decreases |a|
  {
    hide ReadCStr, Str, Lengthed;
    if a == [] {
      assert StringsBytes(a) + rest == rest;
    } else {
      var n := |a| - 1;
      var x := Lengthed(a[n]);
      assert StringsBytes(a) + rest == StringsBytes(a[..n]) + (x + rest);
      ReadStringsBack(a[..n], x + rest);
      LengthedIsStr(a[n]);
      ReadCStrBack(a[n], rest);
      assert a == a[..n] + [a[n]];
    }
  }

  lemma ReadArrayBack(a: seq<CStr>, rest: seq<Byte>)
    requires |ArrayBytes(a)| <= SIZE_MAX
    ensures ReadArray(ArrayBytes(a) + rest) == Got(a, rest)
  {
    hide ReadStr, Str, Lengthed, U32Of, U32Bytes, ReadStrings, StringsBytes;
    var inner := StringsBytes(a);
    var b := ArrayBytes(a) + rest;
    assert b == U32Bytes(|a|) + (Lengthed(inner) + rest);
    U32RoundTrip(|a|, Lengthed(inner) + rest);
    assert b[4..] == Lengthed(inner) + rest;
    LengthedIsStr(inner);
    ReadStrBack(inner, rest);
    ReadStringsBack(a, []);
    assert inner + [] == inner;
  }

  lemma ReadThreeBack(o: Opts, rest: seq<Byte>)
    requires |Arrays(o)| <= SIZE_MAX
    ensures ReadThree(Arrays(o) + rest) == Got([o.env, o.permitopen, o.permitlisten], rest)
  {
    hide ReadArray, ArrayBytes;
    var a0, a1, a2 := ArrayBytes(o.env), ArrayBytes(o.permitopen), ArrayBytes(o.permitlisten);
    assert Arrays(o) + rest == a0 + (a1 + (a2 + rest));
    ReadArrayBack(o.env, a1 + (a2 + rest));
    ReadArrayBack(o.permitopen, a2 + rest);
    ReadArrayBack(o.permitlisten, rest);
  }

  /** Reading what was written gives the options back in canonical form, and exactly what followed them. */
  lemma RoundTrip(o: Opts, rest: seq<Byte>)
    requires |Encode(o)| <= SIZE_MAX
    ensures Decode(Encode(o) + rest) == Got(Canon(o), rest)
  {
    hide Head, Strings, Arrays, ReadHead, ReadFour, ReadThree, CanonFlags;
    assert Encode(o) + rest == Head(o) + (Strings(o) + (Arrays(o) + rest));
    ReadHeadBack(o, Strings(o) + (Arrays(o) + rest));
    ReadFourBack(o, Arrays(o) + rest);
    ReadThreeBack(o, rest);
  }

  predicate ByteFlags(f: Flags) {
    0 <= f.permitPortForwarding < 256 && 0 <= f.permitAgentForwarding < 256 && 0 <= f.permitX11Forwarding < 256
    && 0 <= f.permitPty < 256 && 0 <= f.permitUserRc < 256 && 0 <= f.restricted < 256 && 0 <= f.certAuthority < 256
    && 0 <= f.noRequireUserPresence < 256 && 0 <= f.requireVerify < 256
  }

  /** Exactly these options come back unchanged. */
  lemma SurvivesExactly(o: Opts, rest: seq<Byte>)
    requires |Encode(o)| <= SIZE_MAX
    ensures Decode(Encode(o) + rest) == Got(o, rest) <==> ByteFlags(o.flags) && o.forceTunDevice >= -1
  {
    hide Encode, Decode;
    RoundTrip(o, rest);
  }

  /** A tunnel number below minus one is read back as tunnel zero. */
  lemma UnsetTunnelBecomesZero(o: Opts)
    requires |Encode(o)| <= SIZE_MAX && o.forceTunDevice < -1
    ensures Decode(Encode(o)).Got? && Decode(Encode(o)).value.forceTunDevice == 0
  {
    hide Encode, Decode;
    RoundTrip(o, []);
    assert Encode(o) + [] == Encode(o);
  }

  /** No encoding is the beginning of another's. */
  lemma Injective(o: Opts, p: Opts, s: seq<Byte>, t: seq<Byte>)
    requires |Encode(o)| <= SIZE_MAX && |Encode(p)| <= SIZE_MAX
    requires ByteFlags(o.flags) && o.forceTunDevice >= -1 && ByteFlags(p.flags) && p.forceTunDevice >= -1
    requires Encode(o) + s == Encode(p) + t
    ensures o == p && s == t
  {
    hide Encode, Decode;
    SurvivesExactly(o, s);
    SurvivesExactly(p, t);
  }
}
