/** Numbers and strings as packet buffers carry them. */
module Wire {
  import opened Bytes

  const SIZE_MAX := 0x8000000

  type U64 = x: int | 0 <= x < 0x1_0000_0000_0000_0000

  /** What is left after reading, or failure. */
  datatype Read<+T> = Fail | Got(value: T, rest: seq<Byte>)

  function U32Bytes(n: U32): (s: seq<Byte>)
    ensures |s| == 4
  {
    [n / 0x100_0000, n / 0x1_0000 % 0x100, n / 0x100 % 0x100, n % 0x100]
  }

  function U32Of(b: seq<Byte>): U32
    requires |b| >= 4
  {
    ((b[0] as int * 0x100 + b[1]) * 0x100 + b[2]) * 0x100 + b[3]
  }

  function U64Bytes(n: U64): (s: seq<Byte>)
    ensures |s| == 8
  {
    U32Bytes(n / TWO32) + U32Bytes(n % TWO32)
  }

  /** A string with its length in front. */
  function Str(s: seq<Byte>): seq<Byte>
    requires |s| < TWO32
  {
    U32Bytes(|s|) + s
  }

  function ReadU8(b: seq<Byte>): Read<Byte> { if |b| < 1 then Fail else Got(b[0], b[1..]) }

  function ReadU32(b: seq<Byte>): Read<U32> { if |b| < 4 then Fail else Got(U32Of(b), b[4..]) }

  function ReadU64(b: seq<Byte>): Read<U64> {
    if |b| < 8 then Fail else Got(U32Of(b) * TWO32 + U32Of(b[4..]), b[8..])
  }

  function ReadStr(b: seq<Byte>): (r: Read<seq<Byte>>)
    ensures r.Got? ==> |r.rest| < |b|
  {
    if |b| < 4 then Fail
    else
      var n := U32Of(b);
      if n > SIZE_MAX - 4 || |b| - 4 < n then Fail else Got(b[4..4 + n], b[4 + n..])
  }

  /** Bytes that a C string can hold. */
  type CStr = s: seq<Byte> | forall i | 0 <= i < |s| :: s[i] != 0

  /** A NUL is allowed at the end only, where it is the terminator. */
  function ReadCStr(b: seq<Byte>): (r: Read<CStr>)
    ensures r.Got? ==> |r.rest| < |b|
  {
    var r := ReadStr(b);
    if r.Fail? then Fail
    else
      var s, n := r.value, |r.value|;
      if exists i | 0 <= i < n - 1 :: s[i] == 0 then Fail
      else
        var z: CStr := if n > 0 && s[n - 1] == 0 then s[..n - 1] else s;
        Got(z, r.rest)
  }

  lemma U32RoundTrip(n: U32, rest: seq<Byte>)
    ensures U32Of(U32Bytes(n) + rest) == n
  {
    var b := U32Bytes(n) + rest;
    assert b[0] == n / 0x100_0000 && b[1] == n / 0x1_0000 % 0x100 && b[2] == n / 0x100 % 0x100 && b[3] == n % 0x100;
    Digits(n);
  }

  lemma Digits(n: nat)
    ensures ((n / 0x100_0000 * 0x100 + n / 0x1_0000 % 0x100) * 0x100 + n / 0x100 % 0x100) * 0x100 + n % 0x100 == n
  {
    assert n / 0x100_0000 == n / 0x1_0000 / 0x100;
    assert n / 0x1_0000 == n / 0x100 / 0x100;
  }

  lemma ReadU64Back(n: U64, rest: seq<Byte>)
    ensures ReadU64(U64Bytes(n) + rest) == Got(n, rest)
  {
    hide U32Of, U32Bytes;
    var hi, lo := U32Bytes(n / TWO32), U32Bytes(n % TWO32);
    var b := U64Bytes(n) + rest;
    assert b == hi + (lo + rest);
    U32RoundTrip(n / TWO32, lo + rest);
    U32RoundTrip(n % TWO32, rest);
    assert b[4..] == lo + rest && b[8..] == rest;
  }

  lemma ReadStrBack(s: seq<Byte>, rest: seq<Byte>)
    requires |s| <= SIZE_MAX - 4
    ensures ReadStr(Str(s) + rest) == Got(s, rest)
  {
    hide U32Of, U32Bytes;
    var b := Str(s) + rest;
    assert b == U32Bytes(|s|) + (s + rest);
    U32RoundTrip(|s|, s + rest);
    assert b[4..4 + |s|] == s && b[4 + |s|..] == rest;
  }

  lemma ReadCStrBack(s: CStr, rest: seq<Byte>)
    requires |s| <= SIZE_MAX - 4
    ensures ReadCStr(Str(s) + rest) == Got(s, rest)
  {
    hide Str;
    ReadStrBack(s, rest);
  }
}
