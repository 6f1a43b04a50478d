/** Overwriting a stretch of a buffer, and combining byte strings. */
module Slices {

  /** `s` with `x` written over it from position `at`. */
  function Splice<T>(s: seq<T>, at: nat, x: seq<T>): (r: seq<T>)
    requires at + |x| <= |s|
    ensures |r| == |s|
  {
    s[..at] + x + s[at + |x|..]
  }

  /** What was written is there, and nothing else moved. */
  lemma SpliceAt<T>(s: seq<T>, at: nat, x: seq<T>)
    requires at + |x| <= |s|
    ensures var r := Splice(s, at, x);
            r[at..at + |x|] == x && r[..at] == s[..at] && r[at + |x|..] == s[at + |x|..]
  {
  }

  lemma Untouched<T>(s: seq<T>, at: nat)
    requires at <= |s|
    ensures Splice(s, at, []) == s
  {
  }

  /** Writing two neighbouring stretches is writing them joined. */
  lemma SpliceMore<T>(s: seq<T>, at: nat, x: seq<T>, y: seq<T>)
    requires at + |x| + |y| <= |s|
    ensures Splice(Splice(s, at, x), at + |x|, y) == Splice(s, at, x + y)
  {
  }

  /** The stretches beyond the written one are untouched. */
  lemma SpliceApart<T>(s: seq<T>, at: nat, x: seq<T>, lo: nat, hi: nat)
    requires at + |x| <= |s| && lo <= hi <= |s| && (hi <= at || at + |x| <= lo)
    ensures Splice(s, at, x)[lo..hi] == s[lo..hi]
  {
    var r := Splice(s, at, x);
    assert forall i | lo <= i < hi :: r[i] == s[i];
  }

  /** From the facts an element-wise loop leaves behind to one equation. */
  lemma IsSplice<T>(s: seq<T>, r: seq<T>, at: nat, x: seq<T>)
    requires |r| == |s| && at + |x| <= |s|
    requires r[at..at + |x|] == x && r[..at] == s[..at] && r[at + |x|..] == s[at + |x|..]
    ensures r == Splice(s, at, x)
  {
    assert r == r[..at] + r[at..at + |x|] + r[at + |x|..];
  }

  /** A slice of a slice. */
  lemma SubSlice<T>(s: seq<T>, at: nat, all: nat, lo: nat, n: nat)
    requires at + all <= |s| && lo + n <= all
    ensures s[at..at + all][lo..lo + n] == s[at + lo..at + lo + n]
  {
    var l, r := s[at..at + all][lo..lo + n], s[at + lo..at + lo + n];
    forall i | 0 <= i < n ensures l[i] == r[i] {
      assert l[i] == s[at..at + all][lo + i] == s[at + (lo + i)];
    }
  }

  /** Two neighbouring stretches written back to front. */
  lemma SpliceLess<T>(s: seq<T>, at: nat, x: seq<T>, y: seq<T>)
    requires at + |x| + |y| <= |s|
    ensures Splice(Splice(s, at + |x|, y), at, x) == Splice(s, at, x + y)
  {
  }

  function Xor(a: seq<bv8>, b: seq<bv8>): (c: seq<bv8>)
    requires |a| == |b|
    ensures |c| == |a|
  {
    seq(|a|, i requires 0 <= i < |a| => a[i] ^ b[i])
  }

  lemma XorTwice(a: seq<bv8>, b: seq<bv8>)
    requires |a| == |b|
    ensures Xor(Xor(a, b), b) == a
  {
    forall i | 0 <= i < |a| ensures (a[i] ^ b[i]) ^ b[i] == a[i] { BitsTwice(a[i], b[i]); }
  }

  lemma BitsTwice(x: bv8, y: bv8)
    ensures (x ^ y) ^ y == x
  {
  }

  lemma XorAppend(a: seq<bv8>, b: seq<bv8>, c: seq<bv8>, d: seq<bv8>)
    requires |a| == |b| && |c| == |d|
    ensures Xor(a + c, b + d) == Xor(a, b) + Xor(c, d)
  {
  }
}
