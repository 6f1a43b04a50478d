/** Masks and blocks of addresses, as arithmetic on the numbers the addresses stand for. */
module CidrMath {
  import opened Bytes
  import opened Bits
  import opened BitmapModel

  /** The first l of w digits set, and the remaining ones. */
  function NetMask(w: nat, l: nat): nat
    requires l <= w
  {
    Pow2Mono(w - l, w);
    Pow2(w) - Pow2(w - l)
  }

  function HostMask(w: nat, l: nat): nat
    requires l <= w
  {
    Pow2(w - l) - 1
  }

  lemma {:induction false} OnesBits(n: nat, k: nat)
    ensures Bit(Pow2(n) - 1, k) <==> k < n
  {
    if n == 0 {
      BitZero(k);
    } else if k > 0 {
      OnesBits(n - 1, k - 1);
    }
  }

  lemma {:induction false} Pow2Add(m: nat, n: nat)
    ensures Pow2(m + n) == Pow2(m) * Pow2(n)
  {
    if m > 0 {
      Pow2Add(m - 1, n);
      assert 2 * (Pow2(m - 1) * Pow2(n)) == (2 * Pow2(m - 1)) * Pow2(n);
    }
  }

  lemma NetMaskBits(w: nat, l: nat, k: nat)
    requires l <= w
    ensures Bit(NetMask(w, l), k) <==> w - l <= k < w
  {
    var h := w - l;
    Pow2Add(l, h);
    assert NetMask(w, l) == (Pow2(l) - 1) * Pow2(h);
    BitShl(Pow2(l) - 1, h, k);
    if k >= h { OnesBits(l, k - h); }
  }

  /** Masking with the network part rounds down to the block's first address. */
  lemma AndNetMask(x: nat, w: nat, l: nat)
    requires l <= w && x < Pow2(w)
    ensures And(x, NetMask(w, l)) == x - x % Pow2(w - l)
  {
    hide And, NetMask, Bit, Pow2;
    var h := w - l;
    var y := x - x % Pow2(h);
    assert y == (x / Pow2(h)) * Pow2(h);
    forall k: nat ensures Bit(And(x, NetMask(w, l)), k) == Bit(y, k) {
      BitAnd(x, NetMask(w, l), k);
      NetMaskBits(w, l, k);
      BitShl(x / Pow2(h), h, k);
      if k >= h { BitShr(x, h, k - h); }
      if k >= w { BitBound(x, w, k); }
    }
    Ext(And(x, NetMask(w, l)), y);
  }

  lemma AndHostMask(x: nat, w: nat, l: nat)
    requires l <= w
    ensures And(x, HostMask(w, l)) == x % Pow2(w - l)
  {
    forall k: nat ensures Bit(And(x, HostMask(w, l)), k) == Bit(x % Pow2(w - l), k) {
      BitAnd(x, HostMask(w, l), k);
      OnesBits(w - l, k);
      BitMod(x, w - l, k);
    }
    Ext(And(x, HostMask(w, l)), x % Pow2(w - l));
  }

  /** Setting the host part gives the block's last address. */
  lemma OrHostMask(x: nat, w: nat, l: nat)
    requires l <= w
    ensures Or(x, HostMask(w, l)) == x - x % Pow2(w - l) + Pow2(w - l) - 1
  {
    hide Or, Bit, Pow2;
    var h := w - l;
    var y := x - x % Pow2(h) + (Pow2(h) - 1);
    var q := x / Pow2(h);
    assert x - x % Pow2(h) == q * Pow2(h);
    QuotientIs(y, Pow2(h), q, Pow2(h) - 1);
    forall k: nat ensures Bit(Or(x, HostMask(w, l)), k) == Bit(y, k) {
      BitOr(x, HostMask(w, l), k);
      OnesBits(h, k);
      BitMod(y, h, k);
      if k >= h {
        BitShr(x, h, k - h);
        BitShr(y, h, k - h);
      }
    }
    Ext(Or(x, HostMask(w, l)), y);
  }

  /** Rounding x down gives `net` exactly when `net` starts a block and x lies in it. */
  lemma BlockIsInterval(x: nat, net: nat, h: nat)
    ensures x - x % Pow2(h) == net <==> net % Pow2(h) == 0 && net <= x <= net + Pow2(h) - 1
  {
    var p := Pow2(h);
    assert x == p * (x / p) + x % p;
    if x - x % p == net {
      QuotientIs(net, p, x / p, 0);
    }
    if net % p == 0 && net <= x <= net + p - 1 {
      assert net == p * (net / p);
      QuotientIs(x, p, net / p, x - net);
    }
  }

  // ---------- four words as one number ----------

  function Join(a: nat, b: nat): nat { a * TWO32 + b }

  function Val4(w: seq<U32>): nat
    requires |w| == 4
  {
    Join(Join(Join(w[0], w[1]), w[2]), w[3])
  }

  lemma JoinBits(a: nat, b: nat, k: nat)
    requires b < TWO32
    ensures Bit(Join(a, b), k) <==> if k < 32 then Bit(b, k) else Bit(a, k - 32)
  {
    WordSize();
    QuotientIs(Join(a, b), TWO32, a, b);
    if k < 32 { BitMod(Join(a, b), 32, k); } else { BitShr(Join(a, b), 32, k - 32); }
  }

  lemma JoinAnd(a: nat, b: U32, c: nat, d: U32)
    ensures And(b, d) < TWO32 && And(Join(a, b), Join(c, d)) == Join(And(a, c), And(b, d))
  {
    AndFits(b, d);
    forall k: nat ensures Bit(And(Join(a, b), Join(c, d)), k) == Bit(Join(And(a, c), And(b, d)), k) {
      BitAnd(Join(a, b), Join(c, d), k);
      JoinBits(a, b, k);
      JoinBits(c, d, k);
      JoinBits(And(a, c), And(b, d), k);
      if k < 32 { BitAnd(b, d, k); } else { BitAnd(a, c, k - 32); }
    }
    Ext(And(Join(a, b), Join(c, d)), Join(And(a, c), And(b, d)));
  }

  lemma JoinOr(a: nat, b: U32, c: nat, d: U32)
    ensures Or(b, d) < TWO32 && Or(Join(a, b), Join(c, d)) == Join(Or(a, c), Or(b, d))
  {
    OrFits(b, d);
    forall k: nat ensures Bit(Or(Join(a, b), Join(c, d)), k) == Bit(Join(Or(a, c), Or(b, d)), k) {
      BitOr(Join(a, b), Join(c, d), k);
      JoinBits(a, b, k);
      JoinBits(c, d, k);
      JoinBits(Or(a, c), Or(b, d), k);
      if k < 32 { BitOr(b, d, k); } else { BitOr(a, c, k - 32); }
    }
    Ext(Or(Join(a, b), Join(c, d)), Join(Or(a, c), Or(b, d)));
  }

  lemma {:induction false} AndFits(x: nat, y: nat)
    ensures And(x, y) <= x
  {
    if x > 0 && y > 0 { AndFits(x / 2, y / 2); }
  }
}
