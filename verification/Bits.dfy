/** Binary digits of natural numbers, and the bitwise operators defined through them. */
module Bits {

  function Pow2(n: nat): (p: nat)
    ensures p >= 1
  {
    if n == 0 then 1 else 2 * Pow2(n - 1)
  }

  predicate Bit(x: nat, k: nat) {
    if k == 0 then x % 2 == 1 else Bit(x / 2, k - 1)
  }

  function Or(x: nat, y: nat): nat {
    if x == 0 && y == 0 then 0
    else 2 * Or(x / 2, y / 2) + (if x % 2 == 1 || y % 2 == 1 then 1 else 0)
  }

  function And(x: nat, y: nat): nat {
    if x == 0 || y == 0 then 0
    else 2 * And(x / 2, y / 2) + (if x % 2 == 1 && y % 2 == 1 then 1 else 0)
  }

  /** x & ~y */
  function AndNot(x: nat, y: nat): nat {
    if x == 0 then 0
    else 2 * AndNot(x / 2, y / 2) + (if x % 2 == 1 && y % 2 == 0 then 1 else 0)
  }

  lemma DivNat(x: nat, p: nat)
    requires p >= 1
    ensures x / p >= 0
  {
  }

  function Shr(x: nat, s: nat): nat {
    DivNat(x, Pow2(s));
    x / Pow2(s)
  }

  /** The last digit and the rest of a disjunction. */
  lemma OrHalf(x: nat, y: nat)
    ensures Or(x, y) / 2 == Or(x / 2, y / 2) && (Or(x, y) % 2 == 1 <==> x % 2 == 1 || y % 2 == 1)
  {
    if x == 0 && y == 0 { assert Or(0, 0) == 0; }
  }

  lemma {:induction false} BitZero(k: nat)
    ensures !Bit(0, k)
  {
    if k > 0 { BitZero(k - 1); }
  }

  lemma {:induction false} BitOr(x: nat, y: nat, k: nat)
    ensures Bit(Or(x, y), k) <==> Bit(x, k) || Bit(y, k)
    decreases k
  {
    hide Or;
    OrHalf(x, y);
    if k > 0 { BitOr(x / 2, y / 2, k - 1); }
  }

  lemma {:induction false} BitAnd(x: nat, y: nat, k: nat)
    ensures Bit(And(x, y), k) <==> Bit(x, k) && Bit(y, k)
    decreases k
  {
    if k > 0 { BitAnd(x / 2, y / 2, k - 1); }
    BitZero(k);
  }

  lemma {:induction false} BitAndNot(x: nat, y: nat, k: nat)
    ensures Bit(AndNot(x, y), k) <==> Bit(x, k) && !Bit(y, k)
    decreases k
  {
    if k > 0 { BitAndNot(x / 2, y / 2, k - 1); }
    BitZero(k);
  }

  lemma {:induction false} BitPow2(n: nat, k: nat)
    ensures Bit(Pow2(n), k) <==> n == k
  {
    if n > 0 && k > 0 { BitPow2(n - 1, k - 1); }
    if n == 0 && k > 0 { BitZero(k - 1); }
  }

  /** Shifting right drops the low digits. */
  lemma {:induction false} BitShr(x: nat, s: nat, k: nat)
    ensures Bit(Shr(x, s), k) <==> Bit(x, k + s)
    decreases s
  {
    if s > 0 {
      BitShr(x / 2, s - 1, k);
      HalveShr(x, s);
    }
  }

  lemma HalveShr(x: nat, s: nat)
    requires s > 0
    ensures Shr(x, s) == Shr(x / 2, s - 1)
  {
    DivDiv(x, 2, Pow2(s - 1));
  }

  lemma DivDiv(x: nat, a: nat, b: nat)
    requires a > 0 && b > 0
    ensures a * b > 0 && x / (a * b) == (x / a) / b
  {
    var q := x / a;
    var p := q / b;
    assert x == a * q + x % a;
    assert q == b * p + q % b;
    assert x == (a * b) * p + (a * (q % b) + x % a) by {
      assert a * q == a * (b * p) + a * (q % b);
      assert a * (b * p) == (a * b) * p;
    }
    assert a * (q % b) <= a * (b - 1) by { MulMono(a, q % b, b - 1); }
    assert a * (b - 1) == a * b - a;
    QuotientIs(x, a * b, p, a * (q % b) + x % a);
  }

  lemma MulMono(a: nat, x: int, y: int)
    requires x <= y
    ensures a * x <= a * y
  {
  }

  lemma QuotientIs(x: nat, m: nat, q: nat, r: nat)
    requires m > 0 && r < m && x == m * q + r
    ensures x / m == q && x % m == r
  {
    assert m * (x / m) + x % m == x;
    if x / m < q { MulMono(m, x / m + 1, q); }
    if x / m > q { MulMono(m, q + 1, x / m); }
  }

  /** A number below 2^n has no digit at n or above, and conversely. */
  lemma {:induction false} BitBound(x: nat, n: nat, k: nat)
    requires x < Pow2(n) && n <= k
    ensures !Bit(x, k)
    decreases n
  {
    if n == 0 { BitZero(k); } else { BitBound(x / 2, n - 1, k - 1); }
  }

  lemma {:induction false} BoundBit(x: nat, n: nat)
    requires forall k: nat | k >= n :: !Bit(x, k)
    ensures x < Pow2(n)
    decreases x, n
  {
    if n == 0 {
      forall k: nat ensures Bit(x, k) == Bit(0, k) { BitZero(k); }
      Ext(x, 0);
    } else {
      forall k: nat | k >= n - 1 ensures !Bit(x / 2, k) { assert Bit(x, k + 1) == Bit(x / 2, k); }
      if x > 0 { BoundBit(x / 2, n - 1); }
    }
  }

  /** Numbers with the same digits are equal. */
  lemma {:induction false} Ext(x: nat, y: nat)
    requires forall k: nat :: Bit(x, k) == Bit(y, k)
    ensures x == y
    decreases x + y
  {
    if x > 0 || y > 0 {
      assert Bit(x, 0) == Bit(y, 0);
      forall k: nat ensures Bit(x / 2, k) == Bit(y / 2, k) { assert Bit(x, k + 1) == Bit(y, k + 1); }
      Ext(x / 2, y / 2);
    }
  }

  /** The value of the digits below n. */
  lemma {:induction false} BitMod(x: nat, n: nat, k: nat)
    ensures Bit(x % Pow2(n), k) <==> k < n && Bit(x, k)
    decreases n
  {
    if n == 0 {
      BitZero(k);
    } else {
      HalveMod(x, n);
      if k > 0 { BitMod(x / 2, n - 1, k - 1); }
    }
  }

  lemma HalveMod(x: nat, n: nat)
    requires n > 0
    ensures (x % Pow2(n)) / 2 == (x / 2) % Pow2(n - 1) && (x % Pow2(n)) % 2 == x % 2
  {
    var p := Pow2(n - 1);
    var q, r := (x / 2) / p, (x / 2) % p;
    assert x / 2 == p * q + r;
    assert x == (2 * p) * q + (2 * r + x % 2) by { assert 2 * (p * q) == (2 * p) * q; }
    QuotientIs(x, 2 * p, q, 2 * r + x % 2);
  }

  /** Multiplying by 2^s moves every digit up. */
  lemma {:induction false} BitShl(x: nat, s: nat, k: nat)
    ensures Bit(x * Pow2(s), k) <==> k >= s && Bit(x, k - s)
    decreases s
  {
    if s > 0 {
      assert x * Pow2(s) == 2 * (x * Pow2(s - 1));
      if k > 0 { BitShl(x, s - 1, k - 1); }
    }
  }
}
