/** Bitwise operators on the non-negative, unbounded integers that the sources use as words. */
module Bits {

  function Pow2(k: nat): (p: nat)
    ensures p > 0
  {
    if k == 0 then 1 else 2 * Pow2(k - 1)
  }

  /** Bit k of a, counted from the least significant one: (a >> k) & 1. */
  function Bit(a: nat, k: nat): (b: nat)
    ensures b <= 1
  {
    if k == 0 then a % 2 else Bit(a / 2, k - 1)
  }

  /** a ^ b. */
  function Xor(a: nat, b: nat): nat {
    if a == 0 && b == 0 then 0
    else (if a % 2 == b % 2 then 0 else 1) + 2 * Xor(a / 2, b / 2)
  }

  lemma {:induction false} XorHalves(a: nat, b: nat)
    ensures Xor(a, b) / 2 == Xor(a / 2, b / 2)
    ensures Xor(a, b) % 2 == if a % 2 == b % 2 then 0 else 1
  {}

  lemma SameHalves(a: nat, b: nat)
    requires a / 2 == b / 2 && a % 2 == b % 2
    ensures a == b
  {}

  lemma {:induction false} XorAssoc(a: nat, b: nat, c: nat)
    ensures Xor(Xor(a, b), c) == Xor(a, Xor(b, c))
    decreases a + b + c
  {
    if a + b + c > 0 {
      var ab, bc := Xor(a, b), Xor(b, c);
      XorHalves(a, b);
      XorHalves(b, c);
      XorHalves(ab, c);
      XorHalves(a, bc);
      XorAssoc(a / 2, b / 2, c / 2);
      SameHalves(Xor(ab, c), Xor(a, bc));
    }
  }

  lemma {:induction false} XorComm(a: nat, b: nat)
    ensures Xor(a, b) == Xor(b, a)
    decreases a + b
  {
    if a + b > 0 {
      XorComm(a / 2, b / 2);
    }
  }

  lemma {:induction false} XorZero(a: nat)
    ensures Xor(a, 0) == a && Xor(0, a) == a && Xor(a, a) == 0
  {
    if a > 0 {
      XorZero(a / 2);
    }
  }

  /** (a ^ b) ^ (c ^ d) == (a ^ c) ^ (b ^ d). */
  lemma XorSwap(a: nat, b: nat, c: nat, d: nat)
    ensures Xor(Xor(a, b), Xor(c, d)) == Xor(Xor(a, c), Xor(b, d))
  {
    XorAssoc(a, b, Xor(c, d));
    XorAssoc(b, c, d);
    XorComm(b, c);
    XorAssoc(c, b, d);
    XorAssoc(a, c, Xor(b, d));
  }

  /** Equal terms on both sides of a sum cancel. */
  lemma XorCancel(a: nat, b: nat, c: nat)
    ensures Xor(Xor(a, c), Xor(b, c)) == Xor(a, b)
    ensures Xor(Xor(a, b), b) == a
  {
    XorSwap(a, c, b, c);
    XorZero(c);
    XorZero(Xor(a, b));
    XorAssoc(a, b, b);
    XorZero(b);
    XorZero(a);
  }

  lemma XorDouble(a: nat, b: nat)
    ensures Xor(2 * a, 2 * b) == 2 * Xor(a, b)
  {
    XorHalves(2 * a, 2 * b);
    SameHalves(Xor(2 * a, 2 * b), 2 * Xor(a, b));
  }

  /** A number is its low bit xor its doubled upper half. */
  lemma XorSplit(a: nat)
    ensures Xor(a % 2, 2 * (a / 2)) == a
  {
    XorHalves(a % 2, 2 * (a / 2));
    XorZero(a / 2);
    SameHalves(Xor(a % 2, 2 * (a / 2)), a);
  }

  lemma {:induction false} BitXor(a: nat, b: nat, k: nat)
    ensures Bit(Xor(a, b), k) == if Bit(a, k) == Bit(b, k) then 0 else 1
  {
    XorHalves(a, b);
    if k > 0 {
      BitXor(a / 2, b / 2, k - 1);
    }
  }

  lemma {:induction false} XorBound(a: nat, b: nat, k: nat)
    requires a < Pow2(k) && b < Pow2(k)
    ensures Xor(a, b) < Pow2(k)
  {
    if k > 0 {
      XorHalves(a, b);
      XorBound(a / 2, b / 2, k - 1);
    }
  }

  /** A clear top bit halves the range; a set one is the upper half of it. */
  lemma {:induction false} TopBit(a: nat, k: nat)
    requires a < Pow2(k + 1)
    ensures Bit(a, k) == 0 <==> a < Pow2(k)
  {
    if k > 0 {
      TopBit(a / 2, k - 1);
    }
  }

  /** a >> k. */
  function Shr(a: nat, k: nat): nat {
    if k == 0 then a else Shr(a / 2, k - 1)
  }

  /** a << k. */
  function Shl(a: nat, k: nat): nat {
    if k == 0 then a else 2 * Shl(a, k - 1)
  }

  lemma {:induction false} ShrNext(a: nat, k: nat)
    ensures Shr(a, k) / 2 == Shr(a, k + 1)
    ensures Shr(a, k) % 2 == Bit(a, k)
  {
    if k > 0 {
      ShrNext(a / 2, k - 1);
    }
  }

  lemma {:induction false} ShrAll(a: nat, k: nat)
    requires a < Pow2(k)
    ensures Shr(a, k) == 0
  {
    if k > 0 {
      ShrAll(a / 2, k - 1);
    }
  }

  lemma {:induction false} ShlBit(a: nat, k: nat, j: nat)
    ensures Bit(Shl(a, k), j + k) == Bit(a, j)
  {
    if k > 0 {
      ShlBit(a, k - 1, j);
    }
  }

  /** The k low bits: a & (2^k - 1). */
  function Low(a: nat, k: nat): (r: nat)
    ensures r < Pow2(k) && r <= a
  {
    if k == 0 then 0 else a % 2 + 2 * Low(a / 2, k - 1)
  }

  lemma {:induction false} LowBits(a: nat, k: nat, j: nat)
    ensures Bit(Low(a, k), j) == if j < k then Bit(a, j) else 0
  {
    if k == 0 {
      BitZero(j);
    } else if j > 0 {
      LowBits(a / 2, k - 1, j - 1);
    }
  }

  lemma {:induction false} BitZero(j: nat)
    ensures Bit(0, j) == 0
  {
    if j > 0 {
      BitZero(j - 1);
    }
  }

  lemma {:induction false} LowShort(a: nat, k: nat)
    requires a < Pow2(k)
    ensures Low(a, k) == a
  {
    if k > 0 {
      LowShort(a / 2, k - 1);
    }
  }
}
