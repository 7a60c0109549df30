/** The field GF(256) of the QR code: polynomials over GF(2) modulo 0x11D. */
module Gf256 {
  import opened Bits

  const MODULUS: nat := 0x11D

  /** Multiplication by the field element 2. */
  function XTime(a: nat): nat {
    Xor(2 * a, if Bit(a, 7) == 1 then MODULUS else 0)
  }

  /** The field product, by Horner's rule over the bits of y. */
  function Mul(x: nat, y: nat): nat {
    if y == 0 then 0
    else Xor(if y % 2 == 1 then x else 0, XTime(Mul(x, y / 2)))
  }

  /** The product of two polynomials over GF(2), not reduced. */
  function CarrylessProduct(x: nat, y: nat): nat {
    if y == 0 then 0
    else Xor(if y % 2 == 1 then x else 0, 2 * CarrylessProduct(x, y / 2))
  }

  lemma PowersOfTwo()
    ensures Pow2(7) == 128 && Pow2(8) == 256 && Pow2(9) == 512
  {
    assert Pow2(3) == 8;
    assert Pow2(6) == 64;
  }

  lemma XTimeByte(a: nat)
    requires a < 256
    ensures XTime(a) < 256
    ensures a < 128 ==> XTime(a) == 2 * a
  {
    PowersOfTwo();
    TopBit(a, 7);
    if a < 128 {
      XorZero(2 * a);
    } else {
      TopBit(2 * a, 8);
      TopBit(MODULUS, 8);
      BitXor(2 * a, MODULUS, 8);
      XorBound(2 * a, MODULUS, 9);
      TopBit(XTime(a), 8);
    }
  }

  lemma XTimeLinear(a: nat, b: nat)
    ensures XTime(Xor(a, b)) == Xor(XTime(a), XTime(b))
  {
    var ma := if Bit(a, 7) == 1 then MODULUS else 0;
    var mb := if Bit(b, 7) == 1 then MODULUS else 0;
    BitXor(a, b, 7);
    XorZero(MODULUS);
    XorZero(0);
    assert XTime(Xor(a, b)) == Xor(2 * Xor(a, b), Xor(ma, mb));
    XorDouble(a, b);
    XorSwap(2 * a, 2 * b, ma, mb);
  }

  lemma {:induction false} MulByte(x: nat, y: nat)
    requires x < 256
    ensures Mul(x, y) < 256
  {
    if y != 0 {
      MulByte(x, y / 2);
      XTimeByte(Mul(x, y / 2));
      PowersOfTwo();
      XorBound(if y % 2 == 1 then x else 0, XTime(Mul(x, y / 2)), 8);
    }
  }

  lemma XTimeZero()
    ensures XTime(0) == 0
  {
    XTimeByte(0);
  }

  /** One unfolding of Mul that also holds for y == 0. */
  lemma MulStep(x: nat, y: nat)
    ensures Mul(x, y) == Xor(if y % 2 == 1 then x else 0, XTime(Mul(x, y / 2)))
  {
    if y == 0 {
      XTimeZero();
      XorZero(0);
    }
  }

  /** (a + b) y == a y + b y. */
  lemma {:induction false} MulLinearLeft(a: nat, b: nat, y: nat)
    ensures Mul(Xor(a, b), y) == Xor(Mul(a, y), Mul(b, y))
  {
    if y == 0 {
      XorZero(0);
    } else {
      var h := y / 2;
      MulLinearLeft(a, b, h);
      XTimeLinear(Mul(a, h), Mul(b, h));
      XorZero(0);
      var t: nat := if y % 2 == 1 then 1 else 0;
      XorSwap(if t == 1 then a else 0, if t == 1 then b else 0, XTime(Mul(a, h)), XTime(Mul(b, h)));
    }
  }

  /** x (a + b) == x a + x b. */
  lemma {:induction false} MulLinearRight(x: nat, a: nat, b: nat)
    ensures Mul(x, Xor(a, b)) == Xor(Mul(x, a), Mul(x, b))
    decreases a + b
  {
    if a + b == 0 {
      XorZero(0);
    } else {
      var xa, xb := if a % 2 == 1 then x else 0, if b % 2 == 1 then x else 0;
      MulStep(x, a);
      MulStep(x, b);
      MulStep(x, Xor(a, b));
      XorHalves(a, b);
      MulLinearRight(x, a / 2, b / 2);
      XTimeLinear(Mul(x, a / 2), Mul(x, b / 2));
      XorZero(x);
      XorZero(0);
      XorSwap(xa, xb, XTime(Mul(x, a / 2)), XTime(Mul(x, b / 2)));
    }
  }

  lemma {:induction false} MulXTimeLeft(x: nat, y: nat)
    ensures Mul(XTime(x), y) == XTime(Mul(x, y))
  {
    if y == 0 {
      XTimeZero();
    } else {
      MulXTimeLeft(x, y / 2);
      XTimeZero();
      XTimeLinear(if y % 2 == 1 then x else 0, XTime(Mul(x, y / 2)));
    }
  }

  lemma {:induction false} MulZeroLeft(y: nat)
    ensures Mul(0, y) == 0
  {
    if y != 0 {
      MulZeroLeft(y / 2);
      XTimeZero();
      XorZero(0);
    }
  }

  lemma MulOneRight(x: nat)
    ensures Mul(x, 1) == x
  {
    assert Mul(x, 0) == 0;
    XTimeZero();
    XorZero(x);
  }

  lemma {:induction false} MulOneLeft(y: nat)
    requires y < 256
    ensures Mul(1, y) == y
  {
    if y != 0 {
      MulOneLeft(y / 2);
      XTimeByte(y / 2);
      XorSplit(y);
    }
  }

  /** A byte is the sum of its low bit and twice (in the field) its upper half. */
  lemma ByteSplit(y: nat)
    requires y < 256
    ensures y == Xor(y % 2, XTime(y / 2))
  {
    XTimeByte(y / 2);
    XorSplit(y);
  }

  lemma ModulusTimesOne()
    ensures Mul(1, MODULUS) == 0
  {
    assert MODULUS / 2 == 0x8E && MODULUS % 2 == 1;
    MulOneLeft(0x8E);
    assert XTime(0x8E) == Xor(0x11C, MODULUS);
    XorAssoc(1, 0x11C, MODULUS);
    XorSplit(MODULUS);
    XorZero(MODULUS);
  }

  lemma {:induction false} AnnihilatesAll(x: nat, p: nat)
    requires x < 256 && Mul(1, p) == 0
    ensures Mul(x, p) == 0
  {
    hide Xor;
    if x == 0 {
      MulZeroLeft(p);
    } else {
      ByteSplit(x);
      MulLinearLeft(x % 2, XTime(x / 2), p);
      AnnihilatesAll(x / 2, p);
      MulXTimeLeft(x / 2, p);
      XTimeZero();
      MulZeroLeft(p);
      XorZero(0);
    }
  }

  lemma MulDoubled(x: nat, y: nat, m: nat)
    requires Mul(x, m) == 0
    ensures Mul(x, Xor(2 * y, m)) == XTime(Mul(x, y))
  {
    MulLinearRight(x, 2 * y, m);
    MulStep(x, 2 * y);
    XorZero(XTime(Mul(x, y)));
  }

  /** The modulus acts as zero: this is where the reduction of the field comes in. */
  lemma MulXTimeRight(x: nat, y: nat)
    requires x < 256
    ensures Mul(x, XTime(y)) == XTime(Mul(x, y))
  {
    ModulusTimesOne();
    AnnihilatesAll(x, MODULUS);
    MulDoubled(x, y, if Bit(y, 7) == 1 then MODULUS else 0);
  }

  lemma {:induction false} MulComm(x: nat, y: nat)
    requires x < 256 && y < 256
    ensures Mul(x, y) == Mul(y, x)
    decreases y
  {
    hide Xor, XTime;
    if y == 0 {
      MulZeroLeft(x);
    } else {
      MulComm(x, y / 2);
      ByteSplit(y);
      MulLinearLeft(y % 2, XTime(y / 2), x);
      MulXTimeLeft(y / 2, x);
      MulOneLeft(x);
      MulZeroLeft(x);
    }
  }

  lemma {:induction false} MulAssoc(x: nat, y: nat, z: nat)
    requires x < 256 && y < 256
    ensures Mul(Mul(x, y), z) == Mul(x, Mul(y, z))
    decreases z
  {
    hide Xor, XTime;
    if z == 0 {
      assert Mul(x, 0) == 0;
    } else {
      var h := z / 2;
      var yz := if z % 2 == 1 then y else 0;
      MulAssoc(x, y, h);
      MulLinearRight(x, yz, XTime(Mul(y, h)));
      MulXTimeRight(x, Mul(y, h));
    }
  }

  lemma XTimeUnfolds(m: nat)
    ensures XTime(m) == Xor(2 * m, if Bit(m, 7) == 1 then MODULUS else 0)
  {}

  lemma ProductDoubles(x: nat, q: nat, b: nat)
    requires b <= 1
    ensures CarrylessProduct(x, 0) == 0
    ensures CarrylessProduct(x, 2 * q + b) == Xor(if b == 1 then x else 0, 2 * CarrylessProduct(x, q))
  {
    hide Xor;
    if 2 * q + b == 0 {
      XorZero(0);
    }
  }

  /** Mul really is polynomial multiplication with the multiples of 0x11D removed. */
  lemma {:induction false} MulIsReducedProduct(x: nat, y: nat) returns (q: nat)
    ensures CarrylessProduct(x, y) == Xor(Mul(x, y), CarrylessProduct(MODULUS, q))
  {
    hide Xor, Bit, XTime, CarrylessProduct;
    if y == 0 {
      q := 0;
      ProductDoubles(x, 0, 0);
      ProductDoubles(MODULUS, 0, 0);
      XorZero(0);
    } else {
      var q' := MulIsReducedProduct(x, y / 2);
      var m := Mul(x, y / 2);
      var b := Bit(m, 7);
      q := 2 * q' + b;
      XTimeUnfolds(m);
      var c := if b == 1 then MODULUS else 0;
      var t := if y % 2 == 1 then x else 0;
      var u := 2 * CarrylessProduct(MODULUS, q');
      ProductDoubles(x, y / 2, y % 2);
      ProductDoubles(MODULUS, q', b);
      XorDouble(m, CarrylessProduct(MODULUS, q'));
      XorAssoc(t, Xor(2 * m, c), Xor(c, u));
      XorAssoc(Xor(2 * m, c), c, u);
      XorCancel(2 * m, c, 0);
    }
  }

  type Byte = x: nat | x < 256

  /** The field sum. */
  function Add(x: Byte, y: Byte): Byte {
    PowersOfTwo();
    XorBound(x, y, 8);
    Xor(x, y)
  }

  /** The field product. */
  function Times(x: Byte, y: Byte): Byte {
    MulByte(x, y);
    Mul(x, y)
  }

  function Power(r: Byte, n: nat): Byte {
    if n == 0 then 1 else Times(r, Power(r, n - 1))
  }

  /** The loop of the source: the bits of y are taken from the top. */
  method Multiply(x: nat, y: nat) returns (result: nat)
    requires x < 256 && y < 256
    ensures result == Mul(x, y)
    ensures result < 256
  {
    result := 0;
    var rest := y;
    PowersOfTwo();
    ShrAll(y, 8);
    for k := 0 to 8
      invariant rest == Shl(y, k)
      invariant result == Mul(x, Shr(y, 8 - k))
    {
      NextBit(x, y, k);
      result := Xor(2 * result, if Bit(result, 7) == 1 then MODULUS else 0);
      if Bit(rest, 7) == 1 {
        result := Xor(result, x);
      }
      rest := rest * 2;
    }
    MulByte(x, y);
  }

  lemma NextBit(x: nat, y: nat, k: nat)
    requires k < 8
    ensures var m := XTime(Mul(x, Shr(y, 8 - k)));
            Mul(x, Shr(y, 7 - k)) == if Bit(Shl(y, k), 7) == 1 then Xor(m, x) else m
  {
    ShlBit(y, k, 7 - k);
    ShrNext(y, 7 - k);
    MulStep(x, Shr(y, 7 - k));
    var m := XTime(Mul(x, Shr(y, 8 - k)));
    XorComm(m, x);
    XorZero(m);
  }
}
