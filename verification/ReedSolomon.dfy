/** The systematic Reed-Solomon code of the QR symbol. Polynomials are coefficient sequences, highest degree first. */
module ReedSolomon {
  import opened Bits
  import opened Gf256

  /** The value of the polynomial p at the point r. */
  function Eval(p: seq<Byte>, r: Byte): Byte {
    if p == [] then 0
    else Add(Times(Eval(p[..|p| - 1], r), r), p[|p| - 1])
  }

  function Sum(a: seq<Byte>, b: seq<Byte>): (c: seq<Byte>)
    requires |a| == |b|
    ensures |c| == |a|
  {
    seq(|a|, i requires 0 <= i < |a| => Add(a[i], b[i]))
  }

  function Scale(c: Byte, p: seq<Byte>): (q: seq<Byte>)
    ensures |q| == |p|
  {
    seq(|p|, i requires 0 <= i < |p| => Times(p[i], c))
  }

  /** p with its leading coefficient dropped and a zero brought in: x p without its x^|p| term. */
  function ShiftLeft(p: seq<Byte>): (q: seq<Byte>)
    ensures |q| == |p|
  {
    if p == [] then [] else p[1..] + [0]
  }

  /** (r + 2^0) (r + 2^1) ... (r + 2^(n-1)). */
  function RootProduct(r: Byte, n: nat): Byte {
    if n == 0 then 1 else Times(Add(r, Power(2, n - 1)), RootProduct(r, n - 1))
  }

  /** The generator polynomial after n rounds, in `degree` coefficients; the x^degree term is left out. */
  function Generator(degree: nat, n: nat): (g: seq<Byte>)
    requires degree >= 1
    ensures |g| == degree
  {
    if n == 0 then seq(degree - 1, _ => 0) + [1]
    else TimesFactor(Generator(degree, n - 1), Power(2, n - 1))
  }

  /** One data byte through the linear feedback shift register. */
  function RemainderStep(reg: seq<Byte>, value: Byte, divisor: seq<Byte>): (next: seq<Byte>)
    requires |reg| == |divisor| >= 1
    ensures |next| == |divisor|
  {
    Sum(ShiftLeft(reg), Scale(Add(value, reg[0]), divisor))
  }

  function RemainderOf(data: seq<Byte>, divisor: seq<Byte>): (reg: seq<Byte>)
    requires |divisor| >= 1
    ensures |reg| == |divisor|
  {
    if data == [] then seq(|divisor|, _ => 0)
    else RemainderStep(RemainderOf(data[..|data| - 1], divisor), data[|data| - 1], divisor)
  }

  // ---- evaluation is linear ----

  lemma {:induction false} EvalSum(a: seq<Byte>, b: seq<Byte>, r: Byte)
    requires |a| == |b|
    ensures Eval(Sum(a, b), r) == Add(Eval(a, r), Eval(b, r))
  {
    hide Xor, Mul;
    if a == [] {
      XorZero(0);
    } else {
      var n := |a| - 1;
      assert Sum(a, b)[..n] == Sum(a[..n], b[..n]);
      EvalSum(a[..n], b[..n], r);
      MulLinearLeft(Eval(a[..n], r), Eval(b[..n], r), r);
      XorSwap(Times(Eval(a[..n], r), r), Times(Eval(b[..n], r), r), a[n], b[n]);
    }
  }

  lemma {:induction false} EvalScale(c: Byte, p: seq<Byte>, r: Byte)
    ensures Eval(Scale(c, p), r) == Times(Eval(p, r), c)
  {
    hide Xor, Mul;
    if p == [] {
      MulZeroLeft(c);
    } else {
      var n := |p| - 1;
      var e := Eval(p[..n], r);
      assert Scale(c, p)[..n] == Scale(c, p[..n]);
      EvalScale(c, p[..n], r);
      MulAssoc(e, c, r);
      MulAssoc(e, r, c);
      MulComm(c, r);
      MulLinearLeft(Times(e, r), p[n], c);
    }
  }

  lemma ConcatStep(ea: Byte, pr: Byte, eb: Byte, r: Byte, c: Byte)
    ensures Add(Times(Add(Times(ea, pr), eb), r), c) == Add(Times(ea, Times(r, pr)), Add(Times(eb, r), c))
  {
    hide Xor, Mul;
    MulLinearLeft(Times(ea, pr), eb, r);
    MulAssoc(ea, pr, r);
    MulComm(pr, r);
    XorAssoc(Times(Times(ea, pr), r), Times(eb, r), c);
  }

  lemma {:induction false} EvalConcat(a: seq<Byte>, b: seq<Byte>, r: Byte)
    ensures Eval(a + b, r) == Add(Times(Eval(a, r), Power(r, |b|)), Eval(b, r))
  {
    hide Xor, Mul;
    if b == [] {
      assert a + b == a;
      MulOneRight(Eval(a, r));
      XorZero(Eval(a, r));
    } else {
      var n := |b| - 1;
      assert (a + b)[..|a| + n] == a + b[..n];
      EvalConcat(a, b[..n], r);
      ConcatStep(Eval(a, r), Power(r, n), Eval(b[..n], r), r, b[n]);
    }
  }

  /** x p has the value r p(r): the dropped leading term is accounted for. */
  lemma EvalShiftLeft(p: seq<Byte>, r: Byte)
    requires |p| >= 1
    ensures Eval(ShiftLeft(p), r) == Add(Times(Eval(p, r), r), Times(p[0], Power(r, |p|)))
  {
    hide Xor, Mul;
    var tail := p[1..];
    var n := |tail|;
    assert p == [p[0]] + tail;
    EvalConcat([p[0]], tail, r);
    assert Eval([p[0]], r) == p[0] by {
      assert [p[0]][..0] == [];
      MulZeroLeft(r);
      XorZero(p[0]);
    }
    assert (tail + [0])[..n] == tail;
    var lead, rest := Times(p[0], Power(r, n)), Eval(tail, r);
    XorZero(Times(rest, r));
    assert Eval(ShiftLeft(p), r) == Times(rest, r);
    MulLinearLeft(lead, rest, r);
    MulAssoc(p[0], Power(r, n), r);
    MulComm(Power(r, n), r);
    XorComm(Times(lead, r), Times(rest, r));
    XorCancel(Times(rest, r), Times(lead, r), 0);
  }

  // ---- the generator ----

  lemma {:induction false} EvalZeros(n: nat, r: Byte)
    ensures Eval(seq(n, _ => 0), r) == 0
  {
    if n > 0 {
      var z: seq<Byte> := seq(n, _ => 0);
      assert z[..n - 1] == seq(n - 1, _ => 0);
      EvalZeros(n - 1, r);
      MulZeroLeft(r);
      XorZero(0);
    }
  }

  /** g has degree n and leading coefficient 1. */
  ghost predicate Monic(g: seq<Byte>, n: nat) {
    n < |g| && (forall j :: 0 <= j < |g| - 1 - n ==> g[j] == 0) && g[|g| - 1 - n] == 1
  }

  /** (x + root) g, without a term of degree |g|. */
  function TimesFactor(g: seq<Byte>, root: Byte): (p: seq<Byte>)
    ensures |p| == |g|
  {
    Sum(Scale(root, g), ShiftLeft(g))
  }

  lemma MonicStep(g: seq<Byte>, root: Byte, n: nat)
    requires Monic(g, n) && n + 1 < |g|
    ensures Monic(TimesFactor(g, root), n + 1)
  {
    var p := TimesFactor(g, root);
    forall j | 0 <= j < |g| - 1 - n
      ensures p[j] == g[j + 1]
    {
      MulZeroLeft(root);
      XorZero(g[j + 1]);
    }
  }

  lemma {:induction false} GeneratorIsMonic(degree: nat, n: nat)
    requires n < degree
    ensures Monic(Generator(degree, n), n)
  {
    hide TimesFactor, Xor, Mul;
    if n > 0 {
      GeneratorIsMonic(degree, n - 1);
      MonicStep(Generator(degree, n - 1), Power(2, n - 1), n - 1);
    }
  }

  lemma EvalTimesFactor(g: seq<Byte>, root: Byte, r: Byte)
    requires |g| >= 1
    ensures Add(Times(g[0], Power(r, |g|)), Eval(TimesFactor(g, root), r)) == Times(Add(r, root), Eval(g, r))
  {
    hide Xor, Mul;
    var e := Eval(g, r);
    EvalSum(Scale(root, g), ShiftLeft(g), r);
    EvalScale(root, g, r);
    EvalShiftLeft(g, r);
    MulLinearLeft(r, root, e);
    MulComm(r, e);
    MulComm(root, e);
    FactorOut(Times(e, root), Times(e, r), Times(g[0], Power(r, |g|)));
  }

  lemma EvalOne(degree: nat, r: Byte)
    requires degree >= 1
    ensures Eval(Generator(degree, 0), r) == 1
  {
    var z: seq<Byte> := seq(degree - 1, _ => 0);
    EvalZeros(degree - 1, r);
    assert (z + [1])[..degree - 1] == z;
    MulZeroLeft(r);
    XorZero(1);
  }

  lemma ProductStep(g: seq<Byte>, next: seq<Byte>, root: Byte, r: Byte, product: Byte)
    requires |g| >= 1 && next == TimesFactor(g, root) && Eval(g, r) == product
    ensures g[0] == 0 ==> Eval(next, r) == Times(Add(r, root), product)
    ensures g[0] == 1 ==> Add(Power(r, |g|), Eval(next, r)) == Times(Add(r, root), product)
  {
    hide Xor, Mul;
    EvalTimesFactor(g, root, r);
    var pr := Power(r, |g|);
    MulOneLeft(pr);
    MulZeroLeft(pr);
    XorZero(Eval(next, r));
  }

  lemma GeneratorLead(degree: nat, n: nat)
    requires n < degree
    ensures Generator(degree, n)[0] == if n + 1 == degree then 1 else 0
  {
    GeneratorIsMonic(degree, n);
  }

  lemma GeneratorNext(degree: nat, n: nat)
    requires n < degree
    ensures Generator(degree, n + 1) == TimesFactor(Generator(degree, n), Power(2, n))
  {}

  lemma {:induction false} GeneratorPrefix(degree: nat, n: nat, g: seq<Byte>, r: Byte)
    requires n < degree && g == Generator(degree, n)
    ensures Eval(g, r) == RootProduct(r, n)
  {
    hide TimesFactor, Xor, Mul, Eval;
    if n == 0 {
      EvalOne(degree, r);
    } else {
      var prev := Generator(degree, n - 1);
      GeneratorPrefix(degree, n - 1, prev, r);
      GeneratorLead(degree, n - 1);
      GeneratorNext(degree, n - 1);
      ProductStep(prev, g, Power(2, n - 1), r, RootProduct(r, n - 1));
    }
  }

  /** With its x^degree term the generator is the product of the linear factors of the roots 2^0 .. 2^(degree-1). */
  lemma GeneratorIsProduct(degree: nat, g: seq<Byte>, r: Byte)
    requires degree >= 1 && g == Generator(degree, degree)
    ensures Add(Power(r, degree), Eval(g, r)) == RootProduct(r, degree)
  {
    hide TimesFactor, Xor, Mul, Eval;
    var n := degree - 1;
    var prev := Generator(degree, n);
    GeneratorPrefix(degree, n, prev, r);
    GeneratorLead(degree, n);
    GeneratorNext(degree, n);
    ProductStep(prev, g, Power(2, n), r, RootProduct(r, n));
  }

  lemma FactorOut(a: Byte, b: Byte, c: Byte)
    ensures Add(c, Add(a, Add(b, c))) == Add(b, a)
  {
    hide Xor, Mul;
    XorAssoc(a, b, c);
    XorComm(c, Xor(Xor(a, b), c));
    XorCancel(Xor(a, b), c, 0);
    XorComm(a, b);
  }

  // ---- the codeword ----

  lemma {:induction false} RootProductVanishes(k: nat, n: nat)
    requires k < n
    ensures RootProduct(Power(2, k), n) == 0
  {
    hide Xor;
    var r := Power(2, k);
    if k == n - 1 {
      XorZero(r);
      MulZeroLeft(RootProduct(r, n - 1));
    } else {
      RootProductVanishes(k, n - 1);
      assert Times(Add(r, Power(2, n - 1)), 0) == 0;
    }
  }

  /** At a root of the divisor, data followed by its register evaluates to zero. */
  lemma {:induction false} RemainderVanishes(data: seq<Byte>, divisor: seq<Byte>, r: Byte)
    requires |divisor| >= 1
    requires Eval(divisor, r) == Power(r, |divisor|)
    ensures Times(Eval(data, r), Power(r, |divisor|)) == Eval(RemainderOf(data, divisor), r)
  {
    hide Xor, Mul;
    var n := |divisor|;
    var pr := Power(r, n);
    if data == [] {
      EvalZeros(n, r);
      MulZeroLeft(pr);
    } else {
      var d, v := data[..|data| - 1], data[|data| - 1];
      var reg := RemainderOf(d, divisor);
      RemainderVanishes(d, divisor, r);
      var factor := Add(v, reg[0]);
      EvalSum(ShiftLeft(reg), Scale(factor, divisor), r);
      EvalShiftLeft(reg, r);
      EvalScale(factor, divisor, r);
      MulComm(pr, factor);
      MulLinearLeft(v, reg[0], pr);
      MulLinearLeft(Times(Eval(d, r), r), v, pr);
      MulAssoc(Eval(d, r), r, pr);
      MulComm(r, pr);
      MulAssoc(Eval(d, r), pr, r);
      XorCancel(Times(Eval(reg, r), r), Times(v, pr), Times(reg[0], pr));
    }
  }

  lemma DivisorAtRoot(degree: nat, k: nat)
    requires k < degree
    ensures Eval(Generator(degree, degree), Power(2, k)) == Power(Power(2, k), degree)
  {
    hide Xor, Mul;
    var r := Power(2, k);
    var e := Eval(Generator(degree, degree), r);
    GeneratorIsProduct(degree, Generator(degree, degree), r);
    RootProductVanishes(k, degree);
    XorCancel(e, Power(r, degree), 0);
    XorComm(e, Power(r, degree));
    XorZero(Power(r, degree));
  }

  /** Every block with its error-correction bytes is a codeword: it has the roots 2^0 .. 2^(degree-1). */
  lemma BlockIsCodeword(data: seq<Byte>, degree: nat, k: nat)
    requires k < degree
    ensures Eval(data + RemainderOf(data, Generator(degree, degree)), Power(2, k)) == 0
  {
    hide Xor, Mul;
    var r := Power(2, k);
    var g := Generator(degree, degree);
    DivisorAtRoot(degree, k);
    RemainderVanishes(data, g, r);
    EvalConcat(data, RemainderOf(data, g), r);
    XorZero(Eval(RemainderOf(data, g), r));
  }

  // ---- the loops of the source ----

  method Divisor(degree: nat) returns (result: seq<Byte>)
    requires degree >= 1
    ensures result == Generator(degree, degree)
  {
    hide Mul, TimesFactor;
    result := seq(degree - 1, _ => 0) + [1];
    var root: Byte := 1;
    for i := 0 to degree
      invariant result == Generator(degree, i)
      invariant root == Power(2, i)
    {
      result := MultiplyByFactor(result, root);
      MulComm(root, 2);
      root := Multiply(root, 2);
    }
  }

  /** The inner loop of the divisor: one linear factor, coefficient by coefficient in place. */
  method MultiplyByFactor(g: seq<Byte>, root: Byte) returns (result: seq<Byte>)
    ensures result == TimesFactor(g, root)
  {
    hide Xor, Mul;
    result := g;
    for j := 0 to |g|
      invariant |result| == |g|
      invariant forall k :: j <= k < |g| ==> result[k] == g[k]
      invariant forall k :: 0 <= k < j ==> result[k] == TimesFactor(g, root)[k]
    {
      var product := Multiply(result[j], root);
      XorZero(product);
      result := result[j := product];
      if j + 1 < |g| {
        result := result[j := Add(result[j], result[j + 1])];
      }
    }
  }

  method Remainder(data: seq<Byte>, divisor: seq<Byte>) returns (result: seq<Byte>)
    requires |divisor| >= 1
    ensures result == RemainderOf(data, divisor)
  {
    hide Xor, Mul;
    result := seq(|divisor|, _ => 0);
    for n := 0 to |data|
      invariant result == RemainderOf(data[..n], divisor)
    {
      assert data[..n + 1][..n] == data[..n];
      ghost var reg := result;
      var factor := Add(data[n], result[0]);
      result := result[1..] + [0];
      ghost var shifted := result;
      for i := 0 to |divisor|
        invariant |result| == |divisor|
        invariant forall k :: i <= k < |divisor| ==> result[k] == shifted[k]
        invariant forall k :: 0 <= k < i ==> result[k] == Add(shifted[k], Times(divisor[k], factor))
      {
        var product := Multiply(divisor[i], factor);
        result := result[i := Add(result[i], product)];
      }
      assert result == RemainderStep(reg, data[n], divisor);
    }
    assert data[..|data|] == data;
  }
}
