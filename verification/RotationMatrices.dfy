/** Every orthogonal matrix of determinant 1 is the matrix of a unit quaternion, so each survives the round trip. */
module RotationMatrices {
  import opened Rotation

  const IDENTITY := Mat(1.0, 0.0, 0.0, 0.0, 1.0, 0.0, 0.0, 0.0, 1.0)

  function Transposed(m: Mat): Mat {
    Mat(m.r00, m.r10, m.r20, m.r01, m.r11, m.r21, m.r02, m.r12, m.r22)
  }

  function Det(m: Mat): real {
    m.r00 * (m.r11 * m.r22 - m.r12 * m.r21) + m.r01 * (m.r12 * m.r20 - m.r10 * m.r22)
      + m.r02 * (m.r10 * m.r21 - m.r11 * m.r20)
  }

  predicate IsRotation(m: Mat) {
    Times(m, Transposed(m)) == IDENTITY && Det(m) == 1.0
  }

  // ---- each row is the cross product of the other two ----

  function Dot(a0: real, a1: real, a2: real, b0: real, b1: real, b2: real): real {
    Prod(a0, b0) + Prod(a1, b1) + Prod(a2, b2)
  }

  /** A component of the cross product. */
  function Minor(a: real, b: real, c: real, d: real): real {
    Prod(a, d) - Prod(b, c)
  }

  predicate RowsApart(m: Mat) {
    && Dot(m.r00, m.r01, m.r02, m.r00, m.r01, m.r02) == 1.0
    && Dot(m.r10, m.r11, m.r12, m.r10, m.r11, m.r12) == 1.0
    && Dot(m.r20, m.r21, m.r22, m.r20, m.r21, m.r22) == 1.0
    && Dot(m.r00, m.r01, m.r02, m.r10, m.r11, m.r12) == 0.0
    && Dot(m.r00, m.r01, m.r02, m.r20, m.r21, m.r22) == 0.0
    && Dot(m.r10, m.r11, m.r12, m.r20, m.r21, m.r22) == 0.0
  }

  predicate RowsCross(m: Mat) {
    && m.r00 == Minor(m.r11, m.r12, m.r21, m.r22)
    && m.r01 == Minor(m.r12, m.r10, m.r22, m.r20)
    && m.r02 == Minor(m.r10, m.r11, m.r20, m.r21)
    && m.r10 == Minor(m.r21, m.r22, m.r01, m.r02)
    && m.r11 == Minor(m.r22, m.r20, m.r02, m.r00)
    && m.r12 == Minor(m.r20, m.r21, m.r00, m.r01)
    && m.r20 == Minor(m.r01, m.r02, m.r11, m.r12)
    && m.r21 == Minor(m.r02, m.r00, m.r12, m.r10)
    && m.r22 == Minor(m.r00, m.r01, m.r10, m.r11)
  }

  lemma Lagrange(b0: real, b1: real, b2: real, c0: real, c1: real, c2: real)
    ensures var (n0, n1, n2) := (Minor(b1, b2, c1, c2), Minor(b2, b0, c2, c0), Minor(b0, b1, c0, c1));
      Dot(n0, n1, n2, n0, n1, n2) ==
        Prod(Dot(b0, b1, b2, b0, b1, b2), Dot(c0, c1, c2, c0, c1, c2))
          - Prod(Dot(b0, b1, b2, c0, c1, c2), Dot(b0, b1, b2, c0, c1, c2))
  {}

  lemma DistanceSquared(a0: real, a1: real, a2: real, n0: real, n1: real, n2: real)
    ensures Dot(n0 - a0, n1 - a1, n2 - a2, n0 - a0, n1 - a1, n2 - a2) ==
              Dot(n0, n1, n2, n0, n1, n2) - 2.0 * Dot(a0, a1, a2, n0, n1, n2) + Dot(a0, a1, a2, a0, a1, a2)
  {}

  lemma PositiveProd(a: real, b: real)
    requires a > 0.0 && b > 0.0
    ensures Prod(a, b) > 0.0
  {
    PositiveProduct(a, b);
  }

  lemma ProdOfNegatives(a: real, b: real)
    ensures Prod(-a, -b) == Prod(a, b)
  {}

  lemma SquareIsZero(v: real)
    ensures Prod(v, v) >= 0.0 && (Prod(v, v) == 0.0 ==> v == 0.0)
  {
    if v > 0.0 {
      PositiveProd(v, v);
    } else if v < 0.0 {
      ProdOfNegatives(v, v);
      PositiveProd(-v, -v);
    } else {
      assert v == 0.0;
    }
  }

  lemma NoLength(x: real, y: real, z: real)
    requires Dot(x, y, z, x, y, z) == 0.0
    ensures x == 0.0 && y == 0.0 && z == 0.0
  {
    SquareIsZero(x);
    SquareIsZero(y);
    SquareIsZero(z);
    hide Prod;
  }

  /** With b and c of length one and apart, a of length one and the volume 1, a is their cross product. */
  lemma CrossIsRow(a0: real, a1: real, a2: real, b0: real, b1: real, b2: real, c0: real, c1: real, c2: real)
    requires Dot(a0, a1, a2, a0, a1, a2) == 1.0 && Dot(b0, b1, b2, b0, b1, b2) == 1.0
    requires Dot(c0, c1, c2, c0, c1, c2) == 1.0 && Dot(b0, b1, b2, c0, c1, c2) == 0.0
    requires Dot(a0, a1, a2, Minor(b1, b2, c1, c2), Minor(b2, b0, c2, c0), Minor(b0, b1, c0, c1)) == 1.0
    ensures a0 == Minor(b1, b2, c1, c2) && a1 == Minor(b2, b0, c2, c0) && a2 == Minor(b0, b1, c0, c1)
  {
    hide Dot, Minor;
    var (n0, n1, n2) := (Minor(b1, b2, c1, c2), Minor(b2, b0, c2, c0), Minor(b0, b1, c0, c1));
    Lagrange(b0, b1, b2, c0, c1, c2);
    assert Prod(1.0, 1.0) == 1.0 && Prod(0.0, 0.0) == 0.0;
    DistanceSquared(a0, a1, a2, n0, n1, n2);
    NoLength(n0 - a0, n1 - a1, n2 - a2);
  }

  function Volume(m: Mat): real {
    Dot(m.r00, m.r01, m.r02, Minor(m.r11, m.r12, m.r21, m.r22), Minor(m.r12, m.r10, m.r22, m.r20),
        Minor(m.r10, m.r11, m.r20, m.r21))
  }

  lemma RotationRows(m: Mat)
    requires IsRotation(m)
    ensures RowsApart(m) && Volume(m) == 1.0
  {
    TimesTransposed(m);
    VolumeIsDet(m);
    hide Times, Dot, Det, Volume;
  }

  lemma TimesTransposed(m: Mat)
    ensures var p := Times(m, Transposed(m));
      && p.r00 == Dot(m.r00, m.r01, m.r02, m.r00, m.r01, m.r02)
      && p.r11 == Dot(m.r10, m.r11, m.r12, m.r10, m.r11, m.r12)
      && p.r22 == Dot(m.r20, m.r21, m.r22, m.r20, m.r21, m.r22)
      && p.r01 == Dot(m.r00, m.r01, m.r02, m.r10, m.r11, m.r12) == p.r10
      && p.r02 == Dot(m.r00, m.r01, m.r02, m.r20, m.r21, m.r22) == p.r20
      && p.r12 == Dot(m.r10, m.r11, m.r12, m.r20, m.r21, m.r22) == p.r21
  {}

  lemma VolumeIsDet(m: Mat)
    ensures Volume(m) == Det(m)
  {}

  /** The volume does not depend on which row comes first. */
  lemma VolumeTurns(a0: real, a1: real, a2: real, b0: real, b1: real, b2: real, c0: real, c1: real, c2: real)
    ensures Dot(a0, a1, a2, Minor(b1, b2, c1, c2), Minor(b2, b0, c2, c0), Minor(b0, b1, c0, c1))
         == Dot(b0, b1, b2, Minor(c1, c2, a1, a2), Minor(c2, c0, a2, a0), Minor(c0, c1, a0, a1))
  {}

  lemma DotComm(a0: real, a1: real, a2: real, b0: real, b1: real, b2: real)
    ensures Dot(a0, a1, a2, b0, b1, b2) == Dot(b0, b1, b2, a0, a1, a2)
  {}

  /** The rows of a rotation have length one, are apart, and each is the cross product of the other two. */
  ghost predicate Frame(m: Mat) {
    RowsApart(m) && RowsCross(m) && Volume(m) == 1.0
  }

  lemma RotationFrame(m: Mat)
    requires RowsApart(m) && Volume(m) == 1.0
    ensures Frame(m)
  {
    hide IsRotation, Dot, Minor, Prod;
    CrossIsRow(m.r00, m.r01, m.r02, m.r10, m.r11, m.r12, m.r20, m.r21, m.r22);
    VolumeTurns(m.r00, m.r01, m.r02, m.r10, m.r11, m.r12, m.r20, m.r21, m.r22);
    DotComm(m.r20, m.r21, m.r22, m.r00, m.r01, m.r02);
    CrossIsRow(m.r10, m.r11, m.r12, m.r20, m.r21, m.r22, m.r00, m.r01, m.r02);
    VolumeTurns(m.r10, m.r11, m.r12, m.r20, m.r21, m.r22, m.r00, m.r01, m.r02);
    CrossIsRow(m.r20, m.r21, m.r22, m.r00, m.r01, m.r02, m.r10, m.r11, m.r12);
  }

  // ---- so do its columns, and the matrix with its axes renamed ----

  lemma CrossIsApart(b0: real, b1: real, b2: real, c0: real, c1: real, c2: real)
    ensures Dot(Minor(b1, b2, c1, c2), Minor(b2, b0, c2, c0), Minor(b0, b1, c0, c1), b0, b1, b2) == 0.0
    ensures Dot(Minor(b1, b2, c1, c2), Minor(b2, b0, c2, c0), Minor(b0, b1, c0, c1), c0, c1, c2) == 0.0
  {}

  lemma CrossFrame(m: Mat)
    requires RowsCross(m) && Volume(m) == 1.0
    ensures Frame(m)
  {
    hide Dot, Minor, Prod;
    VolumeTurns(m.r00, m.r01, m.r02, m.r10, m.r11, m.r12, m.r20, m.r21, m.r22);
    VolumeTurns(m.r10, m.r11, m.r12, m.r20, m.r21, m.r22, m.r00, m.r01, m.r02);
    CrossIsApart(m.r10, m.r11, m.r12, m.r20, m.r21, m.r22);
    CrossIsApart(m.r20, m.r21, m.r22, m.r00, m.r01, m.r02);
  }

  lemma MinorTransposed(a: real, b: real, c: real, d: real)
    ensures Minor(a, b, c, d) == Minor(a, c, b, d)
  {}

  lemma VolumeTransposed(m: Mat)
    ensures Volume(Transposed(m)) == Volume(m)
  {}

  lemma ColumnsFrame(m: Mat)
    requires Frame(m)
    ensures Frame(Transposed(m))
  {
    VolumeTransposed(m);
    MinorTransposed(m.r11, m.r12, m.r21, m.r22);
    MinorTransposed(m.r12, m.r10, m.r22, m.r20);
    MinorTransposed(m.r10, m.r11, m.r20, m.r21);
    MinorTransposed(m.r21, m.r22, m.r01, m.r02);
    MinorTransposed(m.r22, m.r20, m.r02, m.r00);
    MinorTransposed(m.r20, m.r21, m.r00, m.r01);
    MinorTransposed(m.r01, m.r02, m.r11, m.r12);
    MinorTransposed(m.r02, m.r00, m.r12, m.r10);
    MinorTransposed(m.r00, m.r01, m.r10, m.r11);
    hide Dot, Minor, Volume, RowsApart;
    CrossFrame(Transposed(m));
  }

  /** The same rotation with y, z and x called x, y and z. */
  function Renamed(m: Mat): Mat {
    Mat(m.r11, m.r12, m.r10, m.r21, m.r22, m.r20, m.r01, m.r02, m.r00)
  }

  lemma VolumeRenamed(m: Mat)
    ensures Volume(Renamed(m)) == Volume(m)
  {}

  lemma RenamedFrame(m: Mat)
    requires Frame(m)
    ensures Frame(Renamed(m))
  {
    VolumeRenamed(m);
    hide Dot, Minor, Volume, RowsApart;
    CrossFrame(Renamed(m));
  }

  // ---- four times the products of the components ----

  /** Four times the products of the components of a quaternion, read off its matrix. */
  function Fourfold(m: Mat): Products {
    Products(1.0 + m.r00 + m.r11 + m.r22, 1.0 + m.r00 - m.r11 - m.r22, 1.0 + m.r11 - m.r00 - m.r22,
             1.0 + m.r22 - m.r00 - m.r11, m.r01 + m.r10, m.r02 + m.r20, m.r12 + m.r21,
             m.r21 - m.r12, m.r02 - m.r20, m.r10 - m.r01)
  }

  lemma SumTimesSum(a: real, e: real, i: real, x: real, y: real)
    ensures Prod(1.0 + a + e + i, x + y) ==
              x + y + Prod(a, x) + Prod(a, y) + Prod(e, x) + Prod(e, y) + Prod(i, x) + Prod(i, y)
    ensures Prod(1.0 + a - e - i, x + y) ==
              x + y + Prod(a, x) + Prod(a, y) - Prod(e, x) - Prod(e, y) - Prod(i, x) - Prod(i, y)
    ensures Prod(1.0 + a - e - i, x - y) ==
              x - y + Prod(a, x) - Prod(a, y) - Prod(e, x) + Prod(e, y) - Prod(i, x) + Prod(i, y)
  {}

  lemma Conjugates(x: real, y: real)
    ensures Prod(x + y, x - y) == Prod(x, x) - Prod(y, y)
  {}

  lemma ProdWithOne(a: real)
    ensures Prod(1.0, 1.0) == 1.0 && Prod(1.0, a) == a
  {}

  lemma PairTimesPair(a: real, b: real, c: real, d: real)
    ensures Prod(a + b, c + d) == Prod(a, c) + Prod(a, d) + Prod(b, c) + Prod(b, d)
    ensures Prod(a + b, c - d) == Prod(a, c) - Prod(a, d) + Prod(b, c) - Prod(b, d)
    ensures Prod(a - b, c - d) == Prod(a, c) - Prod(a, d) - Prod(b, c) + Prod(b, d)
    ensures Prod(a, c) == Prod(c, a) && Prod(a, d) == Prod(d, a) && Prod(b, c) == Prod(c, b) && Prod(b, d) == Prod(d, b)
  {}

  /** (1 + a - e - i)(f + h) and (1 + a + e + i)(f + h). */
  lemma SymmetricEntry(a: real, b: real, c: real, d: real, e: real, f: real, g: real, h: real, i: real)
    requires f == Prod(b, g) - Prod(a, h) && h == Prod(c, d) - Prod(a, f)
    requires Prod(d, g) + Prod(e, h) + Prod(i, f) == 0.0 && Prod(b, c) + Prod(e, f) + Prod(i, h) == 0.0
    ensures Prod(1.0 + a - e - i, f + h) == Prod(b + d, c + g)
    ensures Prod(1.0 + a + e + i, f + h) == Prod(c - g, d - b)
  {
    hide Prod;
    SumTimesSum(a, e, i, f, h);
    PairTimesPair(b, d, c, g);
    PairTimesPair(c, g, d, b);
  }

  /** (1 + a - e - i)(d - b). */
  lemma SkewEntry(a: real, b: real, c: real, d: real, e: real, f: real, g: real, h: real, i: real)
    requires d == Prod(c, h) - Prod(i, b) && b == Prod(f, g) - Prod(i, d)
    requires Prod(a, d) + Prod(e, b) + Prod(c, f) == 0.0 && Prod(a, b) + Prod(e, d) + Prod(g, h) == 0.0
    ensures Prod(1.0 + a - e - i, d - b) == Prod(c + g, h - f)
  {
    hide Prod;
    SumTimesSum(a, e, i, d, b);
    PairTimesPair(c, g, h, f);
  }

  /** (1 + a - e - i)(1 + e - a - i). */
  lemma SquareEntry(a: real, b: real, c: real, d: real, e: real, f: real, i: real)
    requires Prod(a, a) + Prod(b, b) + Prod(c, c) == 1.0 && Prod(d, d) + Prod(e, e) + Prod(f, f) == 1.0
    requires Prod(c, c) + Prod(f, f) + Prod(i, i) == 1.0 && i == Prod(a, e) - Prod(b, d)
    ensures Prod(1.0 + a - e - i, 1.0 + e - a - i) == Prod(b + d, b + d)
  {
    hide Prod;
    Conjugates(1.0 - i, a - e);
    PairTimesPair(1.0, i, 1.0, i);
    PairTimesPair(a, e, a, e);
    PairTimesPair(b, d, b, d);
    ProdWithOne(i);
  }

  /** (1 + a + e + i)(1 + a - e - i). */
  lemma TraceEntry(a: real, d: real, e: real, f: real, g: real, h: real, i: real)
    requires Prod(d, d) + Prod(e, e) + Prod(f, f) == 1.0 && Prod(g, g) + Prod(h, h) + Prod(i, i) == 1.0
    requires Prod(a, a) + Prod(d, d) + Prod(g, g) == 1.0 && a == Prod(e, i) - Prod(f, h)
    ensures Prod(1.0 + a + e + i, 1.0 + a - e - i) == Prod(h - f, h - f)
  {
    hide Prod;
    Conjugates(1.0 + a, e + i);
    PairTimesPair(1.0, a, 1.0, a);
    PairTimesPair(e, i, e, i);
    PairTimesPair(h, f, h, f);
    ProdWithOne(a);
  }

  lemma ProductsCommute()
    ensures forall a, b :: Prod(a, b) == Prod(b, a)
  {}

  lemma NegativeFactor(a: real, b: real)
    ensures Prod(a, -b) == -Prod(a, b)
  {}

  /** What the frame says of the entries. */
  lemma FrameFacts(m: Mat)
    requires Frame(m) && Frame(Transposed(m))
    ensures Prod(m.r00, m.r00) + Prod(m.r01, m.r01) + Prod(m.r02, m.r02) == 1.0
    ensures Prod(m.r10, m.r10) + Prod(m.r11, m.r11) + Prod(m.r12, m.r12) == 1.0
    ensures Prod(m.r20, m.r20) + Prod(m.r21, m.r21) + Prod(m.r22, m.r22) == 1.0
    ensures Prod(m.r00, m.r00) + Prod(m.r10, m.r10) + Prod(m.r20, m.r20) == 1.0
    ensures Prod(m.r01, m.r01) + Prod(m.r11, m.r11) + Prod(m.r21, m.r21) == 1.0
    ensures Prod(m.r02, m.r02) + Prod(m.r12, m.r12) + Prod(m.r22, m.r22) == 1.0
    ensures Prod(m.r00, m.r10) + Prod(m.r01, m.r11) + Prod(m.r02, m.r12) == 0.0
    ensures Prod(m.r00, m.r20) + Prod(m.r01, m.r21) + Prod(m.r02, m.r22) == 0.0
    ensures Prod(m.r10, m.r20) + Prod(m.r11, m.r21) + Prod(m.r12, m.r22) == 0.0
    ensures Prod(m.r00, m.r01) + Prod(m.r10, m.r11) + Prod(m.r20, m.r21) == 0.0
    ensures Prod(m.r00, m.r02) + Prod(m.r10, m.r12) + Prod(m.r20, m.r22) == 0.0
    ensures Prod(m.r01, m.r02) + Prod(m.r11, m.r12) + Prod(m.r21, m.r22) == 0.0
  {
    hide Prod, Volume, Minor;
  }

  lemma PivotW(m: Mat)
    requires Frame(m) && Frame(Transposed(m))
    ensures var k := Fourfold(m); Prod(k.ww, k.xx) == Prod(k.xw, k.xw) && Prod(k.ww, k.yz) == Prod(k.yw, k.zw)
  {
    FrameFacts(m);
    ProductsCommute();
    hide Prod, Volume, RowsApart;
    TraceEntry(m.r00, m.r10, m.r11, m.r12, m.r20, m.r21, m.r22);
    SymmetricEntry(m.r00, m.r01, m.r02, m.r10, m.r11, m.r12, m.r20, m.r21, m.r22);
  }

  lemma PivotX(m: Mat)
    requires Frame(m) && Frame(Transposed(m))
    ensures var k := Fourfold(m);
      && Prod(k.xx, k.yy) == Prod(k.xy, k.xy) && Prod(k.xx, k.zz) == Prod(k.xz, k.xz)
      && Prod(k.xx, k.yz) == Prod(k.xy, k.xz)
      && Prod(k.xx, k.yw) == Prod(k.xy, k.xw) && Prod(k.xx, k.zw) == Prod(k.xz, k.xw)
  {
    FrameFacts(m);
    ProductsCommute();
    NegativeFactor(Fourfold(m).xx, m.r20 - m.r02);
    NegativeFactor(m.r01 + m.r10, m.r12 - m.r21);
    hide Prod, Volume, RowsApart;
    SquareEntry(m.r00, m.r01, m.r02, m.r10, m.r11, m.r12, m.r22);
    SquareEntry(m.r00, m.r02, m.r01, m.r20, m.r22, m.r21, m.r11);
    SymmetricEntry(m.r00, m.r01, m.r02, m.r10, m.r11, m.r12, m.r20, m.r21, m.r22);
    SkewEntry(m.r00, m.r01, m.r02, m.r10, m.r11, m.r12, m.r20, m.r21, m.r22);
    SkewEntry(m.r00, m.r02, m.r01, m.r20, m.r22, m.r21, m.r10, m.r12, m.r11);
  }

  // ---- a quaternion with these products ----

  lemma RootIsPositive(sqrt: real -> real, a: real)
    requires IsSqrt(sqrt) && a > 0.0
    ensures sqrt(a) > 0.0 && Prod(sqrt(a), sqrt(a)) == a
  {
    assert sqrt(a) * sqrt(a) == a;
  }

  /** With v the root of a pivot: components are entries over 2 v, and their products are quarters of entries. */
  lemma EntryProduct(a: real, b: real, c: real, v: real, pivot: real)
    requires v > 0.0 && Prod(v, v) == pivot && Prod(a, b) == Prod(pivot, c)
    ensures Prod(Over(a, 2.0 * v), Over(b, 2.0 * v)) == 0.25 * c
  {
    var (x, y) := (a / (2.0 * v), b / (2.0 * v));
    assert x * (2.0 * v) == a && y * (2.0 * v) == b;
    ScaledProduct(x, y, v, a, b);
    PositiveProd(v, v);
    Cancel(pivot, 4.0 * (x * y), c);
  }

  lemma ScaledProduct(x: real, y: real, v: real, a: real, b: real)
    requires a == x * (2.0 * v) && b == y * (2.0 * v)
    ensures Prod(a, b) == Prod(Prod(v, v), 4.0 * (x * y))
  {}

  lemma Cancel(f: real, a: real, b: real)
    requires f > 0.0 && Prod(f, a) == Prod(f, b)
    ensures a == b
  {
    if a < b {
      PositiveProduct(f, b - a);
    } else if b < a {
      PositiveProduct(f, a - b);
    }
  }

  function Quarter(k: Products): Products {
    Products(0.25 * k.ww, 0.25 * k.xx, 0.25 * k.yy, 0.25 * k.zz, 0.25 * k.xy, 0.25 * k.xz, 0.25 * k.yz,
             0.25 * k.xw, 0.25 * k.yw, 0.25 * k.zw)
  }

  lemma ProductsFrom(q: Quat, p: Products)
    requires Prod(q.w, q.w) == p.ww && Prod(q.x, q.x) == p.xx && Prod(q.y, q.y) == p.yy && Prod(q.z, q.z) == p.zz
    requires Prod(q.x, q.y) == p.xy && Prod(q.x, q.z) == p.xz && Prod(q.y, q.z) == p.yz
    requires Prod(q.x, q.w) == p.xw && Prod(q.y, q.w) == p.yw && Prod(q.z, q.w) == p.zw
    ensures ProductsOf(q) == p
  {}

  lemma FromPivotX(sqrt: real -> real, m: Mat) returns (q: Quat)
    requires IsSqrt(sqrt) && Frame(m) && Frame(Transposed(m)) && Fourfold(m).xx > 0.0
    ensures ProductsOf(q) == Quarter(Fourfold(m))
  {
    PivotX(m);
    PivotW(m);
    hide Prod, Fourfold, Frame, ProductsOf, Over, IsSqrt;
    var k := Fourfold(m);
    var v := sqrt(k.xx);
    RootIsPositive(sqrt, k.xx);
    q := Quat(Over(k.xw, 2.0 * v), Over(k.xx, 2.0 * v), Over(k.xy, 2.0 * v), Over(k.xz, 2.0 * v));
    ProdComm(k.ww, k.xx);
    EntryProduct(k.xw, k.xw, k.ww, v, k.xx);
    EntryProduct(k.xx, k.xx, k.xx, v, k.xx);
    EntryProduct(k.xy, k.xy, k.yy, v, k.xx);
    EntryProduct(k.xz, k.xz, k.zz, v, k.xx);
    EntryProduct(k.xx, k.xy, k.xy, v, k.xx);
    EntryProduct(k.xx, k.xz, k.xz, v, k.xx);
    EntryProduct(k.xy, k.xz, k.yz, v, k.xx);
    EntryProduct(k.xx, k.xw, k.xw, v, k.xx);
    EntryProduct(k.xy, k.xw, k.yw, v, k.xx);
    EntryProduct(k.xz, k.xw, k.zw, v, k.xx);
    ProductsFrom(q, Quarter(k));
  }

  lemma ProdComm(a: real, b: real)
    ensures Prod(a, b) == Prod(b, a)
  {}

  lemma FromPivotW(sqrt: real -> real, m: Mat) returns (q: Quat)
    requires IsSqrt(sqrt) && Frame(m) && Frame(Transposed(m)) && Fourfold(m).ww > 0.0
    ensures ProductsOf(q) == Quarter(Fourfold(m))
  {
    var m1, m2 := Renamed(m), Renamed(Renamed(m));
    PivotW(m);
    RenamedTwice(m);
    PivotW(m1);
    PivotW(m2);
    FourfoldRenamed(m);
    FourfoldRenamed(m1);
    hide Prod, Fourfold, Frame, ProductsOf, Over, IsSqrt;
    var k := Fourfold(m);
    var v := sqrt(k.ww);
    RootIsPositive(sqrt, k.ww);
    q := Quat(Over(k.ww, 2.0 * v), Over(k.xw, 2.0 * v), Over(k.yw, 2.0 * v), Over(k.zw, 2.0 * v));
    ProdComm(k.xw, k.ww);
    ProdComm(k.yw, k.ww);
    ProdComm(k.zw, k.ww);
    ProdComm(k.zw, k.xw);
    EntryProduct(k.ww, k.ww, k.ww, v, k.ww);
    EntryProduct(k.xw, k.xw, k.xx, v, k.ww);
    EntryProduct(k.yw, k.yw, k.yy, v, k.ww);
    EntryProduct(k.zw, k.zw, k.zz, v, k.ww);
    EntryProduct(k.xw, k.yw, k.xy, v, k.ww);
    EntryProduct(k.xw, k.zw, k.xz, v, k.ww);
    EntryProduct(k.yw, k.zw, k.yz, v, k.ww);
    EntryProduct(k.xw, k.ww, k.xw, v, k.ww);
    EntryProduct(k.yw, k.ww, k.yw, v, k.ww);
    EntryProduct(k.zw, k.ww, k.zw, v, k.ww);
    ProductsFrom(q, Quarter(k));
  }

  lemma FourfoldRenamed(m: Mat)
    ensures var (k, r) := (Fourfold(m), Fourfold(Renamed(m)));
      && r.ww == k.ww && r.xx == k.yy && r.yy == k.zz && r.zz == k.xx && r.xy == k.yz && r.xz == k.xy && r.yz == k.xz
      && r.xw == k.yw && r.yw == k.zw && r.zw == k.xw
  {}

  lemma RenamedBoth(m: Mat)
    requires Frame(m) && Frame(Transposed(m))
    ensures Frame(Renamed(m)) && Frame(Transposed(Renamed(m)))
  {
    hide Frame;
    RenamedFrame(m);
    ColumnsFrame(Renamed(m));
  }

  lemma RenamedTwice(m: Mat)
    requires Frame(m) && Frame(Transposed(m))
    ensures Frame(Renamed(m)) && Frame(Transposed(Renamed(m)))
    ensures Frame(Renamed(Renamed(m))) && Frame(Transposed(Renamed(Renamed(m))))
  {
    hide Frame, Renamed, Transposed;
    RenamedBoth(m);
    RenamedBoth(Renamed(m));
  }

  /** The components of a quaternion before y, z and x were called x, y and z. */
  function NamedBack(q: Quat): Quat {
    Quat(q.w, q.z, q.x, q.y)
  }

  lemma NamedBackProducts(m: Mat, q: Quat)
    requires ProductsOf(q) == Quarter(Fourfold(Renamed(m)))
    ensures ProductsOf(NamedBack(q)) == Quarter(Fourfold(m))
  {
    FourfoldRenamed(m);
    ProductsAre(q);
    hide Fourfold, Prod, ProductsOf;
    ProductsFrom(NamedBack(q), Quarter(Fourfold(m)));
  }

  /** Every rotation matrix is the matrix of a unit quaternion. */
  lemma RotationHasQuat(sqrt: real -> real, m: Mat) returns (q: Quat)
    requires IsSqrt(sqrt) && IsRotation(m)
    ensures Unit(q) && Quat2Rot(q) == m
  {
    RotationRows(m);
    RotationFrame(m);
    ColumnsFrame(m);
    RenamedTwice(m);
    FourfoldRenamed(m);
    FourfoldRenamed(Renamed(m));
    SumIsFour(m);
    hide Frame, Renamed, Transposed, Fourfold, Quarter, IsRotation, ProductsOf, IsSqrt;
    var k := Fourfold(m);
    if k.ww > 0.0 {
      q := FromPivotW(sqrt, m);
    } else if k.xx > 0.0 {
      q := FromPivotX(sqrt, m);
    } else if k.yy > 0.0 {
      q := FromPivotX(sqrt, Renamed(m));
      NamedBackProducts(m, q);
      q := NamedBack(q);
    } else {
      q := FromPivotX(sqrt, Renamed(Renamed(m)));
      NamedBackProducts(Renamed(m), q);
      NamedBackProducts(m, NamedBack(q));
      q := NamedBack(NamedBack(q));
    }
    QuarterIsBack(m, q);
  }

  lemma SumIsFour(m: Mat)
    ensures var k := Fourfold(m); k.ww + k.xx + k.yy + k.zz == 4.0
  {}

  lemma QuarterIsBack(m: Mat, q: Quat)
    requires ProductsOf(q) == Quarter(Fourfold(m))
    ensures Unit(q) && Quat2Rot(q) == m
  {
    UnitFrom(q);
    hide ProductsOf, Unit;
  }

  lemma UnitFrom(q: Quat)
    ensures var p := ProductsOf(q); Unit(q) <==> p.ww + p.xx + p.yy + p.zz == 1.0
  {}

  /** For every orthogonal matrix of determinant 1 no division fails, and the quaternion found is a unit quaternion with
      w not negative whose matrix is the given one. */
  lemma RotationRoundTrip(sqrt: real -> real, m: Mat)
    requires IsSqrt(sqrt) && IsRotation(m)
    ensures var r := Rot2Quat(sqrt, m); r.Number? && Unit(r.value) && r.value.w >= 0.0 && Quat2Rot(r.value) == m
  {
    hide IsSqrt, Rot2Quat, Unit, IsRotation, Quat2Rot;
    var q := RotationHasQuat(sqrt, m);
    QuatRoundTrip(sqrt, q);
    NegSameRotation(q);
    NegUnit(q);
  }

  lemma NegUnit(q: Quat)
    ensures Unit(Neg(q)) == Unit(q)
  {}

  // ---- and the matrix of a unit quaternion is a rotation ----

  /** The matrix of these products with the 1 of the diagonal replaced by the sum of the squares. */
  function Homogeneous(p: Products): Mat {
    Mat(p.ww + p.xx - p.yy - p.zz, 2.0 * (p.xy - p.zw), 2.0 * (p.xz + p.yw),
        2.0 * (p.xy + p.zw), p.ww + p.yy - p.xx - p.zz, 2.0 * (p.yz - p.xw),
        2.0 * (p.xz - p.yw), 2.0 * (p.yz + p.xw), p.ww + p.zz - p.xx - p.yy)
  }

  function Norm(p: Products): real {
    p.ww + p.xx + p.yy + p.zz
  }

  lemma HomogeneousIsMat(p: Products)
    requires Norm(p) == 1.0
    ensures Homogeneous(p) == MatOf(p)
  {}

  lemma Regrouped(a: real, b: real, c: real, d: real)
    ensures Prod(Prod(a, b), Prod(c, d)) == Prod(Prod(a, c), Prod(b, d))
    ensures Prod(Prod(a, b), Prod(c, d)) == Prod(Prod(a, d), Prod(b, c))
  {}

  predicate Consistent(p: Products) {
    && Prod(p.ww, p.xx) == Prod(p.xw, p.xw) && Prod(p.yy, p.zz) == Prod(p.yz, p.yz)
    && Prod(p.ww, p.yy) == Prod(p.yw, p.yw) && Prod(p.xx, p.zz) == Prod(p.xz, p.xz)
    && Prod(p.ww, p.zz) == Prod(p.zw, p.zw) && Prod(p.xx, p.yy) == Prod(p.xy, p.xy)
    && Prod(p.yz, p.xz) == Prod(p.zz, p.xy) && Prod(p.yz, p.yw) == Prod(p.yy, p.zw)
    && Prod(p.xw, p.xz) == Prod(p.xx, p.zw) && Prod(p.xw, p.yw) == Prod(p.ww, p.xy)
    && Prod(p.xy, p.yz) == Prod(p.yy, p.xz) && Prod(p.xy, p.xw) == Prod(p.xx, p.yw)
    && Prod(p.zw, p.yz) == Prod(p.zz, p.yw) && Prod(p.zw, p.xw) == Prod(p.ww, p.xz)
    && Prod(p.xy, p.zw) == Prod(p.xz, p.yw)
  }

  lemma ProductsConsistent(q: Quat)
    ensures Consistent(ProductsOf(q))
  {
    ProductsAre(q);
    hide Prod, ProductsOf;
    Regrouped(q.w, q.w, q.x, q.x);
    Regrouped(q.y, q.y, q.z, q.z);
    Regrouped(q.w, q.w, q.y, q.y);
    Regrouped(q.x, q.x, q.z, q.z);
    Regrouped(q.w, q.w, q.z, q.z);
    Regrouped(q.x, q.x, q.y, q.y);
    Regrouped(q.z, q.z, q.x, q.y);
    Regrouped(q.y, q.y, q.z, q.w);
    Regrouped(q.x, q.x, q.z, q.w);
    Regrouped(q.w, q.w, q.x, q.y);
    Regrouped(q.y, q.y, q.x, q.z);
    Regrouped(q.x, q.x, q.y, q.w);
    Regrouped(q.z, q.z, q.y, q.w);
    Regrouped(q.w, q.w, q.x, q.z);
    Regrouped(q.x, q.y, q.z, q.w);
  }

  lemma DiagonalEntry(ww: real, xx: real, yy: real, zz: real, yz: real, xw: real)
    requires Prod(ww, xx) == Prod(xw, xw) && Prod(yy, zz) == Prod(yz, yz)
    ensures Prod(ww + xx + yy + zz, ww + xx - yy - zz) ==
              Minor(ww + yy - xx - zz, 2.0 * (yz - xw), 2.0 * (yz + xw), ww + zz - xx - yy)
  {
    assert Prod(ww + xx + yy + zz, ww + xx - yy - zz) == Prod(ww + xx, ww + xx) - Prod(yy + zz, yy + zz);
    assert Prod(ww + yy - xx - zz, ww + zz - xx - yy) == Prod(ww - xx, ww - xx) - Prod(yy - zz, yy - zz);
    assert Prod(2.0 * (yz - xw), 2.0 * (yz + xw)) == 4.0 * Prod(yz, yz) - 4.0 * Prod(xw, xw);
    SumAndDifference(ww, xx);
    SumAndDifference(yy, zz);
    hide Prod;
  }

  lemma SumAndDifference(a: real, b: real)
    ensures Prod(a + b, a + b) - Prod(a - b, a - b) == 4.0 * Prod(a, b)
  {}

  lemma FourTerms(a: real, b: real, c: real, d: real)
    ensures Prod(2.0 * (a + b), 2.0 * (c + d)) == 4.0 * (Prod(a, c) + Prod(a, d) + Prod(b, c) + Prod(b, d))
    ensures Prod(2.0 * (a - b), 2.0 * (c - d)) == 4.0 * (Prod(a, c) - Prod(a, d) - Prod(b, c) + Prod(b, d))
  {}

  lemma FiveTerms(a: real, b: real, c: real, d: real, e: real)
    ensures Prod(b + c + d + e, 2.0 * a) == 2.0 * (Prod(b, a) + Prod(c, a) + Prod(d, a) + Prod(e, a))
    ensures Prod(2.0 * a, b + c - d - e) == 2.0 * (Prod(b, a) + Prod(c, a) - Prod(d, a) - Prod(e, a))
    ensures Prod(b + c - d - e, 2.0 * a) == 2.0 * (Prod(b, a) + Prod(c, a) - Prod(d, a) - Prod(e, a))
  {}

  lemma TwoTerms(a: real, b: real, c: real)
    ensures Prod(a, b + c) == Prod(a, b) + Prod(a, c) && Prod(a, b - c) == Prod(a, b) - Prod(a, c)
  {}

  lemma FirstEntry(p: Products)
    requires Consistent(p)
    ensures var (m, n) := (Homogeneous(p), Norm(p)); Prod(n, m.r00) == Minor(m.r11, m.r12, m.r21, m.r22)
  {
    hide Prod, Minor;
    DiagonalEntry(p.ww, p.xx, p.yy, p.zz, p.yz, p.xw);
  }

  lemma SecondEntry(p: Products)
    requires Consistent(p)
    ensures var (m, n) := (Homogeneous(p), Norm(p)); Prod(n, m.r01) == Minor(m.r12, m.r10, m.r22, m.r20)
  {
    hide Prod;
    FiveTerms(p.xy - p.zw, p.ww, p.xx, p.yy, p.zz);
    FiveTerms(p.xy + p.zw, p.ww, p.zz, p.xx, p.yy);
    FourTerms(p.yz, p.xw, p.xz, p.yw);
    Spread(p, p.xy, p.zw);
  }

  lemma ThirdEntry(p: Products)
    requires Consistent(p)
    ensures var (m, n) := (Homogeneous(p), Norm(p)); Prod(n, m.r02) == Minor(m.r10, m.r11, m.r20, m.r21)
  {
    hide Prod;
    FiveTerms(p.xz + p.yw, p.ww, p.xx, p.yy, p.zz);
    FiveTerms(p.xz - p.yw, p.ww, p.yy, p.xx, p.zz);
    FourTerms(p.xy, p.zw, p.yz, p.xw);
    Spread(p, p.xz, p.yw);
  }

  lemma Spread(p: Products, a: real, b: real)
    ensures Prod(p.ww, a + b) == Prod(p.ww, a) + Prod(p.ww, b) && Prod(p.ww, a - b) == Prod(p.ww, a) - Prod(p.ww, b)
    ensures Prod(p.xx, a + b) == Prod(p.xx, a) + Prod(p.xx, b) && Prod(p.xx, a - b) == Prod(p.xx, a) - Prod(p.xx, b)
    ensures Prod(p.yy, a + b) == Prod(p.yy, a) + Prod(p.yy, b) && Prod(p.yy, a - b) == Prod(p.yy, a) - Prod(p.yy, b)
    ensures Prod(p.zz, a + b) == Prod(p.zz, a) + Prod(p.zz, b) && Prod(p.zz, a - b) == Prod(p.zz, a) - Prod(p.zz, b)
  {
    hide Prod;
    TwoTerms(p.ww, a, b);
    TwoTerms(p.xx, a, b);
    TwoTerms(p.yy, a, b);
    TwoTerms(p.zz, a, b);
  }

  lemma FirstRow(p: Products)
    requires Consistent(p) && Norm(p) == 1.0
    ensures var m := MatOf(p);
      && m.r00 == Minor(m.r11, m.r12, m.r21, m.r22)
      && m.r01 == Minor(m.r12, m.r10, m.r22, m.r20)
      && m.r02 == Minor(m.r10, m.r11, m.r20, m.r21)
  {
    HomogeneousIsMat(p);
    FirstEntry(p);
    SecondEntry(p);
    ThirdEntry(p);
    hide Minor, Homogeneous, MatOf, Consistent;
  }

  lemma FirstLength(p: Products)
    requires Consistent(p)
    ensures var (m, n) := (Homogeneous(p), Norm(p)); Dot(m.r00, m.r01, m.r02, m.r00, m.r01, m.r02) == Prod(n, n)
  {
    hide Prod;
    SumAndDifference(p.ww + p.xx, p.yy + p.zz);
    PairTimesPair(p.ww, p.xx, p.yy, p.zz);
    FourTerms(p.xy, p.zw, p.xy, p.zw);
    FourTerms(p.xz, p.yw, p.xz, p.yw);
    ProdComm(p.xy, p.zw);
    ProdComm(p.xz, p.yw);
  }

  /** The components of a quaternion after y, z and x are called x, y and z. */
  function Named(q: Quat): Quat {
    Quat(q.w, q.y, q.z, q.x)
  }

  lemma NamedProducts(q: Quat)
    ensures var (p, r) := (ProductsOf(q), ProductsOf(Named(q)));
      Norm(r) == Norm(p) && MatOf(r) == Renamed(MatOf(p))
  {
    ProductsAre(q);
    ProductsAre(Named(q));
    hide Prod, ProductsOf;
  }

  /** The matrix of a unit quaternion is orthogonal and has determinant 1. */
  lemma UnitIsRotation(q: Quat)
    requires Unit(q)
    ensures IsRotation(Quat2Rot(q))
  {
    var (q1, q2) := (Named(q), Named(Named(q)));
    var p := ProductsOf(q);
    var m := MatOf(p);
    UnitFrom(q);
    assert Norm(p) == 1.0;
    NamedProducts(q);
    NamedProducts(q1);
    ProductsConsistent(q);
    ProductsConsistent(q1);
    ProductsConsistent(q2);
    hide Minor, Consistent, MatOf, ProductsOf, Dot, Times, Det, Transposed, Named, Unit, Norm, Homogeneous;
    FirstRow(p);
    FirstRow(ProductsOf(q1));
    FirstRow(ProductsOf(q2));
    FirstLength(p);
    HomogeneousIsMat(p);
    assert Prod(1.0, 1.0) == 1.0;
    CrossFrame(m);
    TimesTransposed(m);
    VolumeIsDet(m);
  }

  /** The rotation matrices are exactly the matrices of unit quaternions. */
  lemma RotationsAreUnitQuats(sqrt: real -> real, m: Mat)
    requires IsSqrt(sqrt)
    ensures IsRotation(m) <==> exists q :: Unit(q) && Quat2Rot(q) == m
  {
    hide IsRotation, IsSqrt, Unit, Quat2Rot;
    if IsRotation(m) {
      var q := RotationHasQuat(sqrt, m);
    } else if q :| Unit(q) && Quat2Rot(q) == m {
      UnitIsRotation(q);
    }
  }
}
