/**
 * Euler angles, unit quaternions and rotation matrices over the real numbers.
 * The square root and the sine and cosine are parameters, known only by the laws they obey.
 */
module Rotation {

  datatype Quat = Quat(w: real, x: real, y: real, z: real)

  datatype Mat = Mat(r00: real, r01: real, r02: real,
                     r10: real, r11: real, r12: real,
                     r20: real, r21: real, r22: real)

  datatype Euler = Euler(phi: real, theta: real, psi: real)

  /** NotANumber stands for a division by zero or the root of a negative number. */
  datatype Result<T> = Number(value: T) | NotANumber

  datatype Trig = Trig(cos: real -> real, sin: real -> real)

  ghost predicate IsSqrt(sqrt: real -> real) {
    forall a: real :: a >= 0.0 ==> sqrt(a) >= 0.0 && sqrt(a) * sqrt(a) == a
  }

  /** The unit circle and the half-angle identities. */
  ghost predicate IsTrig(t: Trig) {
    forall a: real ::
      && t.cos(a) * t.cos(a) + t.sin(a) * t.sin(a) == 1.0
      && t.cos(a) == t.cos(a / 2.0) * t.cos(a / 2.0) - t.sin(a / 2.0) * t.sin(a / 2.0)
      && t.sin(a) == 2.0 * (t.cos(a / 2.0) * t.sin(a / 2.0))
  }

  function Neg(q: Quat): Quat {
    Quat(-q.w, -q.x, -q.y, -q.z)
  }

  /** Of the two quaternions of a rotation, the one with w not negative. */
  function Positive(q: Quat): Quat {
    if q.w < 0.0 then Neg(q) else q
  }

  predicate Unit(q: Quat) {
    q.w * q.w + q.x * q.x + q.y * q.y + q.z * q.z == 1.0
  }

  // ---- the conversions ----

  /** The products of the components, from which the matrix is linear. */
  datatype Products = Products(ww: real, xx: real, yy: real, zz: real, xy: real, xz: real, yz: real,
                               xw: real, yw: real, zw: real)

  function ProductsOf(q: Quat): Products {
    Products(q.w * q.w, q.x * q.x, q.y * q.y, q.z * q.z, q.x * q.y, q.x * q.z, q.y * q.z, q.x * q.w, q.y * q.w,
             q.z * q.w)
  }

  function MatOf(p: Products): Mat {
    Mat(1.0 - 2.0 * (p.yy + p.zz), 2.0 * (p.xy - p.zw), 2.0 * (p.xz + p.yw),
        2.0 * (p.xy + p.zw), 1.0 - 2.0 * (p.xx + p.zz), 2.0 * (p.yz - p.xw),
        2.0 * (p.xz - p.yw), 2.0 * (p.yz + p.xw), 1.0 - 2.0 * (p.xx + p.yy))
  }

  function Quat2Rot(q: Quat): Mat {
    MatOf(ProductsOf(q))
  }

  function Over(a: real, d: real): real
    requires d != 0.0
  {
    a / d
  }

  function Scaled(a: real, s: real): real {
    a * s
  }

  /** Four branches, each dividing by the root of what it hopes is large. */
  function Rot2Quat(sqrt: real -> real, m: Mat): Result<Quat> {
    if m.r00 + m.r11 + m.r22 > 0.0 then ByTrace(sqrt, m)
    else if m.r00 > m.r11 && m.r00 > m.r22 then ByX(sqrt, m)
    else if m.r11 > m.r22 then ByY(sqrt, m)
    else ByZ(sqrt, m)
  }

  function ByTrace(sqrt: real -> real, m: Mat): Result<Quat> {
    var root := sqrt(m.r00 + m.r11 + m.r22 + 1.0);
    if root == 0.0 then NotANumber
    else
      var s := Over(0.5, root);
      if s == 0.0 then NotANumber
      else Number(Positive(Quat(Over(0.25, s), Scaled(m.r21 - m.r12, s), Scaled(m.r02 - m.r20, s),
                                Scaled(m.r10 - m.r01, s))))
  }

  function ByX(sqrt: real -> real, m: Mat): Result<Quat> {
    var a := 1.0 + m.r00 - m.r11 - m.r22;
    var s := 2.0 * sqrt(a);
    if a < 0.0 || s == 0.0 then NotANumber
    else Number(Positive(Quat(Over(m.r21 - m.r12, s), 0.25 * s, Over(m.r01 + m.r10, s), Over(m.r02 + m.r20, s))))
  }

  function ByY(sqrt: real -> real, m: Mat): Result<Quat> {
    var a := 1.0 + m.r11 - m.r00 - m.r22;
    var s := 2.0 * sqrt(a);
    if a < 0.0 || s == 0.0 then NotANumber
    else Number(Positive(Quat(Over(m.r02 - m.r20, s), Over(m.r01 + m.r10, s), 0.25 * s, Over(m.r12 + m.r21, s))))
  }

  function ByZ(sqrt: real -> real, m: Mat): Result<Quat> {
    var a := 1.0 + m.r22 - m.r00 - m.r11;
    var s := 2.0 * sqrt(a);
    if a < 0.0 || s == 0.0 then NotANumber
    else Number(Positive(Quat(Over(m.r10 - m.r01, s), Over(m.r02 + m.r20, s), Over(m.r12 + m.r21, s), 0.25 * s)))
  }

  /** The closed formula from the cosines and sines of the half angles. */
  function HalfAngleQuat(cx: real, sx: real, cy: real, sy: real, cz: real, sz: real): Quat {
    Quat(cx * cy * cz + sx * sy * sz, sx * cy * cz - cx * sy * sz, cx * sy * cz + sx * cy * sz,
         cx * cy * sz - sx * sy * cz)
  }

  function Euler2Quat(t: Trig, e: Euler): Quat {
    var (phi, theta, psi) := (e.phi / 2.0, e.theta / 2.0, e.psi / 2.0);
    Positive(HalfAngleQuat(t.cos(phi), t.sin(phi), t.cos(theta), t.sin(theta), t.cos(psi), t.sin(psi)))
  }

  function Times(a: Mat, b: Mat): Mat {
    Mat(a.r00 * b.r00 + a.r01 * b.r10 + a.r02 * b.r20,
        a.r00 * b.r01 + a.r01 * b.r11 + a.r02 * b.r21,
        a.r00 * b.r02 + a.r01 * b.r12 + a.r02 * b.r22,
        a.r10 * b.r00 + a.r11 * b.r10 + a.r12 * b.r20,
        a.r10 * b.r01 + a.r11 * b.r11 + a.r12 * b.r21,
        a.r10 * b.r02 + a.r11 * b.r12 + a.r12 * b.r22,
        a.r20 * b.r00 + a.r21 * b.r10 + a.r22 * b.r20,
        a.r20 * b.r01 + a.r21 * b.r11 + a.r22 * b.r21,
        a.r20 * b.r02 + a.r21 * b.r12 + a.r22 * b.r22)
  }

  function AboutX(c: real, s: real): Mat {
    Mat(1.0, 0.0, 0.0, 0.0, c, -s, 0.0, s, c)
  }

  function AboutY(c: real, s: real): Mat {
    Mat(c, 0.0, s, 0.0, 1.0, 0.0, -s, 0.0, c)
  }

  function AboutZ(c: real, s: real): Mat {
    Mat(c, -s, 0.0, s, c, 0.0, 0.0, 0.0, 1.0)
  }

  function Euler2Rot(t: Trig, e: Euler): Mat {
    Times(Times(AboutZ(t.cos(e.psi), t.sin(e.psi)), AboutY(t.cos(e.theta), t.sin(e.theta))),
          AboutX(t.cos(e.phi), t.sin(e.phi)))
  }

  // ---- from a unit quaternion to its matrix and back ----

  lemma SquaresOrder(a: real, b: real)
    requires a >= 0.0 && b >= 0.0 && a * a == b * b
    ensures a == b
  {
    if a < b {
      SquareGrows(a, b);
    } else if b < a {
      SquareGrows(b, a);
    }
  }

  lemma PositiveProduct(a: real, b: real)
    requires a > 0.0 && b > 0.0
    ensures a * b > 0.0
  {}

  lemma SquareGrows(a: real, b: real)
    requires 0.0 <= a < b
    ensures a * a < b * b
  {
    PositiveProduct(b - a, b + a);
    assert (b - a) * (b + a) == b * b - a * a;
  }

  /** A product under a name, so that a proof can treat it as one quantity. */
  function Prod(a: real, b: real): real {
    a * b
  }

  lemma ProductsAre(q: Quat)
    ensures var p := ProductsOf(q);
      && p.ww == Prod(q.w, q.w) && p.xx == Prod(q.x, q.x) && p.yy == Prod(q.y, q.y) && p.zz == Prod(q.z, q.z)
      && p.xw == Prod(q.x, q.w) && p.yw == Prod(q.y, q.w) && p.zw == Prod(q.z, q.w)
      && p.xy == Prod(q.x, q.y) && p.xz == Prod(q.x, q.z) && p.yz == Prod(q.y, q.z)
      && p.xw == Prod(q.w, q.x) && p.yw == Prod(q.w, q.y) && p.zw == Prod(q.w, q.z)
      && p.xy == Prod(q.y, q.x) && p.xz == Prod(q.z, q.x) && p.yz == Prod(q.z, q.y)
  {}

  lemma UnitSum(q: Quat)
    requires Unit(q)
    ensures var p := ProductsOf(q); p.ww + p.xx + p.yy + p.zz == 1.0
  {}

  /** The size of v. */
  function Size(v: real): real {
    if v >= 0.0 then v else -v
  }

  /** a with the sign of v. */
  function Signed(a: real, v: real): real {
    if v >= 0.0 then a else -a
  }

  lemma RootOfSquare(sqrt: real -> real, vv: real, v: real)
    requires IsSqrt(sqrt) && vv == Prod(v, v)
    ensures vv >= 0.0 && sqrt(4.0 * vv) == 2.0 * Size(v)
  {
    var m := 2.0 * Size(v);
    assert m * m == 4.0 * vv;
    assert 4.0 * vv >= 0.0;
    SquaresOrder(sqrt(4.0 * vv), m);
  }

  /** Four times a product with v, over four times the size of v. */
  lemma OverSize(a: real, v: real, av: real)
    requires v != 0.0 && av == Prod(a, v)
    ensures Over(4.0 * av, 4.0 * Size(v)) == Signed(a, v)
  {
    var d, r := 4.0 * Size(v), Signed(a, v);
    assert r * d == 4.0 * av;
    assert (r * d) / d == r;
  }

  lemma ScaledBySize(a: real, v: real, av: real, s: real)
    requires v != 0.0 && av == Prod(a, v) && Prod(s, 2.0 * Size(v)) == 0.5
    ensures Scaled(4.0 * av, s) == Signed(a, v)
  {
    var r := Signed(a, v);
    assert 4.0 * av == 2.0 * (r * (2.0 * Size(v)));
    assert (r * (2.0 * Size(v))) * s == r * (s * (2.0 * Size(v)));
  }

  lemma HalfOver(v: real)
    requires v != 0.0
    ensures var s := Over(0.5, 2.0 * Size(v));
      s != 0.0 && Prod(s, 2.0 * Size(v)) == 0.5 && Over(0.25, s) == Size(v)
  {
    var d := 2.0 * Size(v);
    var s := 0.5 / d;
    assert s * d == 0.5;
    assert Size(v) * s == 0.25;
    assert (Size(v) * s) / s == Size(v);
  }

  /** What the branches read off the matrix of a unit quaternion. */
  lemma Readings(p: Products)
    requires p.ww + p.xx + p.yy + p.zz == 1.0
    ensures var m := MatOf(p);
      && m.r00 + m.r11 + m.r22 + 1.0 == 4.0 * p.ww
      && 1.0 + m.r00 - m.r11 - m.r22 == 4.0 * p.xx
      && 1.0 + m.r11 - m.r00 - m.r22 == 4.0 * p.yy
      && 1.0 + m.r22 - m.r00 - m.r11 == 4.0 * p.zz
      && m.r21 - m.r12 == 4.0 * p.xw && m.r02 - m.r20 == 4.0 * p.yw && m.r10 - m.r01 == 4.0 * p.zw
      && m.r01 + m.r10 == 4.0 * p.xy && m.r02 + m.r20 == 4.0 * p.xz && m.r12 + m.r21 == 4.0 * p.yz
      && (m.r00 > m.r11 <==> p.xx > p.yy) && (m.r00 > m.r22 <==> p.xx > p.zz) && (m.r11 > m.r22 <==> p.yy > p.zz)
  {}

  /** A quaternion with the sign of one of its components, made positive: the original or its negative. */
  lemma SignedBack(q: Quat, v: real)
    ensures var r := Positive(Quat(Signed(q.w, v), Signed(q.x, v), Signed(q.y, v), Signed(q.z, v)));
      (r == q || r == Neg(q)) && r.w >= 0.0 && (q.w > 0.0 ==> r == q)
  {}

  ghost predicate Back(r: Result<Quat>, q: Quat) {
    r.Number? && (r.value == q || r.value == Neg(q)) && r.value.w >= 0.0 && (q.w > 0.0 ==> r.value == q)
  }

  lemma SquareOf(v: real)
    ensures v * v >= 0.0
    ensures v != 0.0 ==> v * v > 0.0
    ensures v == 0.0 ==> v * v == 0.0
  {
    if v < 0.0 {
      NegativeProduct(v, v);
    } else if v > 0.0 {
      PositiveProduct(v, v);
    }
  }

  lemma NegativeProduct(a: real, b: real)
    requires a < 0.0 && b < 0.0
    ensures a * b > 0.0
  {}

  lemma CoreTrace(sqrt: real -> real, q: Quat, p: Products)
    requires p.ww + p.xx + p.yy + p.zz == 1.0 && q.w != 0.0 && p.ww >= 0.0 && sqrt(4.0 * p.ww) == 2.0 * Size(q.w)
    requires Over(0.5, 2.0 * Size(q.w)) != 0.0 && Over(0.25, Over(0.5, 2.0 * Size(q.w))) == Size(q.w)
    requires var s := Over(0.5, 2.0 * Size(q.w));
      && Scaled(4.0 * p.xw, s) == Signed(q.x, q.w)
      && Scaled(4.0 * p.yw, s) == Signed(q.y, q.w)
      && Scaled(4.0 * p.zw, s) == Signed(q.z, q.w)
    ensures Back(ByTrace(sqrt, MatOf(p)), q)
  {
    Readings(p);
    hide MatOf, Over, Scaled, Positive;
    SignedBack(q, q.w);
  }

  lemma FromTrace(sqrt: real -> real, q: Quat)
    requires IsSqrt(sqrt) && Unit(q) && q.w != 0.0
    ensures Back(ByTrace(sqrt, Quat2Rot(q)), q)
  {
    ProductsAre(q);
    UnitSum(q);
    hide ProductsOf, Prod, Unit, Back, ByTrace, MatOf, Over, Scaled, Size, Signed, IsSqrt;
    var p := ProductsOf(q);
    RootOfSquare(sqrt, p.ww, q.w);
    HalfOver(q.w);
    var s := Over(0.5, 2.0 * Size(q.w));
    ScaledBySize(q.x, q.w, p.xw, s);
    ScaledBySize(q.y, q.w, p.yw, s);
    ScaledBySize(q.z, q.w, p.zw, s);
    CoreTrace(sqrt, q, p);
  }

  lemma CoreX(sqrt: real -> real, q: Quat, p: Products)
    requires p.ww + p.xx + p.yy + p.zz == 1.0 && q.x != 0.0 && p.xx >= 0.0 && sqrt(4.0 * p.xx) == 2.0 * Size(q.x)
    requires var s := 4.0 * Size(q.x);
      && Over(4.0 * p.xw, s) == Signed(q.w, q.x)
      && Over(4.0 * p.xy, s) == Signed(q.y, q.x)
      && Over(4.0 * p.xz, s) == Signed(q.z, q.x)
    ensures Back(ByX(sqrt, MatOf(p)), q)
  {
    Readings(p);
    hide MatOf, Over, Scaled, Positive;
    SignedBack(q, q.x);
  }

  lemma FromX(sqrt: real -> real, q: Quat)
    requires IsSqrt(sqrt) && Unit(q) && q.x != 0.0
    ensures Back(ByX(sqrt, Quat2Rot(q)), q)
  {
    ProductsAre(q);
    UnitSum(q);
    hide ProductsOf, Prod, Unit, Back, ByX, MatOf, Over, Scaled, Size, Signed, IsSqrt;
    var p := ProductsOf(q);
    RootOfSquare(sqrt, p.xx, q.x);
    OverSize(q.w, q.x, p.xw);
    OverSize(q.y, q.x, p.xy);
    OverSize(q.z, q.x, p.xz);
    CoreX(sqrt, q, p);
  }

  lemma CoreY(sqrt: real -> real, q: Quat, p: Products)
    requires p.ww + p.xx + p.yy + p.zz == 1.0 && q.y != 0.0 && p.yy >= 0.0 && sqrt(4.0 * p.yy) == 2.0 * Size(q.y)
    requires var s := 4.0 * Size(q.y);
      && Over(4.0 * p.yw, s) == Signed(q.w, q.y)
      && Over(4.0 * p.xy, s) == Signed(q.x, q.y)
      && Over(4.0 * p.yz, s) == Signed(q.z, q.y)
    ensures Back(ByY(sqrt, MatOf(p)), q)
  {
    Readings(p);
    hide MatOf, Over, Scaled, Positive;
    SignedBack(q, q.y);
  }

  lemma FromY(sqrt: real -> real, q: Quat)
    requires IsSqrt(sqrt) && Unit(q) && q.y != 0.0
    ensures Back(ByY(sqrt, Quat2Rot(q)), q)
  {
    ProductsAre(q);
    UnitSum(q);
    hide ProductsOf, Prod, Unit, Back, ByY, MatOf, Over, Scaled, Size, Signed, IsSqrt;
    var p := ProductsOf(q);
    RootOfSquare(sqrt, p.yy, q.y);
    OverSize(q.w, q.y, p.yw);
    OverSize(q.x, q.y, p.xy);
    OverSize(q.z, q.y, p.yz);
    CoreY(sqrt, q, p);
  }

  lemma CoreZ(sqrt: real -> real, q: Quat, p: Products)
    requires p.ww + p.xx + p.yy + p.zz == 1.0 && q.z != 0.0 && p.zz >= 0.0 && sqrt(4.0 * p.zz) == 2.0 * Size(q.z)
    requires var s := 4.0 * Size(q.z);
      && Over(4.0 * p.zw, s) == Signed(q.w, q.z)
      && Over(4.0 * p.xz, s) == Signed(q.x, q.z)
      && Over(4.0 * p.yz, s) == Signed(q.y, q.z)
    ensures Back(ByZ(sqrt, MatOf(p)), q)
  {
    Readings(p);
    hide MatOf, Over, Scaled, Positive;
    SignedBack(q, q.z);
  }

  lemma FromZ(sqrt: real -> real, q: Quat)
    requires IsSqrt(sqrt) && Unit(q) && q.z != 0.0
    ensures Back(ByZ(sqrt, Quat2Rot(q)), q)
  {
    ProductsAre(q);
    UnitSum(q);
    hide ProductsOf, Prod, Unit, Back, ByZ, MatOf, Over, Scaled, Size, Signed, IsSqrt;
    var p := ProductsOf(q);
    RootOfSquare(sqrt, p.zz, q.z);
    OverSize(q.w, q.z, p.zw);
    OverSize(q.x, q.z, p.xz);
    OverSize(q.y, q.z, p.yz);
    CoreZ(sqrt, q, p);
  }

  /** The component a branch divides by is not 0: the last one because w is at most 1/2 and x not the largest. */
  lemma BranchesAreSafe(p: Products)
    requires p.ww + p.xx + p.yy + p.zz == 1.0 && p.ww >= 0.0 && p.xx >= 0.0 && p.yy >= 0.0 && p.zz >= 0.0
    ensures var m := MatOf(p);
      if m.r00 + m.r11 + m.r22 > 0.0 then p.ww > 0.0
      else if m.r00 > m.r11 && m.r00 > m.r22 then p.xx > 0.0
      else if m.r11 > m.r22 then p.yy > 0.0
      else p.zz > 0.0
  {}

  /** Every unit quaternion comes back from its matrix as itself or its negative, whichever has w not negative, and no
      branch divides by zero or takes the root of a negative number. */
  lemma QuatRoundTrip(sqrt: real -> real, q: Quat)
    requires IsSqrt(sqrt) && Unit(q)
    ensures var r := Rot2Quat(sqrt, Quat2Rot(q));
      r.Number? && (r.value == q || r.value == Neg(q)) && r.value.w >= 0.0 && (q.w > 0.0 ==> r.value == q)
  {
    var p := ProductsOf(q);
    SquareOf(q.w);
    SquareOf(q.x);
    SquareOf(q.y);
    SquareOf(q.z);
    hide IsSqrt, ByTrace, ByX, ByY, ByZ;
    BranchesAreSafe(p);
    var m := Quat2Rot(q);
    hide Quat2Rot, MatOf;
    if m.r00 + m.r11 + m.r22 > 0.0 {
      FromTrace(sqrt, q);
    } else if m.r00 > m.r11 && m.r00 > m.r22 {
      FromX(sqrt, q);
    } else if m.r11 > m.r22 {
      FromY(sqrt, q);
    } else {
      FromZ(sqrt, q);
    }
  }

  // ---- from Euler angles to both ----

  /** A rotation about one axis by twice the angle whose cosine and sine are c and s, multiplied on the right. */
  function ThenX(q: Quat, c: real, s: real): Quat {
    Quat(q.w * c - q.x * s, q.x * c + q.w * s, q.y * c + q.z * s, q.z * c - q.y * s)
  }

  function ThenY(q: Quat, c: real, s: real): Quat {
    Quat(q.w * c - q.y * s, q.x * c - q.z * s, q.y * c + q.w * s, q.z * c + q.x * s)
  }

  /** A product of two such components, from the products of the old components and of c and s. */
  function Mixed(pp: real, pq: real, qq: real, cc: real, cs: real, ss: real): real {
    pp * cc + pq * cs + qq * ss
  }

  lemma MixedPlus(a: real, b: real, d: real, e: real, c: real, s: real, pp: real, pq: real, qq: real, u: real, v: real)
    requires pp == Prod(a, d) && pq == Prod(a, e) + Prod(b, d) && qq == Prod(b, e)
    requires u == Prod(a, c) + Prod(b, s) && v == Prod(d, c) + Prod(e, s)
    ensures Prod(u, v) == Mixed(pp, pq, qq, Prod(c, c), Prod(c, s), Prod(s, s))
  {}

  lemma MixedMinus(a: real, b: real, d: real, e: real, c: real, s: real, pp: real, pq: real, qq: real, u: real, v: real)
    requires pp == Prod(a, d) && pq == -Prod(a, e) - Prod(b, d) && qq == Prod(b, e)
    requires u == Prod(a, c) - Prod(b, s) && v == Prod(d, c) - Prod(e, s)
    ensures Prod(u, v) == Mixed(pp, pq, qq, Prod(c, c), Prod(c, s), Prod(s, s))
  {}

  lemma MixedBoth(a: real, b: real, d: real, e: real, c: real, s: real, pp: real, pq: real, qq: real, u: real, v: real)
    requires pp == Prod(a, d) && pq == Prod(b, d) - Prod(a, e) && qq == -Prod(b, e)
    requires u == Prod(a, c) + Prod(b, s) && v == Prod(d, c) - Prod(e, s)
    ensures Prod(u, v) == Mixed(pp, pq, qq, Prod(c, c), Prod(c, s), Prod(s, s))
  {}

  function MixX(p: Products, cc: real, cs: real, ss: real): Products {
    Products(Mixed(p.ww, -2.0 * p.xw, p.xx, cc, cs, ss),
             Mixed(p.xx, 2.0 * p.xw, p.ww, cc, cs, ss),
             Mixed(p.yy, 2.0 * p.yz, p.zz, cc, cs, ss),
             Mixed(p.zz, -2.0 * p.yz, p.yy, cc, cs, ss),
             Mixed(p.xy, p.xz + p.yw, p.zw, cc, cs, ss),
             Mixed(p.xz, -p.xy + p.zw, -p.yw, cc, cs, ss),
             Mixed(p.yz, -p.yy + p.zz, -p.yz, cc, cs, ss),
             Mixed(p.xw, -p.xx + p.ww, -p.xw, cc, cs, ss),
             Mixed(p.yw, -p.xy + p.zw, -p.xz, cc, cs, ss),
             Mixed(p.zw, -p.xz - p.yw, p.xy, cc, cs, ss))
  }

  function MixY(p: Products, cc: real, cs: real, ss: real): Products {
    Products(Mixed(p.ww, -2.0 * p.yw, p.yy, cc, cs, ss),
             Mixed(p.xx, -2.0 * p.xz, p.zz, cc, cs, ss),
             Mixed(p.yy, 2.0 * p.yw, p.ww, cc, cs, ss),
             Mixed(p.zz, 2.0 * p.xz, p.xx, cc, cs, ss),
             Mixed(p.xy, p.xw - p.yz, -p.zw, cc, cs, ss),
             Mixed(p.xz, p.xx - p.zz, -p.xz, cc, cs, ss),
             Mixed(p.yz, p.xy + p.zw, p.xw, cc, cs, ss),
             Mixed(p.xw, -p.xy - p.zw, p.yz, cc, cs, ss),
             Mixed(p.yw, -p.yy + p.ww, -p.yw, cc, cs, ss),
             Mixed(p.zw, -p.yz + p.xw, -p.xy, cc, cs, ss))
  }

  lemma PartsThenX(q: Quat, c: real, s: real)
    ensures var r := ThenX(q, c, s);
      && r.w == Prod(q.w, c) - Prod(q.x, s)
      && r.x == Prod(q.x, c) + Prod(q.w, s)
      && r.y == Prod(q.y, c) + Prod(q.z, s)
      && r.z == Prod(q.z, c) - Prod(q.y, s)
  {}

  lemma ProductsThenX(q: Quat, c: real, s: real)
    ensures ProductsOf(ThenX(q, c, s)) == MixX(ProductsOf(q), Prod(c, c), Prod(c, s), Prod(s, s))
  {
    hide Mixed, Prod, ProductsOf, ThenX;
    var p, r := ProductsOf(q), ThenX(q, c, s);
    ProductsAre(q);
    ProductsAre(r);
    PartsThenX(q, c, s);
    MixedMinus(q.w, q.x, q.w, q.x, c, s, p.ww, -2.0 * p.xw, p.xx, r.w, r.w);
    MixedPlus(q.x, q.w, q.x, q.w, c, s, p.xx, 2.0 * p.xw, p.ww, r.x, r.x);
    MixedPlus(q.y, q.z, q.y, q.z, c, s, p.yy, 2.0 * p.yz, p.zz, r.y, r.y);
    MixedMinus(q.z, q.y, q.z, q.y, c, s, p.zz, -2.0 * p.yz, p.yy, r.z, r.z);
    MixedPlus(q.x, q.w, q.y, q.z, c, s, p.xy, p.xz + p.yw, p.zw, r.x, r.y);
    MixedBoth(q.x, q.w, q.z, q.y, c, s, p.xz, -p.xy + p.zw, -p.yw, r.x, r.z);
    MixedBoth(q.y, q.z, q.z, q.y, c, s, p.yz, -p.yy + p.zz, -p.yz, r.y, r.z);
    MixedBoth(q.x, q.w, q.w, q.x, c, s, p.xw, -p.xx + p.ww, -p.xw, r.x, r.w);
    MixedBoth(q.y, q.z, q.w, q.x, c, s, p.yw, -p.xy + p.zw, -p.xz, r.y, r.w);
    MixedMinus(q.z, q.y, q.w, q.x, c, s, p.zw, -p.xz - p.yw, p.xy, r.z, r.w);
  }

  lemma PartsThenY(q: Quat, c: real, s: real)
    ensures var r := ThenY(q, c, s);
      && r.w == Prod(q.w, c) - Prod(q.y, s)
      && r.x == Prod(q.x, c) - Prod(q.z, s)
      && r.y == Prod(q.y, c) + Prod(q.w, s)
      && r.z == Prod(q.z, c) + Prod(q.x, s)
  {}

  lemma ProductsThenY(q: Quat, c: real, s: real)
    ensures ProductsOf(ThenY(q, c, s)) == MixY(ProductsOf(q), Prod(c, c), Prod(c, s), Prod(s, s))
  {
    hide Mixed, Prod, ProductsOf, ThenY;
    var p, r := ProductsOf(q), ThenY(q, c, s);
    ProductsAre(q);
    ProductsAre(r);
    PartsThenY(q, c, s);
    MixedMinus(q.w, q.y, q.w, q.y, c, s, p.ww, -2.0 * p.yw, p.yy, r.w, r.w);
    MixedMinus(q.x, q.z, q.x, q.z, c, s, p.xx, -2.0 * p.xz, p.zz, r.x, r.x);
    MixedPlus(q.y, q.w, q.y, q.w, c, s, p.yy, 2.0 * p.yw, p.ww, r.y, r.y);
    MixedPlus(q.z, q.x, q.z, q.x, c, s, p.zz, 2.0 * p.xz, p.xx, r.z, r.z);
    MixedBoth(q.y, q.w, q.x, q.z, c, s, p.xy, p.xw - p.yz, -p.zw, r.y, r.x);
    MixedBoth(q.z, q.x, q.x, q.z, c, s, p.xz, p.xx - p.zz, -p.xz, r.z, r.x);
    MixedPlus(q.y, q.w, q.z, q.x, c, s, p.yz, p.xy + p.zw, p.xw, r.y, r.z);
    MixedMinus(q.x, q.z, q.w, q.y, c, s, p.xw, -p.xy - p.zw, p.yz, r.x, r.w);
    MixedBoth(q.y, q.w, q.w, q.y, c, s, p.yw, -p.yy + p.ww, -p.yw, r.y, r.w);
    MixedBoth(q.z, q.x, q.w, q.y, c, s, p.zw, -p.yz + p.xw, -p.xy, r.z, r.w);
  }

  predicate SumIsOne(p: Products) {
    p.ww + p.xx + p.yy + p.zz == 1.0
  }

  lemma MixedSum(a: real, k: real, b: real, a2: real, k2: real, b2: real, cc: real, cs: real, ss: real)
    ensures Mixed(a, k, b, cc, cs, ss) + Mixed(a2, k2, b2, cc, cs, ss) == Mixed(a + a2, k + k2, b + b2, cc, cs, ss)
    ensures Mixed(a, k, b, cc, cs, ss) - Mixed(a2, k2, b2, cc, cs, ss) == Mixed(a - a2, k - k2, b - b2, cc, cs, ss)
  {}

  /** An entry that the turn leaves alone. */
  lemma Same(a: real, cc: real, cs: real, ss: real)
    requires cc + ss == 1.0
    ensures Mixed(a, 0.0, a, cc, cs, ss) == a
  {
    assert a * cc + a * ss == a * (cc + ss);
  }

  /** An entry off the diagonal turns with its neighbour. */
  lemma OffSum(a: real, k: real, b: real, a2: real, k2: real, b2: real, cc: real, cs: real, ss: real, u: real, v: real)
    requires u == 2.0 * (a + a2) == -2.0 * (b + b2) && v == k + k2
    ensures 2.0 * (Mixed(a, k, b, cc, cs, ss) + Mixed(a2, k2, b2, cc, cs, ss)) == Prod(u, cc - ss) + Prod(v, 2.0 * cs)
  {
    Off(a + a2, k + k2, cc, cs, ss);
    MixedSum(a, k, b, a2, k2, b2, cc, cs, ss);
  }

  lemma OffDifference(a: real, k: real, b: real, a2: real, k2: real, b2: real, cc: real, cs: real, ss: real, u: real,
                      v: real)
    requires u == 2.0 * (a - a2) == -2.0 * (b - b2) && v == k - k2
    ensures 2.0 * (Mixed(a, k, b, cc, cs, ss) - Mixed(a2, k2, b2, cc, cs, ss)) == Prod(u, cc - ss) + Prod(v, 2.0 * cs)
  {
    Off(a - a2, k - k2, cc, cs, ss);
    MixedSum(a, k, b, a2, k2, b2, cc, cs, ss);
  }

  /** So does an entry on the diagonal. */
  lemma Diagonal(a: real, k: real, b: real, a2: real, k2: real, b2: real, cc: real, cs: real, ss: real, u: real,
                 v: real)
    requires cc + ss == 1.0 && a + a2 + b + b2 == 1.0 && u == 1.0 - 2.0 * (a + a2) && v == -(k + k2)
    ensures 1.0 - 2.0 * (Mixed(a, k, b, cc, cs, ss) + Mixed(a2, k2, b2, cc, cs, ss)) ==
              Prod(u, cc - ss) + Prod(v, 2.0 * cs)
  {
    OnDiagonal(a + a2, k + k2, cc, cs, ss);
    MixedSum(a, k, b, a2, k2, b2, cc, cs, ss);
  }

  lemma Off(a: real, k: real, cc: real, cs: real, ss: real)
    ensures 2.0 * Mixed(a, k, -a, cc, cs, ss) == Prod(2.0 * a, cc - ss) + Prod(k, 2.0 * cs)
  {}

  lemma OnDiagonal(a: real, k: real, cc: real, cs: real, ss: real)
    requires cc + ss == 1.0
    ensures 1.0 - 2.0 * Mixed(a, k, 1.0 - a, cc, cs, ss) == Prod(1.0 - 2.0 * a, cc - ss) + Prod(-k, 2.0 * cs)
  {}

  lemma TurnedX(p: Products, cc: real, cs: real, ss: real)
    requires SumIsOne(p) && cc + ss == 1.0
    ensures var (m, after) := (MatOf(p), MatOf(MixX(p, cc, cs, ss)));
      && after.r01 == Prod(m.r01, cc - ss) + Prod(m.r02, 2.0 * cs)
      && after.r02 == Prod(m.r02, cc - ss) + Prod(-m.r01, 2.0 * cs)
      && after.r11 == Prod(m.r11, cc - ss) + Prod(m.r12, 2.0 * cs)
      && after.r12 == Prod(m.r12, cc - ss) + Prod(-m.r11, 2.0 * cs)
      && after.r21 == Prod(m.r21, cc - ss) + Prod(m.r22, 2.0 * cs)
      && after.r22 == Prod(m.r22, cc - ss) + Prod(-m.r21, 2.0 * cs)
  {
    hide Mixed, Prod;
    var m := MatOf(p);
    OffDifference(p.xy, p.xz + p.yw, p.zw, p.zw, -p.xz - p.yw, p.xy, cc, cs, ss, m.r01, m.r02);
    OffSum(p.xz, -p.xy + p.zw, -p.yw, p.yw, -p.xy + p.zw, -p.xz, cc, cs, ss, m.r02, -m.r01);
    Diagonal(p.xx, 2.0 * p.xw, p.ww, p.zz, -2.0 * p.yz, p.yy, cc, cs, ss, m.r11, m.r12);
    OffDifference(p.yz, -p.yy + p.zz, -p.yz, p.xw, -p.xx + p.ww, -p.xw, cc, cs, ss, m.r12, -m.r11);
    OffSum(p.yz, -p.yy + p.zz, -p.yz, p.xw, -p.xx + p.ww, -p.xw, cc, cs, ss, m.r21, m.r22);
    Diagonal(p.xx, 2.0 * p.xw, p.ww, p.yy, 2.0 * p.yz, p.zz, cc, cs, ss, m.r22, -m.r21);
  }

  /** Turning the quaternion about x turns its matrix about x. */
  lemma MatThenX(p: Products, cc: real, cs: real, ss: real)
    requires SumIsOne(p) && cc + ss == 1.0
    ensures SumIsOne(MixX(p, cc, cs, ss))
    ensures MatOf(MixX(p, cc, cs, ss)) == Times(MatOf(p), AboutX(cc - ss, 2.0 * cs))
  {
    UnturnedX(p, cc, cs, ss);
    TurnedX(p, cc, cs, ss);
    TimesX(MatOf(p), cc - ss, 2.0 * cs);
    hide Mixed, Times, Prod;
  }

  lemma TimesX(m: Mat, c: real, s: real)
    ensures Times(m, AboutX(c, s)) ==
              Mat(m.r00, Prod(m.r01, c) + Prod(m.r02, s), Prod(m.r02, c) + Prod(-m.r01, s),
                  m.r10, Prod(m.r11, c) + Prod(m.r12, s), Prod(m.r12, c) + Prod(-m.r11, s),
                  m.r20, Prod(m.r21, c) + Prod(m.r22, s), Prod(m.r22, c) + Prod(-m.r21, s))
  {}

  lemma UnturnedX(p: Products, cc: real, cs: real, ss: real)
    requires cc + ss == 1.0
    ensures var m := MixX(p, cc, cs, ss);
      && m.ww + m.xx == p.ww + p.xx && m.yy + m.zz == p.yy + p.zz
      && m.xy + m.zw == p.xy + p.zw && m.xz - m.yw == p.xz - p.yw
  {
    hide Mixed;
    MixedSum(p.ww, -2.0 * p.xw, p.xx, p.xx, 2.0 * p.xw, p.ww, cc, cs, ss);
    MixedSum(p.yy, 2.0 * p.yz, p.zz, p.zz, -2.0 * p.yz, p.yy, cc, cs, ss);
    MixedSum(p.xy, p.xz + p.yw, p.zw, p.zw, -p.xz - p.yw, p.xy, cc, cs, ss);
    MixedSum(p.xz, -p.xy + p.zw, -p.yw, p.yw, -p.xy + p.zw, -p.xz, cc, cs, ss);
    Same(p.ww + p.xx, cc, cs, ss);
    Same(p.yy + p.zz, cc, cs, ss);
    Same(p.xy + p.zw, cc, cs, ss);
    Same(p.xz - p.yw, cc, cs, ss);
  }

  lemma TurnedY(p: Products, cc: real, cs: real, ss: real)
    requires SumIsOne(p) && cc + ss == 1.0
    ensures var (m, after) := (MatOf(p), MatOf(MixY(p, cc, cs, ss)));
      && after.r00 == Prod(m.r00, cc - ss) + Prod(-m.r02, 2.0 * cs)
      && after.r02 == Prod(m.r02, cc - ss) + Prod(m.r00, 2.0 * cs)
      && after.r10 == Prod(m.r10, cc - ss) + Prod(-m.r12, 2.0 * cs)
      && after.r12 == Prod(m.r12, cc - ss) + Prod(m.r10, 2.0 * cs)
      && after.r20 == Prod(m.r20, cc - ss) + Prod(-m.r22, 2.0 * cs)
      && after.r22 == Prod(m.r22, cc - ss) + Prod(m.r20, 2.0 * cs)
  {
    hide Mixed, Prod;
    var m := MatOf(p);
    Diagonal(p.yy, 2.0 * p.yw, p.ww, p.zz, 2.0 * p.xz, p.xx, cc, cs, ss, m.r00, -m.r02);
    OffSum(p.xz, p.xx - p.zz, -p.xz, p.yw, -p.yy + p.ww, -p.yw, cc, cs, ss, m.r02, m.r00);
    OffSum(p.xy, p.xw - p.yz, -p.zw, p.zw, -p.yz + p.xw, -p.xy, cc, cs, ss, m.r10, -m.r12);
    OffDifference(p.yz, p.xy + p.zw, p.xw, p.xw, -p.xy - p.zw, p.yz, cc, cs, ss, m.r12, m.r10);
    OffDifference(p.xz, p.xx - p.zz, -p.xz, p.yw, -p.yy + p.ww, -p.yw, cc, cs, ss, m.r20, -m.r22);
    Diagonal(p.xx, -2.0 * p.xz, p.zz, p.yy, 2.0 * p.yw, p.ww, cc, cs, ss, m.r22, m.r20);
  }

  /** Turning the quaternion about y turns its matrix about y. */
  lemma MatThenY(p: Products, cc: real, cs: real, ss: real)
    requires SumIsOne(p) && cc + ss == 1.0
    ensures SumIsOne(MixY(p, cc, cs, ss))
    ensures MatOf(MixY(p, cc, cs, ss)) == Times(MatOf(p), AboutY(cc - ss, 2.0 * cs))
  {
    UnturnedY(p, cc, cs, ss);
    TurnedY(p, cc, cs, ss);
    TimesY(MatOf(p), cc - ss, 2.0 * cs);
    hide Mixed, Times, Prod;
  }

  lemma TimesY(m: Mat, c: real, s: real)
    ensures Times(m, AboutY(c, s)) ==
              Mat(Prod(m.r00, c) + Prod(-m.r02, s), m.r01, Prod(m.r02, c) + Prod(m.r00, s),
                  Prod(m.r10, c) + Prod(-m.r12, s), m.r11, Prod(m.r12, c) + Prod(m.r10, s),
                  Prod(m.r20, c) + Prod(-m.r22, s), m.r21, Prod(m.r22, c) + Prod(m.r20, s))
  {}

  lemma UnturnedY(p: Products, cc: real, cs: real, ss: real)
    requires cc + ss == 1.0
    ensures var m := MixY(p, cc, cs, ss);
      && m.ww + m.yy == p.ww + p.yy && m.xx + m.zz == p.xx + p.zz
      && m.xy - m.zw == p.xy - p.zw && m.yz + m.xw == p.yz + p.xw
  {
    hide Mixed;
    MixedSum(p.ww, -2.0 * p.yw, p.yy, p.yy, 2.0 * p.yw, p.ww, cc, cs, ss);
    MixedSum(p.xx, -2.0 * p.xz, p.zz, p.zz, 2.0 * p.xz, p.xx, cc, cs, ss);
    MixedSum(p.xy, p.xw - p.yz, -p.zw, p.zw, -p.yz + p.xw, -p.xy, cc, cs, ss);
    MixedSum(p.yz, p.xy + p.zw, p.xw, p.xw, -p.xy - p.zw, p.yz, cc, cs, ss);
    Same(p.ww + p.yy, cc, cs, ss);
    Same(p.xx + p.zz, cc, cs, ss);
    Same(p.xy - p.zw, cc, cs, ss);
    Same(p.yz + p.xw, cc, cs, ss);
  }

  lemma StartZ(c: real, s: real)
    requires Prod(c, c) + Prod(s, s) == 1.0
    ensures var p := ProductsOf(Quat(c, 0.0, 0.0, s));
      SumIsOne(p) && MatOf(p) == AboutZ(Prod(c, c) - Prod(s, s), 2.0 * Prod(c, s))
  {
    assert ProductsOf(Quat(c, 0.0, 0.0, s)) == Products(Prod(c, c), 0.0, 0.0, Prod(s, s), 0.0, 0.0, 0.0, 0.0, 0.0,
                                                        Prod(c, s));
  }

  function ThreeTurns(cx: real, sx: real, cy: real, sy: real, cz: real, sz: real): Quat {
    ThenX(ThenY(Quat(cz, 0.0, 0.0, sz), cy, sy), cx, sx)
  }

  /** The closed formula is the product of the three axis rotations. */
  lemma EulerProduct(cx: real, sx: real, cy: real, sy: real, cz: real, sz: real)
    ensures ThreeTurns(cx, sx, cy, sy, cz, sz) == HalfAngleQuat(cx, sx, cy, sy, cz, sz)
  {
    var two := Quat(cz * cy, -(sz * sy), cz * sy, sz * cy);
    assert ThenY(Quat(cz, 0.0, 0.0, sz), cy, sy) == two;
    LastTurn(cx, sx, cy, sy, cz, sz);
    hide ThenX, ThenY, HalfAngleQuat;
  }

  lemma LastTurn(cx: real, sx: real, cy: real, sy: real, cz: real, sz: real)
    ensures ThenX(Quat(cz * cy, -(sz * sy), cz * sy, sz * cy), cx, sx) == HalfAngleQuat(cx, sx, cy, sy, cz, sz)
  {}

  lemma HalfAngle(t: Trig, a: real)
    requires IsTrig(t)
    ensures var (c, s) := (t.cos(a / 2.0), t.sin(a / 2.0));
      && Prod(c, c) + Prod(s, s) == 1.0
      && t.cos(a) == Prod(c, c) - Prod(s, s) && t.sin(a) == 2.0 * Prod(c, s)
  {
    var h := a / 2.0;
    assert t.cos(h) * t.cos(h) + t.sin(h) * t.sin(h) == 1.0;
  }

  lemma PositiveSameRotation(q: Quat)
    ensures ProductsOf(Positive(q)) == ProductsOf(q) && Positive(q).w >= 0.0
  {}

  lemma UnitFromSum(q: Quat)
    requires SumIsOne(ProductsOf(q))
    ensures Unit(q)
  {}

  lemma ThreeTurnsMatrix(cx: real, sx: real, cy: real, sy: real, cz: real, sz: real)
    requires Prod(cx, cx) + Prod(sx, sx) == 1.0 && Prod(cy, cy) + Prod(sy, sy) == 1.0
    requires Prod(cz, cz) + Prod(sz, sz) == 1.0
    ensures var p := ProductsOf(ThreeTurns(cx, sx, cy, sy, cz, sz));
      && SumIsOne(p)
      && MatOf(p) == Times(Times(AboutZ(Prod(cz, cz) - Prod(sz, sz), 2.0 * Prod(cz, sz)),
                                 AboutY(Prod(cy, cy) - Prod(sy, sy), 2.0 * Prod(cy, sy))),
                           AboutX(Prod(cx, cx) - Prod(sx, sx), 2.0 * Prod(cx, sx)))
  {
    hide Prod, ProductsOf, MatOf, Times, AboutX, AboutY, AboutZ, MixX, MixY, ThenX, ThenY, SumIsOne;
    var q0 := Quat(cz, 0.0, 0.0, sz);
    var q1 := ThenY(q0, cy, sy);
    StartZ(cz, sz);
    ProductsThenY(q0, cy, sy);
    MatThenY(ProductsOf(q0), Prod(cy, cy), Prod(cy, sy), Prod(sy, sy));
    ProductsThenX(q1, cx, sx);
    MatThenX(ProductsOf(q1), Prod(cx, cx), Prod(cx, sx), Prod(sx, sx));
  }

  /** For all angles, the quaternion of an Euler triple is a unit quaternion with w not negative, and its matrix is the
      product of the three axis rotations. */
  lemma EulerAgrees(t: Trig, e: Euler)
    requires IsTrig(t)
    ensures Unit(Euler2Quat(t, e)) && Euler2Quat(t, e).w >= 0.0
    ensures Quat2Rot(Euler2Quat(t, e)) == Euler2Rot(t, e)
  {
    hide IsTrig, Prod, ProductsOf, MatOf, Times, AboutX, AboutY, AboutZ, SumIsOne, Positive, Unit, HalfAngleQuat;
    hide ThreeTurns;
    var (cx, sx) := (t.cos(e.phi / 2.0), t.sin(e.phi / 2.0));
    var (cy, sy) := (t.cos(e.theta / 2.0), t.sin(e.theta / 2.0));
    var (cz, sz) := (t.cos(e.psi / 2.0), t.sin(e.psi / 2.0));
    HalfAngle(t, e.phi);
    HalfAngle(t, e.theta);
    HalfAngle(t, e.psi);
    EulerProduct(cx, sx, cy, sy, cz, sz);
    ThreeTurnsMatrix(cx, sx, cy, sy, cz, sz);
    PositiveSameRotation(ThreeTurns(cx, sx, cy, sy, cz, sz));
    UnitFromSum(Euler2Quat(t, e));
  }

  /** So going from the Euler matrix to a quaternion gives the Euler quaternion, up to the sign that w == 0 leaves
      open. */
  lemma EulerMatrixToQuat(sqrt: real -> real, t: Trig, e: Euler)
    requires IsSqrt(sqrt) && IsTrig(t)
    ensures var r, q := Rot2Quat(sqrt, Euler2Rot(t, e)), Euler2Quat(t, e);
      r.Number? && (r.value == q || (q.w == 0.0 && r.value == Neg(q)))
  {
    hide IsSqrt, IsTrig, Rot2Quat, Quat2Rot, Euler2Rot, Euler2Quat, Unit;
    EulerAgrees(t, e);
    QuatRoundTrip(sqrt, Euler2Quat(t, e));
  }

  /** A quaternion and its negative are one rotation. */
  lemma NegSameRotation(q: Quat)
    ensures Quat2Rot(Neg(q)) == Quat2Rot(q)
  {
    assert ProductsOf(Neg(q)) == ProductsOf(q);
    hide ProductsOf, MatOf;
  }
}
