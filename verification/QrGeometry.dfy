/** Which modules of a symbol are function modules, what they show, and how many are left for data. */
module QrGeometry {
  import opened Bits
  import opened Gf256
  import opened Options
  import opened QrData

  datatype Cell = Cell(x: int, y: int)

  function Size(version: Version): nat {
    4 * version + 17
  }

  function Abs(a: int): nat {
    if a < 0 then -a else a
  }

  function Max(a: int, b: int): int {
    if a >= b then a else b
  }

  predicate Inside(size: nat, c: Cell) {
    0 <= c.x < size && 0 <= c.y < size
  }

  // ---- alignment centres ----

  function AlignmentCount(version: Version): nat {
    if version == 1 then 0 else version / 7 + 2
  }

  function AlignmentStep(version: Version): nat
    requires version >= 2
  {
    var count := AlignmentCount(version);
    (version * 4 + count * 2 + 1) / (count * 2 - 2) * 2
  }

  function AlignmentPositions(version: Version): (p: seq<int>)
    ensures |p| == AlignmentCount(version)
  {
    if version == 1 then []
    else
      [6] + seq(AlignmentCount(version) - 1,
                k => version * 4 + 10 - AlignmentStep(version) * (AlignmentCount(version) - 2 - k))
  }

  /** The centres start at 6, end 7 modules before the edge, and lie at least 12 modules apart. */
  ghost predicate Spaced(p: seq<int>, size: nat) {
    && |p| >= 2
    && p[0] == 6
    && p[|p| - 1] == size - 7
    && forall i, j :: 0 <= i < j < |p| ==> p[i] + 12 <= p[j]
  }

  lemma PositionsSpaced(version: Version)
    requires version >= 2
    ensures Spaced(AlignmentPositions(version), Size(version))
  {
    hide AlignmentStep;
    var p := AlignmentPositions(version);
    var c, step := AlignmentCount(version), AlignmentStep(version);
    var last := 4 * version + 10;
    StepBounds(version);
    if c == 2 {
      assert p == [6, last];
    } else if c == 3 {
      assert p == [6, last - step, last];
    } else {
      assert p == [6, last - step * 2, last - step, last];
    }
  }

  /** The step leaves room for all centres. */
  lemma StepBounds(version: Version)
    requires version >= 2
    ensures 2 <= AlignmentCount(version) <= 4
    ensures AlignmentCount(version) > 2 ==> AlignmentStep(version) >= 12
    ensures AlignmentCount(version) == 3 ==> AlignmentStep(version) <= 4 * version - 8
    ensures AlignmentCount(version) == 4 ==> AlignmentStep(version) * 2 <= 4 * version - 8
  {
    if version < 7 {
      assert AlignmentCount(version) == 2;
    } else if version < 14 {
      assert AlignmentCount(version) == 3;
      assert AlignmentStep(version) == (version * 4 + 7) / 4 * 2;
    } else {
      assert AlignmentCount(version) == 4;
      assert AlignmentStep(version) == (version * 4 + 9) / 6 * 2;
    }
  }

  /** The index of the centre within two modules of a coordinate. */
  function Near(p: seq<int>, n: nat, x: int): (k: Option<nat>)
    requires n <= |p|
    ensures k.Some? ==> k.value < n && Abs(x - p[k.value]) <= 2
  {
    if n == 0 then None
    else if Abs(x - p[n - 1]) <= 2 then Some(n - 1)
    else Near(p, n - 1, x)
  }

  lemma {:induction false} NearUnique(p: seq<int>, n: nat, x: int, k: nat, size: nat)
    requires Spaced(p, size) && k < n <= |p| && Abs(x - p[k]) <= 2
    ensures Near(p, n, x) == Some(k)
  {
    if k < n - 1 {
      assert p[k] + 12 <= p[n - 1];
      NearUnique(p, n - 1, x, k, size);
    }
  }

  // ---- what each pattern draws: Some(dark) on the modules it covers ----

  function TimingInk(size: nat, c: Cell): Option<bool> {
    if c.y == 6 then Some(c.x % 2 == 0)
    else if c.x == 6 then Some(c.y % 2 == 0)
    else None
  }

  function FinderInk(x: int, y: int, c: Cell): Option<bool> {
    var distance := Max(Abs(c.x - x), Abs(c.y - y));
    if distance <= 4 then Some(distance != 2 && distance != 4) else None
  }

  /** The three finder corners get no alignment pattern. */
  predicate CornerCentre(size: nat, x: int, y: int) {
    (x == 6 && (y == 6 || y == size - 7)) || (x == size - 7 && y == 6)
  }

  /** c lies within two modules of a centre that carries an alignment pattern. */
  predicate OnAlignment(p: seq<int>, size: nat, c: Cell) {
    var kx, ky := Near(p, |p|, c.x), Near(p, |p|, c.y);
    kx.Some? && ky.Some? && !CornerCentre(size, p[kx.value], p[ky.value])
  }

  function AlignmentInk(version: Version, c: Cell): Option<bool> {
    var p := AlignmentPositions(version);
    if OnAlignment(p, Size(version), c) then
      var x, y := p[Near(p, |p|, c.x).value], p[Near(p, |p|, c.y).value];
      Some(Max(Abs(c.x - x), Abs(c.y - y)) != 1)
    else None
  }

  /** The format bit shown at a module, if it shows one. */
  function FormatIndex(size: nat, c: Cell): Option<nat> {
    if c.x == 8 && 0 <= c.y < 6 then Some(c.y)
    else if c.x == 8 && 7 <= c.y <= 8 then Some(c.y - 1)
    else if c.x == 8 && size - 7 <= c.y < size then Some(c.y + 15 - size)
    else if c.y == 8 && size - 8 <= c.x < size then Some(size - 1 - c.x)
    else if c.y == 8 && c.x == 7 then Some(8)
    else if c.y == 8 && 0 <= c.x < 6 then Some(14 - c.x)
    else None
  }

  /** The 15 format bits of level L with mask 0. */
  const FORMAT_WORD: nat := 0x77C4

  function FormatInk(size: nat, c: Cell): Option<bool> {
    if c == Cell(8, size - 8) then Some(true)
    else match FormatIndex(size, c)
         case Some(i) => Some(Bit(FORMAT_WORD, i) == 1)
         case None => None
  }

  /** The version bit shown at a module, in the two 3 x 6 areas. */
  function VersionIndex(size: nat, c: Cell): Option<nat> {
    if size - 11 <= c.x < size - 8 && 0 <= c.y < 6 then Some(3 * c.y + (c.x - (size - 11)))
    else if size - 11 <= c.y < size - 8 && 0 <= c.x < 6 then Some(3 * c.x + (c.y - (size - 11)))
    else None
  }

  /** The shift register that computes the version check bits, after k rounds. */
  function VersionRounds(version: nat, k: nat): nat {
    if k == 0 then version
    else
      var value := VersionRounds(version, k - 1);
      Xor(2 * value, (value / 2048) * 0x1F25)
  }

  /** The 18 version bits: the version and its check bits. */
  function VersionWord(version: nat): nat {
    version * 4096 + VersionRounds(version, 12)
  }

  function VersionInk(version: Version, c: Cell): Option<bool> {
    if version < 7 then None
    else match VersionIndex(Size(version), c)
         case Some(i) => Some(Bit(VersionWord(version), i) == 1)
         case None => None
  }

  function Over(top: Option<bool>, bottom: Option<bool>): Option<bool> {
    if top.Some? then top else bottom
  }

  /** What a function module shows; the patterns drawn later cover the earlier ones. */
  function FunctionInk(version: Version, c: Cell): Option<bool> {
    var size := Size(version);
    Over(VersionInk(version, c),
         Over(FormatInk(size, c),
              Over(AlignmentInk(version, c),
                   Over(FinderInk(3, size - 4, c),
                        Over(FinderInk(size - 4, 3, c),
                             Over(FinderInk(3, 3, c), TimingInk(size, c)))))))
  }

  // ---- the check bits ----

  function Differ(a: nat, b: nat): nat {
    if a % 2 == b % 2 then 0 else 1
  }

  lemma XorPair(a: nat, b: nat, upper: nat)
    requires Xor(a / 4, b / 4) == upper
    ensures Xor(a, b) == 4 * upper + 2 * Differ(a / 2, b / 2) + Differ(a, b)
  {
    hide Xor;
    XorHalves(a, b);
    XorHalves(a / 2, b / 2);
    assert a / 2 / 2 == a / 4 && b / 2 / 2 == b / 4;
    TwoHalves(Xor(a, b), upper, Differ(a / 2, b / 2), Differ(a, b));
  }

  lemma TwoHalves(x: nat, upper: nat, second: nat, low: nat)
    requires x / 2 / 2 == upper && x / 2 % 2 == second && x % 2 == low
    ensures x == 4 * upper + 2 * second + low
  {}

  /** Four bits of an exclusive or at a time. */
  lemma XorNibble(a: nat, b: nat, upper: nat)
    requires Xor(a / 4 / 4, b / 4 / 4) == upper
    ensures Xor(a, b) == 16 * upper + 8 * Differ(a / 4 / 2, b / 4 / 2) + 4 * Differ(a / 4, b / 4)
                         + 2 * Differ(a / 2, b / 2) + Differ(a, b)
  {
    hide Xor, Differ;
    XorPair(a / 4, b / 4, upper);
    XorPair(a, b, 4 * upper + 2 * Differ(a / 4 / 2, b / 4 / 2) + Differ(a / 4, b / 4));
  }

  lemma FormatWordUnmasked()
    ensures Xor(FORMAT_WORD, 0x5412) == 0x23D6
  {
    hide Xor;
    XorZero(0);
    XorNibble(0x7, 0x5, 0x0);
    XorNibble(0x77, 0x54, 0x2);
    XorNibble(0x77C, 0x541, 0x23);
    XorNibble(0x77C4, 0x5412, 0x23D);
  }

  lemma FormatProduct()
    ensures CarrylessProduct(0x537, 10) == 0x23D6
  {
    hide Xor;
    XorZero(0x537);
    XorZero(2 * 0x537);
    XorZero(1);
    XorNibble(0x5, 0x14, 0x1);
    XorNibble(0x53, 0x14D, 0x11);
    XorNibble(0x537, 0x14DC, 0x11E);
    XorZero(0x23D6);
  }

  /** The format bits, their mask removed, are a codeword of the (15, 5) code with data 01000. */
  lemma FormatWordIsCodeword()
    ensures Xor(FORMAT_WORD, 0x5412) == CarrylessProduct(0x537, 10)
    ensures Xor(FORMAT_WORD, 0x5412) / 1024 == 8
  {
    hide Xor, CarrylessProduct;
    FormatWordUnmasked();
    FormatProduct();
  }

  /** A round keeps the check bits within twelve bits. */
  lemma {:induction false} VersionRoundsBound(version: nat, k: nat)
    requires version < 4096
    ensures VersionRounds(version, k) < 4096
  {
    if k > 0 {
      var value := VersionRounds(version, k - 1);
      VersionRoundsBound(version, k - 1);
      ShiftStaysShort(value);
    }
  }

  lemma ShiftStaysShort(value: nat)
    requires value < 4096
    ensures Xor(2 * value, (value / 2048) * 0x1F25) < 4096
  {
    hide Xor;
    assert Pow2(3) == 8 && Pow2(6) == 64 && Pow2(9) == 512 && Pow2(12) == 4096 && Pow2(13) == 8192;
    if value < 2048 {
      XorZero(2 * value);
    } else {
      TopBit(2 * value, 12);
      TopBit(0x1F25, 12);
      BitXor(2 * value, 0x1F25, 12);
      XorBound(2 * value, 0x1F25, 13);
      TopBit(Xor(2 * value, 0x1F25), 12);
    }
  }

  lemma ShiftKeepsMultiple(s: nat, value: nat, q: nat)
    requires value < 4096 && Xor(s, value) == CarrylessProduct(0x1F25, q)
    ensures Xor(2 * s, Xor(2 * value, (value / 2048) * 0x1F25)) == CarrylessProduct(0x1F25, 2 * q + value / 2048)
  {
    hide Xor;
    var b := value / 2048;
    XorDouble(s, value);
    XorAssoc(2 * s, 2 * value, b * 0x1F25);
    XorComm(2 * CarrylessProduct(0x1F25, q), b * 0x1F25);
    XorZero(0);
    XorZero(2 * CarrylessProduct(0x1F25, q));
  }

  lemma ProductOfNothing()
    ensures CarrylessProduct(0x1F25, 0) == 0
  {}

  lemma {:induction false} VersionRoundsDivide(version: nat, k: nat) returns (q: nat)
    requires version < 4096
    ensures Xor(Shl(version, k), VersionRounds(version, k)) == CarrylessProduct(0x1F25, q)
  {
    hide Xor, CarrylessProduct;
    if k == 0 {
      q := 0;
      XorZero(version);
      ProductOfNothing();
    } else {
      var q' := VersionRoundsDivide(version, k - 1);
      VersionRoundsBound(version, k - 1);
      ShiftKeepsMultiple(Shl(version, k - 1), VersionRounds(version, k - 1), q');
      q := 2 * q' + VersionRounds(version, k - 1) / 2048;
    }
  }

  lemma {:induction false} XorOfDisjoint(a: nat, r: nat, k: nat)
    requires r < Pow2(k)
    ensures Xor(Shl(a, k), r) == a * Pow2(k) + r
  {
    hide Xor;
    if k == 0 {
      XorZero(a);
    } else {
      XorOfDisjoint(a, r / 2, k - 1);
      XorHalves(Shl(a, k), r);
      assert a * Pow2(k) == 2 * (a * Pow2(k - 1));
      SameHalves(Xor(Shl(a, k), r), a * Pow2(k) + r);
    }
  }

  /** The version bits carry the version and are a multiple of 0x1F25: a codeword of the (18, 6) code. */
  lemma VersionWordIsCodeword(version: Version) returns (q: nat)
    ensures VersionWord(version) == CarrylessProduct(0x1F25, q)
    ensures VersionWord(version) / 4096 == version
  {
    hide Xor, CarrylessProduct, VersionRounds;
    VersionRoundsBound(version, 12);
    assert Pow2(3) == 8 && Pow2(6) == 64 && Pow2(9) == 512 && Pow2(12) == 4096;
    XorOfDisjoint(version, VersionRounds(version, 12), 12);
    q := VersionRoundsDivide(version, 12);
  }

  predicate IsFunction(version: Version, c: Cell) {
    FunctionInk(version, c).Some?
  }

  // ---- counting ----

  function Range(lo: int, hi: int): (r: set<int>)
    ensures forall x :: x in r <==> lo <= x < hi
    ensures |r| == if lo < hi then hi - lo else 0
    decreases hi - lo
  {
    if lo >= hi then {} else Range(lo, hi - 1) + {hi - 1}
  }

  lemma Inhabited(xs: set<int>)
    ensures xs != {} ==> exists x :: x in xs
  {
    if forall x :: x !in xs {
      assert xs == {};
    }
  }

  function Product(xs: set<int>, ys: set<int>): (r: set<Cell>)
    ensures forall c :: c in r <==> c.x in xs && c.y in ys
  {
    set x, y | x in xs && y in ys :: Cell(x, y)
  }

  lemma {:induction false} ProductSize(xs: set<int>, ys: set<int>)
    ensures |Product(xs, ys)| == |xs| * |ys|
    decreases xs
  {
    if xs == {} {
      assert Product(xs, ys) == {};
    } else {
      Inhabited(xs);
      var x :| x in xs;
      ProductSize(xs - {x}, ys);
      LineSize(x, ys);
      SplitProduct(xs, ys, x);
      assert |xs| * |ys| == (|xs| - 1) * |ys| + |ys|;
    }
  }

  lemma SplitProduct(xs: set<int>, ys: set<int>, x: int)
    requires x in xs
    ensures |Product(xs, ys)| == |Product(xs - {x}, ys)| + |Product({x}, ys)|
  {
    assert Product(xs, ys) == Product(xs - {x}, ys) + Product({x}, ys);
    DisjointUnion(Product(xs - {x}, ys), Product({x}, ys));
  }

  lemma {:induction false} LineSize(x: int, ys: set<int>)
    ensures |Product({x}, ys)| == |ys|
    decreases ys
  {
    if ys == {} {
      assert Product({x}, ys) == {};
    } else {
      Inhabited(ys);
      var y :| y in ys;
      LineSize(x, ys - {y});
      assert Product({x}, ys) == Product({x}, ys - {y}) + {Cell(x, y)};
      DisjointUnion(Product({x}, ys - {y}), {Cell(x, y)});
    }
  }

  function Rect(x0: int, x1: int, y0: int, y1: int): (r: set<Cell>)
    ensures forall c :: c in r <==> x0 <= c.x < x1 && y0 <= c.y < y1
  {
    Product(Range(x0, x1), Range(y0, y1))
  }

  lemma RectSize(x0: int, x1: int, y0: int, y1: int)
    requires x0 <= x1 && y0 <= y1
    ensures |Rect(x0, x1, y0, y1)| == (x1 - x0) * (y1 - y0)
  {
    ProductSize(Range(x0, x1), Range(y0, y1));
  }

  lemma DisjointUnion<T>(a: set<T>, b: set<T>)
    requires a !! b
    ensures |a + b| == |a| + |b|
  {}

  lemma Remove<T>(a: set<T>, b: set<T>)
    requires b <= a
    ensures |a - b| == |a| - |b|
  {
    assert a == (a - b) + b;
  }

  predicate InCorner(size: nat, c: Cell) {
    || (0 <= c.x < 9 && 0 <= c.y < 9)
    || (size - 8 <= c.x < size && 0 <= c.y < 9)
    || (0 <= c.x < 9 && size - 8 <= c.y < size)
  }

  predicate InTiming(size: nat, c: Cell) {
    (c.x == 6 && 9 <= c.y < size - 8) || (c.y == 6 && 9 <= c.x < size - 8)
  }

  predicate InVersion(size: nat, c: Cell) {
    (size - 11 <= c.x < size - 8 && 0 <= c.y < 6) || (0 <= c.x < 6 && size - 11 <= c.y < size - 8)
  }

  /** Finder patterns with their separators and the format information around them. */
  function CornerCells(size: nat): (r: set<Cell>)
    ensures forall c :: c in r <==> InCorner(size, c)
  {
    Rect(0, 9, 0, 9) + Rect(size - 8, size, 0, 9) + Rect(0, 9, size - 8, size)
  }

  lemma CornerCount(size: nat)
    requires size >= 21
    ensures |CornerCells(size)| == 225
  {
    hide Rect;
    var (a, b, c) := (Rect(0, 9, 0, 9), Rect(size - 8, size, 0, 9), Rect(0, 9, size - 8, size));
    CornersDisjoint(size);
    assert |a| == 81 by {
      RectSize(0, 9, 0, 9);
    }
    assert |b| == 72 by {
      RectSize(size - 8, size, 0, 9);
    }
    assert |c| == 72 by {
      RectSize(0, 9, size - 8, size);
    }
    ThreeApart(a, b, c);
  }

  lemma ThreeApart<T>(a: set<T>, b: set<T>, c: set<T>)
    requires a !! b && (a + b) !! c
    ensures |a + b + c| == |a| + |b| + |c|
  {}

  lemma CornersDisjoint(size: nat)
    requires size >= 21
    ensures Rect(0, 9, 0, 9) !! Rect(size - 8, size, 0, 9)
    ensures (Rect(0, 9, 0, 9) + Rect(size - 8, size, 0, 9)) !! Rect(0, 9, size - 8, size)
  {
    hide Rect;
  }

  /** The timing patterns between the corners. */
  function TimingCells(size: nat): (r: set<Cell>)
    ensures forall c :: c in r <==> InTiming(size, c)
  {
    Rect(6, 7, 9, size - 8) + Rect(9, size - 8, 6, 7)
  }

  lemma TimingCount(size: nat)
    requires size >= 21
    ensures |TimingCells(size)| == 2 * (size - 17)
  {
    hide Rect;
    TimingDisjoint(size);
    RectSize(6, 7, 9, size - 8);
    RectSize(9, size - 8, 6, 7);
  }

  lemma TimingDisjoint(size: nat)
    requires size >= 21
    ensures Rect(6, 7, 9, size - 8) !! Rect(9, size - 8, 6, 7)
  {
    hide Rect;
  }

  function VersionCells(size: nat): (r: set<Cell>)
    ensures forall c :: c in r <==> InVersion(size, c)
  {
    Rect(size - 11, size - 8, 0, 6) + Rect(0, 6, size - 11, size - 8)
  }

  lemma VersionCount(size: nat)
    requires size >= 45
    ensures |VersionCells(size)| == 36
  {
    hide Rect;
    VersionDisjoint(size);
    RectSize(size - 11, size - 8, 0, 6);
    RectSize(0, 6, size - 11, size - 8);
  }

  lemma VersionDisjoint(size: nat)
    requires size >= 45
    ensures Rect(size - 11, size - 8, 0, 6) !! Rect(0, 6, size - 11, size - 8)
  {
    hide Rect;
  }

  /** The coordinates near one of the first n centres, timing line excluded. */
  function NearLine(p: seq<int>, n: nat): set<int>
    requires n <= |p|
  {
    if n == 0 then {} else NearLine(p, n - 1) + (Range(p[n - 1] - 2, p[n - 1] + 3) - {6})
  }

  lemma {:induction false} NearLineIsNear(p: seq<int>, n: nat, x: int)
    requires n <= |p|
    ensures x in NearLine(p, n) <==> Near(p, n, x).Some? && x != 6
  {
    if n > 0 {
      NearLineIsNear(p, n - 1, x);
    }
  }

  lemma {:induction false} NearLineSize(p: seq<int>, n: nat, size: nat)
    requires Spaced(p, size) && 1 <= n <= |p|
    ensures |NearLine(p, n)| == 5 * n - 1
    ensures forall x :: x in NearLine(p, n) ==> x <= p[n - 1] + 2
  {
    hide Spaced, NearLine;
    SpacedAt(p, size, n - 1);
    if n == 1 {
      FirstWindow(p);
    } else {
      NearLineSize(p, n - 1, size);
      NextWindow(p, n, NearLine(p, n - 1));
    }
  }

  lemma FirstWindow(p: seq<int>)
    requires |p| >= 1 && p[0] == 6
    ensures |NearLine(p, 1)| == 4
    ensures forall x :: x in NearLine(p, 1) ==> x <= 8
  {
    var window := Range(p[0] - 2, p[0] + 3);
    assert NearLine(p, 0) == {};
    assert NearLine(p, 1) == window - {6};
    Remove(window, {6});
  }

  lemma NextWindow(p: seq<int>, n: nat, before: set<int>)
    requires 1 < n <= |p| && p[n - 1] >= 18 && p[n - 2] + 12 <= p[n - 1]
    requires before == NearLine(p, n - 1) && forall x :: x in before ==> x <= p[n - 2] + 2
    ensures |NearLine(p, n)| == |before| + 5
    ensures forall x :: x in NearLine(p, n) ==> x <= p[n - 1] + 2
  {
    hide Range;
    var window := Range(p[n - 1] - 2, p[n - 1] + 3);
    assert window - {6} == window;
    DisjointUnion(before, window);
  }

  lemma SpacedAt(p: seq<int>, size: nat, k: nat)
    requires Spaced(p, size) && k < |p|
    ensures if k == 0 then p[k] == 6 else p[k] >= 18 && p[k - 1] + 12 <= p[k]
    ensures k == |p| - 1 ==> k > 0 && p[k] == size - 7
  {}

  /** The alignment patterns outside the timing lines: all pairs of near coordinates but the three corners. */
  function AlignmentCells(p: seq<int>, size: nat): set<Cell> {
    var line := NearLine(p, |p|);
    var first, last := Range(4, 9) - {6}, Range(size - 9, size - 4);
    Product(line, line) - (Product(first, first) + Product(last, first) + Product(first, last))
  }

  lemma AlignmentCellCount(p: seq<int>, size: nat)
    requires Spaced(p, size) && |p| >= 2
    ensures |AlignmentCells(p, size)| == (25 * |p| - 10) * |p| - 55
  {
    hide Product, NearLine, Range, Spaced;
    var n := |p|;
    SpacedAt(p, size, 0);
    SpacedAt(p, size, n - 1);
    var line := NearLine(p, n);
    var first, last := Range(4, 9) - {6}, Range(size - 9, size - 4);
    NearLineSize(p, n, size);
    Remove(Range(4, 9), {6});
    WindowOnLine(p, 0, size, first);
    WindowOnLine(p, n - 1, size, last);
    CornerSquares(line, first, last);
    SquareLessCorners(line, first, last, n);
  }

  lemma SquareLessCorners(line: set<int>, first: set<int>, last: set<int>, n: nat)
    requires |line| == 5 * n - 1 && |first| == 4 && |last| == 5
    ensures |Product(line, line)| - |Product(first, first)| - |Product(last, first)| - |Product(first, last)|
         == (25 * n - 10) * n - 55
  {
    hide Product;
    ProductSize(line, line);
    ProductSize(first, first);
    ProductSize(last, first);
    ProductSize(first, last);
    assert (5 * n - 1) * (5 * n - 1) == (25 * n - 10) * n + 1;
  }

  lemma WindowOnLine(p: seq<int>, k: nat, size: nat, window: set<int>)
    requires Spaced(p, size) && k < |p|
    requires forall x :: x in window ==> p[k] - 2 <= x <= p[k] + 2 && x != 6
    ensures window <= NearLine(p, |p|)
  {
    hide Spaced, NearLine, Near;
    forall x | x in window
      ensures x in NearLine(p, |p|)
    {
      NearUnique(p, |p|, x, k, size);
      NearLineIsNear(p, |p|, x);
    }
  }

  lemma CornerSquares(line: set<int>, first: set<int>, last: set<int>)
    requires first <= line && last <= line && first !! last
    ensures var corners := Product(first, first) + Product(last, first) + Product(first, last);
            |Product(line, line) - corners| == |Product(line, line)| - |Product(first, first)|
                                               - |Product(last, first)| - |Product(first, last)|
  {
    var a, b, c := Product(first, first), Product(last, first), Product(first, last);
    assert a !! b && (a + b) !! c;
    DisjointUnion(a, b);
    DisjointUnion(a + b, c);
    Remove(Product(line, line), a + b + c);
  }

  // ---- the function modules are exactly these four kinds ----

  function AlignmentSet(version: Version): set<Cell> {
    if version == 1 then {} else AlignmentCells(AlignmentPositions(version), Size(version))
  }

  function VersionSet(version: Version): set<Cell> {
    if version < 7 then {} else VersionCells(Size(version))
  }

  function FunctionCells(version: Version): set<Cell> {
    var size := Size(version);
    CornerCells(size) + TimingCells(size) + AlignmentSet(version) + VersionSet(version)
  }

  /** Off the timing lines, an alignment pattern covers a module iff AlignmentCells lists it. */
  lemma AlignmentMembership(p: seq<int>, size: nat, c: Cell)
    requires Spaced(p, size) && c.x != 6 && c.y != 6
    ensures c in AlignmentCells(p, size) <==> OnAlignment(p, size, c)
  {
    hide Spaced, Near, NearLine, Product, Range;
    NearLineIsNear(p, |p|, c.x);
    NearLineIsNear(p, |p|, c.y);
    NearEnds(p, size, c.x);
    NearEnds(p, size, c.y);
  }

  /** The first and the last window, told apart by the centre. */
  lemma NearEnds(p: seq<int>, size: nat, x: int)
    requires Spaced(p, size)
    ensures var k := Near(p, |p|, x);
            && (4 <= x < 9 <==> k.Some? && p[k.value] == 6)
            && (size - 9 <= x < size - 4 <==> k.Some? && p[k.value] == size - 7)
  {
    if 4 <= x < 9 {
      NearUnique(p, |p|, x, 0, size);
    }
    if size - 9 <= x < size - 4 {
      NearUnique(p, |p|, x, |p| - 1, size);
    }
  }

  lemma TimingLineMembership(version: Version, c: Cell)
    requires Inside(Size(version), c) && (c.x == 6 || c.y == 6)
    ensures IsFunction(version, c)
    ensures InCorner(Size(version), c) || InTiming(Size(version), c)
  {}

  lemma CornerMembership(size: nat, c: Cell)
    requires size >= 21 && Inside(size, c) && c.x != 6 && c.y != 6
    ensures InCorner(size, c) <==>
            || FinderInk(3, 3, c).Some? || FinderInk(size - 4, 3, c).Some? || FinderInk(3, size - 4, c).Some?
            || FormatInk(size, c).Some?
    ensures !InTiming(size, c)
  {}

  lemma FunctionMembership(version: Version, c: Cell)
    requires Inside(Size(version), c)
    ensures IsFunction(version, c) <==> c in FunctionCells(version)
  {
    hide CornerCells, TimingCells, VersionCells, AlignmentCells, FinderInk, FormatInk, InCorner, InTiming;
    hide Near, AlignmentPositions, OnAlignment;
    if c.x == 6 || c.y == 6 {
      TimingLineMembership(version, c);
    } else {
      var p := AlignmentPositions(version);
      CornerMembership(Size(version), c);
      if version == 1 {
        NoAlignment(version, c);
      } else {
        PositionsSpaced(version);
        AlignmentMembership(p, Size(version), c);
      }
    }
  }

  lemma NoAlignment(version: Version, c: Cell)
    requires version == 1
    ensures AlignmentInk(version, c).None?
  {}

  // ---- how many there are ----

  lemma AlignmentApart(p: seq<int>, size: nat, c: Cell)
    requires Spaced(p, size) && c in AlignmentCells(p, size)
    ensures Inside(size, c)
    ensures !InCorner(size, c) && !InTiming(size, c) && !InVersion(size, c)
  {
    hide Spaced, NearLine, Near, Product, Range;
    NearLineIsNear(p, |p|, c.x);
    NearLineIsNear(p, |p|, c.y);
    NearRange(p, size, c.x);
    NearRange(p, size, c.y);
  }

  /** A coordinate on the line is in the first window, in the last one, or well between them. */
  lemma NearRange(p: seq<int>, size: nat, x: int)
    requires Spaced(p, size) && Near(p, |p|, x).Some?
    ensures 4 <= x < 9 || 16 <= x < size - 16 || size - 9 <= x < size - 4
    ensures size >= 25
  {
    var k := Near(p, |p|, x).value;
    SpacedAt(p, size, |p| - 1);
    if 0 < k < |p| - 1 {
      assert p[0] + 12 <= p[k] && p[k] + 12 <= p[|p| - 1];
    }
  }

  lemma VersionApart(size: nat)
    requires size >= 45
    ensures VersionCells(size) !! CornerCells(size) && VersionCells(size) !! TimingCells(size)
  {
    hide CornerCells, TimingCells, VersionCells;
  }

  lemma TimingApart(size: nat)
    requires size >= 21
    ensures TimingCells(size) !! CornerCells(size)
  {
    hide CornerCells, TimingCells, VersionCells;
  }

  lemma AlignmentSetApart(version: Version)
    ensures AlignmentSet(version) !! CornerCells(Size(version)) + TimingCells(Size(version))
    ensures AlignmentSet(version) !! VersionSet(version)
  {
    hide CornerCells, TimingCells, AlignmentCells, VersionCells, AlignmentPositions, InCorner, InTiming, InVersion;
    if version >= 2 {
      var p, size := AlignmentPositions(version), Size(version);
      PositionsSpaced(version);
      forall c | c in AlignmentCells(p, size)
        ensures !InCorner(size, c) && !InTiming(size, c) && !InVersion(size, c)
      {
        AlignmentApart(p, size, c);
      }
    }
  }

  /** The four kinds do not overlap. */
  lemma FunctionCellSum(version: Version)
    ensures |FunctionCells(version)|
         == |CornerCells(Size(version))| + |TimingCells(Size(version))| + |AlignmentSet(version)|
             + |VersionSet(version)|
  {
    hide CornerCells, TimingCells, AlignmentCells, VersionCells, AlignmentPositions, AlignmentSet;
    var size := Size(version);
    var a, t, g, w := CornerCells(size), TimingCells(size), AlignmentSet(version), VersionSet(version);
    TimingApart(size);
    DisjointUnion(a, t);
    AlignmentSetApart(version);
    DisjointUnion(a + t, g);
    if version >= 7 {
      VersionApart(size);
    }
    DisjointUnion(a + t + g, w);
  }

  lemma FunctionCellCount(version: Version)
    ensures |FunctionCells(version)| + RawModules(version) == Size(version) * Size(version)
  {
    hide FunctionCells, CornerCells, TimingCells, AlignmentCells, VersionCells, AlignmentPositions;
    FunctionCellSum(version);
    var size := Size(version);
    CornerCount(size);
    TimingCount(size);
    if version >= 2 {
      PositionsSpaced(version);
      AlignmentCellCount(AlignmentPositions(version), size);
    }
    if version >= 7 {
      VersionCount(size);
    }
    assert size * size == 16 * version * version + 136 * version + 289;
  }

  lemma FunctionCellsInside(version: Version, c: Cell)
    requires c in FunctionCells(version)
    ensures Inside(Size(version), c)
  {
    hide CornerCells, TimingCells, VersionCells, AlignmentCells, AlignmentPositions;
    if c in AlignmentSet(version) {
      PositionsSpaced(version);
      AlignmentApart(AlignmentPositions(version), Size(version), c);
    } else {
      FixedCellsInside(Size(version), c);
    }
  }

  lemma FixedCellsInside(size: nat, c: Cell)
    requires size >= 21
    requires c in CornerCells(size) || c in TimingCells(size) || c in VersionCells(size)
    ensures Inside(size, c)
  {
    hide CornerCells, TimingCells, VersionCells;
  }

  /** The cells that carry data. */
  function DataCells(version: Version): set<Cell> {
    var size := Size(version);
    Rect(0, size, 0, size) - FunctionCells(version)
  }

  /** As many modules are left for data as the capacity formula counts. */
  lemma DataCellCount(version: Version)
    ensures |DataCells(version)| == RawModules(version)
    ensures forall c :: c in DataCells(version) <==> Inside(Size(version), c) && !IsFunction(version, c)
  {
    hide FunctionCells, IsFunction, RawModules;
    var size := Size(version);
    RectSize(0, size, 0, size);
    FunctionCellCount(version);
    forall c | c in FunctionCells(version)
      ensures c in Rect(0, size, 0, size)
    {
      FunctionCellsInside(version, c);
    }
    Remove(Rect(0, size, 0, size), FunctionCells(version));
    forall c | Inside(size, c)
      ensures IsFunction(version, c) <==> c in FunctionCells(version)
    {
      FunctionMembership(version, c);
    }
  }
}
