/** Reading a symbol: its version, level and mask from the symbol itself, then the payload from the data modules. */
module QrReader {
  import opened Bits
  import opened Gf256
  import opened Options
  import opened QrBlocks
  import opened QrData
  import opened QrGeometry
  import opened QrWalk

  type Grid = seq<seq<bool>>

  predicate Square(g: Grid, size: nat) {
    |g| == size && forall y :: 0 <= y < size ==> |g[y]| == size
  }

  function Get(g: Grid, size: nat, c: Cell): bool
    requires Square(g, size) && Inside(size, c)
  {
    g[c.y][c.x]
  }

  // ---- the data modules ----

  /** The modules a mask turns over. */
  predicate Masked(mask: nat, c: Cell) {
    if mask == 0 then (c.x + c.y) % 2 == 0
    else if mask == 1 then c.y % 2 == 0
    else if mask == 2 then c.x % 3 == 0
    else if mask == 3 then (c.x + c.y) % 3 == 0
    else if mask == 4 then (c.y / 2 + c.x / 3) % 2 == 0
    else if mask == 5 then (c.x * c.y) % 2 + (c.x * c.y) % 3 == 0
    else if mask == 6 then ((c.x * c.y) % 2 + (c.x * c.y) % 3) % 2 == 0
    else ((c.x + c.y) % 2 + (c.x * c.y) % 3) % 2 == 0
  }

  lemma LayoutFits(version: Version)
    ensures RawModules(version) >= 0
    ensures var layout := Layout(NUM_BLOCKS[version], ECC_LEN[version], RawModules(version) / 8);
      layout.Valid() && layout.Capacity() == Capacity(version)
  {
    hide RawModules;
    RawModulesBounds(version);
    var layout := Layout(NUM_BLOCKS[version], ECC_LEN[version], RawModules(version) / 8);
    layout.CapacityIsRest();
  }

  function VersionLayout(version: Version): (layout: Layout)
    ensures layout.Valid() && layout.Capacity() == Capacity(version)
  {
    LayoutFits(version);
    Layout(NUM_BLOCKS[version], ECC_LEN[version], RawModules(version) / 8)
  }

  /** The bit a data module stands for. */
  predicate ModuleBit(g: Grid, size: nat, mask: nat, c: Cell)
    requires Square(g, size)
  {
    Inside(size, c) && Get(g, size, c) != Masked(mask, c)
  }

  function ReadBits(g: Grid, version: Version, mask: nat): (bits: seq<bool>)
    requires Square(g, Size(version))
    ensures |bits| == |DataOrder(version)|
  {
    var order := DataOrder(version);
    seq(|order|, i requires 0 <= i < |order| => ModuleBit(g, Size(version), mask, order[i]))
  }

  /** The codewords a reader collects: data modules in zigzag order, unmasked, eight to a byte. */
  function ReadCodewords(g: Grid, version: Version, mask: nat): seq<Byte>
    requires Square(g, Size(version))
  {
    var bits := ReadBits(g, version, mask);
    BitsToBytes(bits[..WholeBytes(|bits|)])
  }

  /** The bits of n that fill bytes. */
  function WholeBytes(n: nat): (m: nat)
    ensures m == 8 * (n / 8) <= n
  {
    n - n % 8
  }

  function ReadPayload(g: Grid, version: Version, mask: nat): Option<seq<Byte>>
    requires Square(g, Size(version))
  {
    var layout := VersionLayout(version);
    Decode(Deinterleave(ReadCodewords(g, version, mask), layout, layout.blocks), CountBits(version))
  }

  function BitAt(bits: seq<bool>, i: nat): bool {
    i < |bits| && bits[i]
  }

  /** The codewords of a payload. */
  function SymbolCodewords(data: seq<Byte>, version: Version): seq<Byte>
    requires FitsIn(|data|, CountBits(version), Capacity(version))
  {
    Codewords(DataCodewords(data, CountBits(version), Capacity(version)), VersionLayout(version))
  }

  /** The data modules hold these bits, in zigzag order and masked; modules beyond the bits hold a masked zero. */
  ghost predicate Carries(g: Grid, version: Version, mask: nat, bits: seq<bool>)
    requires Square(g, Size(version))
  {
    var order := DataOrder(version);
    forall i :: 0 <= i < |order| ==> ModuleBit(g, Size(version), mask, order[i]) == BitAt(bits, i)
  }

  lemma CarriedCodewords(g: Grid, version: Version, mask: nat, codewords: seq<Byte>)
    requires Square(g, Size(version))
    requires |codewords| == RawModules(version) / 8
    requires Carries(g, version, mask, ByteBits(codewords))
    ensures ReadCodewords(g, version, mask) == codewords
  {
    hide DataOrder, RawModules, BitsToBytes, ByteBits, ModuleBit;
    DataOrderIsComplete(version);
    var bits := ReadBits(g, version, mask);
    assert bits[..WholeBytes(|bits|)] == ByteBits(codewords);
    BytesOfBitsOfBytes(codewords);
  }

  /** Whoever reads the data modules under the right mask gets the payload. */
  lemma PayloadRoundTrip(g: Grid, version: Version, mask: nat, data: seq<Byte>)
    requires Square(g, Size(version))
    requires FitsIn(|data|, CountBits(version), Capacity(version))
    requires Carries(g, version, mask, ByteBits(SymbolCodewords(data, version)))
    ensures ReadPayload(g, version, mask) == Some(data)
  {
    hide RawModules, Codewords, Carries, ReadCodewords, Decode, Deinterleave, DataCodewords, Capacity;
    hide Layout.Offset, CountBits, Layout.Valid, FitsIn;
    var layout := VersionLayout(version);
    var dcw := DataCodewords(data, CountBits(version), Capacity(version));
    CodewordCount(dcw, layout);
    CarriedCodewords(g, version, mask, SymbolCodewords(data, version));
    DeinterleaveRoundTrip(dcw, layout, layout.blocks);
    assert dcw[..layout.Capacity()] == dcw;
    DataRoundTrip(data, CountBits(version), Capacity(version));
  }

  // ---- words shown by function modules ----

  /** The number with these bits, the lowest first. */
  function Word(bits: seq<bool>): nat {
    if bits == [] then 0 else (if bits[0] then 1 else 0) + 2 * Word(bits[1..])
  }

  lemma {:induction false} WordOfBits(w: nat, bits: seq<bool>)
    requires w < Pow2(|bits|) && forall i :: 0 <= i < |bits| ==> bits[i] == (Bit(w, i) == 1)
    ensures Word(bits) == w
  {
    if bits != [] {
      forall i | 0 <= i < |bits| - 1
        ensures bits[1..][i] == (Bit(w / 2, i) == 1)
      {
        assert bits[i + 1] == (Bit(w, i + 1) == 1);
      }
      WordOfBits(w / 2, bits[1..]);
      assert bits[0] == (Bit(w, 0) == 1);
    }
  }

  /** The word that these modules show, the lowest bit first. */
  function WordAt(g: Grid, size: nat, cells: seq<Cell>): nat
    requires Square(g, size)
  {
    Word(seq(|cells|, i requires 0 <= i < |cells| => Inside(size, cells[i]) && Get(g, size, cells[i])))
  }

  /** The format bits around the upper left finder pattern. */
  function FirstFormat(): seq<Cell> {
    seq(15, i => if i < 6 then Cell(8, i) else if i < 8 then Cell(8, i + 1) else if i == 8 then Cell(7, 8)
                 else Cell(14 - i, 8))
  }

  /** The format bits beside the other two finder patterns. */
  function SecondFormat(size: nat): seq<Cell> {
    seq(15, i => if i < 8 then Cell(size - 1 - i, 8) else Cell(8, size - 15 + i))
  }

  /** The version bits above the lower left finder pattern. */
  function FirstVersion(size: nat): seq<Cell> {
    seq(18, i => Cell(i / 3, size - 11 + i % 3))
  }

  /** The version bits beside the upper right finder pattern. */
  function SecondVersion(size: nat): seq<Cell> {
    seq(18, i => Cell(size - 11 + i % 3, i / 3))
  }

  predicate ShowsFinder(g: Grid, size: nat, x: int, y: int)
    requires Square(g, size)
  {
    forall cx: int, cy: int | 0 <= cx < size && 0 <= cy < size :: FinderInk(x, y, Cell(cx, cy)).Some? ==>
      g[cy][cx] == FinderInk(x, y, Cell(cx, cy)).value
  }

  predicate ShowsFinders(g: Grid, size: nat)
    requires Square(g, size)
  {
    ShowsFinder(g, size, 3, 3) && ShowsFinder(g, size, size - 4, 3) && ShowsFinder(g, size, 3, size - 4)
  }

  /** The version that the size gives; from version 7 on, both version areas must say the same. */
  function ReadVersion(g: Grid): (v: Option<Version>)
    ensures v.Some? ==> Square(g, Size(v.value))
  {
    var size := |g|;
    if size % 4 == 1 && 21 <= size <= 97 && Square(g, size) then
      var v := (size - 17) / 4;
      var w := WordAt(g, size, FirstVersion(size));
      if v < 7 || (w == WordAt(g, size, SecondVersion(size)) && w / 4096 == v) then Some(v) else None
    else None
  }

  /** Level and mask, if both format areas show the same. */
  function ReadFormat(g: Grid, size: nat): Option<nat>
    requires Square(g, size)
  {
    var w := WordAt(g, size, FirstFormat());
    if w == WordAt(g, size, SecondFormat(size)) then Some(Xor(w, 0x5412) / 1024) else None
  }

  /** The bits 01 of level L. */
  const LEVEL_L: nat := 1

  function ReadSymbol(g: Grid): Option<seq<Byte>> {
    match ReadVersion(g)
    case None => None
    case Some(version) =>
      if !ShowsFinders(g, Size(version)) then None
      else match ReadFormat(g, Size(version))
           case None => None
           case Some(f) => if f / 8 == LEVEL_L then ReadPayload(g, version, f % 8) else None
  }

  // ---- what a finished symbol shows ----

  /** Every function module shows its ink. */
  ghost predicate ShowsPatterns(g: Grid, version: Version)
    requires Square(g, Size(version))
  {
    forall c :: Inside(Size(version), c) && FunctionInk(version, c).Some? ==>
      Get(g, Size(version), c) == FunctionInk(version, c).value
  }

  lemma WordShown(g: Grid, version: Version, cells: seq<Cell>, w: nat)
    requires Square(g, Size(version)) && ShowsPatterns(g, version) && w < Pow2(|cells|)
    requires forall i :: 0 <= i < |cells| ==>
               Inside(Size(version), cells[i]) && FunctionInk(version, cells[i]) == Some(Bit(w, i) == 1)
    ensures WordAt(g, Size(version), cells) == w
  {
    hide FunctionInk, Bit;
    var bits := seq(|cells|, i requires 0 <= i < |cells| =>
                      Inside(Size(version), cells[i]) && Get(g, Size(version), cells[i]));
    WordOfBits(w, bits);
  }

  /** Both format areas show 0x77C4. */
  lemma FormatShown(g: Grid, version: Version)
    requires Square(g, Size(version)) && ShowsPatterns(g, version)
    ensures WordAt(g, Size(version), FirstFormat()) == FORMAT_WORD
    ensures WordAt(g, Size(version), SecondFormat(Size(version))) == FORMAT_WORD
  {
    hide WordAt, Bit, ShowsPatterns, AlignmentInk, FinderInk, TimingInk;
    assert Pow2(5) == 32 && Pow2(10) == 1024 && Pow2(15) == 32768;
    WordShown(g, version, FirstFormat(), FORMAT_WORD);
    WordShown(g, version, SecondFormat(Size(version)), FORMAT_WORD);
  }

  lemma VersionBitShown(version: Version, i: nat)
    requires version >= 7 && i < 18
    ensures var size := Size(version);
      forall c :: c == FirstVersion(size)[i] || c == SecondVersion(size)[i] ==>
        Inside(size, c) && FunctionInk(version, c) == Some(Bit(VersionWord(version), i) == 1)
  {
    hide Bit, AlignmentInk, FinderInk, TimingInk, FormatInk, VersionWord;
  }

  /** Both version areas show the version word. */
  lemma VersionShown(g: Grid, version: Version)
    requires Square(g, Size(version)) && ShowsPatterns(g, version) && version >= 7
    ensures WordAt(g, Size(version), FirstVersion(Size(version))) == VersionWord(version)
    ensures WordAt(g, Size(version), SecondVersion(Size(version))) == VersionWord(version)
  {
    hide WordAt, Bit, ShowsPatterns, FunctionInk, VersionWord, Inside;
    VersionWordFits(version);
    var size := Size(version);
    forall i | 0 <= i < 18
      ensures Inside(size, FirstVersion(size)[i]) && Inside(size, SecondVersion(size)[i])
      ensures FunctionInk(version, FirstVersion(size)[i]) == Some(Bit(VersionWord(version), i) == 1)
      ensures FunctionInk(version, SecondVersion(size)[i]) == Some(Bit(VersionWord(version), i) == 1)
    {
      VersionBitShown(version, i);
    }
    WordShown(g, version, FirstVersion(Size(version)), VersionWord(version));
    WordShown(g, version, SecondVersion(Size(version)), VersionWord(version));
  }

  lemma VersionWordFits(version: Version)
    ensures VersionWord(version) < Pow2(18) && VersionWord(version) / 4096 == version
  {
    hide Xor, VersionRounds;
    VersionRoundsBound(version, 12);
    assert Pow2(6) == 64 && Pow2(12) == 4096 && Pow2(18) == 262144;
  }

  lemma CornerOffAlignment(p: seq<int>, size: nat, c: Cell)
    requires Spaced(p, size) && InCorner(size, c)
    ensures !OnAlignment(p, size, c)
  {
    hide Spaced, Near;
    if OnAlignment(p, size, c) {
      NearRange(p, size, c.x);
      NearRange(p, size, c.y);
      NearEnds(p, size, c.x);
      NearEnds(p, size, c.y);
      assert false;
    }
  }

  lemma FinderOnTop(version: Version, c: Cell)
    requires Inside(Size(version), c)
    ensures var size := Size(version);
      && (FinderInk(3, 3, c).Some? ==> FunctionInk(version, c) == FinderInk(3, 3, c))
      && (FinderInk(size - 4, 3, c).Some? ==> FunctionInk(version, c) == FinderInk(size - 4, 3, c))
      && (FinderInk(3, size - 4, c).Some? ==> FunctionInk(version, c) == FinderInk(3, size - 4, c))
  {
    hide OnAlignment, AlignmentPositions, VersionWord, FORMAT_WORD, Near, TimingInk;
    if version == 1 {
      NoAlignment(version, c);
    } else if InCorner(Size(version), c) {
      PositionsSpaced(version);
      CornerOffAlignment(AlignmentPositions(version), Size(version), c);
    }
  }

  lemma FindersShown(g: Grid, version: Version)
    requires Square(g, Size(version)) && ShowsPatterns(g, version)
    ensures ShowsFinders(g, Size(version))
  {
    hide FunctionInk, FinderInk;
    forall cx: int, cy: int | 0 <= cx < Size(version) && 0 <= cy < Size(version)
      ensures var (n, c) := (Size(version), Cell(cx, cy));
        && (FinderInk(3, 3, c).Some? ==> g[cy][cx] == FinderInk(3, 3, c).value)
        && (FinderInk(n - 4, 3, c).Some? ==> g[cy][cx] == FinderInk(n - 4, 3, c).value)
        && (FinderInk(3, n - 4, c).Some? ==> g[cy][cx] == FinderInk(3, n - 4, c).value)
    {
      FinderOnTop(version, Cell(cx, cy));
      assert Get(g, Size(version), Cell(cx, cy)) == g[cy][cx];
    }
  }

  lemma VersionIsRead(g: Grid, version: Version)
    requires Square(g, Size(version)) && ShowsPatterns(g, version)
    ensures ReadVersion(g) == Some(version)
  {
    hide ShowsPatterns, WordAt, VersionWord, FirstVersion, SecondVersion;
    if version >= 7 {
      VersionShown(g, version);
      VersionWordFits(version);
    }
  }

  lemma FormatIsRead(g: Grid, version: Version)
    requires Square(g, Size(version)) && ShowsPatterns(g, version)
    ensures ReadFormat(g, Size(version)) == Some(8)
  {
    hide ShowsPatterns, WordAt, Xor, FirstFormat, SecondFormat;
    FormatShown(g, version);
    FormatWordIsCodeword();
  }

  /** A symbol that shows its function patterns, and carries the codewords of a payload under mask 0, reads as that
      payload to a reader who is told nothing else. */
  lemma SymbolRoundTrip(g: Grid, version: Version, data: seq<Byte>)
    requires Square(g, Size(version)) && ShowsPatterns(g, version)
    requires FitsIn(|data|, CountBits(version), Capacity(version))
    requires Carries(g, version, 0, ByteBits(SymbolCodewords(data, version)))
    ensures ReadSymbol(g) == Some(data)
  {
    hide ShowsPatterns, Carries, ReadPayload, FitsIn, SymbolCodewords, ByteBits, ShowsFinders, ReadVersion, ReadFormat;
    hide CountBits, Capacity;
    FindersShown(g, version);
    VersionIsRead(g, version);
    FormatIsRead(g, version);
    PayloadRoundTrip(g, version, 0, data);
  }
}
