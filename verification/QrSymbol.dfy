/** Drawing a symbol module by module, so that a reader gets the payload back. */
module QrSymbol {
  import opened Bits
  import opened Gf256
  import opened Options
  import opened QrBlocks
  import opened QrData
  import opened QrGeometry
  import opened QrReader
  import opened QrWalk

  function Put(g: Grid, size: nat, c: Cell, b: bool): (r: Grid)
    requires Square(g, size) && Inside(size, c)
    ensures Square(r, size)
    ensures forall d :: Inside(size, d) ==> Get(r, size, d) == if d == c then b else Get(g, size, d)
  {
    g[c.y := g[c.y][c.x := b]]
  }

  /** From (m0, r0) to (m1, r1) exactly the modules with ink were drawn and reserved. */
  ghost predicate Inked(size: nat, m0: Grid, r0: Grid, m1: Grid, r1: Grid, ink: Cell -> Option<bool>)
    requires Square(m0, size) && Square(r0, size) && Square(m1, size) && Square(r1, size)
  {
    forall c :: Inside(size, c) ==>
      && Get(m1, size, c) == (if ink(c).Some? then ink(c).value else Get(m0, size, c))
      && Get(r1, size, c) == (ink(c).Some? || Get(r0, size, c))
  }

  function Blank(size: nat): (g: Grid)
    ensures Square(g, size) && forall c :: Inside(size, c) ==> !Get(g, size, c)
  {
    seq(size, _ => seq(size, _ => false))
  }

  /** The ink of all function patterns. */
  function FunctionInks(version: Version): Cell -> Option<bool> {
    c => FunctionInk(version, c)
  }

  function FormatInks(size: nat): Cell -> Option<bool> {
    c => FormatInk(size, c)
  }

  /** Exactly the function modules are reserved. */
  ghost predicate Reserves(r: Grid, version: Version)
    requires Square(r, Size(version))
  {
    forall c :: Inside(Size(version), c) ==> Get(r, Size(version), c) == IsFunction(version, c)
  }

  /** Mask 0 was applied to every module that is not reserved. */
  ghost predicate TurnedOver(size: nat, plain: Grid, r: Grid, masked: Grid)
    requires Square(plain, size) && Square(r, size) && Square(masked, size)
  {
    forall c :: Inside(size, c) ==>
      Get(masked, size, c) == (Get(plain, size, c) != (!Get(r, size, c) && Masked(0, c)))
  }

  // ---- partially drawn patterns ----

  function TimingUpTo(size: nat, n: int, c: Cell): Option<bool> {
    if (c.y == 6 && c.x < n) || (c.x == 6 && c.y < n) then TimingInk(size, c) else None
  }

  function FinderUpTo(x: int, y: int, dx: int, dy: int, c: Cell): Option<bool> {
    if c.y < y + dy || (c.y == y + dy && c.x < x + dx) then FinderInk(x, y, c) else None
  }

  /** One alignment pattern. */
  function SquareInk(x: int, y: int, c: Cell): Option<bool> {
    var distance := Max(Abs(c.x - x), Abs(c.y - y));
    if distance <= 2 then Some(distance != 1) else None
  }

  function SquareUpTo(x: int, y: int, dx: int, dy: int, c: Cell): Option<bool> {
    if c.y < y + dy || (c.y == y + dy && c.x < x + dx) then SquareInk(x, y, c) else None
  }

  /** The alignment patterns of the centre pairs before (i, j), row by row. */
  function AlignmentUpTo(version: Version, i: int, j: int, c: Cell): Option<bool> {
    var p := AlignmentPositions(version);
    var kx, ky := Near(p, |p|, c.x), Near(p, |p|, c.y);
    if kx.Some? && ky.Some? && (ky.value < j || (ky.value == j && kx.value < i)) then AlignmentInk(version, c)
    else None
  }

  function FormatUpTo(size: nat, n: nat, c: Cell): Option<bool> {
    match FormatIndex(size, c)
    case Some(i) => if i < n then Some(Bit(FORMAT_WORD, i) == 1) else None
    case None => None
  }

  function VersionUpTo(version: Version, n: nat, c: Cell): Option<bool> {
    match VersionIndex(Size(version), c)
    case Some(i) => if i < n then Some(Bit(VersionWord(version), i) == 1) else None
    case None => None
  }

  // ---- filling the data modules ----

  /** After visiting `done`, its data modules hold the first bits and every other module is as in m0. */
  ghost predicate Filled(size: nat, version: Version, m0: Grid, m: Grid, done: seq<Cell>, bits: seq<bool>)
    requires Square(m0, size) && Square(m, size)
  {
    var order := DataOnly(version, done);
    && (forall i :: 0 <= i < |order| ==> Inside(size, order[i]) && Get(m, size, order[i]) == BitAt(bits, i))
    && (forall c :: Inside(size, c) && c !in order ==> Get(m, size, c) == Get(m0, size, c))
  }

  lemma FilledInitially(size: nat, version: Version, m0: Grid, bits: seq<bool>)
    requires Square(m0, size)
    ensures Filled(size, version, m0, m0, Walk(size, 0), bits)
    ensures |DataOnly(version, Walk(size, 0))| == 0
  {}

  lemma FilledStep(size: nat, version: Version, m0: Grid, m: Grid, done: seq<Cell>, bits: seq<bool>, c: Cell)
    requires Square(m0, size) && Square(m, size)
    requires Filled(size, version, m0, m, done, bits)
    requires Inside(size, c) && c !in done
    ensures IsFunction(version, c) ==>
              DataOnly(version, done + [c]) == DataOnly(version, done) && Filled(size, version, m0, m, done + [c], bits)
    ensures !IsFunction(version, c) ==>
              var b := BitAt(bits, |DataOnly(version, done)|);
              && DataOnly(version, done + [c]) == DataOnly(version, done) + [c]
              && Filled(size, version, m0, Put(m, size, c, b), done + [c], bits)
  {
    hide IsFunction, Put, Square, Filled;
    DataOnlyCells(version, done);
    assert (done + [c])[..|done|] == done;
    var order := DataOnly(version, done);
    if IsFunction(version, c) {
      FilledByOrder(size, version, m0, m, done, done + [c], bits);
    } else {
      FilledMore(size, version, m0, m, done, done + [c], bits, c);
    }
  }

  lemma FilledByOrder(size: nat, version: Version, m0: Grid, m: Grid, done: seq<Cell>, more: seq<Cell>, bits: seq<bool>)
    requires Square(m0, size) && Square(m, size) && Filled(size, version, m0, m, done, bits)
    requires DataOnly(version, more) == DataOnly(version, done)
    ensures Filled(size, version, m0, m, more, bits)
  {
    hide DataOnly, Square;
  }

  lemma FilledMore(size: nat, version: Version, m0: Grid, m: Grid, done: seq<Cell>, more: seq<Cell>, bits: seq<bool>,
                   c: Cell)
    requires Square(m0, size) && Square(m, size) && Filled(size, version, m0, m, done, bits)
    requires Inside(size, c) && c !in DataOnly(version, done)
    requires DataOnly(version, more) == DataOnly(version, done) + [c]
    ensures Filled(size, version, m0, Put(m, size, c, BitAt(bits, |DataOnly(version, done)|)), more, bits)
  {
    hide DataOnly, Square, Put, Get;
  }

  /** The two cells of a step lie ahead of everything visited. */
  lemma StepIsNew(size: nat, s: nat, k: nat)
    requires size % 4 == 1 && size >= 21 && s < StripCount(size) && k < size
    ensures var done := Walk(size, s) + Strip(size, s, k);
            var x, y := RightColumn(size, s), RowAt(size, s, k);
            && Inside(size, Cell(x, y)) && Inside(size, Cell(x - 1, y))
            && Cell(x, y) !in done && Cell(x - 1, y) !in done + [Cell(x, y)]
  {
    hide Walk, Strip, NoDuplicates;
    WalkCells(size, s);
    StripCells(size, s, k);
    CellsAhead(size, s, k);
  }

  lemma CellsAhead(size: nat, s: nat, k: nat)
    requires size % 4 == 1 && size >= 21 && s < StripCount(size) && k < size
    ensures var x, y := RightColumn(size, s), RowAt(size, s, k);
            && Inside(size, Cell(x, y)) && !InWalk(size, s, Cell(x, y)) && !InStrip(size, s, k, Cell(x, y))
            && Inside(size, Cell(x - 1, y)) && !InWalk(size, s, Cell(x - 1, y)) && !InStrip(size, s, k, Cell(x - 1, y))
  {}

  /** From an empty grid, the function patterns show and are reserved. */
  lemma DrawnPatterns(version: Version, m0: Grid, r0: Grid, m: Grid, r: Grid)
    requires Square(m0, Size(version)) && Square(r0, Size(version)) && Square(m, Size(version))
        && Square(r, Size(version))
    requires forall c :: Inside(Size(version), c) ==> !Get(r0, Size(version), c)
    requires Inked(Size(version), m0, r0, m, r, FunctionInks(version))
    ensures ShowsPatterns(m, version) && Reserves(r, version)
  {
    hide FunctionInk, Get;
  }

  /** Masking turns the plain bits into what a reader expects. */
  lemma MaskedBits(version: Version, m0: Grid, plain: Grid, masked: Grid, r: Grid, bits: seq<bool>)
    requires Square(m0, Size(version)) && Square(plain, Size(version)) && Square(masked, Size(version))
    requires Square(r, Size(version))
    requires Filled(Size(version), version, m0, plain, Walk(Size(version), StripCount(Size(version))), bits)
    requires Reserves(r, version) && TurnedOver(Size(version), plain, r, masked)
    ensures Carries(masked, version, 0, bits)
    ensures forall c :: Inside(Size(version), c) && IsFunction(version, c) ==>
              Get(masked, Size(version), c) == Get(m0, Size(version), c)
  {
    hide IsFunction, Walk, DataOnly;
    DataOrderIsComplete(version);
    var order := DataOrder(version);
    forall i | 0 <= i < |order|
      ensures ModuleBit(masked, Size(version), 0, order[i]) == BitAt(bits, i)
    {
      assert order[i] in order;
    }
  }

  /** Drawing the format information again changes no data module. */
  lemma FormatKeepsData(version: Version, m: Grid, r: Grid, m': Grid, r': Grid, bits: seq<bool>)
    requires Square(m, Size(version)) && Square(m', Size(version))
    requires Square(r, Size(version)) && Square(r', Size(version))
    requires Inked(Size(version), m, r, m', r', FormatInks(Size(version)))
    requires Carries(m, version, 0, bits)
    ensures Carries(m', version, 0, bits)
  {
    hide DataOrder, FormatInk, AlignmentInk, VersionInk, FinderInk, TimingInk;
    DataOrderIsComplete(version);
    var order := DataOrder(version);
    forall i | 0 <= i < |order|
      ensures ModuleBit(m', Size(version), 0, order[i]) == ModuleBit(m, Size(version), 0, order[i])
    {
      assert order[i] in order;
    }
  }

  /** What was drawn first is covered only by what is drawn last, so all patterns show in the end. */
  lemma PatternsShown(version: Version, drawn: Grid, masked: Grid, r: Grid, done: Grid, r': Grid)
    requires Square(drawn, Size(version)) && Square(masked, Size(version)) && Square(done, Size(version))
    requires Square(r, Size(version)) && Square(r', Size(version))
    requires ShowsPatterns(drawn, version) && Reserves(r, version)
    requires forall c :: Inside(Size(version), c) && IsFunction(version, c) ==>
               Get(masked, Size(version), c) == Get(drawn, Size(version), c)
    requires Inked(Size(version), masked, r, done, r', FormatInks(Size(version)))
    ensures ShowsPatterns(done, version) && Reserves(r', version)
  {
    hide FunctionInk, FormatInk, Get;
    FunctionModules(version);
  }

  /** The last steps, taken together. */
  lemma FinishedReads(version: Version, data: seq<Byte>, drawn: Grid, filled: Grid, masked: Grid, r: Grid, done: Grid,
                      r': Grid)
    requires Square(drawn, Size(version)) && Square(filled, Size(version)) && Square(masked, Size(version))
    requires Square(r, Size(version)) && Square(done, Size(version)) && Square(r', Size(version))
    requires FitsIn(|data|, CountBits(version), Capacity(version))
    requires ShowsPatterns(drawn, version) && Reserves(r, version)
    requires Filled(Size(version), version, drawn, filled, Walk(Size(version), StripCount(Size(version))),
                    ByteBits(SymbolCodewords(data, version)))
    requires TurnedOver(Size(version), filled, r, masked)
    requires Inked(Size(version), masked, r, done, r', FormatInks(Size(version)))
    ensures ShowsPatterns(done, version) && Reserves(r', version) && ReadSymbol(done) == Some(data)
  {
    hide ShowsPatterns, Reserves, Filled, TurnedOver, Inked, Carries, Walk, ByteBits, SymbolCodewords, FitsIn;
    hide ReadSymbol;
    hide IsFunction, Get, CountBits, Capacity, FormatInks, Square;
    var bits := ByteBits(SymbolCodewords(data, version));
    MaskedBits(version, drawn, filled, masked, r, bits);
    FormatKeepsData(version, masked, r, done, r', bits);
    PatternsShown(version, drawn, masked, r, done, r');
    SymbolRoundTrip(done, version, data);
  }

  method ComputeVersionWord(version: Version) returns (value: nat)
    ensures value == VersionWord(version)
  {
    hide Xor;
    value := version;
    for k := 0 to 12
      invariant value == VersionRounds(version, k)
    {
      value := Xor(2 * value, value / 2048 * 0x1F25);
    }
    value := version * 4096 + value;
  }

  method BuildCodewords(data: seq<Byte>, version: Version) returns (codewords: seq<Byte>)
    requires Fits(|data|, version)
    ensures FitsIn(|data|, CountBits(version), Capacity(version))
    ensures codewords == SymbolCodewords(data, version)
  {
    var dataCodewords := EncodeData(data, version);
    codewords := InterleaveBlocks(dataCodewords, VersionLayout(version));
  }

  /** Centre pair (i, j) adds exactly its own pattern. */
  lemma NextAlignment(version: Version, i: nat, j: nat, c: Cell)
    requires i < AlignmentCount(version) && j < AlignmentCount(version)
    ensures var p := AlignmentPositions(version);
            var square := if CornerCentre(Size(version), p[i], p[j]) then None else SquareInk(p[i], p[j], c);
            AlignmentUpTo(version, i + 1, j, c) == Over(square, AlignmentUpTo(version, i, j, c))
  {
    hide Spaced, AlignmentPositions, Near;
    var p := AlignmentPositions(version);
    PositionsSpaced(version);
    if Abs(c.x - p[i]) <= 2 {
      NearUnique(p, |p|, c.x, i, Size(version));
    }
    if Abs(c.y - p[j]) <= 2 {
      NearUnique(p, |p|, c.y, j, Size(version));
    }
  }

  lemma AlignmentEdges(version: Version)
    ensures forall c :: AlignmentUpTo(version, 0, 0, c) == None
    ensures forall c, j ::
              AlignmentUpTo(version, |AlignmentPositions(version)|, j, c) == AlignmentUpTo(version, 0, j + 1, c)
    ensures forall c :: AlignmentUpTo(version, 0, |AlignmentPositions(version)|, c) == AlignmentInk(version, c)
  {
    hide AlignmentPositions;
  }

  lemma FinderNext(x: int, y: int, dx: int, dy: int, c: Cell)
    requires -4 <= dx <= 4 && -4 <= dy <= 4
    ensures var distance := Max(Abs(dx), Abs(dy));
      FinderUpTo(x, y, dx + 1, dy, c) ==
        if c == Cell(x + dx, y + dy) then Some(distance != 2 && distance != 4) else FinderUpTo(x, y, dx, dy, c)
  {
    if c.y == y + dy && c.x == x + dx {
      assert c == Cell(x + dx, y + dy);
    }
  }

  lemma FinderEdges(x: int, y: int)
    ensures forall c :: FinderUpTo(x, y, -4, -4, c) == None
    ensures forall c, dy :: FinderUpTo(x, y, 5, dy, c) == FinderUpTo(x, y, -4, dy + 1, c)
    ensures forall c :: FinderUpTo(x, y, -4, 5, c) == FinderInk(x, y, c)
  {}

  lemma VersionInkAbsent(version: Version)
    ensures version < 7 ==> forall c :: VersionInk(version, c).None?
  {}

  lemma FunctionModules(version: Version)
    ensures forall c :: IsFunction(version, c) <==> FunctionInk(version, c).Some?
    ensures forall c :: FormatInk(Size(version), c).Some? ==> FunctionInk(version, c) == FormatInk(Size(version), c)
  {
    hide AlignmentInk, FinderInk, TimingInk, FORMAT_WORD, VersionWord;
  }

  class Qr {
    const version: Version
    const size: nat
    var modules: Grid
    var reserved: Grid

    ghost predicate Valid()
      reads this
    {
      size == Size(version) && Square(modules, size) && Square(reserved, size)
    }

    /** The finished symbol shows its function patterns, reserves exactly them, and reads as the payload. */
    constructor (version: Version, data: seq<Byte>)
      requires Fits(|data|, version)
      ensures Valid() && this.version == version
      ensures Reserves(reserved, version) && ShowsPatterns(modules, version)
      ensures ReadSymbol(modules) == Some(data)
    {
      this.version := version;
      size := Size(version);
      modules := Blank(Size(version));
      reserved := Blank(Size(version));
      new;
      ghost var blank := modules;
      hide Reserves, ShowsPatterns, Filled, TurnedOver, Inked, ReadSymbol, Fits, FitsIn, SymbolCodewords, ByteBits;
      hide Walk;
      hide FunctionInks, FormatInks, Blank, Square, Get, Inside;
      DrawFunctions();
      DrawnPatterns(version, blank, blank, modules, reserved);
      ghost var drawn, r := modules, reserved;
      var codewords := BuildCodewords(data, version);
      DrawData(codewords);
      ghost var filled := modules;
      Mask();
      ghost var masked := modules;
      Format();
      FinishedReads(version, data, drawn, filled, masked, r, modules, reserved);
    }

    method SetFunction(x: int, y: int, dark: bool)
      requires Valid()
      modifies this
      ensures Valid()
      ensures Inked(size, old(modules), old(reserved), modules, reserved,
                    c => if c == Cell(x, y) then Some(dark) else None)
    {
      if 0 <= x < size && 0 <= y < size {
        modules := Put(modules, size, Cell(x, y), dark);
        reserved := Put(reserved, size, Cell(x, y), true);
      }
    }

    method Finder(x: int, y: int)
      requires Valid()
      modifies this
      ensures Valid()
      ensures Inked(size, old(modules), old(reserved), modules, reserved, c => FinderInk(x, y, c))
    {
      hide Get, Square, FinderUpTo, FinderInk;
      FinderEdges(x, y);
      for dy := -4 to 5
        invariant Valid()
        invariant Inked(size, old(modules), old(reserved), modules, reserved, c => FinderUpTo(x, y, -4, dy, c))
      {
        for dx := -4 to 5
          invariant Valid()
          invariant Inked(size, old(modules), old(reserved), modules, reserved, c => FinderUpTo(x, y, dx, dy, c))
        {
          var distance := Max(Abs(dx), Abs(dy));
          forall c
            ensures FinderUpTo(x, y, dx + 1, dy, c) ==
                      if c == Cell(x + dx, y + dy) then Some(distance != 2 && distance != 4)
                      else FinderUpTo(x, y, dx, dy, c)
          {
            FinderNext(x, y, dx, dy, c);
          }
          SetFunction(x + dx, y + dy, distance != 2 && distance != 4);
        }
      }
    }

    method Alignment(x: int, y: int)
      requires Valid()
      modifies this
      ensures Valid()
      ensures Inked(size, old(modules), old(reserved), modules, reserved, c => SquareInk(x, y, c))
    {
      hide Get, Square;
      for dy := -2 to 3
        invariant Valid()
        invariant Inked(size, old(modules), old(reserved), modules, reserved, c => SquareUpTo(x, y, -2, dy, c))
      {
        for dx := -2 to 3
          invariant Valid()
          invariant Inked(size, old(modules), old(reserved), modules, reserved, c => SquareUpTo(x, y, dx, dy, c))
        {
          SetFunction(x + dx, y + dy, Max(Abs(dx), Abs(dy)) != 1);
        }
      }
    }

    method Timing()
      requires Valid()
      modifies this
      ensures Valid()
      ensures Inked(size, old(modules), old(reserved), modules, reserved, c => TimingInk(size, c))
    {
      for i := 0 to size
        invariant Valid()
        invariant Inked(size, old(modules), old(reserved), modules, reserved, c => TimingUpTo(size, i, c))
      {
        SetFunction(6, i, i % 2 == 0);
        SetFunction(i, 6, i % 2 == 0);
      }
    }

    method Format()
      requires Valid()
      modifies this
      ensures Valid()
      ensures Inked(size, old(modules), old(reserved), modules, reserved, FormatInks(size))
    {
      hide Get, Square, FORMAT_WORD, Bit;
      for i := 0 to 15
        invariant Valid()
        invariant Inked(size, old(modules), old(reserved), modules, reserved, c => FormatUpTo(size, i, c))
      {
        var bit := Bit(FORMAT_WORD, i) == 1;
        SetFunction(8, if i < 6 then i else if i < 8 then i + 1 else size - 15 + i, bit);
        SetFunction(if i < 8 then size - 1 - i else if i < 9 then 15 - i else 14 - i, 8, bit);
      }
      SetFunction(8, size - 8, true);
    }

    /** The alignment patterns at all pairs of centres but the finder corners. */
    method Alignments()
      requires Valid()
      modifies this
      ensures Valid()
      ensures Inked(size, old(modules), old(reserved), modules, reserved, c => AlignmentInk(version, c))
    {
      hide Near, AlignmentPositions, Get, Square, AlignmentUpTo, AlignmentInk, SquareInk;
      AlignmentEdges(version);
      var positions := AlignmentPositions(version);
      for j := 0 to |positions|
        invariant Valid()
        invariant Inked(size, old(modules), old(reserved), modules, reserved, c => AlignmentUpTo(version, 0, j, c))
      {
        for i := 0 to |positions|
          invariant Valid()
          invariant Inked(size, old(modules), old(reserved), modules, reserved, c => AlignmentUpTo(version, i, j, c))
        {
          var x, y := positions[i], positions[j];
          forall c
            ensures AlignmentUpTo(version, i + 1, j, c)
                 == Over(if CornerCentre(size, x, y) then None else SquareInk(x, y, c), AlignmentUpTo(version, i, j, c))
          {
            NextAlignment(version, i, j, c);
          }
          if !((x == 6 && (y == 6 || y == size - 7)) || (x == size - 7 && y == 6)) {
            Alignment(x, y);
          }
        }
      }
    }

    method VersionInfo()
      requires Valid() && version >= 7
      modifies this
      ensures Valid()
      ensures Inked(size, old(modules), old(reserved), modules, reserved, c => VersionInk(version, c))
    {
      hide VersionWord, Get, Square, Bit;
      var value := ComputeVersionWord(version);
      for i := 0 to 18
        invariant Valid()
        invariant Inked(size, old(modules), old(reserved), modules, reserved, c => VersionUpTo(version, i, c))
      {
        var bit := Bit(value, i) == 1;
        var a, b := size - 11 + i % 3, i / 3;
        SetFunction(a, b, bit);
        SetFunction(b, a, bit);
      }
    }

    method DrawFunctions()
      requires Valid()
      modifies this
      ensures Valid()
      ensures Inked(size, old(modules), old(reserved), modules, reserved, FunctionInks(version))
    {
      hide TimingInk, FinderInk, AlignmentInk, FormatInk, VersionInk, Get, Square;
      VersionInkAbsent(version);
      Timing();
      Finder(3, 3);
      Finder(size - 4, 3);
      Finder(3, size - 4);
      Alignments();
      Format();
      if version >= 7 {
        VersionInfo();
      }
    }

    /** Every module that is not reserved takes the next bit, in zigzag order; after the last bit, zero. */
    method DrawData(codewords: seq<Byte>)
      requires Valid()
      requires Reserves(reserved, version)
      modifies this`modules
      ensures Valid()
      ensures Filled(size, version, old(modules), modules, Walk(size, StripCount(size)), ByteBits(codewords))
    {
      hide IsFunction, DataOnly, Filled, Strip, ByteBits, Walk, Frontier, RightColumn, StripCount;
      FilledInitially(size, version, modules, ByteBits(codewords));
      WalkStarts(size);
      var bits := ByteBits(codewords);
      var next := 0;
      var upward := true;
      var right: int := size - 1;
      ghost var s := 0;
      while right >= 1
        invariant Valid()
        invariant s <= StripCount(size) && right == Frontier(size, s) && upward == (s % 2 == 0)
        invariant Filled(size, version, old(modules), modules, Walk(size, s), bits)
        invariant next == |DataOnly(version, Walk(size, s))|
        decreases right
      {
        FrontierStep(size, s);
        if right == 6 {
          right := 5;
        }
        next := DrawStrip(old(modules), s, right, upward, bits, next);
        upward := !upward;
        right := right - 2;
        s := s + 1;
      }
      FrontierEnds(size, s);
    }

    /** One strip, two modules a row. */
    method DrawStrip(ghost m0: Grid, ghost s: nat, right: int, upward: bool, bits: seq<bool>, next: nat)
        returns (after: nat)
      requires Valid() && s < StripCount(size) && right == RightColumn(size, s) && upward == (s % 2 == 0)
      requires Reserves(reserved, version)
      requires Square(m0, size) && Filled(size, version, m0, modules, Walk(size, s), bits)
      requires next == |DataOnly(version, Walk(size, s))|
      modifies this`modules
      ensures Valid()
      ensures Filled(size, version, m0, modules, Walk(size, s) + Strip(size, s, size), bits)
      ensures after == |DataOnly(version, Walk(size, s) + Strip(size, s, size))|
    {
      hide IsFunction, DataOnly, Filled, Walk;
      ghost var before := Walk(size, s);
      assert before + Strip(size, s, 0) == before;
      after := next;
      for vert := 0 to size
        invariant Valid()
        invariant Filled(size, version, m0, modules, before + Strip(size, s, vert), bits)
        invariant after == |DataOnly(version, before + Strip(size, s, vert))|
      {
        StepIsNew(size, s, vert);
        ghost var done := before + Strip(size, s, vert);
        var y := if upward then size - 1 - vert else vert;
        after := PlaceBit(m0, done, Cell(right, y), bits, after);
        after := PlaceBit(m0, done + [Cell(right, y)], Cell(right - 1, y), bits, after);
        assert done + [Cell(right, y)] + [Cell(right - 1, y)] == before + Strip(size, s, vert + 1);
      }
    }

    method PlaceBit(ghost m0: Grid, ghost done: seq<Cell>, c: Cell, bits: seq<bool>, next: nat) returns (after: nat)
      requires Valid() && Inside(size, c) && Get(reserved, size, c) == IsFunction(version, c)
      requires Square(m0, size) && Filled(size, version, m0, modules, done, bits)
      requires c !in done && next == |DataOnly(version, done)|
      modifies this`modules
      ensures Valid()
      ensures Filled(size, version, m0, modules, done + [c], bits)
      ensures after == |DataOnly(version, done + [c])|
    {
      hide IsFunction, Filled;
      FilledStep(size, version, m0, modules, done, bits, c);
      after := next;
      if !reserved[c.y][c.x] {
        modules := Put(modules, size, c, next < |bits| && bits[next]);
        after := next + 1;
      }
    }

    method Mask()
      requires Valid()
      modifies this`modules
      ensures Valid()
      ensures TurnedOver(size, old(modules), reserved, modules)
    {
      for y := 0 to size
        invariant Valid()
        invariant forall c :: Inside(size, c) ==>
                    Get(modules, size, c) ==
                      (Get(old(modules), size, c) != (c.y < y && !Get(reserved, size, c) && Masked(0, c)))
      {
        for x := 0 to size
          invariant Valid()
          invariant forall c :: Inside(size, c) ==>
                      Get(modules, size, c) == (Get(old(modules), size, c) !=
                        ((c.y < y || (c.y == y && c.x < x)) && !Get(reserved, size, c) && Masked(0, c)))
        {
          var c := Cell(x, y);
          if !reserved[y][x] {
            modules := Put(modules, size, c, modules[y][x] != ((x + y) % 2 == 0));
          }
        }
      }
    }
  }
}
