/** The zigzag order in which data modules are visited. */
module QrWalk {
  import opened QrData
  import opened QrGeometry

  /** The two-module wide strips, counted from the right edge. */
  function StripCount(size: nat): nat {
    size / 2
  }

  /** The right column of strip c, the vertical timing column being skipped. */
  function RightColumn(size: nat, c: nat): int {
    if size - 1 - 2 * c > 6 then size - 1 - 2 * c else size - 2 - 2 * c
  }

  /** The row of step k: upward in even strips, downward in odd ones. */
  function RowAt(size: nat, c: nat, k: nat): int {
    if c % 2 == 0 then size - 1 - k else k
  }

  /** The first k steps of strip c. */
  function Strip(size: nat, c: nat, k: nat): seq<Cell> {
    if k == 0 then []
    else
      var y := RowAt(size, c, k - 1);
      Strip(size, c, k - 1) + [Cell(RightColumn(size, c), y), Cell(RightColumn(size, c) - 1, y)]
  }

  /** The first c strips. */
  function Walk(size: nat, c: nat): seq<Cell> {
    if c == 0 then [] else Walk(size, c - 1) + Strip(size, c - 1, size)
  }

  ghost predicate NoDuplicates(s: seq<Cell>) {
    forall i, j :: 0 <= i < j < |s| ==> s[i] != s[j]
  }

  /** The modules of a sequence that are not function modules. */
  function DataOnly(version: Version, cells: seq<Cell>): seq<Cell> {
    if cells == [] then []
    else
      var c := cells[|cells| - 1];
      DataOnly(version, cells[..|cells| - 1]) + (if IsFunction(version, c) then [] else [c])
  }

  /** The order in which the data modules of a symbol are filled. */
  function DataOrder(version: Version): seq<Cell> {
    DataOnly(version, Walk(Size(version), StripCount(Size(version))))
  }

  // ---- every module off the timing column is visited exactly once ----

  predicate InStrip(size: nat, c: nat, k: nat, cell: Cell) {
    && RightColumn(size, c) - 1 <= cell.x <= RightColumn(size, c)
    && (if c % 2 == 0 then size - k <= cell.y < size else 0 <= cell.y < k)
  }

  lemma {:induction false} StripCells(size: nat, c: nat, k: nat)
    requires k <= size
    ensures forall cell :: cell in Strip(size, c, k) <==> InStrip(size, c, k, cell)
    ensures NoDuplicates(Strip(size, c, k))
  {
    if k > 0 {
      StripCells(size, c, k - 1);
      var x, y := RightColumn(size, c), RowAt(size, c, k - 1);
      assert [Cell(x, y), Cell(x - 1, y)][0] != [Cell(x, y), Cell(x - 1, y)][1];
      JoinDistinct(Strip(size, c, k - 1), [Cell(x, y), Cell(x - 1, y)]);
    }
  }

  /** Right of which column everything has been visited after c strips. */
  function Frontier(size: nat, c: nat): int {
    if size - 1 - 2 * c >= 6 then size - 1 - 2 * c else size - 2 - 2 * c
  }

  lemma WalkStarts(size: nat)
    ensures Walk(size, 0) == [] && (size >= 7 ==> Frontier(size, 0) == size - 1)
  {}

  /** One strip further, in a symbol of odd size. */
  lemma FrontierStep(size: nat, c: nat)
    requires size % 2 == 1 && c <= StripCount(size) && Frontier(size, c) >= 1
    ensures c < StripCount(size) && Walk(size, c + 1) == Walk(size, c) + Strip(size, c, size)
    ensures RightColumn(size, c) == (if Frontier(size, c) == 6 then 5 else Frontier(size, c))
    ensures Frontier(size, c + 1) == RightColumn(size, c) - 2
  {}

  lemma FrontierEnds(size: nat, c: nat)
    requires size % 2 == 1 && c <= StripCount(size) && Frontier(size, c) < 1
    ensures c == StripCount(size)
  {}

  predicate InWalk(size: nat, c: nat, cell: Cell) {
    Inside(size, cell) && cell.x > Frontier(size, c) && cell.x != 6
  }

  lemma {:induction false} WalkCells(size: nat, c: nat)
    requires size % 4 == 1 && size >= 21 && c <= StripCount(size)
    ensures forall cell :: cell in Walk(size, c) <==> InWalk(size, c, cell)
    ensures NoDuplicates(Walk(size, c))
  {
    if c > 0 {
      WalkCells(size, c - 1);
      StripCells(size, c - 1, size);
      AppendStrip(size, c, Walk(size, c - 1), Strip(size, c - 1, size));
    }
  }

  lemma AppendStrip(size: nat, c: nat, walk: seq<Cell>, strip: seq<Cell>)
    requires size % 4 == 1 && size >= 21 && 0 < c <= StripCount(size)
    requires forall cell :: cell in walk <==> InWalk(size, c - 1, cell)
    requires forall cell :: cell in strip <==> InStrip(size, c - 1, size, cell)
    requires NoDuplicates(walk) && NoDuplicates(strip)
    ensures forall cell :: cell in walk + strip <==> InWalk(size, c, cell)
    ensures NoDuplicates(walk + strip)
  {
    hide NoDuplicates, InWalk, InStrip;
    forall cell
      ensures InWalk(size, c, cell) <==> InWalk(size, c - 1, cell) || InStrip(size, c - 1, size, cell)
      ensures !(InWalk(size, c - 1, cell) && InStrip(size, c - 1, size, cell))
    {
      NextStripCell(size, c, cell);
    }
    forall cell
      ensures !(cell in walk && cell in strip)
    {
      NextStripCell(size, c, cell);
    }
    JoinDistinct(walk, strip);
  }

  lemma NextStripCell(size: nat, c: nat, cell: Cell)
    requires size % 4 == 1 && size >= 21 && 0 < c <= StripCount(size)
    ensures InWalk(size, c, cell) <==> InWalk(size, c - 1, cell) || InStrip(size, c - 1, size, cell)
    ensures !(InWalk(size, c - 1, cell) && InStrip(size, c - 1, size, cell))
  {}

  lemma JoinDistinct(a: seq<Cell>, b: seq<Cell>)
    requires NoDuplicates(a) && NoDuplicates(b)
    requires forall c :: !(c in a && c in b)
    ensures NoDuplicates(a + b)
  {
    forall i, j | 0 <= i < j < |a + b|
      ensures (a + b)[i] != (a + b)[j]
    {
      if i < |a| <= j {
        assert (a + b)[i] in a && (a + b)[j] in b;
      }
    }
  }

  // ---- the data modules ----

  lemma {:induction false} DataOnlyCells(version: Version, cells: seq<Cell>)
    ensures forall c :: c in DataOnly(version, cells) <==> c in cells && !IsFunction(version, c)
    ensures NoDuplicates(cells) ==> NoDuplicates(DataOnly(version, cells))
  {
    hide IsFunction;
    if cells != [] {
      var n := |cells| - 1;
      DataOnlyCells(version, cells[..n]);
      assert cells == cells[..n] + [cells[n]];
      if NoDuplicates(cells) {
        assert cells[n] !in cells[..n];
        JoinDistinct(DataOnly(version, cells[..n]), [cells[n]]);
      }
    }
  }

  lemma {:induction false} DistinctCount(s: seq<Cell>)
    requires NoDuplicates(s)
    ensures |set c | c in s| == |s|
  {
    if s == [] {
      assert (set c | c in s) == {};
    } else {
      var n := |s| - 1;
      DistinctCount(s[..n]);
      assert s == s[..n] + [s[n]];
      assert (set c | c in s) == (set c | c in s[..n]) + {s[n]};
      assert s[n] !in s[..n];
    }
  }

  /** The walk passes every data module exactly once, and there are as many as the capacity formula counts. */
  lemma DataOrderIsComplete(version: Version)
    ensures forall c :: c in DataOrder(version) <==> Inside(Size(version), c) && !IsFunction(version, c)
    ensures NoDuplicates(DataOrder(version))
    ensures |DataOrder(version)| == RawModules(version)
  {
    hide IsFunction, RawModules, Walk, DataOnly, DataCells, NoDuplicates, AlignmentPositions;
    var size := Size(version);
    var n := StripCount(size);
    WalkCells(size, n);
    DataOnlyCells(version, Walk(size, n));
    forall c: Cell | Inside(size, c) && c.x == 6
      ensures IsFunction(version, c)
    {
      TimingLineMembership(version, c);
    }
    DataCellCount(version);
    DistinctCount(DataOrder(version));
    assert (set c | c in DataOrder(version)) == DataCells(version);
  }
}
