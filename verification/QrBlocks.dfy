/** Splitting the data codewords into Reed-Solomon blocks and interleaving them. */
module QrBlocks {
  import opened Gf256
  import opened ReedSolomon

  /** How many blocks, error-correction bytes per block and codewords in all a symbol has. */
  datatype Layout = Layout(blocks: nat, eccLen: nat, raw: nat) {

    predicate Valid() {
      blocks >= 1 && eccLen >= 1 && raw / blocks >= eccLen
    }

    /** The number of blocks that are one data byte shorter than the rest. */
    function NumShort(): (n: nat)
      requires Valid()
      ensures 1 <= n <= blocks
    {
      blocks - raw % blocks
    }

    function ShortDataLen(): nat
      requires Valid()
    {
      raw / blocks - eccLen
    }

    function BlockLen(i: nat): nat
      requires Valid()
    {
      ShortDataLen() + (if i < NumShort() then 0 else 1)
    }

    function Offset(i: nat): nat
      requires Valid()
    {
      if i == 0 then 0 else Offset(i - 1) + BlockLen(i - 1)
    }

    function Capacity(): nat
      requires Valid()
    {
      Offset(blocks)
    }

    lemma {:induction false} OffsetClosedForm(i: nat)
      requires Valid()
      ensures Offset(i) == i * ShortDataLen() + (if i < NumShort() then 0 else i - NumShort())
    {
      if i > 0 {
        OffsetClosedForm(i - 1);
      }
    }

    /** The blocks take up exactly the codewords that are not error correction. */
    lemma CapacityIsRest()
      requires Valid()
      ensures Capacity() + blocks * eccLen == raw
    {
      OffsetClosedForm(blocks);
      assert raw == blocks * (raw / blocks) + raw % blocks;
      assert blocks * ShortDataLen() == blocks * (raw / blocks) - blocks * eccLen;
    }

    lemma {:induction false} OffsetMonotone(i: nat, j: nat)
      requires Valid() && i <= j
      ensures Offset(i) <= Offset(j)
    {
      if i < j {
        OffsetMonotone(i, j - 1);
      }
    }
  }

  function Block(data: seq<Byte>, layout: Layout, i: nat): (block: seq<Byte>)
    requires layout.Valid() && |data| == layout.Capacity() && i < layout.blocks
    ensures |block| == layout.BlockLen(i)
  {
    layout.OffsetMonotone(i + 1, layout.blocks);
    data[layout.Offset(i)..layout.Offset(i + 1)]
  }

  function DataBlocks(data: seq<Byte>, layout: Layout): (blocks: seq<seq<Byte>>)
    requires layout.Valid() && |data| == layout.Capacity()
    ensures |blocks| == layout.blocks
  {
    seq(layout.blocks, i requires 0 <= i < layout.blocks => Block(data, layout, i))
  }

  function EccBlocks(blocks: seq<seq<Byte>>, divisor: seq<Byte>): (ecc: seq<seq<Byte>>)
    requires |divisor| >= 1
    ensures |ecc| == |blocks|
    ensures forall i :: 0 <= i < |ecc| ==> |ecc[i]| == |divisor|
  {
    seq(|blocks|, i requires 0 <= i < |blocks| => RemainderOf(blocks[i], divisor))
  }

  /** Byte j of each of the first k blocks that has one. */
  function Column(blocks: seq<seq<Byte>>, j: nat, k: nat): seq<Byte>
    requires k <= |blocks|
  {
    if k == 0 then []
    else Column(blocks, j, k - 1) + (if j < |blocks[k - 1]| then [blocks[k - 1][j]] else [])
  }

  function Interleave(blocks: seq<seq<Byte>>, n: nat): seq<Byte> {
    if n == 0 then [] else Interleave(blocks, n - 1) + Column(blocks, n - 1, |blocks|)
  }

  function Codewords(data: seq<Byte>, layout: Layout): seq<Byte>
    requires layout.Valid() && |data| == layout.Capacity()
  {
    var blocks := DataBlocks(data, layout);
    Interleave(blocks, layout.ShortDataLen() + 1)
    + Interleave(EccBlocks(blocks, Generator(layout.eccLen, layout.eccLen)), layout.eccLen)
  }

  // ---- a reader that knows only the layout ----

  /** Where the transmitted sequence holds data byte j of block i. */
  function DataPosition(layout: Layout, i: nat, j: nat): int
    requires layout.Valid()
  {
    j * layout.blocks + (if j < layout.ShortDataLen() then i else i - layout.NumShort())
  }

  function EccPosition(layout: Layout, i: nat, j: nat): int
    requires layout.Valid()
  {
    layout.Capacity() + j * layout.blocks + i
  }

  function At(codewords: seq<Byte>, position: int): Byte {
    if 0 <= position < |codewords| then codewords[position] else 0
  }

  function ReadData(codewords: seq<Byte>, layout: Layout, i: nat): seq<Byte>
    requires layout.Valid()
  {
    seq(layout.BlockLen(i), j requires 0 <= j < layout.BlockLen(i) => At(codewords, DataPosition(layout, i, j)))
  }

  function ReadEcc(codewords: seq<Byte>, layout: Layout, i: nat): seq<Byte>
    requires layout.Valid()
  {
    seq(layout.eccLen, j requires 0 <= j < layout.eccLen => At(codewords, EccPosition(layout, i, j)))
  }

  /** The data of the first k blocks, in block order. */
  function Deinterleave(codewords: seq<Byte>, layout: Layout, k: nat): seq<Byte>
    requires layout.Valid()
  {
    if k == 0 then [] else Deinterleave(codewords, layout, k - 1) + ReadData(codewords, layout, k - 1)
  }

  // ---- positions ----

  lemma {:induction false} FullColumn(blocks: seq<seq<Byte>>, j: nat, k: nat)
    requires k <= |blocks|
    requires forall i :: 0 <= i < k ==> j < |blocks[i]|
    ensures |Column(blocks, j, k)| == k
    ensures forall i :: 0 <= i < k ==> Column(blocks, j, k)[i] == blocks[i][j]
  {
    if k > 0 {
      FullColumn(blocks, j, k - 1);
    }
  }

  /** The last column has a byte of the long blocks only. */
  lemma {:induction false} PartialColumn(blocks: seq<seq<Byte>>, j: nat, k: nat, short: nat)
    requires k <= |blocks|
    requires forall i :: 0 <= i < k ==> (j < |blocks[i]| <==> short <= i)
    ensures |Column(blocks, j, k)| == if k < short then 0 else k - short
    ensures forall i :: short <= i < k ==> Column(blocks, j, k)[i - short] == blocks[i][j]
  {
    if k > 0 {
      PartialColumn(blocks, j, k - 1, short);
    }
  }

  lemma {:induction false} InterleavedLength(blocks: seq<seq<Byte>>, n: nat)
    requires forall i :: 0 <= i < |blocks| ==> n <= |blocks[i]|
    ensures |Interleave(blocks, n)| == n * |blocks|
  {
    hide Column;
    if n > 0 {
      var m := |blocks|;
      InterleavedLength(blocks, n - 1);
      FullColumn(blocks, n - 1, m);
      assert n * m == (n - 1) * m + m;
    }
  }

  lemma IndexInRows(j: nat, i: nat, m: nat, n: nat)
    requires i < m && j < n
    ensures 0 <= j * m + i < n * m
  {
    assert (j + 1) * m <= n * m;
  }

  lemma {:induction false} InterleavedAt(blocks: seq<seq<Byte>>, n: nat, j: nat, i: nat)
    requires forall b :: 0 <= b < |blocks| ==> n <= |blocks[b]|
    requires j < n && i < |blocks|
    ensures 0 <= j * |blocks| + i < |Interleave(blocks, n)|
    ensures Interleave(blocks, n)[j * |blocks| + i] == blocks[i][j]
  {
    InterleavedLength(blocks, n);
    InterleavedLength(blocks, n - 1);
    IndexInRows(j, i, |blocks|, n);
    FullColumn(blocks, n - 1, |blocks|);
    if j < n - 1 {
      InterleavedAt(blocks, n - 1, j, i);
    }
  }

  lemma DataPart(data: seq<Byte>, layout: Layout)
    requires layout.Valid() && |data| == layout.Capacity()
    ensures |Interleave(DataBlocks(data, layout), layout.ShortDataLen() + 1)| == layout.Capacity()
  {
    var blocks, l := DataBlocks(data, layout), layout.ShortDataLen();
    InterleavedLength(blocks, l);
    PartialColumn(blocks, l, |blocks|, layout.NumShort());
    layout.OffsetClosedForm(layout.blocks);
  }

  /** Every data byte is where the layout puts it. */
  lemma DataByteAt(data: seq<Byte>, layout: Layout, i: nat, j: nat)
    requires layout.Valid() && |data| == layout.Capacity()
    requires i < layout.blocks && j < layout.BlockLen(i)
    ensures At(Codewords(data, layout), DataPosition(layout, i, j)) == Block(data, layout, i)[j]
  {
    hide Generator, RemainderOf, Column, Block, Layout.Capacity;
    var l := layout.ShortDataLen();
    DataPart(data, layout);
    if j < l {
      InterleavedAt(DataBlocks(data, layout), l, j, i);
    } else {
      LastDataByteAt(data, layout, i);
    }
  }

  lemma LastDataByteAt(data: seq<Byte>, layout: Layout, i: nat)
    requires layout.Valid() && |data| == layout.Capacity()
    requires layout.NumShort() <= i < layout.blocks
    ensures var l := layout.ShortDataLen();
            var p := DataPosition(layout, i, l);
            var rows := Interleave(DataBlocks(data, layout), l + 1);
            0 <= p < |rows| && rows[p] == Block(data, layout, i)[l]
  {
    hide Column, Block;
    var blocks, l := DataBlocks(data, layout), layout.ShortDataLen();
    InterleavedLength(blocks, l);
    PartialColumn(blocks, l, |blocks|, layout.NumShort());
    assert Column(blocks, l, |blocks|)[i - layout.NumShort()] == blocks[i][l];
  }

  lemma EccByteAt(data: seq<Byte>, layout: Layout, i: nat, j: nat)
    requires layout.Valid() && |data| == layout.Capacity()
    requires i < layout.blocks && j < layout.eccLen
    ensures At(Codewords(data, layout), EccPosition(layout, i, j))
         == RemainderOf(Block(data, layout, i), Generator(layout.eccLen, layout.eccLen))[j]
  {
    hide Generator, RemainderOf;
    var blocks := DataBlocks(data, layout);
    var ecc := EccBlocks(blocks, Generator(layout.eccLen, layout.eccLen));
    DataPart(data, layout);
    InterleavedAt(ecc, layout.eccLen, j, i);
  }

  // ---- the main statements ----

  lemma CodewordCount(data: seq<Byte>, layout: Layout)
    requires layout.Valid() && |data| == layout.Capacity()
    ensures |Codewords(data, layout)| == layout.raw
  {
    hide Generator, RemainderOf;
    DataPart(data, layout);
    InterleavedLength(EccBlocks(DataBlocks(data, layout), Generator(layout.eccLen, layout.eccLen)), layout.eccLen);
    layout.CapacityIsRest();
  }

  lemma ReadBlock(data: seq<Byte>, layout: Layout, i: nat)
    requires layout.Valid() && |data| == layout.Capacity() && i < layout.blocks
    ensures ReadData(Codewords(data, layout), layout, i) == Block(data, layout, i)
    ensures ReadEcc(Codewords(data, layout), layout, i)
         == RemainderOf(Block(data, layout, i), Generator(layout.eccLen, layout.eccLen))
  {
    hide Generator, RemainderOf, Codewords, DataPosition, EccPosition, At;
    forall j | 0 <= j < layout.BlockLen(i)
      ensures At(Codewords(data, layout), DataPosition(layout, i, j)) == Block(data, layout, i)[j]
    {
      DataByteAt(data, layout, i, j);
    }
    forall j | 0 <= j < layout.eccLen
      ensures At(Codewords(data, layout), EccPosition(layout, i, j))
           == RemainderOf(Block(data, layout, i), Generator(layout.eccLen, layout.eccLen))[j]
    {
      EccByteAt(data, layout, i, j);
    }
  }

  lemma JoinSlices(data: seq<Byte>, a: nat, b: nat)
    requires a <= b <= |data|
    ensures data[..a] + data[a..b] == data[..b]
  {}

  /** De-interleaving gives the data codewords back, in order. */
  lemma {:induction false} DeinterleaveRoundTrip(data: seq<Byte>, layout: Layout, k: nat)
    requires layout.Valid() && |data| == layout.Capacity() && k <= layout.blocks
    ensures layout.Offset(k) <= |data|
    ensures Deinterleave(Codewords(data, layout), layout, k) == data[..layout.Offset(k)]
  {
    hide Codewords, ReadData, ReadEcc, Generator, RemainderOf, Layout.BlockLen;
    layout.OffsetMonotone(k, layout.blocks);
    if k > 0 {
      DeinterleaveRoundTrip(data, layout, k - 1);
      ReadBlock(data, layout, k - 1);
      layout.OffsetMonotone(k - 1, k);
      JoinSlices(data, layout.Offset(k - 1), layout.Offset(k));
    }
  }

  /** Each block as a reader collects it, data then error correction, is a Reed-Solomon codeword. */
  lemma ReceivedBlocksAreCodewords(data: seq<Byte>, layout: Layout, i: nat, k: nat)
    requires layout.Valid() && |data| == layout.Capacity()
    requires i < layout.blocks && k < layout.eccLen
    ensures var c := Codewords(data, layout);
            Eval(ReadData(c, layout, i) + ReadEcc(c, layout, i), Power(2, k)) == 0
  {
    hide Codewords, Generator, RemainderOf, Eval, Power;
    ReadBlock(data, layout, i);
    BlockIsCodeword(Block(data, layout, i), layout.eccLen, k);
  }

  // ---- the loops of the source ----

  method InterleaveBlocks(data: seq<Byte>, layout: Layout) returns (result: seq<Byte>)
    requires layout.Valid() && |data| == layout.Capacity()
    ensures result == Codewords(data, layout)
  {
    hide Generator, RemainderOf;
    var divisor := Divisor(layout.eccLen);
    var blocks: seq<seq<Byte>> := [];
    var eccs: seq<seq<Byte>> := [];
    var offset := 0;
    for i := 0 to layout.blocks
      invariant offset == layout.Offset(i)
      invariant |blocks| == |eccs| == i
      invariant forall b :: 0 <= b < i ==> blocks[b] == Block(data, layout, b)
      invariant forall b :: 0 <= b < i ==> eccs[b] == RemainderOf(blocks[b], divisor)
    {
      layout.OffsetMonotone(i + 1, layout.blocks);
      var length := layout.raw / layout.blocks - layout.eccLen + (if i < layout.NumShort() then 0 else 1);
      var block := data[offset..offset + length];
      var ecc := Remainder(block, divisor);
      blocks := blocks + [block];
      eccs := eccs + [ecc];
      offset := offset + length;
    }
    assert blocks == DataBlocks(data, layout);
    assert eccs == EccBlocks(blocks, divisor);
    var head := Columns(blocks, layout.ShortDataLen() + 1);
    var tail := Columns(eccs, layout.eccLen);
    result := head + tail;
  }

  /** The two nested loops over rows and blocks. */
  method Columns(blocks: seq<seq<Byte>>, n: nat) returns (result: seq<Byte>)
    ensures result == Interleave(blocks, n)
  {
    result := [];
    for i := 0 to n
      invariant result == Interleave(blocks, i)
    {
      ghost var before := result;
      for k := 0 to |blocks|
        invariant result == before + Column(blocks, i, k)
      {
        result := result + (if i < |blocks[k]| then [blocks[k][i]] else []);
      }
    }
  }
}
