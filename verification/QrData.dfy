/** Versions, capacities and the byte-mode data codewords of a level-L symbol. */
module QrData {
  import opened Bits
  import opened Gf256
  import opened Options

  const ECC_LEN: seq<nat> := [0, 7, 10, 15, 20, 26, 18, 20, 24, 30, 18, 20, 24, 26, 30, 22, 24, 28, 30, 28, 28]
  const NUM_BLOCKS: seq<nat> := [0, 1, 1, 1, 1, 1, 2, 2, 2, 2, 4, 4, 4, 4, 4, 6, 6, 6, 6, 7, 8]

  type Version = v: nat | 1 <= v <= 20 witness 1

  function RawModules(version: Version): int {
    var align := version / 7 + 2;
    (16 * version + 128) * version + 64
    - (if version >= 2 then (25 * align - 10) * align - 55 else 0)
    - (if version >= 7 then 36 else 0)
  }

  /** Every version has room for its error correction, and short blocks that hold data. */
  lemma RawModulesBounds(version: Version)
    ensures NUM_BLOCKS[version] >= 1 && ECC_LEN[version] >= 1
    ensures RawModules(version) >= 8 * NUM_BLOCKS[version] * (ECC_LEN[version] + 1) + 8
  {}

  function Capacity(version: Version): nat {
    RawModulesBounds(version);
    RawModules(version) / 8 - ECC_LEN[version] * NUM_BLOCKS[version]
  }

  function CountBits(version: Version): nat {
    if version <= 9 then 8 else 16
  }

  /** What fits can be counted in the length field. */
  lemma CapacityIsCountable(version: Version)
    ensures Capacity(version) < if version <= 9 then 256 else 65536
  {}

  /** A payload of this many bytes fits into `capacity` codewords after a count field of `countBits` bits. */
  predicate FitsIn(length: nat, countBits: nat, capacity: nat) {
    4 + countBits + 8 * length <= 8 * capacity && length < Pow2(countBits)
  }

  predicate Fits(length: nat, version: Version) {
    4 + CountBits(version) + length * 8 <= Capacity(version) * 8
  }

  lemma FitsVersion(length: nat, version: Version)
    requires Fits(length, version)
    ensures FitsIn(length, CountBits(version), Capacity(version))
  {
    hide Capacity;
    CapacityIsCountable(version);
    SizesOfCounts();
  }

  lemma SizesOfCounts()
    ensures Pow2(8) == 256 && Pow2(16) == 65536
  {
    assert Pow2(4) == 16;
    assert Pow2(12) == 4096;
  }

  // ---- bits ----

  /** The low `length` bits of value, most significant first. */
  function BitsOf(value: nat, length: nat): (bits: seq<bool>)
    ensures |bits| == length
  {
    if length == 0 then [] else BitsOf(value / 2, length - 1) + [value % 2 == 1]
  }

  function ValueOf(bits: seq<bool>): nat {
    if bits == [] then 0 else 2 * ValueOf(bits[..|bits| - 1]) + (if bits[|bits| - 1] then 1 else 0)
  }

  lemma {:induction false} ValueOfBits(value: nat, length: nat)
    requires value < Pow2(length)
    ensures ValueOf(BitsOf(value, length)) == value
  {
    if length > 0 {
      ValueOfBits(value / 2, length - 1);
    }
  }

  lemma {:induction false} BitsOfValue(bits: seq<bool>)
    ensures ValueOf(bits) < Pow2(|bits|)
    ensures BitsOf(ValueOf(bits), |bits|) == bits
  {
    if bits != [] {
      BitsOfValue(bits[..|bits| - 1]);
    }
  }

  /** Bit i from the most significant end is what (value >> (length - 1 - i)) & 1 yields. */
  lemma {:induction false} BitsOfIndex(value: nat, length: nat, i: nat)
    requires i < length
    ensures BitsOf(value, length)[i] == (Bit(value, length - 1 - i) == 1)
  {
    if i < length - 1 {
      BitsOfIndex(value / 2, length - 1, i);
    }
  }

  function ByteBits(bytes: seq<Byte>): (bits: seq<bool>)
    ensures |bits| == 8 * |bytes|
  {
    if bytes == [] then [] else ByteBits(bytes[..|bytes| - 1]) + BitsOf(bytes[|bytes| - 1], 8)
  }

  /** The bytes whose bits are the given ones. */
  function BitsToBytes(bits: seq<bool>): (bytes: seq<Byte>)
    ensures |bytes| == |bits| / 8
  {
    if |bits| < 8 then []
    else BitsToBytes(bits[..|bits| - 8]) + [ToByte(bits[|bits| - 8..])]
  }

  function ToByte(bits: seq<bool>): Byte
    requires |bits| == 8
  {
    BitsOfValue(bits);
    PowersOfTwo();
    ValueOf(bits)
  }

  lemma ToByteRoundTrip(bits: seq<bool>, byte: Byte)
    requires |bits| == 8
    ensures BitsOf(ToByte(bits), 8) == bits
    ensures bits == BitsOf(byte, 8) ==> ToByte(bits) == byte
  {
    BitsOfValue(bits);
    PowersOfTwo();
    ValueOfBits(byte, 8);
  }

  lemma {:induction false} BitsOfBytesOfBits(bits: seq<bool>, n: nat)
    requires |bits| == 8 * n
    ensures ByteBits(BitsToBytes(bits)) == bits
  {
    hide BitsOf, ToByte;
    if n > 0 {
      var init, last := bits[..|bits| - 8], bits[|bits| - 8..];
      BitsOfBytesOfBits(init, n - 1);
      ToByteRoundTrip(last, 0);
      assert bits == init + last;
      assert BitsToBytes(bits) == BitsToBytes(init) + [ToByte(last)];
    }
  }

  lemma {:induction false} BytesOfBitsOfBytes(bytes: seq<Byte>)
    ensures BitsToBytes(ByteBits(bytes)) == bytes
  {
    hide BitsOf, ToByte;
    if bytes != [] {
      var n := |bytes| - 1;
      var init, last := ByteBits(bytes[..n]), BitsOf(bytes[n], 8);
      BytesOfBitsOfBytes(bytes[..n]);
      ToByteRoundTrip(last, bytes[n]);
      assert ByteBits(bytes)[..8 * n] == init;
      assert ByteBits(bytes)[8 * n..] == last;
      assert bytes == bytes[..n] + [bytes[n]];
    }
  }

  lemma {:induction false} ByteBitsConcat(a: seq<Byte>, b: seq<Byte>)
    ensures ByteBits(a + b) == ByteBits(a) + ByteBits(b)
  {
    if b == [] {
      assert a + b == a;
    } else {
      var n := |b| - 1;
      assert (a + b)[..|a| + n] == a + b[..n];
      ByteBitsConcat(a, b[..n]);
    }
  }

  // ---- data codewords ----

  function Zeros(n: nat): seq<bool> {
    seq(n, _ => false)
  }

  function Min(a: int, b: int): int {
    if a <= b then a else b
  }

  const BYTE_MODE: seq<bool> := [false, true, false, false]

  lemma ByteModeBits()
    ensures BitsOf(4, 4) == BYTE_MODE
  {
    assert BitsOf(0, 1) == [false];
    assert BitsOf(1, 2) == [false, true];
    assert BitsOf(2, 3) == [false, true, false];
  }

  /** Mode indicator, character count and payload. */
  function Header(data: seq<Byte>, countBits: nat): (bits: seq<bool>)
    ensures |bits| == 4 + countBits + 8 * |data|
  {
    BYTE_MODE + BitsOf(|data|, countBits) + ByteBits(data)
  }

  /** The terminator (at most four zeros), then zeros up to a byte boundary. */
  function Closed(bits: seq<bool>, capacity: nat): (closed: seq<bool>)
    requires |bits| <= 8 * capacity
    ensures |closed| % 8 == 0 && |closed| <= 8 * capacity
    ensures bits <= closed
  {
    var t := bits + Zeros(Min(4, 8 * capacity - |bits|));
    t + Zeros(AlignmentGap(|t|, capacity))
  }

  /** -n % 8: the zeros that bring n bits to a byte boundary stay within the capacity. */
  function AlignmentGap(n: nat, capacity: nat): (gap: nat)
    requires n <= 8 * capacity
    ensures (n + gap) % 8 == 0 && n + gap <= 8 * capacity
    ensures gap == (8 - n % 8) % 8
  {
    if n % 8 == 0 then 0 else 8 - n % 8
  }

  /** The alternating pad bytes. */
  function Padding(n: nat): (pad: seq<Byte>)
    ensures |pad| == n
  {
    seq(n, i => if i % 2 == 0 then 0xEC else 0x11)
  }

  function DataCodewords(data: seq<Byte>, countBits: nat, capacity: nat): (result: seq<Byte>)
    requires FitsIn(|data|, countBits, capacity)
    ensures |result| == capacity
  {
    var content := BitsToBytes(Closed(Header(data, countBits), capacity));
    content + Padding(capacity - |content|)
  }

  /** The bits from `start` on, `length` of them, if there are that many. */
  function Slice(bits: seq<bool>, start: nat, length: nat): Option<seq<bool>> {
    if start + length <= |bits| then Some(bits[start..][..length]) else None
  }

  /** A byte-mode reader: mode, count, then that many bytes. */
  function Decode(codewords: seq<Byte>, countBits: nat): Option<seq<Byte>> {
    var bits := ByteBits(codewords);
    match Slice(bits, 4, countBits)
    case None => None
    case Some(count) =>
      if bits[..4] != BYTE_MODE then None
      else
        match Slice(bits, 4 + countBits, 8 * ValueOf(count))
        case None => None
        case Some(payload) => Some(BitsToBytes(payload))
  }

  lemma HeaderDecodes(data: seq<Byte>, countBits: nat, bits: seq<bool>)
    requires |data| < Pow2(countBits) && Header(data, countBits) <= bits
    ensures bits[..4] == BYTE_MODE
    ensures ValueOf(bits[4..][..countBits]) == |data|
    ensures bits[4 + countBits..][..8 * |data|] == ByteBits(data)
  {
    var h := Header(data, countBits);
    assert bits[..|h|] == h;
    assert h[4..4 + countBits] == BitsOf(|data|, countBits);
    assert bits[4..][..countBits] == h[4..4 + countBits];
    ValueOfBits(|data|, countBits);
    assert h[4 + countBits..] == ByteBits(data);
    assert bits[4 + countBits..][..8 * |data|] == h[4 + countBits..];
  }

  /** A reader of the data codewords gets the payload back. */
  lemma DataRoundTrip(data: seq<Byte>, countBits: nat, capacity: nat)
    requires FitsIn(|data|, countBits, capacity)
    ensures Decode(DataCodewords(data, countBits, capacity), countBits) == Some(data)
  {
    hide BitsToBytes, ByteBits, ValueOf, Closed, Header;
    var s := Closed(Header(data, countBits), capacity);
    var content := BitsToBytes(s);
    var pad := Padding(capacity - |content|);
    ByteBitsConcat(content, pad);
    BitsOfBytesOfBits(s, |s| / 8);
    HeaderDecodes(data, countBits, ByteBits(content + pad));
    BytesOfBitsOfBytes(data);
  }

  // ---- the loops of the source ----

  method AppendBits(bits: seq<bool>, value: nat, length: nat) returns (result: seq<bool>)
    ensures result == bits + BitsOf(value, length)
  {
    result := bits;
    var i := length;
    while i > 0
      invariant 0 <= i <= length
      invariant result == bits + BitsOf(value, length)[..length - i]
    {
      i := i - 1;
      BitsOfIndex(value, length, length - 1 - i);
      result := result + [Bit(value, i) == 1];
    }
  }

  method EncodeData(data: seq<Byte>, version: Version) returns (result: seq<Byte>)
    requires Fits(|data|, version)
    ensures FitsIn(|data|, CountBits(version), Capacity(version))
    ensures result == DataCodewords(data, CountBits(version), Capacity(version))
  {
    hide Capacity, BitsOf, BitsToBytes, Closed;
    FitsVersion(|data|, version);
    ByteModeBits();
    var capacity := Capacity(version);
    var bits := AppendBits([], 4, 4);
    bits := AppendBits(bits, |data|, CountBits(version));
    ghost var head := bits;
    for n := 0 to |data|
      invariant bits == head + ByteBits(data[..n])
    {
      assert data[..n + 1][..n] == data[..n];
      bits := AppendBits(bits, data[n], 8);
    }
    assert data[..|data|] == data;
    assert bits == Header(data, CountBits(version));
    bits := CloseBits(bits, capacity);
    result := PackBytes(bits);
    ghost var content := result;
    while |result| < capacity
      invariant |content| <= |result| <= capacity
      invariant result == content + Padding(|result| - |content|)
    {
      result := result + [if (|result| - |bits| / 8) % 2 == 0 then 0xEC else 0x11];
    }
  }

  method CloseBits(bits: seq<bool>, capacity: nat) returns (result: seq<bool>)
    requires |bits| <= 8 * capacity
    ensures result == Closed(bits, capacity)
  {
    result := bits + Zeros(Min(4, capacity * 8 - |bits|));
    result := result + Zeros((8 - |result| % 8) % 8);
  }

  /** One byte from every eight bits, most significant bit first. */
  method PackBytes(bits: seq<bool>) returns (result: seq<Byte>)
    requires |bits| % 8 == 0
    ensures result == BitsToBytes(bits)
  {
    result := [];
    var i := 0;
    while i < |bits|
      invariant 0 <= i <= |bits| && i % 8 == 0
      invariant result == BitsToBytes(bits[..i])
    {
      var value := PackByte(bits[i..i + 8]);
      assert bits[..i + 8][..i] == bits[..i];
      assert bits[..i + 8][i..] == bits[i..i + 8];
      result := result + [value];
      i := i + 8;
    }
    assert bits[..|bits|] == bits;
  }

  method PackByte(chunk: seq<bool>) returns (value: Byte)
    requires |chunk| == 8
    ensures value == ToByte(chunk)
  {
    var sum: nat := 0;
    for j := 0 to 8
      invariant sum == ValueOf(chunk[..j])
    {
      assert chunk[..j + 1][..j] == chunk[..j];
      sum := 2 * sum + (if chunk[j] then 1 else 0);
    }
    assert chunk[..8] == chunk;
    BitsOfValue(chunk);
    PowersOfTwo();
    assert sum == ToByte(chunk);
    value := sum;
  }

  /** The smallest version that holds the payload, or None where the source raises ValueError. */
  method ChooseVersion(length: nat) returns (choice: Option<Version>)
    ensures choice.None? <==> forall v: Version :: !Fits(length, v)
    ensures choice.Some? ==> Fits(length, choice.value) && forall v: Version :: v < choice.value ==> !Fits(length, v)
  {
    hide Fits;
    for version := 1 to 21
      invariant forall v: Version :: v < version ==> !Fits(length, v)
    {
      if Fits(length, version) {
        return Some(version);
      }
    }
    return None;
  }
}
