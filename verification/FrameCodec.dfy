/** The BGM1 v4 uplink message FRAME: header, road segment, wide length, wide segment, 16 reserved bytes. */
module FrameCodec {
  import opened Bits
  import opened Wire

  const MAGIC: U32 := 0x314D4742
  const PROTOCOL_VERSION: U8 := 4
  const TYPE_FRAME: U8 := 0x10
  const MSG_HDR_SIZE := 16
  const FRAME_HDR_SIZE := 152
  const WIDE_LEN_SIZE := 4
  const TAIL_RESERVED_SIZE := 16
  const FRAME_MIN_SIZE := 172
  const YAW_INVALID: I16 := -32768
  // bit numbers of the vehicle state flags
  const YAW_VALID := 0
  const REVERSE := 1
  const STANDSTILL := 2
  const SPEED_VALID := 3

  datatype Err = BadMagic | BadVersion | BadType | Truncated | LenTooLarge | LenMismatch
  datatype Result<+T> = Ok(value: T) | Fail(error: Err)

  datatype Vehicle = Vehicle(yaw: I16, flags: U8, speed: U16)

  /** Float fields are 32-bit patterns. */
  datatype FrameHeader = FrameHeader(flags: U16, frameIdx: U32, roadLen: U32, wideLen: U32, tEof: U64,
                                     desire: seq<U32>, traffic: seq<U32>, actionT: seq<U32>,
                                     warpRoad: seq<U32>, warpWide: seq<U32>, vehicle: Vehicle)
  {
    /** The array sizes of the struct. */
    predicate Shape() {
      |desire| == 8 && |traffic| == 2 && |actionT| == 2 && |warpRoad| == 9 && |warpWide| == 9
    }
  }

  datatype Frame = Frame(hdr: FrameHeader, road: seq<U8>, wide: seq<U8>)

  datatype MsgHdr = MsgHdr(flags: U16, frameIdx: U32, len: U32)

  // ---- what goes on the wire ----

  function MsgHdrBytes(typ: U8, flags: U16, frameIdx: U32, len: U32): (s: seq<U8>)
    ensures |s| == MSG_HDR_SIZE
  {
    Le(MAGIC, 4) + [PROTOCOL_VERSION, typ] + Le(flags, 2) + Le(frameIdx, 4) + Le(len, 4)
  }

  /** Reserved flag bits cleared, an invalid yaw or speed in its one canonical form. */
  function NormalVehicle(v: Vehicle): Vehicle {
    var yawOk := HasBit(v.flags, YAW_VALID) && v.yaw != YAW_INVALID;
    var speedOk := HasBit(v.flags, SPEED_VALID);
    var flags := Low(v.flags, 4);
    var f1 := if yawOk then flags else ClearBit(flags, YAW_VALID);
    var f2 := if speedOk then f1 else ClearBit(ClearBit(f1, REVERSE), STANDSTILL);
    Vehicle(if yawOk then v.yaw else YAW_INVALID, f2, if speedOk then v.speed else 0)
  }

  function NormalHeader(h: FrameHeader): FrameHeader {
    h.(vehicle := NormalVehicle(h.vehicle))
  }

  function VehicleBytes(v: Vehicle): (s: seq<U8>)
    ensures |s| == 8
  {
    Le(v.speed, 2) + Le(FromI16(v.yaw), 2) + [v.flags, 0, 0, 0]
  }

  function HeaderBytes(h: FrameHeader): (s: seq<U8>)
    requires h.Shape()
    ensures |s| == FRAME_HDR_SIZE
  {
    MsgHdrBytes(TYPE_FRAME, h.flags, h.frameIdx, h.roadLen) + U64Bytes(h.tEof)
    + Words(h.desire) + Words(h.traffic) + Words(h.actionT) + Words(h.warpRoad) + Words(h.warpWide)
    + VehicleBytes(NormalVehicle(h.vehicle))
  }

  function FrameWireSize(roadLen: nat, wideLen: nat): nat {
    FRAME_HDR_SIZE + roadLen + WIDE_LEN_SIZE + wideLen + TAIL_RESERVED_SIZE
  }

  predicate Packable(h: FrameHeader, road: seq<U8>, wide: seq<U8>) {
    h.Shape() && h.roadLen == |road| && h.wideLen == |wide|
  }

  function FrameBytes(h: FrameHeader, road: seq<U8>, wide: seq<U8>): (s: seq<U8>)
    requires Packable(h, road, wide)
    ensures |s| == FrameWireSize(|road|, |wide|)
  {
    HeaderBytes(h) + road + Le(h.wideLen, 4) + wide + Zeros(TAIL_RESERVED_SIZE)
  }

  // ---- how it is read ----

  function ParseMsgHdrTyped(data: seq<U8>, expected: U8): Result<MsgHdr>
    requires |data| >= MSG_HDR_SIZE
  {
    if GetU32(data, 0) != MAGIC then Fail(BadMagic)
    else if data[4] != PROTOCOL_VERSION then Fail(BadVersion)
    else if data[5] != expected then Fail(BadType)
    else Ok(MsgHdr(GetU16(data, 6), GetU32(data, 8), GetU32(data, 12)))
  }

  function ReadVehicle(data: seq<U8>): Vehicle
    requires |data| >= FRAME_HDR_SIZE
  {
    NormalVehicle(Vehicle(ToI16(GetU16(data, 146)), data[148], GetU16(data, 144)))
  }

  function ReadHeader(data: seq<U8>, hdr: MsgHdr): FrameHeader
    requires |data| >= FRAME_HDR_SIZE
  {
    FrameHeader(hdr.flags, hdr.frameIdx, hdr.len, 0, GetU64(data, 16),
                GetWords(data, 24, 8), GetWords(data, 56, 2), GetWords(data, 64, 2),
                GetWords(data, 72, 9), GetWords(data, 108, 9), ReadVehicle(data))
  }

  function ParseFrame(data: seq<U8>, maxSegment: nat): Result<Frame> {
    if |data| < MSG_HDR_SIZE then Fail(Truncated)
    else
      match ParseMsgHdrTyped(data, TYPE_FRAME)
      case Fail(e) => Fail(e)
      case Ok(hdr) =>
        if |data| < FRAME_MIN_SIZE then Fail(Truncated)
        else if hdr.len > maxSegment then Fail(LenTooLarge)
        else if |data| < FRAME_HDR_SIZE + hdr.len + WIDE_LEN_SIZE then Fail(Truncated)
        else
          var wideLen := GetU32(data, FRAME_HDR_SIZE + hdr.len);
          if wideLen > maxSegment then Fail(LenTooLarge)
          else if |data| != FrameWireSize(hdr.len, wideLen) then Fail(LenMismatch)
          else
            var wideAt := FRAME_HDR_SIZE + hdr.len + WIDE_LEN_SIZE;
            Ok(Frame(ReadHeader(data, hdr).(wideLen := wideLen),
                     data[FRAME_HDR_SIZE..FRAME_HDR_SIZE + hdr.len], data[wideAt..wideAt + wideLen]))
  }

  // ---- round trips ----

  lemma MsgHdrRoundTrip(data: seq<U8>, typ: U8, flags: U16, frameIdx: U32, len: U32)
    requires MsgHdrBytes(typ, flags, frameIdx, len) <= data
    ensures ParseMsgHdrTyped(data, typ) == Ok(MsgHdr(flags, frameIdx, len))
    ensures forall t: U8 :: t != typ ==> ParseMsgHdrTyped(data, t) == Fail(BadType)
    ensures data[4] == PROTOCOL_VERSION && data[5] == typ && GetU32(data, 0) == MAGIC && GetU32(data, 12) == len
  {
    hide Le;
    var m := MsgHdrBytes(typ, flags, frameIdx, len);
    assert data[..16] == m;
    assert data[0..4] == m[0..4] == Le(MAGIC, 4);
    assert data[6..8] == m[6..8] == Le(flags, 2);
    assert data[8..12] == m[8..12] == Le(frameIdx, 4);
    assert data[12..16] == m[12..16] == Le(len, 4);
    GetU32At(data, 0, MAGIC);
    GetU16At(data, 6, flags);
    GetU32At(data, 8, frameIdx);
    GetU32At(data, 12, len);
  }

  lemma NormalVehicleIdempotent(v: Vehicle)
    ensures NormalVehicle(NormalVehicle(v)) == NormalVehicle(v)
  {
    hide HasBit, Low;
    var f := Low(v.flags, 4);
    FlagBits(v.flags);
    var yawOk := HasBit(v.flags, YAW_VALID) && v.yaw != YAW_INVALID;
    var f1 := if yawOk then f else ClearBit(f, YAW_VALID);
    var f2 := ClearBit(f1, REVERSE);
    var f3 := ClearBit(f2, STANDSTILL);
    forall k | k in [YAW_VALID, REVERSE, STANDSTILL, SPEED_VALID]
      ensures HasBit(f1, k) == (HasBit(f, k) && (yawOk || k != YAW_VALID))
      ensures HasBit(f3, k) == (HasBit(f1, k) && k != REVERSE && k != STANDSTILL)
    {
      ClearedBit(f, YAW_VALID, k);
      ClearedBit(f1, REVERSE, k);
      ClearedBit(f2, STANDSTILL, k);
    }
    LowShort(f1, 4);
    LowShort(f3, 4);
  }

  lemma FlagBits(flags: nat)
    ensures HasBit(Low(flags, 4), YAW_VALID) == HasBit(flags, YAW_VALID)
    ensures HasBit(Low(flags, 4), SPEED_VALID) == HasBit(flags, SPEED_VALID)
    ensures Low(flags, 4) < Pow2(4)
  {
    LowBits(flags, 4, YAW_VALID);
    LowBits(flags, 4, SPEED_VALID);
  }

  /** Parsing what was packed gives the normal form, and the normal form packs to the same bytes. */
  lemma NormalHeaderIdempotent(h: FrameHeader)
    ensures NormalHeader(NormalHeader(h)) == NormalHeader(h)
    ensures h.Shape() ==> HeaderBytes(NormalHeader(h)) == HeaderBytes(h)
  {
    hide NormalVehicle, VehicleBytes, MsgHdrBytes, Words;
    NormalVehicleIdempotent(h.vehicle);
  }

  lemma VehicleRoundTrip(data: seq<U8>, v: Vehicle)
    requires |data| >= FRAME_HDR_SIZE && data[144..152] == VehicleBytes(NormalVehicle(v))
    ensures ReadVehicle(data) == NormalVehicle(v)
  {
    hide NormalVehicle, Le;
    var n := NormalVehicle(v);
    var b := VehicleBytes(n);
    SliceSlice(data, 144, 152, 0, 2);
    SliceSlice(data, 144, 152, 2, 4);
    assert b[0..2] == Le(n.speed, 2);
    assert b[2..4] == Le(FromI16(n.yaw), 2);
    assert data[148] == data[144..152][4] == n.flags;
    GetU16At(data, 144, n.speed);
    GetU16At(data, 146, FromI16(n.yaw));
    NormalVehicleIdempotent(v);
  }

  lemma HeaderFields(h: FrameHeader, data: seq<U8>)
    requires h.Shape() && HeaderBytes(h) <= data
    ensures MsgHdrBytes(TYPE_FRAME, h.flags, h.frameIdx, h.roadLen) <= data
    ensures data[16..24] == U64Bytes(h.tEof)
    ensures data[24..56] == Words(h.desire) && data[56..64] == Words(h.traffic) && data[64..72] == Words(h.actionT)
    ensures data[72..108] == Words(h.warpRoad) && data[108..144] == Words(h.warpWide)
    ensures data[144..152] == VehicleBytes(NormalVehicle(h.vehicle))
  {
    hide NormalVehicle, VehicleBytes, MsgHdrBytes, Words, U64Bytes;
    var b := HeaderBytes(h);
    assert data[..152] == b;
    assert data[16..24] == b[16..24];
    assert data[24..56] == b[24..56];
    assert data[56..64] == b[56..64];
    assert data[64..72] == b[64..72];
    assert data[72..108] == b[72..108];
    assert data[108..144] == b[108..144];
    assert data[144..152] == b[144..152];
    assert b[..16] == data[..16];
  }

  lemma HeaderRoundTrip(h: FrameHeader, data: seq<U8>)
    requires h.Shape() && HeaderBytes(h) <= data
    ensures ParseMsgHdrTyped(data, TYPE_FRAME) == Ok(MsgHdr(h.flags, h.frameIdx, h.roadLen))
    ensures ReadHeader(data, MsgHdr(h.flags, h.frameIdx, h.roadLen)) == NormalHeader(h).(wideLen := 0)
  {
    hide HeaderBytes, NormalVehicle, VehicleBytes, Words, U64Bytes, GetWords, GetU64, ReadVehicle, MsgHdrBytes;
    HeaderFields(h, data);
    MsgHdrRoundTrip(data, TYPE_FRAME, h.flags, h.frameIdx, h.roadLen);
    GetU64At(data, 16, h.tEof);
    GetWordsAt(data, 24, 8, h.desire);
    GetWordsAt(data, 56, 2, h.traffic);
    GetWordsAt(data, 64, 2, h.actionT);
    GetWordsAt(data, 72, 9, h.warpRoad);
    GetWordsAt(data, 108, 9, h.warpWide);
    VehicleRoundTrip(data, h.vehicle);
  }

  lemma FrameSlices(h: FrameHeader, road: seq<U8>, wide: seq<U8>)
    requires Packable(h, road, wide)
    ensures var d := FrameBytes(h, road, wide);
            var at := FRAME_HDR_SIZE + |road|;
            && HeaderBytes(h) <= d
            && d[FRAME_HDR_SIZE..at] == road
            && d[at..at + 4] == Le(h.wideLen, 4)
            && d[at + 4..at + 4 + |wide|] == wide
  {
    hide HeaderBytes, Le;
  }

  /** What was packed parses to its normal form, as long as both segments respect the limit. */
  lemma FrameRoundTrip(h: FrameHeader, road: seq<U8>, wide: seq<U8>, maxSegment: nat)
    requires Packable(h, road, wide)
    ensures |road| <= maxSegment && |wide| <= maxSegment ==>
              ParseFrame(FrameBytes(h, road, wide), maxSegment) == Ok(Frame(NormalHeader(h), road, wide))
    ensures |road| > maxSegment || |wide| > maxSegment ==>
              ParseFrame(FrameBytes(h, road, wide), maxSegment) == Fail(LenTooLarge)
  {
    hide HeaderBytes, FrameBytes, ReadHeader, NormalVehicle, ParseMsgHdrTyped;
    var d := FrameBytes(h, road, wide);
    FrameSlices(h, road, wide);
    HeaderRoundTrip(h, d);
    GetU32At(d, FRAME_HDR_SIZE + |road|, h.wideLen);
  }

  /** A parsed frame is in normal form: packing and parsing it again changes nothing. */
  lemma ParsedFrameIsNormal(data: seq<U8>, maxSegment: nat)
    requires ParseFrame(data, maxSegment).Ok?
    ensures var f := ParseFrame(data, maxSegment).value;
            && Packable(f.hdr, f.road, f.wide) && NormalHeader(f.hdr) == f.hdr
            && |f.road| <= maxSegment && |f.wide| <= maxSegment
            && ParseFrame(FrameBytes(f.hdr, f.road, f.wide), maxSegment) == Ok(f)
  {
    hide NormalVehicle, FrameBytes;
    var f := ParseFrame(data, maxSegment).value;
    NormalVehicleIdempotent(Vehicle(ToI16(GetU16(data, 146)), data[148], GetU16(data, 144)));
    FrameRoundTrip(f.hdr, f.road, f.wide, maxSegment);
  }

  /** No accepted frame is a proper prefix of another: neither a cut frame nor an extended one is accepted. */
  lemma AcceptedFramesArePrefixFree(a: seq<U8>, b: seq<U8>, maxSegment: nat)
    requires ParseFrame(a, maxSegment).Ok? && ParseFrame(b, maxSegment).Ok? && a <= b
    ensures a == b
  {
    hide ReadHeader, NormalVehicle;
    assert a[0..4] == b[0..4] && a[8..12] == b[8..12] && a[12..16] == b[12..16] && a[6..8] == b[6..8];
    var at := FRAME_HDR_SIZE + GetU32(a, 12);
    assert a[at..at + 4] == b[at..at + 4];
  }

  // ---- packing into a caller's buffer ----

  method PutMsgHdr(out: array<U8>, typ: U8, flags: U16, frameIdx: U32, len: U32)
    requires out.Length >= MSG_HDR_SIZE
    modifies out
    ensures out[..] == Patch(old(out[..]), 0, MsgHdrBytes(typ, flags, frameIdx, len))
  {
    hide Le, Patch;
    ghost var s := out[..];
    ghost var p1 := Le(MAGIC, 4);
    ghost var p2 := p1 + [PROTOCOL_VERSION, typ];
    PatchPatch(s, 0, p1, [PROTOCOL_VERSION, typ]);
    PatchPatch(s, 0, p2, Le(flags, 2));
    PatchPatch(s, 0, p2 + Le(flags, 2), Le(frameIdx, 4));
    PatchPatch(s, 0, p2 + Le(flags, 2) + Le(frameIdx, 4), Le(len, 4));
    PutU32(out, 0, MAGIC);
    PutBytes(out, 4, [PROTOCOL_VERSION, typ]);
    PutU16(out, 6, flags);
    PutU32(out, 8, frameIdx);
    PutU32(out, 12, len);
  }

  lemma VehiclePatches(s: seq<U8>, speed: seq<U8>, yaw: seq<U8>, flags: U8)
    requires |s| >= FRAME_HDR_SIZE && s[149] == s[150] == s[151] == 0
    requires |speed| == |yaw| == 2
    ensures Patch(Patch(s, 144, speed), 146, yaw)[148 := flags] == Patch(s, 144, speed + yaw + [flags, 0, 0, 0])
  {}

  method PutVehicle(out: array<U8>, v: Vehicle)
    requires out.Length >= FRAME_HDR_SIZE
    requires out[149] == out[150] == out[151] == 0
    modifies out
    ensures out[..] == Patch(old(out[..]), 144, VehicleBytes(NormalVehicle(v)))
  {
    hide Le, HasBit, ClearBit, Low, Patch;
    var yawOk := HasBit(v.flags, YAW_VALID) && v.yaw != YAW_INVALID;
    var flags: U8 := Low(v.flags, 4);
    if !yawOk {
      flags := ClearBit(flags, YAW_VALID);
    }
    if !HasBit(v.flags, SPEED_VALID) {
      flags := ClearBit(ClearBit(flags, REVERSE), STANDSTILL);
    }
    var n := NormalVehicle(v);
    VehiclePatches(out[..], Le(n.speed, 2), Le(FromI16(n.yaw), 2), flags);
    PutU16(out, 144, if HasBit(v.flags, SPEED_VALID) then v.speed else 0);
    PutU16(out, 146, FromI16(if yawOk then v.yaw else YAW_INVALID));
    ghost var before := out[..];
    out[148] := flags;
    assert out[..] == before[148 := flags];
  }

  /** The next field in a zeroed header. */
  lemma NextField(s: seq<U8>, done: seq<U8>, bytes: seq<U8>, left: nat)
    requires |bytes| <= left && |done| + left <= |s|
    ensures Patch(Patch(s, 0, done + Zeros(left)), |done|, bytes) == Patch(s, 0, done + bytes + Zeros(left - |bytes|))
  {}

  method PackFrameHeader(h: FrameHeader, out: array<U8>)
    requires h.Shape() && out.Length >= FRAME_HDR_SIZE
    modifies out
    ensures out[..] == Patch(old(out[..]), 0, HeaderBytes(h))
  {
    hide Le, MsgHdrBytes, Words, U64Bytes, VehicleBytes, NormalVehicle, Patch;
    PutBytes(out, 0, Zeros(FRAME_HDR_SIZE));
    ghost var s := old(out[..]);
    ghost var p0 := [];
    assert p0 + Zeros(FRAME_HDR_SIZE) == Zeros(FRAME_HDR_SIZE);
    NextField(s, p0, MsgHdrBytes(TYPE_FRAME, h.flags, h.frameIdx, h.roadLen), 152);
    PutMsgHdr(out, TYPE_FRAME, h.flags, h.frameIdx, h.roadLen);
    ghost var p1 := MsgHdrBytes(TYPE_FRAME, h.flags, h.frameIdx, h.roadLen);
    assert p0 + p1 == p1;
    NextField(s, p1, U64Bytes(h.tEof), 136);
    PutU64(out, 16, h.tEof);
    ghost var p2 := p1 + U64Bytes(h.tEof);
    NextField(s, p2, Words(h.desire), 128);
    PutWords(out, 24, h.desire);
    ghost var p3 := p2 + Words(h.desire);
    NextField(s, p3, Words(h.traffic), 96);
    PutWords(out, 56, h.traffic);
    ghost var p4 := p3 + Words(h.traffic);
    NextField(s, p4, Words(h.actionT), 88);
    PutWords(out, 64, h.actionT);
    ghost var p5 := p4 + Words(h.actionT);
    NextField(s, p5, Words(h.warpRoad), 80);
    PutWords(out, 72, h.warpRoad);
    ghost var p6 := p5 + Words(h.warpRoad);
    NextField(s, p6, Words(h.warpWide), 44);
    PutWords(out, 108, h.warpWide);
    ghost var p7 := p6 + Words(h.warpWide);
    NextField(s, p7, VehicleBytes(NormalVehicle(h.vehicle)), 8);
    ReservedZero(s, p7);
    PutVehicle(out, h.vehicle);
    assert p7 + VehicleBytes(NormalVehicle(h.vehicle)) + Zeros(0) == HeaderBytes(h);
  }

  lemma ReservedZero(s: seq<U8>, done: seq<U8>)
    requires |done| == 144 && |s| >= 152
    ensures var r := Patch(s, 0, done + Zeros(8)); r[149] == r[150] == r[151] == 0
  {}

  /** 0 and an untouched buffer if the capacity is too small. */
  method PackFrame(h: FrameHeader, road: seq<U8>, wide: seq<U8>, out: array<U8>) returns (n: nat)
    requires Packable(h, road, wide)
    modifies out
    ensures out.Length < FrameWireSize(|road|, |wide|) ==> n == 0 && out[..] == old(out[..])
    ensures out.Length >= FrameWireSize(|road|, |wide|) ==>
              n == FrameWireSize(|road|, |wide|) && out[..] == Patch(old(out[..]), 0, FrameBytes(h, road, wide))
  {
    hide HeaderBytes, Le, Patch;
    n := FrameWireSize(h.roadLen, h.wideLen);
    if out.Length < n {
      return 0;
    }
    ghost var s := out[..];
    ghost var p1, len := HeaderBytes(h), Le(h.wideLen, 4);
    PatchPatch(s, 0, p1, road);
    PatchPatch(s, 0, p1 + road, len);
    PatchPatch(s, 0, p1 + road + len, wide);
    PatchPatch(s, 0, p1 + road + len + wide, Zeros(TAIL_RESERVED_SIZE));
    PackFrameHeader(h, out);
    var at := FRAME_HDR_SIZE + h.roadLen;
    PutBytes(out, FRAME_HDR_SIZE, road);
    PutU32(out, at, h.wideLen);
    PutBytes(out, at + WIDE_LEN_SIZE, wide);
    PutBytes(out, at + WIDE_LEN_SIZE + h.wideLen, Zeros(TAIL_RESERVED_SIZE));
  }
}
