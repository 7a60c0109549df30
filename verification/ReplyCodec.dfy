/** The BGM1 v4 downlink messages REPLY (with its navigation extension), ERR and HELLO. */
module ReplyCodec {
  import opened Bits
  import opened Wire
  import opened FrameCodec

  const TYPE_HELLO: U8 := 0x01
  const TYPE_REPLY: U8 := 0x11
  const TYPE_ERR: U8 := 0x7F
  const OUTPUTS_COUNT := 2066
  const TELEMETRY_COUNT := 4
  const REPLY_PAYLOAD_SIZE := 8440
  const REPLY_WIRE_SIZE := 8480
  const OUTPUTS_AT := 24
  const TELEMETRY_AT := 8288
  const NAV_EXT_AT := 8304
  const NAV_EXT_SIZE := 160
  const ERR_PAYLOAD_SIZE := 8
  const ERR_WIRE_SIZE := 40
  const HELLO_PAYLOAD_SIZE := 16
  const HELLO_WIRE_SIZE := 48
  const CURVE_MAX_POINTS := 8
  const AGE_INVALID: U16 := 0xFFFF
  // bit numbers of present_flags and nav_health_flags
  const NAV_STATE := 0
  const ROAD_ATTR := 1
  const CURVE_AHEAD := 2
  const NAV_DEBUG := 3
  const PHONE_LOCATION_OK := 0
  const ROUTE_OK := 1
  const REROUTING := 3

  datatype NavState = NavState(status: U8, maneuver: U8, nextManeuver: U8, exitIndex: U8,
                               maneuverDistance: U32, remainingM: U32, remainingS: U32,
                               age: U16, inputFlags: U8, offRoute: U8, heading: U16)
  datatype RoadAttr = RoadAttr(limit: U8, source: U8, limitAhead: U8, roadClass: U8, aheadDistance: U16, age: U16,
                               edgeFlags: U8, lanes: U8, matchDistance: U16)
  datatype CurvePoint = CurvePoint(lat: I32, lon: I32, distance: U16, speed: U8, curvature: U8)
  datatype CurveAhead = CurveAhead(count: U8, maxLateral: U8, horizon: U16, age: U16, flags: U8,
                                   points: seq<CurvePoint>)
  datatype NavDebug = NavDebug(render: U16, mapMatch: U16, route: U16, cpu: U8)
  datatype NavExt = NavExt(present: U8, health: U8, state: NavState, road: RoadAttr, curve: CurveAhead, debug: NavDebug)
  {
    predicate Shape() {
      |curve.points| == CURVE_MAX_POINTS
    }
  }

  const NO_STATE := NavState(0, 0, 0, 0, 0, 0, 0, 0, 0, 0, 0)
  const NO_ROAD := RoadAttr(0, 0, 0, 0, 0, 0, 0, 0, 0)
  const NO_POINT := CurvePoint(0, 0, 0, 0, 0)
  const NO_POINTS := [NO_POINT, NO_POINT, NO_POINT, NO_POINT, NO_POINT, NO_POINT, NO_POINT, NO_POINT]
  const NO_CURVE := CurveAhead(0, 0, 0, 0, 0, NO_POINTS)
  const NO_DEBUG := NavDebug(0, 0, 0, 0)

  datatype Reply = Reply(flags: U16, frameIdx: U32, tEof: U64, outputs: seq<U32>, telemetry: seq<U32>, nav: NavExt)
  {
    predicate Shape() {
      |outputs| == OUTPUTS_COUNT && |telemetry| == TELEMETRY_COUNT && nav.Shape()
    }
  }

  datatype ErrMsg = ErrMsg(code: U32, detail: U32, frameIdx: U32)
  datatype Hello = Hello(instanceId: U64, maxFrame: U32)

  // ---- the normal form: reserved bits clear, absent blocks empty, curve points clamped ----

  function Clamp(count: U8): (n: U8)
    ensures n <= CURVE_MAX_POINTS
  {
    if count > CURVE_MAX_POINTS then CURVE_MAX_POINTS else count
  }

  function NormalCurve(c: CurveAhead): (r: CurveAhead)
    requires |c.points| == CURVE_MAX_POINTS
    ensures |r.points| == CURVE_MAX_POINTS
  {
    CurveAhead(Clamp(c.count), c.maxLateral, c.horizon, c.age, Low(c.flags, 3), FirstPoints(c.points, Clamp(c.count)))
  }

  function FirstPoints(points: seq<CurvePoint>, n: nat): (r: seq<CurvePoint>)
    ensures |r| == |points|
  {
    seq(|points|, i requires 0 <= i < |points| => if i < n then points[i] else NO_POINT)
  }

  function NormalNav(n: NavExt): (r: NavExt)
    requires n.Shape()
    ensures r.Shape()
  {
    NavExt(Low(n.present, 4), Low(n.health, 4),
           if HasBit(n.present, NAV_STATE) then n.state.(inputFlags := Low(n.state.inputFlags, 4)) else NO_STATE,
           if HasBit(n.present, ROAD_ATTR) then n.road.(edgeFlags := ClearBit(n.road.edgeFlags, 6)) else NO_ROAD,
           if HasBit(n.present, CURVE_AHEAD) then NormalCurve(n.curve) else NO_CURVE,
           if HasBit(n.present, NAV_DEBUG) then n.debug else NO_DEBUG)
  }

  function NormalReply(r: Reply): (n: Reply)
    requires r.Shape()
    ensures n.Shape()
  {
    r.(nav := NormalNav(r.nav))
  }

  lemma NormalCurveIdempotent(c: CurveAhead)
    requires |c.points| == CURVE_MAX_POINTS
    ensures NormalCurve(NormalCurve(c)) == NormalCurve(c)
  {
    LowShort(Low(c.flags, 3), 3);
  }

  lemma NormalReplyIdempotent(r: Reply)
    requires r.Shape()
    ensures NormalReply(NormalReply(r)) == NormalReply(r)
  {
    hide HasBit, Low, ClearBit, NormalCurve;
    var n := r.nav;
    PresentBits(n.present);
    LowShort(Low(n.present, 4), 4);
    LowShort(Low(n.health, 4), 4);
    LowShort(Low(n.state.inputFlags, 4), 4);
    ClearTwice(n.road.edgeFlags);
    NormalCurveIdempotent(n.curve);
  }

  lemma ClearTwice(flags: U8)
    ensures ClearBit(ClearBit(flags, 6), 6) == ClearBit(flags, 6)
  {
    hide HasBit;
    ClearedBit(flags, 6, 6);
  }

  lemma PresentBits(present: U8)
    ensures forall k :: k in [NAV_STATE, ROAD_ATTR, CURVE_AHEAD, NAV_DEBUG] ==>
              HasBit(Low(present, 4), k) == HasBit(present, k)
  {
    forall k | k in [NAV_STATE, ROAD_ATTR, CURVE_AHEAD, NAV_DEBUG]
      ensures HasBit(Low(present, 4), k) == HasBit(present, k)
    {
      LowBits(present, 4, k);
    }
  }

  // ---- what goes on the wire ----

  function NavStateBytes(s: NavState): (b: seq<U8>)
    ensures |b| == 24
  {
    [s.status, s.maneuver, s.nextManeuver, s.exitIndex] + Le(s.maneuverDistance, 4) + Le(s.remainingM, 4)
    + Le(s.remainingS, 4) + Le(s.age, 2) + [s.inputFlags, s.offRoute] + Le(s.heading, 2) + [0, 0]
  }

  function RoadAttrBytes(r: RoadAttr): (b: seq<U8>)
    ensures |b| == 16
  {
    [r.limit, r.source, r.limitAhead, r.roadClass] + Le(r.aheadDistance, 2) + Le(r.age, 2)
    + [r.edgeFlags, r.lanes, 0, 0] + Le(r.matchDistance, 2) + [0, 0]
  }

  function PointBytes(p: CurvePoint): (b: seq<U8>)
    ensures |b| == 12
  {
    Le(FromI32(p.lat), 4) + Le(FromI32(p.lon), 4) + Le(p.distance, 2) + [p.speed, p.curvature]
  }

  function PointsBytes(points: seq<CurvePoint>): (b: seq<U8>)
    ensures |b| == 12 * |points|
  {
    if points == [] then [] else PointsBytes(points[..|points| - 1]) + PointBytes(points[|points| - 1])
  }

  function CurveBytes(c: CurveAhead): (b: seq<U8>)
    requires |c.points| == CURVE_MAX_POINTS
    ensures |b| == 104
  {
    [c.count, c.maxLateral] + Le(c.horizon, 2) + Le(c.age, 2) + [c.flags, 0] + PointsBytes(c.points)
  }

  function NavDebugBytes(d: NavDebug): (b: seq<U8>)
    ensures |b| == 8
  {
    Le(d.render, 2) + Le(d.mapMatch, 2) + Le(d.route, 2) + [d.cpu, 0]
  }

  /** The bytes of an extension that is in normal form. */
  function NormalNavBytes(n: NavExt): (b: seq<U8>)
    requires n.Shape()
    ensures |b| == NAV_EXT_SIZE
  {
    [n.present, n.health, 0, 0] + NavStateBytes(n.state) + RoadAttrBytes(n.road) + CurveBytes(n.curve)
    + NavDebugBytes(n.debug) + Zeros(4)
  }

  function ReplyBytes(r: Reply): (b: seq<U8>)
    requires r.Shape()
    ensures |b| == REPLY_WIRE_SIZE
  {
    MsgHdrBytes(TYPE_REPLY, r.flags, r.frameIdx, REPLY_PAYLOAD_SIZE) + U64Bytes(r.tEof)
    + Words(r.outputs) + Words(r.telemetry) + NormalNavBytes(NormalNav(r.nav)) + Zeros(TAIL_RESERVED_SIZE)
  }

  function ErrBytes(e: ErrMsg): (b: seq<U8>)
    ensures |b| == ERR_WIRE_SIZE
  {
    MsgHdrBytes(TYPE_ERR, 0, e.frameIdx, ERR_PAYLOAD_SIZE) + Le(e.code, 4) + Le(e.detail, 4) + Zeros(TAIL_RESERVED_SIZE)
  }

  function HelloBytes(h: Hello): (b: seq<U8>)
    ensures |b| == HELLO_WIRE_SIZE
  {
    MsgHdrBytes(TYPE_HELLO, 0, 0, HELLO_PAYLOAD_SIZE) + U64Bytes(h.instanceId) + Le(h.maxFrame, 4)
    + Zeros(4) + Zeros(TAIL_RESERVED_SIZE)
  }

  // ---- how it is read ----

  function ReadNavState(q: seq<U8>): NavState
    requires |q| == 24
  {
    NavState(q[0], q[1], q[2], q[3], GetU32(q, 4), GetU32(q, 8), GetU32(q, 12), GetU16(q, 16), q[18], q[19],
             GetU16(q, 20))
  }

  function ReadRoadAttr(q: seq<U8>): RoadAttr
    requires |q| == 16
  {
    RoadAttr(q[0], q[1], q[2], q[3], GetU16(q, 4), GetU16(q, 6), q[8], q[9], GetU16(q, 12))
  }

  function ReadPoint(q: seq<U8>): CurvePoint
    requires |q| == 12
  {
    CurvePoint(ToI32(GetU32(q, 0)), ToI32(GetU32(q, 4)), GetU16(q, 8), q[10], q[11])
  }

  /** The first n points of the block; the rest stays empty. */
  function ReadPoints(q: seq<U8>, n: nat): (points: seq<CurvePoint>)
    requires |q| == 104
    ensures |points| == CURVE_MAX_POINTS
  {
    seq(CURVE_MAX_POINTS, i requires 0 <= i < CURVE_MAX_POINTS =>
      if i < n then ReadPoint(q[8 + 12 * i..20 + 12 * i]) else NO_POINT)
  }

  function ReadCurve(q: seq<U8>): CurveAhead
    requires |q| == 104
  {
    CurveAhead(Clamp(q[0]), q[1], GetU16(q, 2), GetU16(q, 4), q[6], ReadPoints(q, Clamp(q[0])))
  }

  function ReadNavDebug(q: seq<U8>): NavDebug
    requires |q| == 8
  {
    NavDebug(GetU16(q, 0), GetU16(q, 2), GetU16(q, 4), q[6])
  }

  /** More than eight curve points make the block bad: its present bit is cleared and it is left empty. */
  function ReadNavExt(p: seq<U8>): (n: NavExt)
    requires |p| == NAV_EXT_SIZE
    ensures n.Shape()
  {
    var present := if HasBit(p[0], CURVE_AHEAD) && p[44] > CURVE_MAX_POINTS then ClearBit(p[0], CURVE_AHEAD) else p[0];
    NavExt(present, p[1],
           if HasBit(p[0], NAV_STATE) then ReadNavState(p[4..28]) else NO_STATE,
           if HasBit(p[0], ROAD_ATTR) then ReadRoadAttr(p[28..44]) else NO_ROAD,
           if HasBit(present, CURVE_AHEAD) then ReadCurve(p[44..148]) else NO_CURVE,
           if HasBit(present, NAV_DEBUG) then ReadNavDebug(p[148..156]) else NO_DEBUG)
  }

  function ParseReply(data: seq<U8>): Result<Reply> {
    if |data| < MSG_HDR_SIZE then Fail(Truncated)
    else
      match ParseMsgHdrTyped(data, TYPE_REPLY)
      case Fail(e) => Fail(e)
      case Ok(hdr) =>
        if hdr.len != REPLY_PAYLOAD_SIZE then Fail(LenMismatch)
        else if |data| < REPLY_WIRE_SIZE then Fail(Truncated)
        else if |data| != REPLY_WIRE_SIZE then Fail(LenMismatch)
        else Ok(Reply(hdr.flags, hdr.frameIdx, GetU64(data, 16), GetWords(data, OUTPUTS_AT, OUTPUTS_COUNT),
                      GetWords(data, TELEMETRY_AT, TELEMETRY_COUNT),
                      ReadNavExt(data[NAV_EXT_AT..NAV_EXT_AT + NAV_EXT_SIZE])))
  }

  function ParseErr(data: seq<U8>): Result<ErrMsg> {
    if |data| < MSG_HDR_SIZE then Fail(Truncated)
    else
      match ParseMsgHdrTyped(data, TYPE_ERR)
      case Fail(e) => Fail(e)
      case Ok(hdr) =>
        if |data| < ERR_WIRE_SIZE then Fail(Truncated)
        else if hdr.len != ERR_PAYLOAD_SIZE || |data| != ERR_WIRE_SIZE then Fail(LenMismatch)
        else Ok(ErrMsg(GetU32(data, 16), GetU32(data, 20), hdr.frameIdx))
  }

  function ParseHello(data: seq<U8>): Result<Hello> {
    if |data| < MSG_HDR_SIZE then Fail(Truncated)
    else
      match ParseMsgHdrTyped(data, TYPE_HELLO)
      case Fail(e) => Fail(e)
      case Ok(hdr) =>
        if |data| < HELLO_WIRE_SIZE then Fail(Truncated)
        else if hdr.len != HELLO_PAYLOAD_SIZE || |data| != HELLO_WIRE_SIZE then Fail(LenMismatch)
        else Ok(Hello(GetU64(data, 16), GetU32(data, 24)))
  }

  // ---- block round trips ----

  lemma NavStateRoundTrip(s: NavState)
    ensures ReadNavState(NavStateBytes(s)) == s
  {
    hide Le, GetU16, GetU32;
    var b := NavStateBytes(s);
    assert b[4..8] == Le(s.maneuverDistance, 4);
    assert b[8..12] == Le(s.remainingM, 4);
    assert b[12..16] == Le(s.remainingS, 4);
    assert b[16..18] == Le(s.age, 2);
    assert b[20..22] == Le(s.heading, 2);
    GetU32At(b, 4, s.maneuverDistance);
    GetU32At(b, 8, s.remainingM);
    GetU32At(b, 12, s.remainingS);
    GetU16At(b, 16, s.age);
    GetU16At(b, 20, s.heading);
  }

  lemma RoadAttrRoundTrip(r: RoadAttr)
    ensures ReadRoadAttr(RoadAttrBytes(r)) == r
  {
    hide Le, GetU16;
    var b := RoadAttrBytes(r);
    assert b[4..6] == Le(r.aheadDistance, 2);
    assert b[6..8] == Le(r.age, 2);
    assert b[12..14] == Le(r.matchDistance, 2);
    GetU16At(b, 4, r.aheadDistance);
    GetU16At(b, 6, r.age);
    GetU16At(b, 12, r.matchDistance);
  }

  lemma PointRoundTrip(p: CurvePoint)
    ensures ReadPoint(PointBytes(p)) == p
  {
    hide Le, GetU16, GetU32;
    var b := PointBytes(p);
    assert b[0..4] == Le(FromI32(p.lat), 4);
    assert b[4..8] == Le(FromI32(p.lon), 4);
    assert b[8..10] == Le(p.distance, 2);
    GetU32At(b, 0, FromI32(p.lat));
    GetU32At(b, 4, FromI32(p.lon));
    GetU16At(b, 8, p.distance);
  }

  lemma {:induction false} PointAt(points: seq<CurvePoint>, i: nat)
    requires i < |points|
    ensures PointsBytes(points)[12 * i..12 * i + 12] == PointBytes(points[i])
  {
    hide PointBytes;
    var n := |points| - 1;
    var head := PointsBytes(points[..n]);
    if i < n {
      PointAt(points[..n], i);
      assert PointsBytes(points)[12 * i..12 * i + 12] == head[12 * i..12 * i + 12];
    }
  }

  lemma CurvePointAt(c: CurveAhead, i: nat)
    requires |c.points| == CURVE_MAX_POINTS && i < CURVE_MAX_POINTS
    ensures ReadPoint(CurveBytes(c)[8 + 12 * i..20 + 12 * i]) == c.points[i]
  {
    hide PointBytes, ReadPoint, PointsBytes, Le;
    PointAt(c.points, i);
    var b, q := CurveBytes(c), PointsBytes(c.points);
    assert b[8..104] == q;
    SliceSlice(b, 8, 104, 12 * i, 12 * i + 12);
    PointRoundTrip(c.points[i]);
  }

  lemma CurveRoundTrip(c: CurveAhead)
    requires |c.points| == CURVE_MAX_POINTS && c == NormalCurve(c)
    ensures ReadCurve(CurveBytes(c)) == c
  {
    hide Le, GetU16, PointsBytes, ReadPoint, Low;
    var b := CurveBytes(c);
    assert b[2..4] == Le(c.horizon, 2);
    assert b[4..6] == Le(c.age, 2);
    GetU16At(b, 2, c.horizon);
    GetU16At(b, 4, c.age);
    forall i | 0 <= i < CURVE_MAX_POINTS
      ensures ReadPoints(b, c.count)[i] == c.points[i]
    {
      if i < c.count {
        CurvePointAt(c, i);
      } else {
        assert c.points[i] == NormalCurve(c).points[i];
      }
    }
    assert ReadPoints(b, c.count) == c.points;
  }

  lemma NavDebugRoundTrip(d: NavDebug)
    ensures ReadNavDebug(NavDebugBytes(d)) == d
  {
    hide Le, GetU16;
    var b := NavDebugBytes(d);
    assert b[0..2] == Le(d.render, 2);
    assert b[2..4] == Le(d.mapMatch, 2);
    assert b[4..6] == Le(d.route, 2);
    GetU16At(b, 0, d.render);
    GetU16At(b, 2, d.mapMatch);
    GetU16At(b, 4, d.route);
  }

  lemma NavBlocks(n: NavExt)
    requires n.Shape()
    ensures var b := NormalNavBytes(n);
            && b[0] == n.present && b[1] == n.health && b[44] == n.curve.count
            && b[4..28] == NavStateBytes(n.state) && b[28..44] == RoadAttrBytes(n.road)
            && b[44..148] == CurveBytes(n.curve) && b[148..156] == NavDebugBytes(n.debug)
  {
    hide NavStateBytes, RoadAttrBytes, NavDebugBytes, PointsBytes, Le;
    var b := NormalNavBytes(n);
    assert b[44..148] == CurveBytes(n.curve);
    assert b[44] == b[44..148][0];
  }

  lemma NavRoundTrip(n: NavExt)
    requires n.Shape()
    ensures ReadNavExt(NormalNavBytes(NormalNav(n))) == NormalNav(n)
  {
    hide NormalNavBytes, NavStateBytes, RoadAttrBytes, NavDebugBytes, CurveBytes, HasBit, Low, ClearBit;
    hide ReadNavState, ReadRoadAttr, ReadNavDebug, ReadCurve;
    var m := NormalNav(n);
    NavBlocks(m);
    PresentBits(n.present);
    NavStateRoundTrip(m.state);
    RoadAttrRoundTrip(m.road);
    NavDebugRoundTrip(m.debug);
    NormalCurveIdempotent(n.curve);
    if HasBit(n.present, CURVE_AHEAD) {
      CurveRoundTrip(m.curve);
    }
  }

  // ---- message round trips ----

  lemma ReplyFields(r: Reply)
    requires r.Shape()
    ensures var b := ReplyBytes(r);
            && MsgHdrBytes(TYPE_REPLY, r.flags, r.frameIdx, REPLY_PAYLOAD_SIZE) <= b
            && b[16..24] == U64Bytes(r.tEof)
            && b[OUTPUTS_AT..TELEMETRY_AT] == Words(r.outputs)
            && b[TELEMETRY_AT..NAV_EXT_AT] == Words(r.telemetry)
            && b[NAV_EXT_AT..NAV_EXT_AT + NAV_EXT_SIZE] == NormalNavBytes(NormalNav(r.nav))
  {
    hide MsgHdrBytes, U64Bytes, Words, NormalNavBytes, NormalNav;
  }

  /** A packed reply parses to its normal form. */
  lemma ReplyRoundTrip(r: Reply)
    requires r.Shape()
    ensures ParseReply(ReplyBytes(r)) == Ok(NormalReply(r))
  {
    hide ReplyBytes, MsgHdrBytes, U64Bytes, Words, NormalNavBytes, NormalNav, GetWords, GetU64, ReadNavExt;
    hide ParseMsgHdrTyped;
    var b := ReplyBytes(r);
    ReplyFields(r);
    MsgHdrRoundTrip(b, TYPE_REPLY, r.flags, r.frameIdx, REPLY_PAYLOAD_SIZE);
    GetU64At(b, 16, r.tEof);
    GetWordsAt(b, OUTPUTS_AT, OUTPUTS_COUNT, r.outputs);
    GetWordsAt(b, TELEMETRY_AT, TELEMETRY_COUNT, r.telemetry);
    NavRoundTrip(r.nav);
  }

  lemma ErrRoundTrip(e: ErrMsg)
    ensures ParseErr(ErrBytes(e)) == Ok(e)
  {
    hide MsgHdrBytes, Le, ParseMsgHdrTyped, GetU32;
    var b := ErrBytes(e);
    MsgHdrRoundTrip(b, TYPE_ERR, 0, e.frameIdx, ERR_PAYLOAD_SIZE);
    assert b[16..20] == Le(e.code, 4);
    assert b[20..24] == Le(e.detail, 4);
    GetU32At(b, 16, e.code);
    GetU32At(b, 20, e.detail);
  }

  lemma HelloRoundTrip(h: Hello)
    ensures ParseHello(HelloBytes(h)) == Ok(h)
  {
    hide MsgHdrBytes, Le, U64Bytes, ParseMsgHdrTyped, GetU32, GetU64;
    var b := HelloBytes(h);
    MsgHdrRoundTrip(b, TYPE_HELLO, 0, 0, HELLO_PAYLOAD_SIZE);
    assert b[16..24] == U64Bytes(h.instanceId);
    assert b[24..28] == Le(h.maxFrame, 4);
    GetU64At(b, 16, h.instanceId);
    GetU32At(b, 24, h.maxFrame);
  }

  /** A parsed reply never carries more curve points than the array holds, and absent blocks are empty. */
  lemma ParsedReplyIsSafe(data: seq<U8>)
    requires ParseReply(data).Ok?
    ensures var n := ParseReply(data).value.nav;
            && n.curve.count <= CURVE_MAX_POINTS
            && (!HasBit(n.present, CURVE_AHEAD) ==> n.curve == NO_CURVE)
            && (!HasBit(n.present, NAV_STATE) ==> n.state == NO_STATE)
            && (!HasBit(n.present, ROAD_ATTR) ==> n.road == NO_ROAD)
            && (!HasBit(n.present, NAV_DEBUG) ==> n.debug == NO_DEBUG)
  {
    hide GetWords, GetU64, ReadNavState, ReadRoadAttr, ReadNavDebug, ReadPoints, HasBit, ClearBit, ParseMsgHdrTyped;
    var p := data[NAV_EXT_AT..NAV_EXT_AT + NAV_EXT_SIZE];
    ClearedBit(p[0], CURVE_AHEAD, NAV_STATE);
    ClearedBit(p[0], CURVE_AHEAD, ROAD_ATTR);
    ClearedBit(p[0], CURVE_AHEAD, NAV_DEBUG);
  }
}
