/** Packing REPLY, ERR and HELLO into a buffer the caller owns: it is zeroed first, and the fields follow in order. */
module ReplyPacking {
  import opened Bits
  import opened FrameCodec
  import opened ReplyCodec
  import opened Wire

  /** The buffer is s, except that it starts with `done` and then `left` zero bytes. */
  ghost predicate Filled(now: seq<U8>, s: seq<U8>, done: seq<U8>, left: nat) {
    |done| + left <= |s| && now == Patch(s, 0, done + Zeros(left))
  }

  lemma FilledNext(s: seq<U8>, done: seq<U8>, left: nat, bytes: seq<U8>)
    requires |done| + left <= |s| && |bytes| <= left
    ensures Filled(Patch(Patch(s, 0, done + Zeros(left)), |done|, bytes), s, done + bytes, left - |bytes|)
  {
    hide Patch, Zeros;
    NextField(s, done, bytes, left);
  }

  lemma ZerosSplit(a: nat, b: nat)
    ensures Zeros(a + b) == Zeros(a) + Zeros(b)
  {}

  /** Bytes that stay zero. */
  lemma FilledSkip(now: seq<U8>, s: seq<U8>, done: seq<U8>, left: nat, k: nat)
    requires Filled(now, s, done, left) && k <= left
    ensures Filled(now, s, done + Zeros(k), left - k)
  {
    hide Patch, Zeros;
    ZerosSplit(k, left - k);
    assert done + (Zeros(k) + Zeros(left - k)) == done + Zeros(k) + Zeros(left - k);
  }

  method Clear(out: array<U8>, n: nat)
    requires n <= out.Length
    modifies out
    ensures Filled(out[..], old(out[..]), [], n)
  {
    hide Patch;
    PutBytes(out, 0, Zeros(n));
    assert [] + Zeros(n) == Zeros(n);
  }

  method AddBytes(out: array<U8>, ghost s: seq<U8>, ghost done: seq<U8>, ghost left: nat, at: nat, bytes: seq<U8>)
    requires at == |done| && |bytes| <= left && Filled(out[..], s, done, left)
    modifies out
    ensures Filled(out[..], s, done + bytes, left - |bytes|)
  {
    hide Patch;
    FilledNext(s, done, left, bytes);
    PutBytes(out, at, bytes);
  }

  method AddU16(out: array<U8>, ghost s: seq<U8>, ghost done: seq<U8>, ghost left: nat, at: nat, v: U16)
    requires at == |done| && 2 <= left && Filled(out[..], s, done, left)
    modifies out
    ensures Filled(out[..], s, done + Le(v, 2), left - 2)
  {
    hide Patch, Le;
    FilledNext(s, done, left, Le(v, 2));
    PutU16(out, at, v);
  }

  method AddU32(out: array<U8>, ghost s: seq<U8>, ghost done: seq<U8>, ghost left: nat, at: nat, v: U32)
    requires at == |done| && 4 <= left && Filled(out[..], s, done, left)
    modifies out
    ensures Filled(out[..], s, done + Le(v, 4), left - 4)
  {
    hide Patch, Le;
    FilledNext(s, done, left, Le(v, 4));
    PutU32(out, at, v);
  }

  method AddU64(out: array<U8>, ghost s: seq<U8>, ghost done: seq<U8>, ghost left: nat, at: nat, v: U64)
    requires at == |done| && 8 <= left && Filled(out[..], s, done, left)
    modifies out
    ensures Filled(out[..], s, done + U64Bytes(v), left - 8)
  {
    hide Patch, U64Bytes;
    FilledNext(s, done, left, U64Bytes(v));
    PutU64(out, at, v);
  }

  method AddWords(out: array<U8>, ghost s: seq<U8>, ghost done: seq<U8>, ghost left: nat, at: nat, ws: seq<U32>)
    requires at == |done| && 4 * |ws| <= left && Filled(out[..], s, done, left)
    modifies out
    ensures Filled(out[..], s, done + Words(ws), left - 4 * |ws|)
  {
    hide Patch, Words;
    FilledNext(s, done, left, Words(ws));
    PutWords(out, at, ws);
  }

  method AddHeader(out: array<U8>, ghost s: seq<U8>, ghost left: nat, typ: U8, flags: U16, frameIdx: U32, len: U32)
    requires MSG_HDR_SIZE <= left && Filled(out[..], s, [], left)
    modifies out
    ensures Filled(out[..], s, MsgHdrBytes(typ, flags, frameIdx, len), left - MSG_HDR_SIZE)
  {
    hide Patch, MsgHdrBytes;
    FilledNext(s, [], left, MsgHdrBytes(typ, flags, frameIdx, len));
    PutMsgHdr(out, typ, flags, frameIdx, len);
    assert [] + MsgHdrBytes(typ, flags, frameIdx, len) == MsgHdrBytes(typ, flags, frameIdx, len);
  }

  // ---- ERR and HELLO ----

  /** 0 and an untouched buffer if the capacity is too small. */
  method PackErr(e: ErrMsg, out: array<U8>) returns (n: nat)
    modifies out
    ensures if out.Length < ERR_WIRE_SIZE then n == 0 && out[..] == old(out[..])
            else n == ERR_WIRE_SIZE && out[..] == Patch(old(out[..]), 0, ErrBytes(e))
  {
    hide Filled, Patch, MsgHdrBytes, Le;
    if out.Length < ERR_WIRE_SIZE {
      return 0;
    }
    ghost var s, d0 := out[..], MsgHdrBytes(TYPE_ERR, 0, e.frameIdx, ERR_PAYLOAD_SIZE);
    Clear(out, ERR_WIRE_SIZE);
    AddHeader(out, s, 40, TYPE_ERR, 0, e.frameIdx, ERR_PAYLOAD_SIZE);
    AddU32(out, s, d0, 24, 16, e.code);
    AddU32(out, s, d0 + Le(e.code, 4), 20, 20, e.detail);
    Done(out[..], s, d0 + Le(e.code, 4) + Le(e.detail, 4), 16);
    return ERR_WIRE_SIZE;
  }

  lemma Done(now: seq<U8>, s: seq<U8>, done: seq<U8>, left: nat)
    requires Filled(now, s, done, left)
    ensures |done + Zeros(left)| <= |s| && now == Patch(s, 0, done + Zeros(left))
  {}

  method PackHello(h: Hello, out: array<U8>) returns (n: nat)
    modifies out
    ensures if out.Length < HELLO_WIRE_SIZE then n == 0 && out[..] == old(out[..])
            else n == HELLO_WIRE_SIZE && out[..] == Patch(old(out[..]), 0, HelloBytes(h))
  {
    hide Filled, Patch, MsgHdrBytes, Le, U64Bytes, Zeros;
    if out.Length < HELLO_WIRE_SIZE {
      return 0;
    }
    ghost var s, d0 := out[..], MsgHdrBytes(TYPE_HELLO, 0, 0, HELLO_PAYLOAD_SIZE);
    Clear(out, HELLO_WIRE_SIZE);
    AddHeader(out, s, 48, TYPE_HELLO, 0, 0, HELLO_PAYLOAD_SIZE);
    AddU64(out, s, d0, 32, 16, h.instanceId);
    AddU32(out, s, d0 + U64Bytes(h.instanceId), 24, 24, h.maxFrame);
    FilledSkip(out[..], s, d0 + U64Bytes(h.instanceId) + Le(h.maxFrame, 4), 20, 4);
    Done(out[..], s, d0 + U64Bytes(h.instanceId) + Le(h.maxFrame, 4) + Zeros(4), 16);
    return HELLO_WIRE_SIZE;
  }

  // ---- the blocks of the navigation extension ----

  lemma Assoc(d: seq<U8>, a: seq<U8>, b: seq<U8>)
    ensures d + (a + b) == d + a + b
  {}

  method AddNavState(out: array<U8>, ghost s: seq<U8>, ghost done: seq<U8>, ghost left: nat, at: nat, n: NavState)
    requires at == |done| && 24 <= left && Filled(out[..], s, done, left)
    modifies out
    ensures Filled(out[..], s, done + NavStateBytes(n), left - 24)
  {
    hide Filled, Patch, Le, Zeros;
    ghost var head := [n.status, n.maneuver, n.nextManeuver, n.exitIndex];
    ghost var d1 := done + head;
    ghost var d2 := d1 + Le(n.maneuverDistance, 4);
    ghost var d3 := d2 + Le(n.remainingM, 4);
    ghost var d4 := d3 + Le(n.remainingS, 4);
    ghost var d5 := d4 + Le(n.age, 2);
    ghost var d6 := d5 + [n.inputFlags, n.offRoute];
    ghost var d7 := d6 + Le(n.heading, 2);
    AddBytes(out, s, done, left, at, [n.status, n.maneuver, n.nextManeuver, n.exitIndex]);
    AddU32(out, s, d1, left - 4, at + 4, n.maneuverDistance);
    AddU32(out, s, d2, left - 8, at + 8, n.remainingM);
    AddU32(out, s, d3, left - 12, at + 12, n.remainingS);
    AddU16(out, s, d4, left - 16, at + 16, n.age);
    AddBytes(out, s, d5, left - 18, at + 18, [n.inputFlags, n.offRoute]);
    AddU16(out, s, d6, left - 20, at + 20, n.heading);
    FilledSkip(out[..], s, d7, left - 22, 2);
    TwoZeros();
    assert d7 + [0, 0] == done + NavStateBytes(n);
  }

  lemma TwoZeros()
    ensures Zeros(2) == [0, 0]
  {}

  method AddRoadAttr(out: array<U8>, ghost s: seq<U8>, ghost done: seq<U8>, ghost left: nat, at: nat, r: RoadAttr)
    requires at == |done| && 16 <= left && Filled(out[..], s, done, left)
    modifies out
    ensures Filled(out[..], s, done + RoadAttrBytes(r), left - 16)
  {
    hide Filled, Patch, Le, Zeros;
    ghost var d1 := done + [r.limit, r.source, r.limitAhead, r.roadClass];
    ghost var d2 := d1 + Le(r.aheadDistance, 2);
    ghost var d3 := d2 + Le(r.age, 2);
    ghost var d4 := d3 + [r.edgeFlags, r.lanes];
    ghost var d5 := d4 + Zeros(2);
    ghost var d6 := d5 + Le(r.matchDistance, 2);
    AddBytes(out, s, done, left, at, [r.limit, r.source, r.limitAhead, r.roadClass]);
    AddU16(out, s, d1, left - 4, at + 4, r.aheadDistance);
    AddU16(out, s, d2, left - 6, at + 6, r.age);
    AddBytes(out, s, d3, left - 8, at + 8, [r.edgeFlags, r.lanes]);
    FilledSkip(out[..], s, d4, left - 10, 2);
    AddU16(out, s, d5, left - 12, at + 12, r.matchDistance);
    FilledSkip(out[..], s, d6, left - 14, 2);
    TwoZeros();
    assert d6 + [0, 0] == done + RoadAttrBytes(r);
  }

  method AddPoint(out: array<U8>, ghost s: seq<U8>, ghost done: seq<U8>, ghost left: nat, at: nat, p: CurvePoint)
    requires at == |done| && 12 <= left && Filled(out[..], s, done, left)
    modifies out
    ensures Filled(out[..], s, done + PointBytes(p), left - 12)
  {
    hide Filled, Patch, Le, FromI32;
    ghost var d1 := done + Le(FromI32(p.lat), 4);
    ghost var d2 := d1 + Le(FromI32(p.lon), 4);
    ghost var d3 := d2 + Le(p.distance, 2);
    AddU32(out, s, done, left, at, FromI32(p.lat));
    AddU32(out, s, d1, left - 4, at + 4, FromI32(p.lon));
    AddU16(out, s, d2, left - 8, at + 8, p.distance);
    AddBytes(out, s, d3, left - 10, at + 10, [p.speed, p.curvature]);
    assert d3 + [p.speed, p.curvature] == done + PointBytes(p);
  }

  /** Points after the first n stay zero. */
  lemma {:induction false} EmptyPoints(points: seq<CurvePoint>, n: nat, k: nat)
    requires n <= k <= |points|
    ensures PointsBytes(FirstPoints(points, n)[..k]) == PointsBytes(points[..n]) + Zeros(12 * (k - n))
  {
    hide Le, Zeros;
    var first := FirstPoints(points, n);
    if k == n {
      assert first[..k] == points[..n];
      ZerosNone(PointsBytes(points[..n]));
    } else {
      EmptyPoints(points, n, k - 1);
      assert first[..k][..k - 1] == first[..k - 1];
      EmptyPoint();
      ZerosSplit(12 * (k - 1 - n), 12);
      Assoc(PointsBytes(points[..n]), Zeros(12 * (k - 1 - n)), Zeros(12));
    }
  }

  lemma ZerosNone(b: seq<U8>)
    ensures b + Zeros(0) == b
  {}

  lemma EmptyPoint()
    ensures PointBytes(NO_POINT) == Zeros(12)
  {
    assert Le(0, 4) == [0, 0, 0, 0] && Le(0, 2) == [0, 0];
  }

  method AddPoints(out: array<U8>, ghost s: seq<U8>, ghost done: seq<U8>, ghost left: nat, at: nat,
                   points: seq<CurvePoint>, n: nat)
    requires at == |done| && 96 <= left && Filled(out[..], s, done, left) && n <= |points| == CURVE_MAX_POINTS
    modifies out
    ensures Filled(out[..], s, done + PointsBytes(FirstPoints(points, n)), left - 96)
  {
    hide Filled, Patch, PointBytes, FirstPoints, Zeros;
    assert done + PointsBytes(points[..0]) == done;
    for i := 0 to n
      invariant Filled(out[..], s, done + PointsBytes(points[..i]), left - 12 * i)
    {
      AddPoint(out, s, done + PointsBytes(points[..i]), left - 12 * i, at + 12 * i, points[i]);
      assert points[..i + 1][..i] == points[..i];
      Assoc(done, PointsBytes(points[..i]), PointBytes(points[i]));
    }
    FilledSkip(out[..], s, done + PointsBytes(points[..n]), left - 12 * n, 96 - 12 * n);
    EmptyPoints(points, n, 8);
    assert FirstPoints(points, n)[..8] == FirstPoints(points, n);
    Assoc(done, PointsBytes(points[..n]), Zeros(96 - 12 * n));
  }

  method AddCurve(out: array<U8>, ghost s: seq<U8>, ghost done: seq<U8>, ghost left: nat, at: nat, c: CurveAhead)
    requires at == |done| && 104 <= left && Filled(out[..], s, done, left) && |c.points| == CURVE_MAX_POINTS
    modifies out
    ensures Filled(out[..], s, done + CurveBytes(NormalCurve(c)), left - 104)
  {
    hide Filled, Patch, Le, Zeros, PointsBytes, FirstPoints, Low;
    var n := Clamp(c.count);
    ghost var d1 := done + [n, c.maxLateral];
    ghost var d2 := d1 + Le(c.horizon, 2);
    ghost var d3 := d2 + Le(c.age, 2);
    ghost var d4 := d3 + [Low(c.flags, 3)];
    ghost var d5 := d4 + Zeros(1);
    AddBytes(out, s, done, left, at, [n, c.maxLateral]);
    AddU16(out, s, d1, left - 2, at + 2, c.horizon);
    AddU16(out, s, d2, left - 4, at + 4, c.age);
    AddBytes(out, s, d3, left - 6, at + 6, [Low(c.flags, 3)]);
    FilledSkip(out[..], s, d4, left - 7, 1);
    AddPoints(out, s, d5, left - 8, at + 8, c.points, n);
    OneZero();
    assert d5 + PointsBytes(FirstPoints(c.points, n)) == done + CurveBytes(NormalCurve(c));
  }

  lemma OneZero()
    ensures Zeros(1) == [0]
  {}

  method AddNavDebug(out: array<U8>, ghost s: seq<U8>, ghost done: seq<U8>, ghost left: nat, at: nat, d: NavDebug)
    requires at == |done| && 8 <= left && Filled(out[..], s, done, left)
    modifies out
    ensures Filled(out[..], s, done + NavDebugBytes(d), left - 8)
  {
    hide Filled, Patch, Le, Zeros;
    ghost var d1 := done + Le(d.render, 2);
    ghost var d2 := d1 + Le(d.mapMatch, 2);
    ghost var d3 := d2 + Le(d.route, 2);
    ghost var d4 := d3 + [d.cpu];
    AddU16(out, s, done, left, at, d.render);
    AddU16(out, s, d1, left - 2, at + 2, d.mapMatch);
    AddU16(out, s, d2, left - 4, at + 4, d.route);
    AddBytes(out, s, d3, left - 6, at + 6, [d.cpu]);
    FilledSkip(out[..], s, d4, left - 7, 1);
    OneZero();
    assert d4 + [0] == done + NavDebugBytes(d);
  }

  lemma EmptyBlocks()
    ensures NavStateBytes(NO_STATE) == Zeros(24) && RoadAttrBytes(NO_ROAD) == Zeros(16)
    ensures CurveBytes(NO_CURVE) == Zeros(104) && NavDebugBytes(NO_DEBUG) == Zeros(8)
  {
    assert Le(0, 4) == [0, 0, 0, 0] && Le(0, 2) == [0, 0];
    assert FirstPoints(NO_POINTS, 0)[..8] == NO_POINTS;
    EmptyPoints(NO_POINTS, 0, 8);
    hide PointsBytes;
    assert PointsBytes([]) == [];
  }

  /** A present block is written, an absent one left zero. */
  method AddNavExt(out: array<U8>, ghost s: seq<U8>, ghost done: seq<U8>, ghost left: nat, at: nat, n: NavExt)
    requires at == |done| && NAV_EXT_SIZE <= left && Filled(out[..], s, done, left) && n.Shape()
    modifies out
    ensures Filled(out[..], s, done + NormalNavBytes(NormalNav(n)), left - NAV_EXT_SIZE)
  {
    hide Filled, Patch, Zeros, NavStateBytes, RoadAttrBytes, CurveBytes, NavDebugBytes, NormalCurve, HasBit, Low;
    hide ClearBit;
    var present: U8 := Low(n.present, 4);
    PresentBits(n.present);
    EmptyBlocks();
    ghost var m := NormalNav(n);
    ghost var d1 := done + [m.present, m.health];
    ghost var d2 := d1 + Zeros(2);
    ghost var d3 := d2 + NavStateBytes(m.state);
    ghost var d4 := d3 + RoadAttrBytes(m.road);
    ghost var d5 := d4 + CurveBytes(m.curve);
    ghost var d6 := d5 + NavDebugBytes(m.debug);
    AddBytes(out, s, done, left, at, [present, Low(n.health, 4)]);
    FilledSkip(out[..], s, d1, left - 2, 2);
    if HasBit(present, NAV_STATE) {
      AddNavState(out, s, d2, left - 4, at + 4, n.state.(inputFlags := Low(n.state.inputFlags, 4)));
    } else {
      FilledSkip(out[..], s, d2, left - 4, 24);
    }
    if HasBit(present, ROAD_ATTR) {
      AddRoadAttr(out, s, d3, left - 28, at + 28, n.road.(edgeFlags := ClearBit(n.road.edgeFlags, 6)));
    } else {
      FilledSkip(out[..], s, d3, left - 28, 16);
    }
    if HasBit(present, CURVE_AHEAD) {
      AddCurve(out, s, d4, left - 44, at + 44, n.curve);
    } else {
      FilledSkip(out[..], s, d4, left - 44, 104);
    }
    if HasBit(present, NAV_DEBUG) {
      AddNavDebug(out, s, d5, left - 148, at + 148, n.debug);
    } else {
      FilledSkip(out[..], s, d5, left - 148, 8);
    }
    FilledSkip(out[..], s, d6, left - 156, 4);
    NavBytesInOrder(done, m);
  }

  lemma NavBytesInOrder(done: seq<U8>, m: NavExt)
    requires m.Shape()
    ensures done + [m.present, m.health] + Zeros(2) + NavStateBytes(m.state) + RoadAttrBytes(m.road)
        + CurveBytes(m.curve)
            + NavDebugBytes(m.debug) + Zeros(4) == done + NormalNavBytes(m)
  {
    hide NavStateBytes, RoadAttrBytes, CurveBytes, NavDebugBytes;
    TwoZeros();
    var a, b, c, d := NavStateBytes(m.state), RoadAttrBytes(m.road), CurveBytes(m.curve), NavDebugBytes(m.debug);
    assert [m.present, m.health, 0, 0] == [m.present, m.health] + [0, 0];
    SevenParts(done, [m.present, m.health], [0, 0], a, b, c, d, Zeros(4));
  }

  lemma SevenParts(d: seq<U8>, h: seq<U8>, z: seq<U8>, a: seq<U8>, b: seq<U8>, c: seq<U8>, e: seq<U8>, t: seq<U8>)
    ensures d + h + z + a + b + c + e + t == d + (h + z + a + b + c + e + t)
  {}

  method PackReply(r: Reply, out: array<U8>) returns (n: nat)
    requires r.Shape()
    modifies out
    ensures if out.Length < REPLY_WIRE_SIZE then n == 0 && out[..] == old(out[..])
            else n == REPLY_WIRE_SIZE && out[..] == Patch(old(out[..]), 0, ReplyBytes(r))
  {
    hide Filled, Patch, MsgHdrBytes, U64Bytes, Words, NormalNavBytes, NormalNav, Zeros;
    if out.Length < REPLY_WIRE_SIZE {
      return 0;
    }
    ghost var s := out[..];
    ghost var d1 := MsgHdrBytes(TYPE_REPLY, r.flags, r.frameIdx, REPLY_PAYLOAD_SIZE);
    ghost var d2 := d1 + U64Bytes(r.tEof);
    ghost var d3 := d2 + Words(r.outputs);
    ghost var d4 := d3 + Words(r.telemetry);
    ghost var d5 := d4 + NormalNavBytes(NormalNav(r.nav));
    Clear(out, REPLY_WIRE_SIZE);
    AddHeader(out, s, 8480, TYPE_REPLY, r.flags, r.frameIdx, REPLY_PAYLOAD_SIZE);
    AddU64(out, s, d1, 8464, 16, r.tEof);
    AddWords(out, s, d2, 8456, OUTPUTS_AT, r.outputs);
    AddWords(out, s, d3, 192, TELEMETRY_AT, r.telemetry);
    AddNavExt(out, s, d4, 176, NAV_EXT_AT, r.nav);
    Done(out[..], s, d5, 16);
    return REPLY_WIRE_SIZE;
  }
}
