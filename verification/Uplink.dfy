/**
 * The uplink sender as a state machine: one frame in flight, one queued, a gate that keeps a stream closed until a
 * pair of key frames arrives, connection epochs, and a socket that takes any number of bytes.
 * Clock readings and socket results are inputs of a step.
 */
module Uplink {
  import opened DropWindow
  import opened FrameCodec
  import opened Options
  import opened Wire

  // ---- what is submitted ----

  datatype RoadSub = RoadSub(epoch: nat, idx: U32, hdr: FrameHeader, road: seq<U8>,
                             actual: bool, predicted: bool, widePredicted: bool)
  {
    predicate Ok() {
      hdr.Shape() && |road| < 0x1_0000_0000
    }

    /** The caller's header with the fields the sender fills in. */
    function Header(): (h: FrameHeader)
      requires Ok()
      ensures h.Shape()
    {
      hdr.(frameIdx := idx, roadLen := |road|, wideLen := 0,
           flags := (if actual then 1 else 0) + (if widePredicted then 2 else 0))
    }

    function Chunk(): (b: seq<U8>)
      requires Ok()
      ensures |b| >= FRAME_HDR_SIZE
    {
      HeaderBytes(Header()) + road
    }
  }

  datatype WideSub = WideSub(epoch: nat, idx: U32, wide: seq<U8>, actual: bool) {
    predicate Ok() {
      |wide| < 0x1_0000_0000
    }

    function Chunk(): (b: seq<U8>)
      requires Ok()
      ensures |b| >= WIDE_LEN_SIZE + TAIL_RESERVED_SIZE
    {
      Le(|wide|, 4) + wide + Zeros(TAIL_RESERVED_SIZE)
    }
  }

  /** The packed frame of a pair. */
  function PairBytes(r: RoadSub, w: WideSub): seq<U8>
    requires r.Ok() && w.Ok()
  {
    FrameBytes(r.Header().(wideLen := |w.wide|), r.road, w.wide)
  }

  // ---- frames under way ----

  /** The submissions a frame is built from, and how many bytes of each of its two chunks were sent. */
  datatype OutFrame = OutFrame(idx: U32, road: Option<RoadSub>, wide: Option<WideSub>, sent1: nat, sent2: nat,
                               done1: bool)
  {
    predicate Ok() {
      && (road.Some? ==> road.value.Ok() && road.value.idx == idx)
      && (wide.Some? ==> wide.value.Ok() && wide.value.idx == idx)
      && sent1 <= |Chunk1()| && sent2 <= |Chunk2()|
      && (done1 <==> road.Some? && sent1 == |Chunk1()|)
      && (!done1 ==> sent2 == 0)
    }

    function Chunk1(): seq<U8>
      requires road.Some? ==> road.value.Ok()
    {
      if road.Some? then road.value.Chunk() else []
    }

    function Chunk2(): seq<U8>
      requires wide.Some? ==> wide.value.Ok()
    {
      if wide.Some? then wide.value.Chunk() else []
    }

    predicate Complete()
      requires Ok()
    {
      done1 && wide.Some? && sent2 == |Chunk2()|
    }

    /** The bytes of this frame that are on the wire. */
    function Sent(): seq<U8>
      requires Ok()
    {
      Chunk1()[..sent1] + Chunk2()[..sent2]
    }

    predicate Unsent() {
      sent1 == 0 && sent2 == 0 && !done1
    }

    /** Both segments are there, are key frames, and were announced as such. */
    predicate Qualified() {
      && road.Some? && wide.Some?
      && road.value.actual && wide.value.actual && road.value.predicted && road.value.widePredicted
    }
  }

  function NewFrame(idx: U32): OutFrame {
    OutFrame(idx, None, None, 0, 0, false)
  }

  datatype EventKind = NewConnection | Stall | LinkLost | Drop | StreamGap | HeadBarrier | FrameSent
  datatype Event = Event(kind: EventKind, idx: nat, epoch: nat)

  datatype Config = Config(stallMs: nat, maxConnectFailures: nat)

  datatype Sender = Sender(cfg: Config, connected: bool, epoch: nat, open: bool, failures: nat,
                           inflight: Option<OutFrame>, queued: Option<OutFrame>, lastProgress: nat,
                           dropped: Ring, events: seq<Event>)
  {
    function Emit(kind: EventKind, idx: nat): Sender {
      this.(events := events + [Event(kind, idx, epoch)])
    }
  }

  function Initial(cfg: Config): Sender {
    Sender(cfg, false, 0, false, 0, None, None, 0, EMPTY, [])
  }

  // ---- submitting ----

  datatype Slot = InFlight | Queued | NoSlot

  /** The slot a segment belongs to; a newer frame takes the queue over from an older one. */
  function FindOrCreate(s: Sender, idx: U32): (Sender, Slot)
    requires s.dropped.Valid()
  {
    if s.inflight.Some? && s.inflight.value.idx == idx then (s, InFlight)
    else if s.queued.Some? && s.queued.value.idx == idx then (s, Queued)
    else if s.dropped.Contains(idx) then (s, NoSlot)
    else if s.inflight.Some? && idx < s.inflight.value.idx then (s, NoSlot)
    else if s.queued.Some? && idx < s.queued.value.idx then (s, NoSlot)
    else if s.queued.Some? then
      var dead := s.queued.value.idx;
      var s1 := s.(dropped := s.dropped.Note(dead)).Emit(if s.open then Drop else HeadBarrier, dead);
      (s1.(open := false, queued := Some(NewFrame(idx))), Queued)
    else (s.(queued := Some(NewFrame(idx))), Queued)
  }

  /** With the gate closed a complete queued pair is judged: it opens the gate or is dropped whole. */
  function ResolveGate(s: Sender): Sender
    requires s.dropped.Valid()
  {
    if s.open || s.queued.None? || s.queued.value.road.None? || s.queued.value.wide.None? then s
    else if s.queued.value.Qualified() then s.(open := true)
    else
      var idx := s.queued.value.idx;
      s.(dropped := s.dropped.Note(idx), queued := None).Emit(HeadBarrier, idx)
  }

  function SubmitRoad(s: Sender, r: RoadSub): Sender
    requires s.dropped.Valid()
  {
    if !s.connected || r.epoch != s.epoch then s
    else
      var (s1, slot) := FindOrCreate(s, r.idx);
      match slot
      case NoSlot => s1
      case InFlight =>
        if s1.inflight.value.road.Some? then s1
        else ResolveGate(s1.(inflight := Some(s1.inflight.value.(road := Some(r)))))
      case Queued =>
        if s1.queued.value.road.Some? then s1
        else ResolveGate(s1.(queued := Some(s1.queued.value.(road := Some(r)))))
  }

  function SubmitWide(s: Sender, w: WideSub): Sender
    requires s.dropped.Valid()
  {
    if !s.connected || w.epoch != s.epoch then s
    else
      var (s1, slot) := FindOrCreate(s, w.idx);
      match slot
      case NoSlot => s1
      case InFlight =>
        if s1.inflight.value.wide.Some? then s1
        else ResolveGate(s1.(inflight := Some(s1.inflight.value.(wide := Some(w)))))
      case Queued =>
        if s1.queued.value.wide.Some? then s1
        else ResolveGate(s1.(queued := Some(s1.queued.value.(wide := Some(w)))))
  }

  // ---- writing ----

  datatype WriteState = Done | Blocked | Error
  datatype Written = Written(frame: OutFrame, state: WriteState, bytes: seq<U8>)

  /** What the socket takes of `left` bytes when it answers `reply`. */
  function Accepted(reply: int, left: nat): (k: nat)
    ensures k <= left
  {
    if reply <= 0 then 0 else if reply <= left then reply else left
  }

  /** Nothing to write before another segment arrives. */
  predicate Waiting(f: OutFrame) {
    if f.done1 then f.wide.None? else f.road.None?
  }

  /** The bytes one reply of the socket puts on the wire. */
  function Taken(f: OutFrame, reply: int): (out: seq<U8>)
    requires f.Ok()
    ensures |out| == Accepted(reply, if f.done1 then |f.Chunk2()| - f.sent2 else |f.Chunk1()| - f.sent1)
  {
    if f.done1 then f.Chunk2()[f.sent2..][..Accepted(reply, |f.Chunk2()| - f.sent2)]
    else f.Chunk1()[f.sent1..][..Accepted(reply, |f.Chunk1()| - f.sent1)]
  }

  function Advance(f: OutFrame, reply: int): OutFrame
    requires f.Ok()
  {
    var k := |Taken(f, reply)|;
    if f.done1 then f.(sent2 := f.sent2 + k)
    else f.(sent1 := f.sent1 + k, done1 := f.sent1 + k == |f.Chunk1()|)
  }

  /** g is f with `out` more bytes of it on the wire. */
  ghost predicate Extends(f: OutFrame, g: OutFrame, out: seq<U8>) {
    f.Ok() && g.Ok() && g.idx == f.idx && g.road == f.road && g.wide == f.wide && g.Sent() == f.Sent() + out
  }

  lemma ExtendsTransitive(f: OutFrame, g: OutFrame, h: OutFrame, out: seq<U8>, more: seq<U8>)
    requires Extends(f, g, out) && Extends(g, h, more)
    ensures Extends(f, h, out + more)
  {
    hide OutFrame.Ok, OutFrame.Sent;
    assert f.Sent() + out + more == f.Sent() + (out + more);
  }

  lemma ExtendsByNothing(f: OutFrame)
    requires f.Ok()
    ensures Extends(f, f, [])
  {
    hide OutFrame.Ok, OutFrame.Sent;
    assert f.Sent() + [] == f.Sent();
  }

  lemma AdvanceOk(f: OutFrame, reply: int)
    requires f.Ok() && !Waiting(f)
    ensures Extends(f, Advance(f, reply), Taken(f, reply))
  {
    hide RoadSub.Chunk, WideSub.Chunk, RoadSub.Ok, WideSub.Ok;
    if f.done1 {
      SplitAt(f.Chunk2(), f.sent2, |Taken(f, reply)|);
    } else {
      SplitAt(f.Chunk1(), f.sent1, |Taken(f, reply)|);
    }
  }

  lemma SplitAt(s: seq<U8>, i: nat, k: nat)
    requires i + k <= |s|
    ensures s[..i] + s[i..][..k] == s[..i + k]
  {}

  /** Writes until the frame is out or the socket blocks or fails; after the last reply it blocks. */
  function WriteOut(f: OutFrame, replies: seq<int>): Written
    requires f.Ok()
    decreases |replies|
  {
    if Waiting(f) || replies == [] || replies[0] == 0 then Written(f, Blocked, [])
    else if replies[0] < 0 then Written(f, Error, [])
    else
      AdvanceOk(f, replies[0]);
      var g, out := Advance(f, replies[0]), Taken(f, replies[0]);
      if g.Complete() then Written(g, Done, out)
      else
        var rest := WriteOut(g, replies[1..]);
        Written(rest.frame, rest.state, out + rest.bytes)
  }

  // ---- the sender thread ----

  /** One iteration: a clock reading, the socket's replies, and if it connects, the outcome and a second reading. */
  datatype Tick = Tick(now: nat, replies: seq<int>, finishReplies: seq<int>, connectOk: bool, connectedAt: nat)

  datatype StepResult = StepResult(sender: Sender, progress: bool, written: seq<U8>,
                                   started: Option<OutFrame>, completed: Option<OutFrame>, cut: Option<OutFrame>)

  function DropConnection(s: Sender): Sender {
    s.(connected := false, open := false, inflight := None, queued := None)
  }

  /** Milliseconds since `last` on an unsigned 64-bit clock. */
  function Elapsed(now: nat, last: nat): nat {
    (now - last) % 0x1_0000_0000_0000_0000
  }

  /** A gate that is still closed judges the queue; then an open gate lets a road segment start. */
  function TryStart(s: Sender, now: nat): (r: (Sender, Option<OutFrame>))
    requires s.dropped.Valid()
    ensures r.0.inflight.Some? ==> r.0.inflight == s.inflight || r.0.inflight == s.queued
  {
    var s1 := if s.open then s else ResolveGate(s);
    if s1.open && s1.inflight.None? && s1.queued.Some? && s1.queued.value.road.Some? then
      (s1.(inflight := s1.queued, queued := None, lastProgress := now), s1.queued)
    else (s1, None)
  }

  /** The connection is given up after a stall: the rest of the frame is sent if the socket takes it at once. */
  function GiveUp(s: Sender, f: OutFrame, t: Tick, progress: bool, bytes: seq<U8>,
                  started: Option<OutFrame>): StepResult
    requires f.Ok()
  {
    var v := WriteOut(f, t.finishReplies);
    var s1 := s.Emit(Stall, f.idx);
    if v.state.Done? then
      StepResult(DropConnection(s1.Emit(FrameSent, f.idx)), progress, bytes + v.bytes, started, Some(v.frame), None)
    else StepResult(DropConnection(s1), progress, bytes + v.bytes, started, None, Some(v.frame))
  }

  /** Sends what the socket takes of the frame in flight. */
  function Send(s: Sender, f: OutFrame, t: Tick, started: Option<OutFrame>): StepResult
    requires f.Ok()
  {
    WriteOutOk(f, t.replies);
    var w := WriteOut(f, t.replies);
    var last := if w.bytes == [] then s.lastProgress else t.now;
    var s1 := s.(inflight := Some(w.frame), lastProgress := last);
    match w.state
    case Done => StepResult(s1.(inflight := None).Emit(FrameSent, f.idx), true, w.bytes, started, Some(w.frame), None)
    case Error => StepResult(DropConnection(s1), started.Some?, w.bytes, started, None, Some(w.frame))
    case Blocked =>
      var progress := started.Some? || w.bytes != [];
      if Elapsed(t.now, last) < s.cfg.stallMs then StepResult(s1, progress, w.bytes, started, None, None)
      else GiveUp(s1, w.frame, t, progress, w.bytes, started)
  }

  function ConnectedStep(s: Sender, t: Tick): StepResult
    requires s.dropped.Valid()
    requires s.inflight.Some? ==> s.inflight.value.Ok()
    requires s.queued.Some? ==> s.queued.value.Ok()
  {
    var start := TryStart(s, t.now);
    if start.0.inflight.None? then StepResult(start.0, start.1.Some?, [], start.1, None, None)
    else Send(start.0, start.0.inflight.value, t, start.1)
  }

  function ConnectStep(s: Sender, t: Tick): Sender
    requires s.dropped.Valid()
  {
    if t.connectOk then
      s.(connected := true, open := false, epoch := s.epoch + 1, dropped := s.dropped.Cleared(), failures := 0,
         lastProgress := t.connectedAt).Emit(NewConnection, 0)
    else
      var s1 := s.(failures := s.failures + 1);
      if s1.failures == s.cfg.maxConnectFailures then s1.Emit(LinkLost, 0) else s1
  }

  function Step(s: Sender, t: Tick): StepResult
    requires s.dropped.Valid()
    requires s.inflight.Some? ==> s.inflight.value.Ok()
    requires s.queued.Some? ==> s.queued.value.Ok()
  {
    if s.connected then ConnectedStep(s, t)
    else StepResult(ConnectStep(s, t), t.connectOk, [], None, None, None)
  }

  function NotifyDisconnect(s: Sender): Sender {
    if s.connected then DropConnection(s) else s
  }

  function NotifyStreamGap(s: Sender): Sender {
    s.(open := false)
  }

  // ---- writing extends what was sent ----

  /** The frame stays well formed, its submissions stay, and exactly the returned bytes are added to what was sent. */
  lemma {:induction false} WriteOutOk(f: OutFrame, replies: seq<int>)
    requires f.Ok()
    ensures var w := WriteOut(f, replies);
            && Extends(f, w.frame, w.bytes)
            && (w.state.Done? ==> w.frame.Complete())
            && (!w.state.Done? && !f.Complete() ==> !w.frame.Complete())
    decreases |replies|
  {
    hide OutFrame.Ok, OutFrame.Sent, OutFrame.Complete, Advance, Taken, Waiting;
    if !Waiting(f) && replies != [] && replies[0] > 0 {
      AdvanceOk(f, replies[0]);
      var g, out := Advance(f, replies[0]), Taken(f, replies[0]);
      if !g.Complete() {
        WriteOutOk(g, replies[1..]);
        var w := WriteOut(g, replies[1..]);
        ExtendsTransitive(f, g, w.frame, out, w.bytes);
      }
    } else {
      ExtendsByNothing(f);
    }
  }

  /** A complete frame on the wire is the packed frame of its pair. */
  lemma CompleteIsPacked(f: OutFrame)
    requires f.Ok() && f.Complete()
    ensures f.Sent() == PairBytes(f.road.value, f.wide.value)
  {
    hide RoadSub.Chunk, WideSub.Chunk, PairBytes, RoadSub.Header;
    ChunksArePacked(f.road.value, f.wide.value);
    assert f.Chunk1()[..f.sent1] == f.Chunk1() && f.Chunk2()[..f.sent2] == f.Chunk2();
  }

  lemma ChunksArePacked(r: RoadSub, w: WideSub)
    requires r.Ok() && w.Ok()
    ensures r.Chunk() + w.Chunk() == PairBytes(r, w)
  {
    hide Le, HeaderBytes;
    HeaderWithoutWideLen(r.Header(), |w.wide|);
    Regroup(HeaderBytes(r.Header()), r.road, Le(|w.wide|, 4), w.wide, Zeros(TAIL_RESERVED_SIZE));
  }

  lemma Regroup(h: seq<U8>, road: seq<U8>, len: seq<U8>, wide: seq<U8>, tail: seq<U8>)
    ensures (h + road) + (len + wide + tail) == h + road + len + wide + tail
  {}

  lemma HeaderWithoutWideLen(h: FrameHeader, n: U32)
    requires h.Shape()
    ensures HeaderBytes(h.(wideLen := n)) == HeaderBytes(h)
  {
    hide MsgHdrBytes, U64Bytes, Words, VehicleBytes, NormalVehicle;
  }

  /** An incomplete frame's bytes are a proper prefix of a packed frame of its road segment. */
  lemma IncompleteIsPrefix(f: OutFrame) returns (r: RoadSub, w: WideSub)
    requires f.Ok() && !f.Complete() && f.road.Some?
    ensures r == f.road.value && r.Ok() && w.Ok() && (f.wide.Some? ==> w == f.wide.value)
    ensures f.Sent() < PairBytes(r, w)
  {
    hide Le, RoadSub.Header, RoadSub.Chunk, WideSub.Chunk, PairBytes;
    r := f.road.value;
    w := if f.wide.Some? then f.wide.value else WideSub(r.epoch, f.idx, [], false);
    var whole := OutFrame(f.idx, Some(r), Some(w), |r.Chunk()|, |w.Chunk()|, true);
    CompleteIsPacked(whole);
    ProperPrefix(r.Chunk(), w.Chunk(), f.sent1, f.sent2);
  }

  lemma ProperPrefix(a: seq<U8>, b: seq<U8>, i: nat, j: nat)
    requires i <= |a| && j <= |b| && (i < |a| ==> j == 0) && i + j < |a| + |b|
    ensures a[..i] + b[..j] < a[..|a|] + b[..|b|]
  {}
}
