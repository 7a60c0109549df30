/** Whole runs of the uplink sender: what is on the wire, in which order, and how a stream may begin. */
module UplinkRuns {
  import opened DropWindow
  import opened FrameCodec
  import opened Options
  import opened Uplink
  import opened Wire

  datatype Input = Road(r: RoadSub) | Wide(w: WideSub) | Ticks(tick: Tick) | Disconnect | StreamGap

  /** A frame that began transmission, and whether nothing had begun since the last connect, overwrite or stream gap. */
  datatype Start = Start(frame: OutFrame, first: bool)

  /** What an observer of the current connection has seen. */
  datatype Trace = Trace(roads: set<RoadSub>, wides: set<WideSub>, sent: seq<OutFrame>, cut: Option<OutFrame>,
                         wire: seq<U8>, starts: seq<Start>, awaiting: bool)

  datatype World = World(s: Sender, t: Trace)

  predicate InputOk(i: Input) {
    match i
    case Road(r) => r.Ok()
    case Wide(w) => w.Ok()
    case _ => true
  }

  function Begin(cfg: Config): World {
    World(Initial(cfg), Trace({}, {}, [], None, [], [], true))
  }

  /** The submission made the queue drop an older frame of an open stream. */
  predicate Overwrote(before: Sender, after: Sender) {
    |after.events| > |before.events| && after.events[|before.events|].kind.Drop?
  }

  function Observe(t: Trace, r: StepResult): Trace {
    t.(wire := t.wire + r.written,
       sent := if r.completed.Some? then t.sent + [r.completed.value] else t.sent,
       cut := r.cut,
       starts := if r.started.Some? then t.starts + [Start(r.started.value, t.awaiting)] else t.starts,
       awaiting := t.awaiting && r.started.None?)
  }

  function Apply(w: World, i: Input): World
    requires Sound(w.s)
  {
    match i
    case Road(r) =>
      var s := SubmitRoad(w.s, r);
      World(s, w.t.(roads := w.t.roads + {r}, awaiting := w.t.awaiting || Overwrote(w.s, s)))
    case Wide(x) =>
      var s := SubmitWide(w.s, x);
      World(s, w.t.(wides := w.t.wides + {x}, awaiting := w.t.awaiting || Overwrote(w.s, s)))
    case Ticks(tick) =>
      var r := Step(w.s, tick);
      if w.s.connected then World(r.sender, Observe(w.t, r))
      else if tick.connectOk then World(r.sender, Trace(w.t.roads, w.t.wides, [], None, [], [], true))
      else World(r.sender, w.t)
    case Disconnect =>
      World(NotifyDisconnect(w.s), if w.s.connected then w.t.(cut := w.s.inflight) else w.t)
    case StreamGap =>
      World(NotifyStreamGap(w.s), w.t.(awaiting := true))
  }

  // ---- the invariant ----

  ghost predicate SoundInflight(f: Option<OutFrame>) {
    f.Some? ==> f.value.Ok() && f.value.road.Some? && !f.value.Complete()
  }

  ghost predicate SoundQueued(f: Option<OutFrame>) {
    f.Some? ==> f.value.Ok() && f.value.Unsent()
  }

  ghost predicate Sound(s: Sender) {
    && s.dropped.Valid() && SoundInflight(s.inflight) && SoundQueued(s.queued)
    && (!s.connected ==> s.inflight.None? && s.queued.None? && !s.open)
  }

  /** Both segments of a frame were submitted, stamped with this epoch. */
  ghost predicate OwnedFrame(f: OutFrame, t: Trace, epoch: nat) {
    && (f.road.Some? ==> f.road.value in t.roads && f.road.value.epoch == epoch)
    && (f.wide.Some? ==> f.wide.value in t.wides && f.wide.value.epoch == epoch)
  }

  ghost predicate Owned(s: Sender, t: Trace) {
    && (s.inflight.Some? ==> OwnedFrame(s.inflight.value, t, s.epoch))
    && (s.queued.Some? ==> OwnedFrame(s.queued.value, t, s.epoch))
    && (t.cut.Some? ==> OwnedFrame(t.cut.value, t, s.epoch))
    && forall i :: 0 <= i < |t.sent| ==> OwnedFrame(t.sent[i], t, s.epoch)
  }

  function Concat(frames: seq<OutFrame>): seq<U8>
    requires forall i :: 0 <= i < |frames| ==> frames[i].Ok()
  {
    if frames == [] then [] else Concat(frames[..|frames| - 1]) + frames[|frames| - 1].Sent()
  }

  /** The frame whose bytes end the stream without being complete. */
  function Unfinished(s: Sender, t: Trace): Option<OutFrame> {
    if s.inflight.Some? then s.inflight else t.cut
  }

  function Tail(f: Option<OutFrame>): seq<U8>
    requires f.Some? ==> f.value.Ok()
  {
    if f.Some? then f.value.Sent() else []
  }

  ghost predicate WireInv(s: Sender, t: Trace) {
    && (forall i :: 0 <= i < |t.sent| ==> t.sent[i].Ok() && t.sent[i].Complete())
    && SoundInflight(s.inflight) && SoundInflight(t.cut)
    && (s.connected ==> t.cut.None?)
    && t.wire == Concat(t.sent) + Tail(Unfinished(s, t))
  }

  ghost predicate GateInv(s: Sender, t: Trace) {
    && (t.awaiting && s.open ==> s.queued.Some? && s.queued.value.Qualified())
    && (forall i :: 0 <= i < |t.starts| ==> t.starts[i].first ==> t.starts[i].frame.Qualified())
    && (if t.starts == [] then t.awaiting else t.starts[0].first)
  }

  ghost predicate Inv(w: World) {
    Sound(w.s) && Owned(w.s, w.t) && WireInv(w.s, w.t) && GateInv(w.s, w.t)
  }

  // ---- submissions ----

  /** A submission leaves the frame in flight alone but for a missing wide segment, and the rest as described. */
  ghost predicate SubmitEffect(s: Sender, s': Sender, t: Trace, t': Trace)
    requires Sound(s)
  {
    && Sound(s') && s'.connected == s.connected && s'.epoch == s.epoch
    && s'.inflight.Some? == s.inflight.Some?
    && (s.inflight.Some? ==> s'.inflight.value.road == s.inflight.value.road
                             && s'.inflight.value.idx == s.inflight.value.idx
                             && s'.inflight.value.Sent() == s.inflight.value.Sent()
                             && OwnedFrame(s'.inflight.value, t', s.epoch))
    && (s'.queued.Some? ==> OwnedFrame(s'.queued.value, t', s.epoch))
    && (t'.awaiting && s'.open ==> s'.queued.Some? && s'.queued.value.Qualified())
  }

  /** Adding the wide segment of a frame whose road segment is complete or under way. */
  lemma AddWide(f: OutFrame, x: WideSub)
    requires f.Ok() && f.wide.None? && x.Ok() && x.idx == f.idx
    ensures var g := f.(wide := Some(x)); g.Ok() && g.Sent() == f.Sent() && !g.Complete() && (f.Unsent() ==> g.Unsent())
  {
    hide RoadSub.Chunk, WideSub.Chunk;
    assert f.sent2 == 0;
  }

  lemma AddRoad(f: OutFrame, r: RoadSub)
    requires f.Ok() && f.road.None? && r.Ok() && r.idx == f.idx && f.Unsent()
    ensures var g := f.(road := Some(r)); g.Ok() && g.Unsent()
  {
    hide RoadSub.Chunk, WideSub.Chunk;
  }

  lemma NewFrameOk(idx: U32)
    ensures NewFrame(idx).Ok() && NewFrame(idx).Unsent()
  {}

  lemma NewFrameEmpty(idx: U32)
    ensures NewFrame(idx).idx == idx && NewFrame(idx).road.None? && NewFrame(idx).wide.None?
  {}

  /** Finding a slot changes at most the queue; it closes the gate whenever it drops a queued frame. */
  lemma FindKeeps(s: Sender, t: Trace, idx: U32)
    requires Sound(s) && Owned(s, t) && GateInv(s, t) && s.connected
    ensures var r := FindOrCreate(s, idx);
            && Sound(r.0) && r.0.connected == s.connected && r.0.epoch == s.epoch && r.0.inflight == s.inflight
            && (r.0.queued.Some? ==> OwnedFrame(r.0.queued.value, t, s.epoch))
            && ((t.awaiting || Overwrote(s, r.0)) && r.0.open ==> r.0.queued.Some? && r.0.queued.value.Qualified())
            && (r.1.InFlight? ==> s.inflight.Some? && s.inflight.value.idx == idx)
            && (r.1.Queued? ==> r.0.queued.Some? && r.0.queued.value.idx == idx)
            && s.events <= r.0.events && (|r.0.events| > |s.events| ==> !r.0.open)
  {
    hide OutFrame.Ok, OutFrame.Unsent, OutFrame.Complete, OutFrame.Sent, Ring.Note, Ring.Contains, Ring.Valid;
    hide NewFrame;
    NewFrameOk(idx);
    NewFrameEmpty(idx);
  }

  /** Judging the queue keeps it sound and opens the gate for a qualified pair only. */
  lemma ResolveKeeps(s: Sender)
    requires Sound(s) && s.connected
    ensures var r := ResolveGate(s);
            && Sound(r) && r.connected == s.connected && r.epoch == s.epoch && r.inflight == s.inflight
            && (r.queued.None? || r.queued == s.queued)
            && (!s.open && r.open ==> r.queued.Some? && r.queued.value.Qualified())
            && s.events <= r.events && (|r.events| > |s.events| ==> r.events[|s.events|].kind.HeadBarrier?)
            && (s.open ==> r == s)
  {
    hide OutFrame.Ok, OutFrame.Unsent, OutFrame.Complete, OutFrame.Sent, Ring.Note, Ring.Contains, Ring.Valid;
  }

  lemma OverwroteEarly(s: Sender, s1: Sender, s2: Sender)
    requires s.events <= s1.events <= s2.events
    requires |s2.events| > |s1.events| ==> s2.events[|s1.events|].kind.HeadBarrier?
    ensures Overwrote(s, s2) == Overwrote(s, s1)
  {}

  lemma SubmitRoadEffect(s: Sender, t: Trace, r: RoadSub)
    requires Sound(s) && Owned(s, t) && GateInv(s, t) && r.Ok()
    ensures var w := Apply(World(s, t), Road(r)); SubmitEffect(s, w.s, t, w.t)
  {
    hide OutFrame.Ok, OutFrame.Unsent, OutFrame.Complete, OutFrame.Sent, RoadSub.Ok, FindOrCreate, ResolveGate;
    hide Ring.Valid, Overwrote;
    if s.connected && r.epoch == s.epoch {
      FindKeeps(s, t, r.idx);
      var f := FindOrCreate(s, r.idx);
      if f.1.Queued? && f.0.queued.value.road.None? {
        AddRoad(f.0.queued.value, r);
        var s1 := f.0.(queued := Some(f.0.queued.value.(road := Some(r))));
        ResolveKeeps(s1);
        OverwroteEarly(s, f.0, ResolveGate(s1));
      } else {
        OverwroteEarly(s, f.0, f.0);
      }
    } else {
      NotOverwritten(s);
    }
  }

  lemma NotOverwritten(s: Sender)
    ensures !Overwrote(s, s)
  {}

  lemma SubmitWideEffect(s: Sender, t: Trace, x: WideSub)
    requires Sound(s) && Owned(s, t) && GateInv(s, t) && x.Ok()
    ensures var w := Apply(World(s, t), Wide(x)); SubmitEffect(s, w.s, t, w.t)
  {
    hide OutFrame.Ok, OutFrame.Unsent, OutFrame.Complete, OutFrame.Sent, WideSub.Ok, FindOrCreate, ResolveGate;
    hide Ring.Valid, Overwrote;
    if s.connected && x.epoch == s.epoch {
      FindKeeps(s, t, x.idx);
      var f := FindOrCreate(s, x.idx);
      if f.1.Queued? && f.0.queued.value.wide.None? {
        AddWide(f.0.queued.value, x);
        var s1 := f.0.(queued := Some(f.0.queued.value.(wide := Some(x))));
        ResolveKeeps(s1);
        OverwroteEarly(s, f.0, ResolveGate(s1));
      } else if f.1.InFlight? && f.0.inflight.value.wide.None? {
        AddWide(s.inflight.value, x);
        var s1 := f.0.(inflight := Some(f.0.inflight.value.(wide := Some(x))));
        ResolveKeeps(s1);
        OverwroteEarly(s, f.0, ResolveGate(s1));
      } else {
        OverwroteEarly(s, f.0, f.0);
      }
    } else {
      NotOverwritten(s);
    }
  }

  lemma SubmitKeepsInv(w: World, w': World)
    requires Inv(w)
    requires SubmitEffect(w.s, w'.s, w.t, w'.t)
    requires w.t.roads <= w'.t.roads && w.t.wides <= w'.t.wides
    requires w'.t == w.t.(roads := w'.t.roads, wides := w'.t.wides, awaiting := w'.t.awaiting)
    requires w.t.awaiting ==> w'.t.awaiting
    ensures Inv(w')
  {
    hide OutFrame.Ok, OutFrame.Unsent, OutFrame.Complete, OutFrame.Sent, Concat;
  }

  // ---- steps of the sender thread ----

  lemma ConcatOneMore(frames: seq<OutFrame>, f: OutFrame)
    requires forall i :: 0 <= i < |frames| ==> frames[i].Ok()
    requires f.Ok()
    ensures Concat(frames + [f]) == Concat(frames) + f.Sent()
  {
    assert (frames + [f])[..|frames|] == frames;
  }

  /** A frame taken from the queue is sound in flight; if nothing had begun since the last reset, it is qualified. */
  lemma StartKeeps(s: Sender, t: Trace, now: nat)
    requires Sound(s) && Owned(s, t) && GateInv(s, t) && s.connected
    ensures var r := TryStart(s, now);
            && Sound(r.0) && r.0.connected && r.0.epoch == s.epoch
            && (r.0.inflight.Some? ==> OwnedFrame(r.0.inflight.value, t, s.epoch))
            && (r.0.queued.Some? ==> OwnedFrame(r.0.queued.value, t, s.epoch))
            && (r.1.None? ==> r.0.inflight == s.inflight)
            && (r.1.Some? ==> s.inflight.None? && r.0.inflight == r.1 && r.1.value.Unsent()
                              && (t.awaiting ==> r.1.value.Qualified()))
            && (r.1.None? && t.awaiting && r.0.open ==> r.0.queued.Some? && r.0.queued.value.Qualified())
  {
    hide OutFrame.Ok, OutFrame.Complete, OutFrame.Sent, OutFrame.Unsent, ResolveGate, Ring.Valid;
    ResolveKeeps(s);
    if s.queued.Some? {
      UnsentIncomplete(s.queued.value);
    }
  }

  lemma UnsentIncomplete(f: OutFrame)
    requires f.Ok() && f.Unsent()
    ensures !f.Complete() && f.Sent() == []
  {}

  /** What sending does, whatever the socket answers. */
  ghost predicate SendEffect(s: Sender, f: OutFrame, r: StepResult)
    requires f.Ok()
  {
    && r.sender.epoch == s.epoch && r.sender.dropped == s.dropped
    && (r.sender.open ==> s.open) && (r.sender.queued.Some? ==> r.sender.queued == s.queued)
    && (!r.sender.connected ==> r.sender.inflight.None? && r.sender.queued.None? && !r.sender.open)
    && (r.sender.connected ==> r.cut.None? && r.sender.queued == s.queued && r.sender.open == s.open)
    && (r.sender.inflight.Some? ==>
          r.completed.None? && r.cut.None? && Extends(f, r.sender.inflight.value, r.written)
          && !r.sender.inflight.value.Complete())
    && (r.completed.Some? ==>
          r.sender.inflight.None? && r.cut.None? && Extends(f, r.completed.value, r.written)
              && r.completed.value.Complete())
    && (r.cut.Some? ==>
          r.sender.inflight.None? && r.completed.None? && Extends(f, r.cut.value, r.written) && !r.cut.value.Complete())
    && (r.sender.inflight.Some? || r.completed.Some? || r.cut.Some?)
  }

  lemma SendKeeps(s: Sender, f: OutFrame, tick: Tick, started: Option<OutFrame>)
    requires f.Ok() && !f.Complete() && s.connected
    ensures SendEffect(s, f, Send(s, f, tick, started)) && Send(s, f, tick, started).started == started
  {
    hide OutFrame.Ok, OutFrame.Complete, OutFrame.Sent, WriteOut, Extends, Elapsed;
    WriteOutOk(f, tick.replies);
    var w := WriteOut(f, tick.replies);
    if w.state.Blocked? {
      ExtendsOk(f, w.frame, w.bytes);
      WriteOutOk(w.frame, tick.finishReplies);
      var v := WriteOut(w.frame, tick.finishReplies);
      ExtendsTransitive(f, w.frame, v.frame, w.bytes, v.bytes);
    }
  }

  lemma ExtendsOk(f: OutFrame, g: OutFrame, out: seq<U8>)
    requires Extends(f, g, out)
    ensures g.Ok() && g.road == f.road && g.wide == f.wide && g.idx == f.idx && g.Sent() == f.Sent() + out
  {}

  ghost predicate SentOk(t: Trace) {
    forall i :: 0 <= i < |t.sent| ==> t.sent[i].Ok() && t.sent[i].Complete()
  }

  /** The bytes written by a step extend the stream exactly as the frames do. */
  lemma WireAfterSend(s: Sender, t: Trace, f: OutFrame, r: StepResult)
    requires SentOk(t) && f.Ok() && f.road.Some? && t.wire == Concat(t.sent) + f.Sent()
    requires SendEffect(s, f, r)
    ensures WireInv(r.sender, Observe(t, r)) && SoundInflight(r.sender.inflight)
  {
    hide OutFrame.Ok, OutFrame.Complete, OutFrame.Sent, Extends, Concat;
    var g := if r.completed.Some? then r.completed.value else if r.cut.Some? then r.cut.value
        else r.sender.inflight.value;
    ExtendsOk(f, g, r.written);
    assert t.wire + r.written == Concat(t.sent) + (f.Sent() + r.written);
    if r.completed.Some? {
      ConcatOneMore(t.sent, g);
      assert Concat(t.sent + [g]) + [] == Concat(t.sent + [g]);
    }
  }

  lemma OwnedAfterSend(s: Sender, t: Trace, f: OutFrame, r: StepResult)
    requires OwnedFrame(f, t, s.epoch) && f.Ok() && (s.queued.Some? ==> OwnedFrame(s.queued.value, t, s.epoch))
    requires forall i :: 0 <= i < |t.sent| ==> OwnedFrame(t.sent[i], t, s.epoch)
    requires SendEffect(s, f, r)
    ensures Owned(r.sender, Observe(t, r))
  {
    hide OutFrame.Ok, OutFrame.Complete, OutFrame.Sent;
  }

  lemma GateAfterSend(s: Sender, t: Trace, f: OutFrame, r: StepResult)
    requires f.Ok() && SendEffect(s, f, r)
    requires forall i :: 0 <= i < |t.starts| ==> t.starts[i].first ==> t.starts[i].frame.Qualified()
    requires if t.starts == [] then t.awaiting else t.starts[0].first
    requires r.started.Some? && t.awaiting ==> r.started.value.Qualified()
    requires r.started.None? && t.awaiting && s.open ==> s.queued.Some? && s.queued.value.Qualified()
    ensures GateInv(r.sender, Observe(t, r))
  {
    hide OutFrame.Ok, OutFrame.Complete, OutFrame.Sent, OutFrame.Qualified;
  }

  lemma ConnectedStepKeepsInv(w: World, tick: Tick)
    requires Inv(w) && w.s.connected
    ensures Inv(Apply(w, Ticks(tick)))
  {
    hide OutFrame.Ok, OutFrame.Complete, OutFrame.Sent, OutFrame.Unsent, OutFrame.Qualified, TryStart, Send, Concat;
    hide SendEffect, Ring.Valid, RoadSub.Ok;
    var s, t := w.s, w.t;
    StartKeeps(s, t, tick.now);
    var st := TryStart(s, tick.now);
    var s1 := st.0;
    if s1.inflight.None? {
      assert t.wire + [] == t.wire;
    } else {
      var f := s1.inflight.value;
      if st.1.Some? {
        UnsentIncomplete(f);
      }
      SendKeeps(s1, f, tick, st.1);
      var r := Send(s1, f, tick, st.1);
      WireAfterSend(s1, t, f, r);
      OwnedAfterSend(s1, t, f, r);
      GateAfterSend(s1, t, f, r);
      SoundAfterSend(s1, f, r);
    }
  }

  lemma SoundAfterSend(s: Sender, f: OutFrame, r: StepResult)
    requires Sound(s) && f.Ok() && SendEffect(s, f, r) && SoundInflight(r.sender.inflight)
    ensures Sound(r.sender)
  {
    hide OutFrame.Ok, OutFrame.Complete, OutFrame.Sent, OutFrame.Unsent, OutFrame.Qualified, Ring.Valid;
  }

  lemma ConnectKeepsInv(w: World, tick: Tick)
    requires Inv(w) && !w.s.connected
    ensures Inv(Apply(w, Ticks(tick)))
  {
    hide OutFrame.Ok, OutFrame.Complete, OutFrame.Sent, OutFrame.Unsent, OutFrame.Qualified;
  }

  /** Every input keeps the invariant. */
  lemma ApplyKeepsInv(w: World, i: Input)
    requires Inv(w) && InputOk(i)
    ensures Inv(Apply(w, i))
  {
    hide OutFrame.Ok, OutFrame.Complete, OutFrame.Sent, OutFrame.Unsent, OutFrame.Qualified, Step, SubmitRoad;
    hide SubmitWide;
    hide SubmitEffect, RoadSub.Ok, WideSub.Ok;
    match i
    case Road(r) =>
      SubmitRoadEffect(w.s, w.t, r);
      SubmitKeepsInv(w, Apply(w, i));
    case Wide(x) =>
      SubmitWideEffect(w.s, w.t, x);
      SubmitKeepsInv(w, Apply(w, i));
    case Ticks(tick) =>
      if w.s.connected {
        ConnectedStepKeepsInv(w, tick);
      } else {
        ConnectKeepsInv(w, tick);
      }
    case Disconnect =>
    case StreamGap =>
  }

  // ---- runs ----

  function Run(cfg: Config, inputs: seq<Input>): (w: World)
    requires forall i :: i in inputs ==> InputOk(i)
    ensures Inv(w)
  {
    if inputs == [] then Begin(cfg)
    else
      var before := Run(cfg, inputs[..|inputs| - 1]);
      ApplyKeepsInv(before, inputs[|inputs| - 1]);
      Apply(before, inputs[|inputs| - 1])
  }

  datatype Pair = Pair(road: RoadSub, wide: WideSub)

  predicate PairsOk(pairs: seq<Pair>) {
    forall i :: 0 <= i < |pairs| ==> pairs[i].road.Ok() && pairs[i].wide.Ok()
  }

  function PairsBytes(pairs: seq<Pair>): seq<U8>
    requires PairsOk(pairs)
  {
    if pairs == [] then []
    else PairsBytes(pairs[..|pairs| - 1]) + PairBytes(pairs[|pairs| - 1].road, pairs[|pairs| - 1].wide)
  }

  /** A pair of one frame whose segments were both submitted for this connection. */
  ghost predicate Submitted(w: World, p: Pair) {
    && p.road in w.t.roads && p.wide in w.t.wides && p.road.idx == p.wide.idx
    && p.road.epoch == w.s.epoch && p.wide.epoch == w.s.epoch
  }

  /** A proper prefix of the packed frame of a road segment submitted for this connection; where it goes beyond the road
      segment, the wide segment was submitted for this connection too. */
  ghost predicate PrefixOf(w: World, tail: seq<U8>, r: RoadSub, x: WideSub) {
    && r in w.t.roads && r.epoch == w.s.epoch && r.Ok() && x.Ok() && tail < PairBytes(r, x)
    && (|tail| > |r.Chunk()| ==> x in w.t.wides && x.epoch == w.s.epoch && x.idx == r.idx)
  }

  ghost predicate PartialFrame(w: World, tail: seq<U8>) {
    tail == [] || exists r: RoadSub, x: WideSub :: PrefixOf(w, tail, r, x)
  }

  lemma LongTailHasWide(f: OutFrame)
    requires f.Ok() && f.road.Some? && |f.Sent()| > |f.road.value.Chunk()|
    ensures f.wide.Some? && f.wide.value.idx == f.road.value.idx
  {
    hide RoadSub.Chunk, WideSub.Chunk;
  }

  lemma {:induction false} FramesArePairs(w: World, frames: seq<OutFrame>) returns (pairs: seq<Pair>)
    requires forall i :: 0 <= i < |frames| ==>
               frames[i].Ok() && frames[i].Complete() && OwnedFrame(frames[i], w.t, w.s.epoch)
    ensures |pairs| == |frames| && PairsOk(pairs)
    ensures forall i :: 0 <= i < |pairs| ==> Submitted(w, pairs[i])
    ensures PairsBytes(pairs) == Concat(frames)
  {
    hide OutFrame.Sent, PairBytes, RoadSub.Ok, WideSub.Ok, OutFrame.Chunk1, OutFrame.Chunk2;
    if frames == [] {
      pairs := [];
    } else {
      var n := |frames| - 1;
      var init := FramesArePairs(w, frames[..n]);
      var p := Pair(frames[n].road.value, frames[n].wide.value);
      CompleteIsPacked(frames[n]);
      pairs := init + [p];
      assert pairs[..n] == init;
    }
  }

  /** Wire integrity: what is written on a connection is a row of whole packed frames of submitted pairs, then at most
      one proper prefix of a frame; frames never interleave, and every byte is from a submission for this connection. */
  lemma WireIntegrity(cfg: Config, inputs: seq<Input>) returns (pairs: seq<Pair>, tail: seq<U8>)
    requires forall i :: i in inputs ==> InputOk(i)
    ensures var w := Run(cfg, inputs);
            && PairsOk(pairs) && (forall i :: 0 <= i < |pairs| ==> Submitted(w, pairs[i]))
            && PartialFrame(w, tail)
            && w.t.wire == PairsBytes(pairs) + tail
  {
    hide OutFrame.Ok, OutFrame.Complete, OutFrame.Sent, PairBytes, Run;
    var w := Run(cfg, inputs);
    pairs := FramesArePairs(w, w.t.sent);
    var f := Unfinished(w.s, w.t);
    tail := Tail(f);
    if f.Some? {
      var r, x := IncompleteIsPrefix(f.value);
      if |tail| > |r.Chunk()| {
        LongTailHasWide(f.value);
      }
      assert PrefixOf(w, tail, r, x);
    }
  }

  /** Head gate: the first frame to begin after a connect, an overwrite of the queue or a stream gap is a complete
      pair of key frames, announced as such in its header. */
  lemma HeadGate(cfg: Config, inputs: seq<Input>, k: nat)
    requires forall i :: i in inputs ==> InputOk(i)
    requires k < |Run(cfg, inputs).t.starts|
    ensures Run(cfg, inputs).t.starts[0].first
    ensures var st := Run(cfg, inputs).t.starts[k];
            st.first ==> st.frame.Qualified() && (st.frame.road.value.Ok() ==> st.frame.road.value.Header().flags == 3)
  {
    hide Run;
  }

  // ---- order ----

  /** Road segments are submitted with increasing indices on each connection. */
  ghost predicate RoadsIncreasing(inputs: seq<Input>) {
    forall i, j ::
      0 <= i < j < |inputs| && inputs[i].Road? && inputs[j].Road? && inputs[i].r.epoch == inputs[j].r.epoch ==>
      inputs[i].r.idx < inputs[j].r.idx
  }

  /** The indices of the frames that began, oldest first. */
  function StartIndices(starts: seq<Start>): seq<U32> {
    seq(|starts|, i requires 0 <= i < |starts| => starts[i].frame.idx)
  }

  ghost predicate Increasing(xs: seq<U32>) {
    forall i, j :: 0 <= i < j < |xs| ==> xs[i] < xs[j]
  }

  ghost predicate Above(xs: seq<U32>, x: U32) {
    forall i :: 0 <= i < |xs| ==> xs[i] < x
  }

  /** Each begun frame's road segment was submitted for this connection. */
  ghost predicate FromRoads(xs: seq<U32>, roads: set<RoadSub>, epoch: nat) {
    forall i :: 0 <= i < |xs| ==> HasRoad(roads, epoch, xs[i])
  }

  ghost predicate HasRoad(roads: set<RoadSub>, epoch: nat, idx: U32) {
    exists r :: r in roads && r.epoch == epoch && r.idx == idx
  }

  ghost predicate OrderInv(w: World) {
    var xs := StartIndices(w.t.starts);
    && Increasing(xs)
    && FromRoads(xs, w.t.roads, w.s.epoch)
    && (w.s.queued.Some? && w.s.queued.value.road.Some? ==> Above(xs, w.s.queued.value.idx))
    && (!w.s.connected ==> w.s.queued.None?)
  }

  /** A submission gives the queue this road segment, or leaves a road segment that was there already. */
  lemma QueuedRoad(s: Sender, i: Input)
    requires Sound(s) && InputOk(i) && (i.Road? || i.Wide?)
    ensures var q := (if i.Road? then SubmitRoad(s, i.r) else SubmitWide(s, i.w)).queued;
            q.Some? && q.value.road.Some? ==>
              || (s.queued.Some? && s.queued.value.road.Some? && q.value.idx == s.queued.value.idx)
              || (i.Road? && s.epoch == i.r.epoch && q.value.idx == i.r.idx)
  {
    hide OutFrame.Ok, OutFrame.Complete, OutFrame.Sent, OutFrame.Unsent, OutFrame.Qualified, Ring.Note, Ring.Contains;
    hide RoadSub.Ok, WideSub.Ok, Ring.Valid;
  }

  lemma SubmitFrame(s: Sender, i: Input)
    requires Sound(s) && InputOk(i) && (i.Road? || i.Wide?)
    ensures var r := if i.Road? then SubmitRoad(s, i.r) else SubmitWide(s, i.w);
            r.epoch == s.epoch && r.connected == s.connected && (!s.connected ==> r == s)
  {
    hide OutFrame.Ok, OutFrame.Complete, OutFrame.Sent, OutFrame.Unsent, OutFrame.Qualified, Ring.Note, Ring.Contains;
    hide RoadSub.Ok, WideSub.Ok, Ring.Valid;
  }

  lemma SubmitKeepsOrder(w: World, i: Input)
    requires Inv(w) && OrderInv(w) && InputOk(i) && (i.Road? || i.Wide?)
    requires i.Road? ==> forall r :: r in w.t.roads && r.epoch == i.r.epoch ==> r.idx < i.r.idx
    ensures OrderInv(Apply(w, i))
  {
    hide Inv, SubmitRoad, SubmitWide, RoadSub.Ok, WideSub.Ok, Overwrote, StartIndices, Sound, Increasing, FromRoads;
    hide Above;
    SoundOf(w);
    QueuedRoad(w.s, i);
    SubmitFrame(w.s, i);
    var xs := StartIndices(w.t.starts);
    RoadsGrow(xs, w.t.roads, Apply(w, i).t.roads, w.s.epoch);
    if i.Road? && i.r.epoch == w.s.epoch {
      NewRoadAbove(xs, w.t.roads, i.r);
    }
  }

  lemma RoadsGrow(xs: seq<U32>, roads: set<RoadSub>, more: set<RoadSub>, epoch: nat)
    requires FromRoads(xs, roads, epoch) && roads <= more
    ensures FromRoads(xs, more, epoch)
  {
    forall i | 0 <= i < |xs|
      ensures HasRoad(more, epoch, xs[i])
    {
      assert HasRoad(roads, epoch, xs[i]);
      var r :| r in roads && r.epoch == epoch && r.idx == xs[i];
      assert r in more;
    }
  }

  lemma NewRoadAbove(xs: seq<U32>, roads: set<RoadSub>, r: RoadSub)
    requires FromRoads(xs, roads, r.epoch)
    requires forall q :: q in roads && q.epoch == r.epoch ==> q.idx < r.idx
    ensures Above(xs, r.idx)
  {
    forall i | 0 <= i < |xs|
      ensures xs[i] < r.idx
    {
      assert HasRoad(roads, r.epoch, xs[i]);
      var q :| q in roads && q.epoch == r.epoch && q.idx == xs[i];
    }
  }

  lemma SoundOf(w: World)
    requires Inv(w)
    ensures Sound(w.s) && (!w.s.connected ==> w.s.queued.None?)
  {}

  lemma StepFrame(w: World, tick: Tick)
    requires Inv(w) && w.s.connected
    ensures var r := Step(w.s, tick);
            && r.sender.epoch == w.s.epoch
            && (r.started.Some? ==> r.started == w.s.queued && w.s.queued.value.road.Some? && r.sender.queued.None?)
            && (r.sender.queued.Some? ==> r.sender.queued == w.s.queued)
            && (!r.sender.connected ==> r.sender.queued.None?)
  {
    hide OutFrame.Ok, OutFrame.Complete, OutFrame.Sent, OutFrame.Unsent, OutFrame.Qualified, ResolveGate, Concat;
    hide Ring.Valid, Send;
    ResolveKeeps(w.s);
    var (s1, started) := TryStart(w.s, tick.now);
    if s1.inflight.Some? {
      SendFrame(s1, s1.inflight.value, tick, started);
    }
  }

  lemma SendFrame(s: Sender, f: OutFrame, tick: Tick, started: Option<OutFrame>)
    requires f.Ok() && s.connected
    ensures var r := Send(s, f, tick, started);
            && r.sender.epoch == s.epoch && r.started == started
            && (if r.sender.connected then r.sender.queued == s.queued else r.sender.queued.None?)
  {
    hide OutFrame.Ok, OutFrame.Complete, OutFrame.Sent, OutFrame.Unsent, WriteOut, Elapsed;
  }

  lemma TickKeepsOrder(w: World, tick: Tick)
    requires Inv(w) && OrderInv(w)
    ensures OrderInv(Apply(w, Ticks(tick)))
  {
    hide Inv, Step, RoadSub.Ok, WideSub.Ok;
    if w.s.connected {
      StepFrame(w, tick);
      assert Owned(w.s, w.t) && Sound(w.s) by {
        OwnedOf(w);
      }
      var r := Step(w.s, tick);
      if r.started.Some? {
        var more := w.t.starts + [Start(r.started.value, w.t.awaiting)];
        assert StartIndices(more) == StartIndices(w.t.starts) + [r.started.value.idx];
        QueuedIndex(w);
      }
    } else {
      ConnectFrame(w, tick);
    }
  }

  lemma OwnedOf(w: World)
    requires Inv(w)
    ensures Owned(w.s, w.t) && Sound(w.s)
  {}

  lemma QueuedIndex(w: World)
    requires Sound(w.s) && w.s.queued.Some? && w.s.queued.value.road.Some?
    ensures w.s.queued.value.road.value.idx == w.s.queued.value.idx
  {
    hide RoadSub.Ok, WideSub.Ok;
  }

  lemma ConnectFrame(w: World, tick: Tick)
    requires Inv(w) && !w.s.connected
    ensures var a := Apply(w, Ticks(tick));
            a.s.queued.None? && (if tick.connectOk then a.t.starts == [] else a.t == w.t && a.s.epoch == w.s.epoch)
  {
    hide OutFrame.Ok, OutFrame.Complete, OutFrame.Sent, OutFrame.Unsent, Concat;
  }

  lemma {:induction false} RoadsComeFromInputs(cfg: Config, inputs: seq<Input>, r: RoadSub)
    requires forall i :: i in inputs ==> InputOk(i)
    requires r in Run(cfg, inputs).t.roads
    ensures Road(r) in inputs
  {
    hide Inv, Step, SubmitRoad, SubmitWide, RoadSub.Ok, WideSub.Ok, Overwrote;
    if inputs != [] {
      var n := |inputs| - 1;
      var before := Run(cfg, inputs[..n]);
      SoundOf(before);
      if r in before.t.roads {
        RoadsComeFromInputs(cfg, inputs[..n], r);
      }
    }
  }

  lemma {:induction false} RunKeepsOrder(cfg: Config, inputs: seq<Input>)
    requires forall i :: i in inputs ==> InputOk(i)
    requires RoadsIncreasing(inputs)
    ensures OrderInv(Run(cfg, inputs))
  {
    hide Inv, Apply, RoadSub.Ok, WideSub.Ok, OrderInv;
    if inputs == [] {
      BeginInOrder(cfg);
    } else {
      var n := |inputs| - 1;
      var before, i := Run(cfg, inputs[..n]), inputs[n];
      RunKeepsOrder(cfg, inputs[..n]);
      SoundOf(before);
      match i
      case Road(r) =>
        forall q | q in before.t.roads && q.epoch == r.epoch
          ensures q.idx < r.idx
        {
          RoadsComeFromInputs(cfg, inputs[..n], q);
        }
        SubmitKeepsOrder(before, i);
      case Wide(_) => SubmitKeepsOrder(before, i);
      case Ticks(tick) => TickKeepsOrder(before, tick);
      case Disconnect => NoticesKeepOrder(before, i);
      case StreamGap => NoticesKeepOrder(before, i);
    }
  }

  lemma BeginInOrder(cfg: Config)
    ensures OrderInv(Begin(cfg))
  {}

  lemma NoticesKeepOrder(w: World, i: Input)
    requires Sound(w.s) && OrderInv(w) && (i.Disconnect? || i.StreamGap?)
    ensures OrderInv(Apply(w, i))
  {
    hide RoadSub.Ok, WideSub.Ok, OutFrame.Ok, StartIndices;
  }

  /** Frames begin on the wire with strictly increasing indices. */
  lemma FramesBeginInOrder(cfg: Config, inputs: seq<Input>)
    requires forall i :: i in inputs ==> InputOk(i)
    requires RoadsIncreasing(inputs)
    ensures Increasing(StartIndices(Run(cfg, inputs).t.starts))
  {
    hide Run;
    RunKeepsOrder(cfg, inputs);
  }

  // ---- the gate lets a qualified pair through ----

  /** On an idle connection a qualified pair that was not dropped before starts, whichever segment comes first. */
  lemma QualifiedPairStarts(s: Sender, r: RoadSub, x: WideSub, now: nat)
    requires Sound(s) && s.connected && s.inflight.None? && s.queued.None?
    requires r.epoch == x.epoch == s.epoch && r.idx == x.idx && !s.dropped.Contains(r.idx)
    requires r.actual && r.predicted && r.widePredicted && x.actual
    ensures var f := OutFrame(r.idx, Some(r), Some(x), 0, 0, false);
            && TryStart(SubmitWide(SubmitRoad(s, r), x), now).1 == Some(f)
            && TryStart(SubmitRoad(SubmitWide(s, x), r), now).1 == Some(f)
  {
    hide Ring.Note, Ring.Contains, Ring.Valid;
  }

  /** Nothing of the pair is left, the gate is still closed, the drop is reported, and nothing starts. */
  predicate Barred(s: Sender, after: Sender, idx: U32, now: nat)
    requires after.dropped.Valid()
  {
    && after.queued.None? && !after.open && after.events == s.events + [Event(HeadBarrier, idx, s.epoch)]
    && TryStart(after, now).1 == None
  }

  /** A pair that does not qualify never opens a closed gate, whichever segment comes first: it is dropped whole and
      reported. */
  lemma UnqualifiedPairIsBarred(s: Sender, r: RoadSub, x: WideSub, now: nat)
    requires Sound(s) && s.connected && !s.open && s.inflight.None? && s.queued.None?
    requires r.epoch == x.epoch == s.epoch && r.idx == x.idx && !s.dropped.Contains(r.idx)
    requires !(r.actual && r.predicted && r.widePredicted && x.actual)
    ensures var s1, s2 := SubmitWide(SubmitRoad(s, r), x), SubmitRoad(SubmitWide(s, x), r);
      && s1.dropped.Valid() && Barred(s, s1, r.idx, now)
      && s2.dropped.Valid() && Barred(s, s2, r.idx, now)
  {
    hide Ring.Note, Ring.Contains, Ring.Valid;
  }

  // ---- stalls ----

  /** A frame that moved in this iteration, or only began in it, is never taken for stalled; one that did not move for
      the stall time is given up with its connection, but not before the socket is offered the rest of it once more. */
  lemma OnlySilenceIsAStall(s: Sender, t: Tick)
    requires Sound(s) && s.connected && s.cfg.stallMs > 0 && TryStart(s, t.now).0.inflight.Some?
    ensures TryStart(s, t.now).0.inflight.value.Ok()
    ensures WriteOut(TryStart(s, t.now).0.inflight.value, t.replies).frame.Ok()
    ensures var (s1, begun) := TryStart(s, t.now);
      var f := s1.inflight.value;
      var w := WriteOut(f, t.replies);
      var after := Step(s, t).sender;
      w.state.Blocked? ==> (
        if begun.Some? || w.bytes != [] || Elapsed(t.now, s1.lastProgress) < s.cfg.stallMs then
          after.connected && after.events == s1.events && after.inflight == Some(w.frame)
        else
          var rest := WriteOut(w.frame, t.finishReplies);
          && !after.connected && after.inflight.None? && after.queued.None?
          && Step(s, t).written == w.bytes + rest.bytes
          && after.events == s1.events + [Event(Stall, f.idx, s.epoch)]
                             + (if rest.state.Done? then [Event(FrameSent, f.idx, s.epoch)] else []))
  {
    hide OutFrame.Ok, OutFrame.Complete, OutFrame.Sent, OutFrame.Unsent, OutFrame.Qualified, ResolveGate, WriteOut;
    hide Ring.Valid;
    StartIsOk(s, t.now);
    var (s1, begun) := TryStart(s, t.now);
    WriteOutOk(s1.inflight.value, t.replies);
  }

  lemma StartIsOk(s: Sender, now: nat)
    requires Sound(s) && s.connected
    ensures var (s1, begun) := TryStart(s, now);
      && (s1.inflight.Some? ==> s1.inflight.value.Ok())
      && (begun.Some? ==> s1.lastProgress == now)
      && s1.epoch == s.epoch && s1.cfg == s.cfg && s1.connected
  {
    hide OutFrame.Ok, OutFrame.Complete, OutFrame.Sent, OutFrame.Unsent, OutFrame.Qualified;
    ResolveKeeps(s);
  }

  // ---- outages ----

  function TickCount(inputs: seq<Input>): nat {
    if inputs == [] then 0
    else TickCount(inputs[..|inputs| - 1]) + (if inputs[|inputs| - 1].Ticks? then 1 else 0)
  }

  /** No attempt to connect succeeds. */
  predicate Offline(inputs: seq<Input>) {
    forall i :: 0 <= i < |inputs| && inputs[i].Ticks? ==> !inputs[i].tick.connectOk
  }

  lemma OfflineStep(w: World, i: Input)
    requires Inv(w) && InputOk(i) && !w.s.connected && (i.Ticks? ==> !i.tick.connectOk)
    ensures var s := Apply(w, i).s;
      && !s.connected && s.epoch == w.s.epoch && s.cfg == w.s.cfg
      && s.failures == w.s.failures + (if i.Ticks? then 1 else 0)
      && s.events == w.s.events +
           (if i.Ticks? && s.failures == s.cfg.maxConnectFailures then [Event(LinkLost, 0, s.epoch)] else [])
  {
    hide Inv, Ring.Valid, FindOrCreate, ResolveGate, RoadSub.Ok, WideSub.Ok;
  }

  /** Over an outage of any length, with any submissions, gaps and disconnects in between, the link is reported lost
      once, at the configured number of failures in a row, and never again. */
  lemma {:induction false} LinkLostOnce(cfg: Config, inputs: seq<Input>, k: nat)
    requires forall i :: i in inputs ==> InputOk(i)
    requires k <= |inputs| && !Run(cfg, inputs[..k]).s.connected && Offline(inputs[k..])
    ensures var before, after := Run(cfg, inputs[..k]).s, Run(cfg, inputs).s;
      && !after.connected && after.epoch == before.epoch && after.cfg == before.cfg
      && after.failures == before.failures + TickCount(inputs[k..])
      && after.events == before.events + (if before.failures < before.cfg.maxConnectFailures <= after.failures
                                          then [Event(LinkLost, 0, before.epoch)] else [])
  {
    hide Inv, Apply;
    if k == |inputs| {
      assert inputs[..k] == inputs;
    } else {
      var n := |inputs| - 1;
      assert inputs[..n][..k] == inputs[..k];
      assert inputs[k..][..n - k] == inputs[..n][k..];
      assert inputs[k..][n - k] == inputs[n];
      LinkLostOnce(cfg, inputs[..n], k);
      OfflineStep(Run(cfg, inputs[..n]), inputs[n]);
    }
  }

  // ---- soundness on its own ----

  lemma FindSound(s: Sender, idx: U32)
    requires Sound(s) && s.connected
    ensures var r := FindOrCreate(s, idx);
      && Sound(r.0) && r.0.connected && r.0.inflight == s.inflight
      && (r.1.InFlight? ==> s.inflight.Some? && s.inflight.value.idx == idx)
      && (r.1.Queued? ==> r.0.queued.Some? && r.0.queued.value.idx == idx)
  {
    hide OutFrame.Ok, OutFrame.Unsent, OutFrame.Complete, OutFrame.Sent, Ring.Note, Ring.Contains, Ring.Valid, NewFrame;
    NewFrameOk(idx);
    NewFrameEmpty(idx);
  }

  lemma SubmitRoadSound(s: Sender, r: RoadSub)
    requires Sound(s) && r.Ok()
    ensures Sound(SubmitRoad(s, r))
  {
    hide OutFrame.Ok, OutFrame.Unsent, OutFrame.Complete, OutFrame.Sent, RoadSub.Ok, FindOrCreate, ResolveGate;
    hide Ring.Valid;
    if s.connected && r.epoch == s.epoch {
      FindSound(s, r.idx);
      var f := FindOrCreate(s, r.idx);
      if f.1.Queued? && f.0.queued.value.road.None? {
        AddRoad(f.0.queued.value, r);
        ResolveKeeps(f.0.(queued := Some(f.0.queued.value.(road := Some(r)))));
      }
    }
  }

  lemma SubmitWideSound(s: Sender, x: WideSub)
    requires Sound(s) && x.Ok()
    ensures Sound(SubmitWide(s, x))
  {
    hide OutFrame.Ok, OutFrame.Unsent, OutFrame.Complete, OutFrame.Sent, WideSub.Ok, FindOrCreate, ResolveGate;
    hide Ring.Valid;
    if s.connected && x.epoch == s.epoch {
      FindSound(s, x.idx);
      var f := FindOrCreate(s, x.idx);
      if f.1.Queued? && f.0.queued.value.wide.None? {
        AddWide(f.0.queued.value, x);
        ResolveKeeps(f.0.(queued := Some(f.0.queued.value.(wide := Some(x)))));
      } else if f.1.InFlight? && f.0.inflight.value.wide.None? {
        AddWide(s.inflight.value, x);
        ResolveKeeps(f.0.(inflight := Some(f.0.inflight.value.(wide := Some(x)))));
      }
    }
  }

  lemma StartSound(s: Sender, now: nat)
    requires Sound(s) && s.connected
    ensures var r := TryStart(s, now).0;
            Sound(r) && r.connected && (r.inflight.Some? ==> r.inflight.value.Ok() && !r.inflight.value.Complete())
  {
    hide OutFrame.Ok, OutFrame.Complete, OutFrame.Sent, OutFrame.Unsent, ResolveGate, Ring.Valid;
    ResolveKeeps(s);
    if s.queued.Some? {
      UnsentIncomplete(s.queued.value);
    }
  }

  lemma StepSound(s: Sender, tick: Tick)
    requires Sound(s)
    ensures Sound(Step(s, tick).sender)
  {
    hide OutFrame.Ok, OutFrame.Complete, OutFrame.Sent, OutFrame.Unsent, OutFrame.Qualified, TryStart, Send, Extends;
    hide SendEffect, Ring.Valid, RoadSub.Ok;
    if s.connected {
      StartSound(s, tick.now);
      var st := TryStart(s, tick.now);
      if st.0.inflight.Some? {
        var f := st.0.inflight.value;
        SendKeeps(st.0, f, tick, st.1);
        var r := Send(st.0, f, tick, st.1);
        InflightAfterSend(st.0, f, r);
        SoundAfterSend(st.0, f, r);
      }
    } else {
      ConnectSound(s, tick);
    }
  }

  lemma InflightAfterSend(s: Sender, f: OutFrame, r: StepResult)
    requires f.Ok() && f.road.Some? && SendEffect(s, f, r)
    ensures SoundInflight(r.sender.inflight)
  {
    hide OutFrame.Ok, OutFrame.Complete, OutFrame.Sent, Extends;
    if r.sender.inflight.Some? {
      ExtendsOk(f, r.sender.inflight.value, r.written);
    }
  }

  lemma ConnectSound(s: Sender, tick: Tick)
    requires Sound(s) && !s.connected
    ensures Sound(ConnectStep(s, tick))
  {
    hide OutFrame.Ok, OutFrame.Complete, OutFrame.Sent, OutFrame.Unsent;
  }
}
