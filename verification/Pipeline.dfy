/**
 * The glue between the cameras, the two encoders and the sender: frames are paired, numbered, scheduled and encoded,
 * their contexts wait for the encoders' outputs, and the sender's reports come back as events.
 */
module Pipeline {
  import opened Options
  import opened Uplink
  import DW = DropWindow
  import FI = FrameIndexer
  import FS = FrameScheduler
  import MC = MetaCache
  import PM = PairMatcher

  datatype Glue = Glue(slots: PM.Slots, indexer: FI.Numbering, rig: FS.Rig, epoch: nat,
                       road: MC.State, wide: MC.State, evs: seq<Event>)
  {
    predicate Valid() {
      rig.sched.recent.Valid()
    }
  }

  /** The glue, and the calls its scheduler and its two caches have seen. */
  datatype History = History(g: Glue, calls: seq<FS.Call>, roadOps: seq<MC.Op>, wideOps: seq<MC.Op>)

  const START := History(Glue(PM.EMPTY, FI.FRESH, FS.RIG, 0, MC.FRESH, MC.FRESH, []), [], [], [])

  // ---- events ----

  predicate Scheduled(k: EventKind) {
    k in {NewConnection, Drop, HeadBarrier, StreamGap}
  }

  function CallOf(e: Event): (c: FS.Call)
    requires Scheduled(e.kind)
    ensures !c.Submit?
  {
    match e.kind
    case NewConnection => FS.Connect
    case Drop => FS.Dropped(e.idx)
    case HeadBarrier => FS.Dropped(e.idx)
    case _ => FS.Gap
  }

  /** A new connection restarts numbering, forgets what is in the encoders and stamps the new epoch. */
  function Handle(h: History, e: Event): (after: History)
    requires h.g.Valid()
    ensures after.g.Valid()
  {
    if !Scheduled(e.kind) then h
    else
      var rig := FS.Act(h.g.rig, CallOf(e)).0;
      var calls := h.calls + [CallOf(e)];
      if e.kind.NewConnection? then
        History(h.g.(indexer := FI.FRESH, rig := rig, epoch := e.epoch, road := MC.FRESH, wide := MC.FRESH),
                calls, h.roadOps + [MC.Cleared], h.wideOps + [MC.Cleared])
      else h.(g := h.g.(rig := rig), calls := calls)
  }

  function HandleAll(h: History, evs: seq<Event>): (after: History)
    requires h.g.Valid()
    ensures after.g.Valid()
  {
    if evs == [] then h else Handle(HandleAll(h, evs[..|evs| - 1]), evs[|evs| - 1])
  }

  function Drain(h: History): (after: History)
    requires h.g.Valid()
    ensures after.g.Valid()
  {
    var all := HandleAll(h, h.g.evs);
    all.(g := all.g.(evs := []))
  }

  // ---- frames ----

  /** The pair gets its number and its key frames; both caches get its context, each under its own camera's number. */
  function EncodePair(h: History, p: PM.Pair): (r: (History, FS.Outcome))
    requires h.g.Valid()
    ensures r.0.g.Valid()
  {
    var (indexer, idx) := FI.Numbered(h.g.indexer, p.road.sof);
    var (rig, o) := FS.Act(h.g.rig, FS.Submit);
    var m := MC.OutMeta(p.road.frameId, idx, h.g.epoch, o.predictedRoad, o.predictedWide);
    var m' := m.(frameId := p.wide.frameId);
    (History(h.g.(indexer := indexer, rig := rig, road := MC.Pushing(h.g.road, m), wide := MC.Pushing(h.g.wide, m')),
             h.calls + [FS.Submit], h.roadOps + [MC.Pushed(m)], h.wideOps + [MC.Pushed(m')]),
     o)
  }

  /** Only a road frame that is given up takes a slot number. */
  function Account(h: History, dead: Option<PM.Frame>): (after: History)
    requires h.g.Valid()
    ensures after.g.Valid()
  {
    if dead.None? then h else h.(g := h.g.(indexer := FI.Numbered(h.g.indexer, dead.value.sof).0))
  }

  function Place(h: History, a: PM.Arrival): (r: (History, FS.Outcome))
    requires h.g.Valid()
    ensures r.0.g.Valid()
  {
    var drained := Drain(h);
    var (slots, acts) := PM.Push(drained.g.slots, a);
    var accounted := Account(drained.(g := drained.g.(slots := slots)), acts.killRoad);
    if acts.pair.Some? then EncodePair(accounted, acts.pair.value) else (accounted, FS.NO_PAIR)
  }

  // ---- encoder outputs ----

  const GAP_EVENT := Event(StreamGap, 0, 0)

  /** What an output leads to: the events it posts, and the context with which it goes to the sender, if it does. */
  function Report(r: MC.Taken, tooLong: bool): (seq<Event>, Option<MC.OutMeta>) {
    match r.st
    case StaleMiss => ([], None)
    case GapMiss => ([GAP_EVENT], None)
    case Hit =>
      var lost := if r.dead == [] then [] else [Event(Drop, r.dead[0].frameIdx, 0)];
      if tooLong then (lost + [Event(Drop, r.om.frameIdx, 0)], None) else (lost, Some(r.om))
  }

  function Output(h: History, isRoad: bool, frameId: nat, tooLong: bool): (History, Option<MC.OutMeta>) {
    var (cache, r) := MC.Taking(if isRoad then h.g.road else h.g.wide, frameId);
    var (evs, om) := Report(r, tooLong);
    (if isRoad then History(h.g.(road := cache, evs := h.g.evs + evs), h.calls, h.roadOps + [MC.Took(frameId)],
                            h.wideOps)
     else History(h.g.(wide := cache, evs := h.g.evs + evs), h.calls, h.roadOps, h.wideOps + [MC.Took(frameId)]),
     om)
  }

  datatype Input = Posted(e: Event) | Arrived(a: PM.Arrival) | Encoded(isRoad: bool, frameId: nat, tooLong: bool)

  function Do(h: History, i: Input): (after: History)
    requires h.g.Valid()
    ensures after.g.Valid()
  {
    match i
    case Posted(e) => h.(g := h.g.(evs := h.g.evs + [e]))
    case Arrived(a) => Place(h, a).0
    case Encoded(isRoad, frameId, tooLong) => Output(h, isRoad, frameId, tooLong).0
  }

  function Run(inputs: seq<Input>): (h: History)
    ensures h.g.Valid()
  {
    if inputs == [] then START else Do(Run(inputs[..|inputs| - 1]), inputs[|inputs| - 1])
  }

  // ---- the components see their own runs ----

  predicate Faithful(h: History) {
    && h.g.rig == FS.Run(h.calls)
    && h.g.road == MC.Run(h.roadOps)
    && h.g.wide == MC.Run(h.wideOps)
  }

  lemma OneMoreCall(calls: seq<FS.Call>, c: FS.Call)
    ensures FS.Run(calls + [c]) == FS.Act(FS.Run(calls), c).0
    ensures FS.OutcomeAt(calls + [c], |calls|) == FS.Act(FS.Run(calls), c).1
  {
    hide FS.Act;
    assert (calls + [c])[..|calls|] == calls;
  }

  lemma OneMoreOp(ops: seq<MC.Op>, op: MC.Op)
    ensures MC.Run(ops + [op]) == MC.Do(MC.Run(ops), op)
    ensures MC.Submitted(ops + [op]) == MC.Submitted(ops) + (if op.Pushed? then [op.m] else [])
  {
    hide MC.Do;
    assert (ops + [op])[..|ops|] == ops;
  }

  lemma HandleFaithful(h: History, e: Event)
    requires h.g.Valid() && Faithful(h)
    ensures Faithful(Handle(h, e))
  {
    hide FS.Act, FS.Run, MC.Run;
    if Scheduled(e.kind) {
      OneMoreCall(h.calls, CallOf(e));
      OneMoreOp(h.roadOps, MC.Cleared);
      OneMoreOp(h.wideOps, MC.Cleared);
    }
  }

  lemma {:induction false} HandleAllFaithful(h: History, evs: seq<Event>)
    requires h.g.Valid() && Faithful(h)
    ensures Faithful(HandleAll(h, evs))
  {
    hide Faithful, Handle, Glue.Valid;
    if evs != [] {
      HandleAllFaithful(h, evs[..|evs| - 1]);
      HandleFaithful(HandleAll(h, evs[..|evs| - 1]), evs[|evs| - 1]);
    }
  }

  lemma EncodeFaithful(h: History, p: PM.Pair)
    requires h.g.Valid() && Faithful(h)
    ensures Faithful(EncodePair(h, p).0)
  {
    hide FS.Act, FS.Run, MC.Run, MC.Pushing, FI.Numbered;
    OneMoreCall(h.calls, FS.Submit);
    var after := EncodePair(h, p).0;
    var m, m' := after.roadOps[|h.roadOps|].m, after.wideOps[|h.wideOps|].m;
    OneMoreOp(h.roadOps, MC.Pushed(m));
    OneMoreOp(h.wideOps, MC.Pushed(m'));
  }

  lemma OutputFaithful(h: History, isRoad: bool, frameId: nat, tooLong: bool)
    requires h.g.Valid() && Faithful(h)
    ensures Faithful(Output(h, isRoad, frameId, tooLong).0)
  {
    hide FS.Run, MC.Run, MC.Taking, Report;
    OneMoreOp(h.roadOps, MC.Took(frameId));
    OneMoreOp(h.wideOps, MC.Took(frameId));
  }

  lemma DrainFaithful(h: History)
    requires h.g.Valid() && Faithful(h)
    ensures Faithful(Drain(h))
  {
    hide HandleAll, FS.Run, MC.Run;
    HandleAllFaithful(h, h.g.evs);
  }

  lemma PlaceFaithful(h: History, a: PM.Arrival)
    requires h.g.Valid() && Faithful(h)
    ensures Faithful(Place(h, a).0)
  {
    hide Drain, EncodePair, FS.Run, MC.Run, PM.Push, FI.Numbered;
    DrainFaithful(h);
    var drained := Drain(h);
    var (slots, acts) := PM.Push(drained.g.slots, a);
    var accounted := Account(drained.(g := drained.g.(slots := slots)), acts.killRoad);
    if acts.pair.Some? {
      EncodeFaithful(accounted, acts.pair.value);
    }
  }

  /** In every run the scheduler with its encoders, and each cache, are where their own calls put them. */
  lemma {:induction false} ComponentsFollowTheirCalls(inputs: seq<Input>)
    ensures Faithful(Run(inputs))
  {
    hide Place, Output, FS.Run, MC.Run, Faithful, Glue.Valid;
    if inputs == [] {
      StartFaithful();
    } else {
      var h, i := Run(inputs[..|inputs| - 1]), inputs[|inputs| - 1];
      ComponentsFollowTheirCalls(inputs[..|inputs| - 1]);
      match i
      case Posted(e) => PostFaithful(h, e);
      case Arrived(a) => PlaceFaithful(h, a);
      case Encoded(isRoad, frameId, tooLong) => OutputFaithful(h, isRoad, frameId, tooLong);
    }
  }

  lemma StartFaithful()
    ensures Faithful(START)
  {}

  lemma PostFaithful(h: History, e: Event)
    requires Faithful(h)
    ensures Faithful(h.(g := h.g.(evs := h.g.evs + [e])))
  {}

  // ---- key frames ----

  /** A new sequence is due: both requests wait for the next pair. */
  predicate AtHead(r: FS.Rig) {
    r.sched.pos == 0 && r.sched.pendingRoad && r.sched.pendingWide && r.needRoad && r.needWide
  }

  predicate Reopens(e: Event) {
    e.kind.NewConnection? || e.kind.StreamGap?
  }

  lemma HandleAtHead(h: History, e: Event)
    requires h.g.Valid() && (AtHead(h.g.rig) || Reopens(e))
    ensures AtHead(Handle(h, e).g.rig)
  {
    hide DW.Ring.Contains, DW.Ring.Note, DW.Ring.Cleared, DW.Ring.Valid, FS.Flush;
  }

  lemma {:induction false} HandleAllAtHead(h: History, evs: seq<Event>, i: nat)
    requires h.g.Valid() && i < |evs| && Reopens(evs[i])
    ensures AtHead(HandleAll(h, evs).g.rig)
  {
    hide Handle, AtHead, Reopens, Glue.Valid;
    var n := |evs| - 1;
    if i < n {
      HandleAllAtHead(h, evs[..n], i);
    }
    HandleAtHead(HandleAll(h, evs[..n]), evs[n]);
  }

  lemma PairAtHead(h: History, p: PM.Pair)
    requires h.g.Valid() && AtHead(h.g.rig)
    ensures EncodePair(h, p).1 == FS.Outcome(true, true, true, true, true)
  {
    hide FI.Numbered, MC.Pushing, DW.Ring.Valid;
  }

  lemma {:induction false} HandlingKeepsSlots(h: History, evs: seq<Event>)
    requires h.g.Valid()
    ensures HandleAll(h, evs).g.slots == h.g.slots
  {
    hide Glue.Valid, FS.Act;
    if evs != [] {
      HandlingKeepsSlots(h, evs[..|evs| - 1]);
    }
  }

  /** When a frame completes a pair, the pair is encoded in the state the pending events and the dead frames leave. */
  lemma PairIsEncoded(h: History, a: PM.Arrival) returns (before: History, p: PM.Pair)
    requires h.g.Valid() && PM.Push(h.g.slots, a).1.pair.Some?
    ensures before.g.Valid() && p == PM.Push(h.g.slots, a).1.pair.value && Place(h, a) == EncodePair(before, p)
    ensures before.g.rig == HandleAll(h, h.g.evs).g.rig && (Faithful(h) ==> Faithful(before))
  {
    hide HandleAll, EncodePair, FS.Run, MC.Run, PM.Push, FI.Numbered, FS.Act, DW.Ring.Valid;
    HandlingKeepsSlots(h, h.g.evs);
    var drained := Drain(h);
    var (slots, acts) := PM.Push(drained.g.slots, a);
    before, p := Account(drained.(g := drained.g.(slots := slots)), acts.killRoad), acts.pair.value;
    if Faithful(h) {
      DrainFaithful(h);
    }
  }

  /** Every pair of every run is predicted right, and its contexts announce exactly its key frames. */
  lemma PairsArePredicted(inputs: seq<Input>, a: PM.Arrival)
    requires PM.Push(Run(inputs).g.slots, a).1.pair.Some?
    ensures var (after, o) := Place(Run(inputs), a);
            && o.predictedRoad == o.road && o.predictedWide == o.wide
            && after.g.road.q != [] && after.g.wide.q != []
            && Announces(after.g.road.q[|after.g.road.q| - 1], o) && Announces(after.g.wide.q[|after.g.wide.q| - 1], o)
  {
    hide Run, Place, PM.Push, FS.Act, FS.Run, FI.Numbered, HandleAll, FS.Position;
    ComponentsFollowTheirCalls(inputs);
    var before, p := PairIsEncoded(Run(inputs), a);
    OneMoreCall(before.calls, FS.Submit);
    FS.PredictionsComeTrue(before.calls + [FS.Submit], |before.calls|);
  }

  predicate Announces(m: MC.OutMeta, o: FS.Outcome) {
    m.roadIdrPred == o.road && m.wideIdrPred == o.wide
  }

  /** After a new connection or a gap in an encoder's output has been reported, the next pair is a double key frame,
      predicted and real, whatever else was reported before or after. */
  lemma ReportsBringDoubleKeyFrame(inputs: seq<Input>, i: nat, a: PM.Arrival)
    requires i < |Run(inputs).g.evs| && Reopens(Run(inputs).g.evs[i])
    requires PM.Push(Run(inputs).g.slots, a).1.pair.Some?
    ensures Place(Run(inputs), a).1 == FS.Outcome(true, true, true, true, true)
  {
    hide Run, Place, PM.Push, EncodePair, HandleAll, AtHead, Reopens, Faithful;
    var h := Run(inputs);
    HandleAllAtHead(h, h.g.evs, i);
    var before, p := PairIsEncoded(h, a);
    PairAtHead(before, p);
  }

  // ---- contexts ----

  /** Queued contexts are of the current connection, numbered upwards, and not above the last number given. */
  ghost predicate Current(q: seq<MC.OutMeta>, indexer: FI.Numbering, epoch: nat) {
    && (forall i :: 0 <= i < |q| ==> q[i].epoch == epoch && q[i].frameIdx <= indexer.last && indexer.haveBase)
    && (forall i, j :: 0 <= i < j < |q| ==> q[i].frameIdx < q[j].frameIdx)
  }

  ghost predicate AllCurrent(g: Glue) {
    Current(g.road.q, g.indexer, g.epoch) && Current(g.wide.q, g.indexer, g.epoch)
  }

  lemma NumberedAbove(q: seq<MC.OutMeta>, indexer: FI.Numbering, epoch: nat, sof: nat)
    requires Current(q, indexer, epoch)
    ensures Current(q, FI.Numbered(indexer, sof).0, epoch)
    ensures var (after, idx) := FI.Numbered(indexer, sof);
            forall m: MC.OutMeta :: m.epoch == epoch && m.frameIdx == idx ==> Current(q + [m], after, epoch)
  {
    hide FI.SlotOf;
  }

  lemma {:induction false} HandleAllCurrent(h: History, evs: seq<Event>)
    requires h.g.Valid() && AllCurrent(h.g)
    ensures AllCurrent(HandleAll(h, evs).g)
  {
    hide FS.Act, Glue.Valid, CallOf;
    if evs != [] {
      HandleAllCurrent(h, evs[..|evs| - 1]);
    }
  }

  lemma EncodeCurrent(h: History, p: PM.Pair)
    requires h.g.Valid() && AllCurrent(h.g)
    ensures AllCurrent(EncodePair(h, p).0.g)
  {
    hide FS.Act, FI.Numbered, Glue.Valid, Current;
    NumberedAbove(h.g.road.q, h.g.indexer, h.g.epoch, p.road.sof);
    NumberedAbove(h.g.wide.q, h.g.indexer, h.g.epoch, p.road.sof);
  }

  lemma PlaceCurrent(h: History, a: PM.Arrival)
    requires h.g.Valid() && AllCurrent(h.g)
    ensures AllCurrent(Place(h, a).0.g)
  {
    hide HandleAll, EncodePair, PM.Push, FI.Numbered, Current, DW.Ring.Valid;
    HandleAllCurrent(h, h.g.evs);
    var drained := Drain(h);
    var (slots, acts) := PM.Push(drained.g.slots, a);
    var accounted := Account(drained.(g := drained.g.(slots := slots)), acts.killRoad);
    if acts.killRoad.Some? {
      NumberedAbove(drained.g.road.q, drained.g.indexer, drained.g.epoch, acts.killRoad.value.sof);
      NumberedAbove(drained.g.wide.q, drained.g.indexer, drained.g.epoch, acts.killRoad.value.sof);
    }
    if acts.pair.Some? {
      EncodeCurrent(accounted, acts.pair.value);
    }
  }

  lemma TakeCurrent(s: MC.State, frameId: nat, indexer: FI.Numbering, epoch: nat)
    requires Current(s.q, indexer, epoch)
    ensures Current(MC.Taking(s, frameId).0.q, indexer, epoch)
  {}

  /** In every run everything queued in the encoders belongs to the current connection, in the order of its numbers. */
  lemma {:induction false} ContextsAreCurrent(inputs: seq<Input>)
    ensures AllCurrent(Run(inputs).g)
  {
    hide Place, Current, MC.Taking, Report, Glue.Valid;
    if inputs == [] {
      NothingQueued();
    } else {
      var h, i := Run(inputs[..|inputs| - 1]), inputs[|inputs| - 1];
      ContextsAreCurrent(inputs[..|inputs| - 1]);
      match i
      case Posted(e) =>
      case Arrived(a) => PlaceCurrent(h, a);
      case Encoded(isRoad, frameId, tooLong) =>
        TakeCurrent(h.g.road, frameId, h.g.indexer, h.g.epoch);
        TakeCurrent(h.g.wide, frameId, h.g.indexer, h.g.epoch);
    }
  }

  lemma NothingQueued()
    ensures AllCurrent(START.g)
  {}

  // ---- camera numbers ----

  /** The number of the last frame that arrived from a camera, or -1. */
  function LastId(inputs: seq<Input>, isRoad: bool): int {
    if inputs == [] then -1
    else
      var i := inputs[|inputs| - 1];
      if i.Arrived? && i.a.isRoad == isRoad then i.a.frame.frameId else LastId(inputs[..|inputs| - 1], isRoad)
  }

  /** Each camera numbers its frames upwards. */
  ghost predicate CamerasCount(inputs: seq<Input>) {
    forall k :: 0 <= k < |inputs| && inputs[k].Arrived? ==>
      LastId(inputs[..k], inputs[k].a.isRoad) < inputs[k].a.frame.frameId
  }

  ghost predicate Counted(ops: seq<MC.Op>, slot: Option<PM.Frame>, last: int) {
    && MC.Increasing(MC.Submitted(ops))
    && (forall i :: 0 <= i < |MC.Submitted(ops)| ==> MC.Submitted(ops)[i].frameId <= last)
    && (slot.Some? ==> slot.value.frameId <= last
                       && forall i :: 0 <= i < |MC.Submitted(ops)| ==>
                            MC.Submitted(ops)[i].frameId < slot.value.frameId)
  }

  ghost predicate AllCounted(h: History, road: int, wide: int) {
    Counted(h.roadOps, h.g.slots.road, road) && Counted(h.wideOps, h.g.slots.wide, wide)
  }

  lemma OtherOpsCounted(ops: seq<MC.Op>, op: MC.Op, slot: Option<PM.Frame>, last: int)
    requires Counted(ops, slot, last) && !op.Pushed?
    ensures Counted(ops + [op], slot, last)
  {
    hide MC.Submitted, MC.Run, MC.Do;
    OneMoreOp(ops, op);
  }

  lemma PushCounted(ops: seq<MC.Op>, m: MC.OutMeta, slot: Option<PM.Frame>, last: int, next: int)
    requires Counted(ops, slot, last) && last <= next && m.frameId <= next
    requires last < m.frameId || (slot.Some? && slot.value.frameId == m.frameId)
    ensures Counted(ops + [MC.Pushed(m)], None, next)
  {
    hide MC.Submitted, MC.Run, MC.Do;
    OneMoreOp(ops, MC.Pushed(m));
  }

  lemma {:induction false} HandleAllCounted(h: History, evs: seq<Event>, road: int, wide: int)
    requires h.g.Valid() && AllCounted(h, road, wide)
    ensures AllCounted(HandleAll(h, evs), road, wide)
  {
    hide FS.Act, Glue.Valid, CallOf, Counted;
    if evs != [] {
      var before := HandleAll(h, evs[..|evs| - 1]);
      HandleAllCounted(h, evs[..|evs| - 1], road, wide);
      OtherOpsCounted(before.roadOps, MC.Cleared, before.g.slots.road, road);
      OtherOpsCounted(before.wideOps, MC.Cleared, before.g.slots.wide, wide);
    }
  }

  lemma SlotsCounted(ops: seq<MC.Op>, slot: Option<PM.Frame>, f: PM.Frame, last: int)
    requires Counted(ops, slot, last)
    ensures Counted(ops, None, last) && (slot.Some? ==> slot.value.frameId <= last)
    ensures last < f.frameId ==> Counted(ops, Some(f), f.frameId)
  {
    hide MC.Submitted;
  }

  lemma PlaceCounted(h: History, a: PM.Arrival, road: int, wide: int)
    requires h.g.Valid() && AllCounted(h, road, wide)
    requires (if a.isRoad then road else wide) < a.frame.frameId
    ensures AllCounted(Place(h, a).0, if a.isRoad then a.frame.frameId else road,
                                      if a.isRoad then wide else a.frame.frameId)
  {
    hide HandleAll, Glue.Valid, Counted, FS.Act, FI.Numbered, PM.Pairable;
    HandleAllCounted(h, h.g.evs, road, wide);
    var d := Drain(h);
    var acts := PM.Push(d.g.slots, a).1;
    SlotsCounted(d.roadOps, d.g.slots.road, a.frame, road);
    SlotsCounted(d.wideOps, d.g.slots.wide, a.frame, wide);
    if acts.pair.Some? {
      var after := Place(h, a).0;
      PushCounted(d.roadOps, after.roadOps[|d.roadOps|].m, d.g.slots.road, road,
                  if a.isRoad then a.frame.frameId else road);
      PushCounted(d.wideOps, after.wideOps[|d.wideOps|].m, d.g.slots.wide, wide,
                  if a.isRoad then wide else a.frame.frameId);
    }
  }

  lemma StartCounted()
    ensures AllCounted(START, -1, -1)
  {}

  /** While the cameras count upwards, contexts are pushed in increasing order of both cameras' numbers. */
  lemma {:induction false} ContextsAreCounted(inputs: seq<Input>)
    requires CamerasCount(inputs)
    ensures AllCounted(Run(inputs), LastId(inputs, true), LastId(inputs, false))
  {
    hide Place, Counted, MC.Taking, Report, Glue.Valid;
    if inputs == [] {
      StartCounted();
    } else {
      var n := |inputs| - 1;
      var h, i := Run(inputs[..n]), inputs[n];
      PrefixCounts(inputs, n);
      ContextsAreCounted(inputs[..n]);
      match i
      case Posted(e) =>
      case Arrived(a) => PlaceCounted(h, a, LastId(inputs[..n], true), LastId(inputs[..n], false));
      case Encoded(isRoad, frameId, tooLong) =>
        OtherOpsCounted(h.roadOps, MC.Took(frameId), h.g.slots.road, LastId(inputs, true));
        OtherOpsCounted(h.wideOps, MC.Took(frameId), h.g.slots.wide, LastId(inputs, false));
    }
  }

  lemma PrefixCounts(inputs: seq<Input>, n: nat)
    requires n <= |inputs| && CamerasCount(inputs)
    ensures CamerasCount(inputs[..n])
  {
    hide LastId;
    forall k | 0 <= k < n
      ensures inputs[..n][..k] == inputs[..k]
    {
    }
  }

  // ---- reports about outputs ----

  function CacheOf(h: History, isRoad: bool): MC.State {
    if isRoad then h.g.road else h.g.wide
  }

  function OpsOf(h: History, isRoad: bool): seq<MC.Op> {
    if isRoad then h.roadOps else h.wideOps
  }

  /** A late output, of a frame that was pushed and is no longer queued, reports nothing and reaches no one, whether it
      was taken, skipped or cleared; a gap is reported only for a frame whose context was never pushed. */
  lemma GapsAreReal(inputs: seq<Input>, isRoad: bool, frameId: nat, tooLong: bool)
    requires CamerasCount(inputs)
    ensures var h := Run(inputs);
            var (after, om) := Output(h, isRoad, frameId, tooLong);
            && (MC.HasId(MC.Submitted(OpsOf(h, isRoad)), frameId) && !MC.HasId(CacheOf(h, isRoad).q, frameId) ==>
                  after.g == h.g && om == None)
            && (after.g.evs == h.g.evs + [GAP_EVENT] ==> !MC.HasId(MC.Submitted(OpsOf(h, isRoad)), frameId))
  {
    hide Run, MC.Run, MC.Submitted, MC.Taking, FS.Run, MC.HasId, MC.Increasing;
    var h := Run(inputs);
    ComponentsFollowTheirCalls(inputs);
    ContextsAreCounted(inputs);
    var ops := OpsOf(h, isRoad);
    MC.LookupsAreClassified(ops, frameId);
    if MC.HasId(MC.Submitted(ops), frameId) && !MC.HasId(MC.Run(ops).q, frameId) {
      MC.GoneEntriesAreStale(ops, frameId);
    }
    GapEventOnlyForGap(MC.Taking(CacheOf(h, isRoad), frameId).1, tooLong, h.g.evs);
  }

  lemma GapEventOnlyForGap(r: MC.Taken, tooLong: bool, evs: seq<Event>)
    ensures Report(r, tooLong).0 == [] ==> evs + Report(r, tooLong).0 == evs
    ensures evs + Report(r, tooLong).0 == evs + [GAP_EVENT] ==> r.st == MC.GapMiss
  {
    if evs + Report(r, tooLong).0 == evs + [GAP_EVENT] {
      assert (evs + Report(r, tooLong).0)[|evs|..] == Report(r, tooLong).0;
      assert (evs + [GAP_EVENT])[|evs|..] == [GAP_EVENT];
      assert Report(r, tooLong).0[0] == GAP_EVENT;
    }
  }

  /** What goes to the sender is stamped with the connection it was numbered for, and lost frames come before it. */
  lemma OutputsAreCurrent(inputs: seq<Input>, isRoad: bool, frameId: nat, tooLong: bool)
    ensures var h := Run(inputs);
            var (after, om) := Output(h, isRoad, frameId, tooLong);
            om.Some? ==>
              && om.value.epoch == h.g.epoch && om.value.frameId == frameId
              && (after.g.evs == h.g.evs
                  || exists d: nat :: d < om.value.frameIdx && after.g.evs == h.g.evs + [Event(Drop, d, 0)])
  {
    hide Run, AllCurrent, Glue.Valid;
    ContextsAreCurrent(inputs);
    CurrentSides(Run(inputs).g);
    TakenIsCurrent(CacheOf(Run(inputs), isRoad), frameId, Run(inputs).g.indexer, Run(inputs).g.epoch);
  }

  lemma CurrentSides(g: Glue)
    requires AllCurrent(g)
    ensures Current(g.road.q, g.indexer, g.epoch) && Current(g.wide.q, g.indexer, g.epoch)
  {}

  lemma TakenIsCurrent(s: MC.State, frameId: nat, indexer: FI.Numbering, epoch: nat)
    requires Current(s.q, indexer, epoch)
    ensures var r := MC.Taking(s, frameId).1;
            r.st == MC.Hit ==> r.om.epoch == epoch && r.om.frameId == frameId
                               && (r.dead != [] ==> r.dead[0].frameIdx < r.om.frameIdx)
  {}
}
