/**
 * The glue and the sender together: the glue numbers frames upwards on each connection and hands them on in that order,
 * so the sender begins them in that order.
 */
module HandOver {
  import opened Options
  import opened Pipeline
  import opened Uplink
  import opened Wire
  import DW = DropWindow
  import FI = FrameIndexer
  import FS = FrameScheduler
  import MC = MetaCache
  import PM = PairMatcher
  import UR = UplinkRuns

  // ---- connections are announced with rising epochs ----

  /** The epoch of the last new connection among these events, or lo. */
  function LastEpoch(evs: seq<Event>, lo: nat): nat {
    if evs == [] then lo
    else if evs[|evs| - 1].kind.NewConnection? then evs[|evs| - 1].epoch
    else LastEpoch(evs[..|evs| - 1], lo)
  }

  predicate Rising(evs: seq<Event>, lo: nat) {
    evs == [] || (Rising(evs[..|evs| - 1], lo)
                  && (evs[|evs| - 1].kind.NewConnection? ==> LastEpoch(evs[..|evs| - 1], lo) < evs[|evs| - 1].epoch))
  }

  predicate NoConnection(evs: seq<Event>) {
    forall i :: 0 <= i < |evs| ==> !evs[i].kind.NewConnection?
  }

  lemma RisingOneMore(evs: seq<Event>, e: Event, lo: nat)
    ensures Rising(evs + [e], lo) <==> Rising(evs, lo) && (e.kind.NewConnection? ==> LastEpoch(evs, lo) < e.epoch)
    ensures LastEpoch(evs + [e], lo) == if e.kind.NewConnection? then e.epoch else LastEpoch(evs, lo)
  {
    assert (evs + [e])[..|evs|] == evs;
  }

  lemma {:induction false} RisingWithOthers(evs: seq<Event>, more: seq<Event>, lo: nat)
    requires NoConnection(more)
    ensures Rising(evs + more, lo) == Rising(evs, lo) && LastEpoch(evs + more, lo) == LastEpoch(evs, lo)
  {
    if more == [] {
      assert evs + more == evs;
    } else {
      var n := |more| - 1;
      RisingWithOthers(evs, more[..n], lo);
      RisingOneMore(evs + more[..n], more[n], lo);
      assert evs + more[..n] + [more[n]] == evs + more;
    }
  }

  lemma {:induction false} RisingPrefix(evs: seq<Event>, n: nat, lo: nat)
    requires Rising(evs, lo) && n <= |evs|
    ensures Rising(evs[..n], lo)
  {
    if n < |evs| {
      RisingPrefix(evs[..|evs| - 1], n, lo);
      assert evs[..|evs| - 1][..n] == evs[..n];
    } else {
      assert evs[..n] == evs;
    }
  }

  /** Events were added, none of them a new connection. */
  predicate OnlyAdds(s: Sender, s': Sender) {
    s.events <= s'.events && s'.epoch == s.epoch && NoConnection(s'.events[|s.events|..])
  }

  predicate Announced(s: Sender) {
    Rising(s.events, 0) && LastEpoch(s.events, 0) == s.epoch
  }

  lemma AddingKeepsAnnounced(s: Sender, s': Sender)
    requires Announced(s) && OnlyAdds(s, s')
    ensures Announced(s')
  {
    RisingWithOthers(s.events, s'.events[|s.events|..], 0);
    assert s.events + s'.events[|s.events|..] == s'.events;
  }

  lemma GateAdds(s: Sender)
    requires s.dropped.Valid()
    ensures OnlyAdds(s, ResolveGate(s))
  {}

  lemma FindAdds(s: Sender, idx: nat)
    requires s.dropped.Valid() && idx < 0x1_0000_0000
    ensures OnlyAdds(s, FindOrCreate(s, idx).0)
  {}

  lemma AddsTwice(s: Sender, s1: Sender, s2: Sender)
    requires OnlyAdds(s, s1) && OnlyAdds(s1, s2)
    ensures OnlyAdds(s, s2)
  {
    var a, b := |s.events|, |s1.events|;
    forall i | 0 <= i < |s2.events[a..]|
      ensures !s2.events[a..][i].kind.NewConnection?
    {
      assert s2.events[a..][i] == s2.events[a + i];
      if a + i < b {
        assert s1.events[a..][i] == s2.events[a + i];
      } else {
        assert s2.events[b..][a + i - b] == s2.events[a + i];
      }
    }
  }

  lemma SubmissionAdds(s: Sender, i: UR.Input)
    requires UR.Sound(s) && UR.InputOk(i) && (i.Road? || i.Wide?)
    ensures OnlyAdds(s, if i.Road? then SubmitRoad(s, i.r) else SubmitWide(s, i.w))
  {
    hide OutFrame.Ok, OutFrame.Complete, OutFrame.Unsent, RoadSub.Ok, WideSub.Ok, FindOrCreate, ResolveGate, OnlyAdds;
    SameAdds(s, s);
    if s.connected {
      var idx := if i.Road? then i.r.idx else i.w.idx;
      FindAdds(s, idx);
      UR.FindSound(s, idx);
      var s1 := FindOrCreate(s, idx).0;
      var road, wide := if i.Road? then Some(i.r) else None, if i.Wide? then Some(i.w) else None;
      if s1.inflight.Some? {
        var s2 := s1.(inflight := Some(s1.inflight.value.(road := road)));
        var s3 := s1.(inflight := Some(s1.inflight.value.(wide := wide)));
        SameAdds(s1, s2);
        SameAdds(s1, s3);
        GateAdds(s2);
        GateAdds(s3);
        AddsTwice(s, s1, s2);
        AddsTwice(s, s1, s3);
        AddsTwice(s, s2, ResolveGate(s2));
        AddsTwice(s, s3, ResolveGate(s3));
      }
      if s1.queued.Some? {
        var s2 := s1.(queued := Some(s1.queued.value.(road := road)));
        var s3 := s1.(queued := Some(s1.queued.value.(wide := wide)));
        SameAdds(s1, s2);
        SameAdds(s1, s3);
        GateAdds(s2);
        GateAdds(s3);
        AddsTwice(s, s1, s2);
        AddsTwice(s, s1, s3);
        AddsTwice(s, s2, ResolveGate(s2));
        AddsTwice(s, s3, ResolveGate(s3));
      }
    }
  }

  lemma SameAdds(s: Sender, s': Sender)
    requires s'.events == s.events && s'.epoch == s.epoch
    ensures OnlyAdds(s, s')
  {}

  lemma SendAdds(s: Sender, f: OutFrame, t: Tick, started: Option<OutFrame>)
    requires f.Ok()
    ensures OnlyAdds(s, Send(s, f, t, started).sender)
  {
    hide OutFrame.Ok, OutFrame.Complete, OutFrame.Sent, WriteOut, Elapsed, Extends, GiveUp;
    WriteOutOk(f, t.replies);
    var w := WriteOut(f, t.replies);
    if w.state.Blocked? {
      UR.ExtendsOk(f, w.frame, w.bytes);
      var last := if w.bytes == [] then s.lastProgress else t.now;
      GiveUpAdds(s.(inflight := Some(w.frame), lastProgress := last), w.frame, t,
                 started.Some? || w.bytes != [], w.bytes, started);
    }
  }

  lemma GiveUpAdds(s: Sender, f: OutFrame, t: Tick, progress: bool, bytes: seq<U8>, started: Option<OutFrame>)
    requires f.Ok()
    ensures OnlyAdds(s, GiveUp(s, f, t, progress, bytes, started).sender)
  {
    hide OutFrame.Ok, OutFrame.Complete, OutFrame.Sent, WriteOut;
  }

  lemma StepAnnounces(s: Sender, t: Tick)
    requires UR.Sound(s) && Announced(s)
    ensures Announced(Step(s, t).sender)
  {
    hide OutFrame.Ok, OutFrame.Complete, OutFrame.Sent, OutFrame.Unsent, ResolveGate, Send, Announced, OnlyAdds;
    if s.connected {
      GateAdds(s);
      SameAdds(s, s);
      UR.StartSound(s, t.now);
      var s1, started := TryStart(s, t.now).0, TryStart(s, t.now).1;
      StartAdds(s, t.now);
      AddingKeepsAnnounced(s, s1);
      if s1.inflight.Some? {
        SendAdds(s1, s1.inflight.value, t, started);
        AddingKeepsAnnounced(s1, Send(s1, s1.inflight.value, t, started).sender);
      }
    } else {
      ConnectAnnounces(s, t);
    }
  }

  lemma StartAdds(s: Sender, now: nat)
    requires s.dropped.Valid()
    ensures OnlyAdds(s, TryStart(s, now).0)
  {
    hide ResolveGate;
    GateAdds(s);
  }

  lemma ConnectAnnounces(s: Sender, t: Tick)
    requires s.dropped.Valid() && Announced(s)
    ensures Announced(ConnectStep(s, t))
  {
    var e := Event(NewConnection, 0, s.epoch + 1);
    var lost := Event(LinkLost, 0, s.epoch);
    RisingOneMore(s.events, e, 0);
    RisingOneMore(s.events, lost, 0);
    hide Rising, LastEpoch;
    var s' := ConnectStep(s, t);
    ConnectEvents(s, t);
    if t.connectOk {
      assert s'.events == s.events + [e];
    } else if s'.events != s.events {
      assert s'.events == s.events + [lost];
    }
  }

  lemma ConnectEvents(s: Sender, t: Tick)
    requires s.dropped.Valid()
    ensures var s' := ConnectStep(s, t);
      && s'.epoch == (if t.connectOk then s.epoch + 1 else s.epoch)
      && (t.connectOk ==> s'.events == s.events + [Event(NewConnection, 0, s.epoch + 1)])
      && (!t.connectOk ==> s'.events == s.events || s'.events == s.events + [Event(LinkLost, 0, s.epoch)])
  {
    hide DW.Ring.Valid, DW.Ring.Cleared;
  }

  /** In every run the sender announces its connections with strictly rising epochs, the last one its own. */
  lemma {:induction false} EpochsRise(cfg: Config, us: seq<UR.Input>)
    requires forall i :: i in us ==> UR.InputOk(i)
    ensures Announced(UR.Run(cfg, us).s)
  {
    hide Announced, UR.Inv, SubmitRoad, SubmitWide, Step, UR.Overwrote, UR.Sound;
    if us == [] {
      NothingAnnounced(cfg);
    } else {
      var n := |us| - 1;
      var w, i := UR.Run(cfg, us[..n]), us[n];
      EpochsRise(cfg, us[..n]);
      UR.SoundOf(w);
      match i
      case Road(r) =>
        SubmissionAdds(w.s, i);
        AddingKeepsAnnounced(w.s, SubmitRoad(w.s, r));
      case Wide(x) =>
        SubmissionAdds(w.s, i);
        AddingKeepsAnnounced(w.s, SubmitWide(w.s, x));
      case Ticks(tick) =>
        StepAnnounces(w.s, tick);
      case Disconnect =>
        SameAdds(w.s, NotifyDisconnect(w.s));
        AddingKeepsAnnounced(w.s, NotifyDisconnect(w.s));
      case StreamGap =>
        SameAdds(w.s, NotifyStreamGap(w.s));
        AddingKeepsAnnounced(w.s, NotifyStreamGap(w.s));
    }
  }

  lemma NothingAnnounced(cfg: Config)
    ensures Announced(Initial(cfg))
  {}

  // ---- the glue hands road contexts on in order ----

  function PostedEvents(inputs: seq<Input>): seq<Event> {
    if inputs == [] then []
    else
      var before := PostedEvents(inputs[..|inputs| - 1]);
      if inputs[|inputs| - 1].Posted? then before + [inputs[|inputs| - 1].e] else before
  }

  /** The contexts of road outputs that went on to the sender, oldest first. */
  function Handed(inputs: seq<Input>): seq<MC.OutMeta> {
    if inputs == [] then []
    else
      var n := |inputs| - 1;
      var i := inputs[n];
      Handed(inputs[..n]) +
        (if i.Encoded? && i.isRoad then HandedNow(Output(Run(inputs[..n]), true, i.frameId, i.tooLong).1) else [])
  }

  function HandedNow(om: Option<MC.OutMeta>): seq<MC.OutMeta> {
    if om.Some? then [om.value] else []
  }

  predicate Before(a: MC.OutMeta, b: MC.OutMeta) {
    a.epoch < b.epoch || (a.epoch == b.epoch && a.frameIdx < b.frameIdx)
  }

  predicate Ordered(ms: seq<MC.OutMeta>) {
    forall i, j :: 0 <= i < j < |ms| ==> Before(ms[i], ms[j])
  }

  /** What was handed on is of earlier connections, or of this one and below everything queued. */
  predicate Behind(ms: seq<MC.OutMeta>, q: seq<MC.OutMeta>, indexer: FI.Numbering, epoch: nat) {
    && (forall i :: 0 <= i < |ms| ==> ms[i].epoch <= epoch)
    && (forall i :: 0 <= i < |ms| && ms[i].epoch == epoch ==> indexer.haveBase && ms[i].frameIdx <= indexer.last)
    && (forall i, j :: 0 <= i < |ms| && 0 <= j < |q| && ms[i].epoch == epoch ==> ms[i].frameIdx < q[j].frameIdx)
  }

  predicate InOrder(ms: seq<MC.OutMeta>, g: Glue) {
    Ordered(ms) && Behind(ms, g.road.q, g.indexer, g.epoch)
  }

  lemma HandleInOrder(ms: seq<MC.OutMeta>, h: History, e: Event)
    requires h.g.Valid() && InOrder(ms, h.g) && (e.kind.NewConnection? ==> h.g.epoch < e.epoch)
    ensures InOrder(ms, Handle(h, e).g)
    ensures Handle(h, e).g.epoch == if e.kind.NewConnection? then e.epoch else h.g.epoch
  {
    hide FS.Act, Glue.Valid, CallOf;
  }

  lemma {:induction false} HandleAllInOrder(ms: seq<MC.OutMeta>, h: History, evs: seq<Event>)
    requires h.g.Valid() && InOrder(ms, h.g) && Rising(evs, h.g.epoch)
    ensures InOrder(ms, HandleAll(h, evs).g)
    ensures HandleAll(h, evs).g.epoch == LastEpoch(evs, h.g.epoch)
  {
    hide Handle, Glue.Valid, InOrder;
    if evs != [] {
      var n := |evs| - 1;
      HandleAllInOrder(ms, h, evs[..n]);
      HandleInOrder(ms, HandleAll(h, evs[..n]), evs[n]);
    }
  }

  lemma NumberedBehind(ms: seq<MC.OutMeta>, q: seq<MC.OutMeta>, indexer: FI.Numbering, epoch: nat, sof: nat)
    requires Behind(ms, q, indexer, epoch)
    ensures var (after, idx) := FI.Numbered(indexer, sof);
      && Behind(ms, q, after, epoch)
      && forall m: MC.OutMeta :: m.frameIdx == idx ==> Behind(ms, q + [m], after, epoch)
  {
    hide FI.SlotOf;
  }

  lemma AccountInOrder(ms: seq<MC.OutMeta>, h: History, dead: Option<PM.Frame>)
    requires h.g.Valid() && InOrder(ms, h.g)
    ensures InOrder(ms, Account(h, dead).g)
    ensures Account(h, dead).g.evs == h.g.evs && Account(h, dead).g.epoch == h.g.epoch
  {
    hide FI.Numbered, Behind, Ordered, Glue.Valid;
    if dead.Some? {
      NumberedBehind(ms, h.g.road.q, h.g.indexer, h.g.epoch, dead.value.sof);
    }
  }

  lemma EncodeInOrder(ms: seq<MC.OutMeta>, h: History, p: PM.Pair)
    requires h.g.Valid() && InOrder(ms, h.g)
    ensures var g := EncodePair(h, p).0.g; InOrder(ms, g) && g.evs == h.g.evs && g.epoch == h.g.epoch
  {
    hide FI.Numbered, FS.Act, Behind, Ordered;
    NumberedBehind(ms, h.g.road.q, h.g.indexer, h.g.epoch, p.road.sof);
    var g := EncodePair(h, p).0.g;
    var o := FS.Act(h.g.rig, FS.Submit).1;
    var idx := FI.Numbered(h.g.indexer, p.road.sof).1;
    var m := MC.OutMeta(p.road.frameId, idx, h.g.epoch, o.predictedRoad, o.predictedWide);
    assert g.road.q == h.g.road.q + [m];
  }

  lemma PlaceInOrder(ms: seq<MC.OutMeta>, h: History, a: PM.Arrival)
    requires h.g.Valid() && InOrder(ms, h.g) && Rising(h.g.evs, h.g.epoch)
    ensures var g := Place(h, a).0.g;
      InOrder(ms, g) && g.epoch == LastEpoch(h.g.evs, h.g.epoch) && g.evs == []
  {
    hide HandleAll, PM.Push, EncodePair, Account, Behind, Ordered, Rising, LastEpoch;
    HandleAllInOrder(ms, h, h.g.evs);
    var d := Drain(h);
    var (slots, acts) := PM.Push(d.g.slots, a);
    var h1 := d.(g := d.g.(slots := slots));
    AccountInOrder(ms, h1, acts.killRoad);
    if acts.pair.Some? {
      EncodeInOrder(ms, Account(h1, acts.killRoad), acts.pair.value);
    }
  }

  lemma TakenInOrder(ms: seq<MC.OutMeta>, g: Glue, frameId: nat, tooLong: bool)
    requires InOrder(ms, g) && Current(g.road.q, g.indexer, g.epoch)
    ensures var (cache, r) := MC.Taking(g.road, frameId);
      InOrder(ms + HandedNow(Report(r, tooLong).1), g.(road := cache))
  {
    var (cache, r) := MC.Taking(g.road, frameId);
    if r.st.Hit? && !tooLong {
      assert ms + [r.om] == ms + HandedNow(Report(r, tooLong).1);
    } else {
      assert ms + [] == ms;
    }
  }

  lemma ReportsNoConnection(r: MC.Taken, tooLong: bool)
    ensures NoConnection(Report(r, tooLong).0)
  {}

  predicate Waiting(g: Glue, posted: seq<Event>) {
    Rising(g.evs, g.epoch) && LastEpoch(g.evs, g.epoch) == LastEpoch(posted, 0)
  }

  /** As long as connections are announced with rising epochs, road contexts go to the sender in order of connections,
      and on each connection with strictly increasing numbers. */
  lemma {:induction false} RoadsAreHandedInOrder(inputs: seq<Input>)
    requires Rising(PostedEvents(inputs), 0)
    ensures InOrder(Handed(inputs), Run(inputs).g) && Waiting(Run(inputs).g, PostedEvents(inputs))
  {
    hide Place, MC.Taking, Report, Glue.Valid, InOrder, Rising, LastEpoch, HandedNow, Current;
    if inputs == [] {
      NothingHanded();
    } else {
      var n := |inputs| - 1;
      var h, i, posted := Run(inputs[..n]), inputs[n], PostedEvents(inputs[..n]);
      var ms := Handed(inputs[..n]);
      if i.Posted? {
        RisingOneMore(posted, i.e, 0);
      }
      RoadsAreHandedInOrder(inputs[..n]);
      match i
      case Posted(e) =>
        RisingOneMore(h.g.evs, e, h.g.epoch);
        SameOrder(ms, h.g, h.g.(evs := h.g.evs + [e]));
        assert ms + [] == ms;
      case Arrived(a) =>
        PlaceInOrder(ms, h, a);
        NoEvents(Place(h, a).0.g);
        assert ms + [] == ms;
      case Encoded(isRoad, frameId, tooLong) =>
        var r := MC.Taking(CacheOf(h, isRoad), frameId).1;
        ReportsNoConnection(r, tooLong);
        RisingWithOthers(h.g.evs, Report(r, tooLong).0, h.g.epoch);
        if isRoad {
          ContextsAreCurrent(inputs[..n]);
          CurrentSides(h.g);
          TakenInOrder(ms, h.g, frameId, tooLong);
          SameOrder(Handed(inputs), h.g.(road := MC.Taking(h.g.road, frameId).0), Run(inputs).g);
        } else {
          SameOrder(ms, h.g, Run(inputs).g);
          assert ms + [] == ms;
        }
    }
  }

  lemma NothingHanded()
    ensures InOrder([], START.g) && Waiting(START.g, [])
  {}

  lemma NoEvents(g: Glue)
    requires g.evs == []
    ensures Rising(g.evs, g.epoch) && LastEpoch(g.evs, g.epoch) == g.epoch
  {}

  lemma SameOrder(ms: seq<MC.OutMeta>, g: Glue, g': Glue)
    requires InOrder(ms, g) && g'.road.q == g.road.q && g'.indexer == g.indexer && g'.epoch == g.epoch
    ensures InOrder(ms, g')
  {}

  // ---- so frames begin in order ----

  function RoadsOf(us: seq<UR.Input>): seq<RoadSub> {
    if us == [] then []
    else RoadsOf(us[..|us| - 1]) + (if us[|us| - 1].Road? then [us[|us| - 1].r] else [])
  }

  /** The sender's road segments are the first of the handed contexts, in this order. */
  predicate SubmittedAs(roads: seq<RoadSub>, ms: seq<MC.OutMeta>) {
    && |roads| <= |ms|
    && forall i :: 0 <= i < |roads| ==> roads[i].epoch == ms[i].epoch && roads[i].idx == ms[i].frameIdx
  }

  lemma {:induction false} RoadsOfPrefix(us: seq<UR.Input>, n: nat)
    requires n <= |us|
    ensures RoadsOf(us[..n]) <= RoadsOf(us)
  {
    if n < |us| {
      RoadsOfPrefix(us[..|us| - 1], n);
      assert us[..|us| - 1][..n] == us[..n];
    } else {
      assert us[..n] == us;
    }
  }

  /** Where the i-th input is among the road segments. */
  lemma RoadAt(us: seq<UR.Input>, i: nat) returns (k: nat)
    requires i < |us| && us[i].Road?
    ensures k == |RoadsOf(us[..i])| < |RoadsOf(us)| && RoadsOf(us)[k] == us[i].r
    ensures |RoadsOf(us[..i + 1])| == k + 1
  {
    k := |RoadsOf(us[..i])|;
    assert us[..i + 1][..i] == us[..i];
    assert RoadsOf(us[..i + 1]) == RoadsOf(us[..i]) + [us[i].r];
    RoadsOfPrefix(us, i + 1);
    assert RoadsOf(us[..i + 1])[k] == us[i].r;
  }

  lemma OrderedRoadsIncrease(us: seq<UR.Input>, ms: seq<MC.OutMeta>)
    requires SubmittedAs(RoadsOf(us), ms) && Ordered(ms)
    ensures UR.RoadsIncreasing(us)
  {
    hide RoadsOf;
    forall i, j | 0 <= i < j < |us| && us[i].Road? && us[j].Road? && us[i].r.epoch == us[j].r.epoch
      ensures us[i].r.idx < us[j].r.idx
    {
      var k := RoadAt(us, i);
      var l := RoadAt(us, j);
      RoadsOfPrefix(us[..j], i + 1);
      assert us[..j][..i + 1] == us[..i + 1];
      assert Before(ms[k], ms[l]);
    }
  }

  /** The glue hears of connections in the sender's order, and the sender gets the road segments the glue hands on: then
      frames begin on the wire with strictly increasing slot numbers, whatever else happens on either side. */
  lemma NumberedFramesBeginInOrder(cfg: Config, us: seq<UR.Input>, inputs: seq<Input>)
    requires forall i :: i in us ==> UR.InputOk(i)
    requires PostedEvents(inputs) <= UR.Run(cfg, us).s.events
    requires SubmittedAs(RoadsOf(us), Handed(inputs))
    ensures UR.Increasing(UR.StartIndices(UR.Run(cfg, us).t.starts))
  {
    hide UR.Run, UR.Inv, Run, Handed, PostedEvents, Rising, Ordered, Behind, UR.RoadsIncreasing;
    EpochsRise(cfg, us);
    RisingPrefix(UR.Run(cfg, us).s.events, |PostedEvents(inputs)|, 0);
    assert UR.Run(cfg, us).s.events[..|PostedEvents(inputs)|] == PostedEvents(inputs);
    RoadsAreHandedInOrder(inputs);
    OrderedRoadsIncrease(us, Handed(inputs));
    UR.FramesBeginInOrder(cfg, us);
  }
}
