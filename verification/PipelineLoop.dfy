/** The daemon's object over its parts, refining the state machine of module Pipeline. */
module PipelineLoop {
  import opened Options
  import opened Pipeline
  import opened Uplink
  import DW = DropWindow
  import FI = FrameIndexer
  import FS = FrameScheduler
  import MC = MetaCache
  import PM = PairMatcher

  /** An encoder as the scheduler counts on it. */
  class HwEncoder {
    var left: nat
    var asked: bool

    ghost function State(): FS.Encoder
      reads this
    {
      FS.Encoder(left, asked)
    }

    constructor ()
      ensures State() == FS.POWERED_ON
    {
      left, asked := 0, false;
    }

    method RequestKeyframe()
      modifies this
      ensures State() == old(State()).Request()
    {
      asked := true;
    }

    method EncodeFrame() returns (idr: bool)
      modifies this
      ensures (State(), idr) == old(State()).Encode()
    {
      idr := asked || left == 0;
      left := if idr then FS.GOP - 1 else left - 1;
      asked := false;
    }
  }

  class Daemon {
    const matcher: PM.Matcher
    const indexer: FI.Indexer
    const sched: FS.Scheduler
    const encRoad: HwEncoder
    const encWide: HwEncoder
    const metaRoad: MC.Cache
    const metaWide: MC.Cache
    var needRoad: bool
    var needWide: bool
    var curEpoch: nat
    var evs: seq<Event>
    ghost var calls: seq<FS.Call>
    ghost var roadOps: seq<MC.Op>
    ghost var wideOps: seq<MC.Op>

    ghost function Parts(): set<object> {
      {matcher, indexer, sched, sched.recentDrop, encRoad, encWide, metaRoad, metaWide}
    }

    ghost predicate Valid()
      reads this, Parts()
    {
      && this !in Parts() && encRoad != encWide && metaRoad != metaWide
      && sched.Valid()
    }

    ghost function Rig(): FS.Rig
      reads this, Parts()
    {
      FS.Rig(sched.State(), needRoad, needWide, encRoad.State(), encWide.State())
    }

    ghost function Hist(): History
      reads this, Parts()
    {
      History(Glue(matcher.State(), indexer.State(), Rig(), curEpoch, metaRoad.Value(), metaWide.Value(), evs),
              calls, roadOps, wideOps)
    }

    constructor ()
      ensures Valid() && fresh(Parts()) && Hist() == START
    {
      matcher := new PM.Matcher();
      indexer := new FI.Indexer();
      sched := new FS.Scheduler();
      encRoad := new HwEncoder();
      encWide := new HwEncoder();
      metaRoad := new MC.Cache();
      metaWide := new MC.Cache();
      needRoad, needWide, curEpoch, evs := false, false, 0, [];
      calls, roadOps, wideOps := [], [], [];
    }

    method OnUplinkEvent(e: Event)
      requires Valid()
      modifies this
      ensures Valid() && Hist() == Do(old(Hist()), Posted(e))
    {
      evs := evs + [e];
    }

    method AccumulateRequests(s: FS.Step)
      requires Valid()
      modifies this`needRoad, this`needWide
      ensures Valid() && needRoad == (old(needRoad) || s.requestRoad) && needWide == (old(needWide) || s.requestWide)
    {
      needRoad := needRoad || s.requestRoad;
      needWide := needWide || s.requestWide;
    }

    /** A new connection: its epoch, fresh numbers, and empty caches. */
    method ResetConnection(epoch: nat)
      requires Valid()
      modifies this`curEpoch, this`roadOps, this`wideOps, indexer, metaRoad, metaWide
      ensures Valid() && curEpoch == epoch && indexer.State() == FI.FRESH
      ensures metaRoad.Value() == MC.FRESH && metaWide.Value() == MC.FRESH
      ensures roadOps == old(roadOps) + [MC.Cleared] && wideOps == old(wideOps) + [MC.Cleared]
    {
      curEpoch := epoch;
      indexer.Reset();
      metaRoad.Clear();
      metaWide.Clear();
      roadOps, wideOps := roadOps + [MC.Cleared], wideOps + [MC.Cleared];
    }

    method Reschedule(e: Event) returns (s: FS.Step)
      requires Valid() && Scheduled(e.kind)
      modifies sched, sched.recentDrop
      ensures Valid() && (sched.State(), s) == FS.Do(old(sched.State()), CallOf(e))
    {
      hide FS.Do, DW.Ring.Valid;
      if e.kind.NewConnection? {
        s := sched.OnConnect();
      } else if e.kind.StreamGap? {
        s := sched.OnStreamGap();
      } else {
        s := sched.OnFrameDropped(e.idx);
      }
    }

    method HandleEvent(e: Event)
      requires Valid()
      modifies this, Parts()
      ensures Valid() && Hist() == Handle(old(Hist()), e)
    {
      hide FS.Do, DW.Ring.Valid, CallOf;
      if !Scheduled(e.kind) {
        return;
      }
      if e.kind.NewConnection? {
        ResetConnection(e.epoch);
      }
      var s := Reschedule(e);
      AccumulateRequests(s);
      calls := calls + [CallOf(e)];
    }

    method DrainEvents()
      requires Valid()
      modifies this, Parts()
      ensures Valid() && Hist() == Drain(old(Hist()))
    {
      hide Handle, FS.Act;
      var batch := evs;
      ghost var before := Hist();
      for i := 0 to |batch|
        invariant Valid() && Hist() == HandleAll(before, batch[..i])
      {
        HandleEvent(batch[i]);
        assert batch[..i + 1][..i] == batch[..i];
      }
      assert batch[..|batch|] == batch;
      evs := [];
    }

    method AccountPairDrop(dead: Option<PM.Frame>)
      requires Valid()
      modifies indexer
      ensures Valid() && Hist() == Account(old(Hist()), dead)
    {
      if dead.Some? {
        var _ := indexer.Index(dead.value.sof);
      }
    }

    /** Both requests waiting means a new sequence. */
    method FlushRequests() returns (newSequence: bool)
      requires Valid()
      modifies this`needRoad, this`needWide, encRoad, encWide
      ensures Valid() && !needRoad && !needWide && newSequence == (old(needRoad) && old(needWide))
      ensures encRoad.State() == if old(needRoad) then old(encRoad.State()).Request() else old(encRoad.State())
      ensures encWide.State() == if old(needWide) then old(encWide.State()).Request() else old(encWide.State())
    {
      newSequence := needRoad && needWide;
      if needRoad {
        encRoad.RequestKeyframe();
        needRoad := false;
      }
      if needWide {
        encWide.RequestKeyframe();
        needWide := false;
      }
    }

    method PushContexts(road: MC.OutMeta, wide: MC.OutMeta)
      requires Valid()
      modifies this`roadOps, this`wideOps, metaRoad, metaWide
      ensures Valid()
      ensures metaRoad.Value() == MC.Pushing(old(metaRoad.Value()), road) && roadOps == old(roadOps) + [MC.Pushed(road)]
      ensures metaWide.Value() == MC.Pushing(old(metaWide.Value()), wide) && wideOps == old(wideOps) + [MC.Pushed(wide)]
    {
      hide MC.Pushing;
      metaRoad.Push(road);
      metaWide.Push(wide);
      roadOps, wideOps := roadOps + [MC.Pushed(road)], wideOps + [MC.Pushed(wide)];
    }

    /** Number, schedule, flush the requests, push both contexts, and only then encode: an output finds its context. */
    method Encode(p: PM.Pair) returns (o: FS.Outcome)
      requires Valid()
      modifies this, Parts()
      ensures Valid() && (Hist(), o) == EncodePair(old(Hist()), p)
    {
      hide DW.Ring.Valid, FI.Numbered, MC.Pushing, FS.Do, FS.Encoder.Request, FS.Encoder.Encode;
      var idx := indexer.Index(p.road.sof);
      var s := sched.OnFrameSubmit();
      AccumulateRequests(s);
      var newSequence := FlushRequests();
      var m := MC.OutMeta(p.road.frameId, idx, curEpoch, s.roadIdr, s.wideIdr);
      PushContexts(m, m.(frameId := p.wide.frameId));
      var road := encRoad.EncodeFrame();
      var wide := encWide.EncodeFrame();
      calls := calls + [FS.Submit];
      return FS.Outcome(newSequence, s.roadIdr, s.wideIdr, road, wide);
    }

    method PlaceFrame(isRoad: bool, f: PM.Frame) returns (o: FS.Outcome)
      requires Valid()
      modifies this, Parts()
      ensures Valid() && (Hist(), o) == Place(old(Hist()), PM.Arrival(isRoad, f))
    {
      hide Drain, PM.Push, EncodePair, FI.Numbered;
      DrainEvents();
      var a := matcher.PushFrame(isRoad, f);
      AccountPairDrop(a.killRoad);
      o := FS.NO_PAIR;
      if a.pair.Some? {
        o := Encode(a.pair.value);
      }
    }

    method OnEncoded(isRoad: bool, frameId: nat, tooLong: bool) returns (om: Option<MC.OutMeta>)
      requires Valid()
      modifies this, metaRoad, metaWide
      ensures Valid() && (Hist(), om) == Output(old(Hist()), isRoad, frameId, tooLong)
    {
      hide MC.Taking;
      var r;
      if isRoad {
        r := metaRoad.Take(frameId);
        roadOps := roadOps + [MC.Took(frameId)];
      } else {
        r := metaWide.Take(frameId);
        wideOps := wideOps + [MC.Took(frameId)];
      }
      ghost var posted := evs;
      if r.st != MC.Hit {
        if r.st == MC.StaleMiss {
          assert evs == posted + [];
          return None;
        }
        evs := evs + [GAP_EVENT];
        return None;
      }
      if r.dead != [] {
        evs := evs + [Event(Drop, r.dead[0].frameIdx, 0)];
      }
      if tooLong {
        evs := evs + [Event(Drop, r.om.frameIdx, 0)];
        assert evs == posted + Report(r, tooLong).0;
        return None;
      }
      assert evs == posted + Report(r, tooLong).0;
      return Some(r.om);
    }
  }
}
