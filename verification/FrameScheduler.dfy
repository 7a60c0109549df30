/** Where key frames are requested and predicted, against two hardware encoders that decide for themselves. */
module FrameScheduler {
  import opened DropWindow

  const GOP: nat := 20
  const WIDE_PHASE: nat := 10

  /** What the scheduler is told: a new connection, a dropped frame, a gap without an index, or a pair going out. */
  datatype Call = Connect | Dropped(idx: nat) | Gap | Submit

  datatype Step = Step(requestRoad: bool, requestWide: bool, dropDetected: bool, roadIdr: bool, wideIdr: bool)

  const NOTHING := Step(false, false, false, false, false)

  datatype Sched = Sched(pos: nat, pendingRoad: bool, pendingWide: bool, nextRoad: nat, nextWide: nat, recent: Ring)

  const INITIAL := Sched(0, false, false, 0, 0, EMPTY)

  function NewSequence(s: Sched, drop: bool): (Sched, Step) {
    (Sched(0, true, true, 0, 0, s.recent), Step(true, true, drop, false, false))
  }

  function Submitted(s: Sched): (Sched, Step) {
    var extra := s.pos == WIDE_PHASE;
    var roadIdr := s.pendingRoad || s.pos == s.nextRoad;
    var wideIdr := s.pendingWide || extra || s.pos == s.nextWide;
    (Sched(s.pos + 1, false, false,
           if roadIdr then s.pos + GOP else s.nextRoad, if wideIdr then s.pos + GOP else s.nextWide, s.recent),
     Step(false, extra, false, roadIdr, wideIdr))
  }

  function Do(s: Sched, c: Call): (Sched, Step)
    requires s.recent.Valid()
    ensures Do(s, c).0.recent.Valid()
  {
    match c
    case Connect => NewSequence(s.(recent := s.recent.Cleared()), false)
    case Dropped(idx) =>
      if s.recent.Contains(idx) then (s, NOTHING) else NewSequence(s.(recent := s.recent.Note(idx)), true)
    case Gap => NewSequence(s, true)
    case Submit => Submitted(s)
  }

  /** An encoder makes a key frame when asked to, and otherwise when `left` frames have gone by since the last one;
      its very first frame is a key frame. */
  datatype Encoder = Encoder(left: nat, asked: bool) {
    function Request(): Encoder {
      this.(asked := true)
    }

    function Encode(): (Encoder, bool) {
      var idr := asked || left == 0;
      (Encoder(if idr then GOP - 1 else left - 1, false), idr)
    }
  }

  const POWERED_ON := Encoder(0, false)

  /** The scheduler, the requests waiting for the next pair, and the two encoders. */
  datatype Rig = Rig(sched: Sched, needRoad: bool, needWide: bool, road: Encoder, wide: Encoder)

  const RIG := Rig(INITIAL, false, false, POWERED_ON, POWERED_ON)

  /** What came of one pair: whether both encoders were asked, and the predicted and actual key frames. */
  datatype Outcome = Outcome(newSequence: bool, predictedRoad: bool, predictedWide: bool, road: bool, wide: bool)

  const NO_PAIR := Outcome(false, false, false, false, false)

  function Flush(r: Rig, s: Step): (Rig, Outcome) {
    var road := (if r.needRoad then r.road.Request() else r.road).Encode();
    var wide := (if r.needWide then r.wide.Request() else r.wide).Encode();
    (Rig(r.sched, false, false, road.0, wide.0),
     Outcome(r.needRoad && r.needWide, s.roadIdr, s.wideIdr, road.1, wide.1))
  }

  /** Requests pile up until a pair goes out, when they reach the encoders first. */
  function Act(r: Rig, c: Call): (Rig, Outcome)
    requires r.sched.recent.Valid()
    ensures Act(r, c).0.sched.recent.Valid()
  {
    var (sched, s) := Do(r.sched, c);
    var waiting := r.(sched := sched, needRoad := r.needRoad || s.requestRoad, needWide := r.needWide || s.requestWide);
    if c.Submit? then Flush(waiting, s) else (waiting, NO_PAIR)
  }

  function Run(calls: seq<Call>): (r: Rig)
    ensures r.sched.recent.Valid()
  {
    if calls == [] then RIG else Act(Run(calls[..|calls| - 1]), calls[|calls| - 1]).0
  }

  function OutcomeAt(calls: seq<Call>, k: nat): Outcome
    requires k < |calls|
  {
    Act(Run(calls[..k]), calls[k]).1
  }

  // ---- what the history alone says ----

  function Latest(notes: seq<nat>): seq<nat> {
    if |notes| <= WINDOW then notes else notes[|notes| - WINDOW..]
  }

  /** The drops that were acted on since the last connection. */
  function Notes(calls: seq<Call>): seq<nat> {
    if calls == [] then []
    else
      var before := Notes(calls[..|calls| - 1]);
      match calls[|calls| - 1]
      case Connect => []
      case Dropped(idx) => if idx in Latest(before) then before else before + [idx]
      case Gap => before
      case Submit => before
  }

  /** A call starts a new sequence unless it is a pair, or a drop already noted. */
  predicate Restarts(calls: seq<Call>, k: nat)
    requires k < |calls|
  {
    match calls[k]
    case Connect => true
    case Dropped(idx) => idx !in Latest(Notes(calls[..k]))
    case Gap => true
    case Submit => false
  }

  /** How many pairs have gone out since the last restart. */
  function Position(calls: seq<Call>): nat {
    if calls == [] then 0
    else
      var n := |calls| - 1;
      if Restarts(calls, n) then 0 else Position(calls[..n]) + (if calls[n].Submit? then 1 else 0)
  }

  predicate EverRestarted(calls: seq<Call>) {
    calls != [] && (Restarts(calls, |calls| - 1) || EverRestarted(calls[..|calls| - 1]))
  }

  // ---- the invariant ----

  /** One stream: the scheduler's view of it agrees with its encoder. */
  predicate Agrees(pos: nat, pending: bool, need: bool, next: nat, e: Encoder) {
    && !e.asked && pending == need
    && if pending then pos == 0 else next == pos + e.left
  }

  predicate RoadPhase(pos: nat, next: nat) {
    next % GOP == 0 && pos <= next < pos + GOP
  }

  predicate WidePhase(pos: nat, next: nat) {
    if pos == 0 then next == 0
    else if pos <= WIDE_PHASE then next == GOP
    else next % GOP == WIDE_PHASE && pos <= next < pos + GOP
  }

  predicate InStep(r: Rig, pos: nat, restarted: bool) {
    var s := r.sched;
    && s.pos == pos
    && Agrees(pos, s.pendingRoad, r.needRoad, s.nextRoad, r.road)
    && Agrees(pos, s.pendingWide, r.needWide, s.nextWide, r.wide)
    && RoadPhase(pos, s.nextRoad) && WidePhase(pos, s.nextWide)
    && s.pendingRoad == s.pendingWide && (pos == 0 ==> s.pendingRoad == restarted)
  }

  lemma RestartKeepsStep(r: Rig, drop: bool, recent: Ring, pos: nat, restarted: bool)
    requires InStep(r, pos, restarted)
    ensures var (sched, s) := NewSequence(r.sched.(recent := recent), drop);
            InStep(r.(sched := sched, needRoad := r.needRoad || s.requestRoad, needWide := r.needWide || s.requestWide),
                   0, true)
  {}

  /** One encoder makes one frame: a key frame just when the scheduler's view says so. */
  lemma EncodeAgrees(pos: nat, pending: bool, need: bool, next: nat, e: Encoder, extra: bool)
    requires Agrees(pos, pending, need, next, e)
    ensures var idr := pending || extra || pos == next;
            var (e', actual) := (if need || extra then e.Request() else e).Encode();
            actual == idr && Agrees(pos + 1, false, false, if idr then pos + GOP else next, e')
  {}

  lemma RoadPhaseMoves(pos: nat, pending: bool, next: nat)
    requires RoadPhase(pos, next) && (pending ==> pos == 0)
    ensures (pending || pos == next) == (pos % GOP == 0)
    ensures RoadPhase(pos + 1, if pending || pos == next then pos + GOP else next)
  {}

  lemma WidePhaseMoves(pos: nat, pending: bool, next: nat)
    requires WidePhase(pos, next) && (pending ==> pos == 0)
    ensures (pending || pos == WIDE_PHASE || pos == next) == (pos == 0 || pos % GOP == WIDE_PHASE)
    ensures WidePhase(pos + 1, if pending || pos == WIDE_PHASE || pos == next then pos + GOP else next)
  {}

  /** One pair goes out: the prediction comes true, and both key frames fall where the position says. */
  lemma SubmitKeepsStep(r: Rig, pos: nat, restarted: bool)
    requires r.sched.recent.Valid() && InStep(r, pos, restarted)
    ensures var (r', o) := Act(r, Submit);
            && InStep(r', pos + 1, restarted)
            && o == Outcome(pos == 0 && restarted, pos % GOP == 0, pos == 0 || pos % GOP == WIDE_PHASE,
                            pos % GOP == 0, pos == 0 || pos % GOP == WIDE_PHASE)
  {
    hide Ring.Valid, RoadPhase, WidePhase, Encoder.Encode, Encoder.Request;
    var s := r.sched;
    RoadPhaseMoves(pos, s.pendingRoad, s.nextRoad);
    WidePhaseMoves(pos, s.pendingWide, s.nextWide);
    EncodeAgrees(pos, s.pendingRoad, r.needRoad, s.nextRoad, r.road, false);
    EncodeAgrees(pos, s.pendingWide, r.needWide, s.nextWide, r.wide, pos == WIDE_PHASE);
  }

  /** The ring of the scheduler answers from the last 32 drops it acted on. */
  lemma WindowAnswers(r: Ring, notes: seq<nat>, x: nat)
    requires r.Represents(notes)
    ensures r.Contains(x) <==> x in Latest(notes)
  {
    ContainsRecent(r, notes, x);
    assert notes[0..] == notes;
  }

  lemma {:induction false} RunStaysInStep(calls: seq<Call>)
    ensures Run(calls).sched.recent.Represents(Notes(calls))
    ensures InStep(Run(calls), Position(calls), EverRestarted(calls))
  {
    hide InStep, Ring.Represents, Latest, Submitted, NewSequence, Flush, Ring.Contains, Ring.Note, Ring.Cleared;
    if calls == [] {
      StartsInStep();
    } else {
      var n := |calls| - 1;
      var r := Run(calls[..n]);
      var pos, restarted := Position(calls[..n]), EverRestarted(calls[..n]);
      RunStaysInStep(calls[..n]);
      match calls[n]
      case Connect =>
        ClearedRepresentsNothing(r.sched.recent);
        RestartFacts(r.sched.(recent := r.sched.recent.Cleared()), false);
        RestartKeepsStep(r, false, r.sched.recent.Cleared(), pos, restarted);
      case Dropped(idx) =>
        WindowAnswers(r.sched.recent, Notes(calls[..n]), idx);
        if idx in Latest(Notes(calls[..n])) {
          assert Act(r, calls[n]).0 == r;
        } else {
          NoteExtendsHistory(r.sched.recent, Notes(calls[..n]), idx);
          RestartFacts(r.sched.(recent := r.sched.recent.Note(idx)), true);
          RestartKeepsStep(r, true, r.sched.recent.Note(idx), pos, restarted);
        }
      case Gap =>
        RestartFacts(r.sched, true);
        RestartKeepsStep(r, true, r.sched.recent, pos, restarted);
      case Submit =>
        SubmitKeepsStep(r, pos, restarted);
        SubmitKeepsRing(r);
    }
  }

  lemma StartsInStep()
    ensures InStep(RIG, 0, false) && RIG.sched.recent.Represents([])
  {}

  lemma RestartFacts(s: Sched, drop: bool)
    ensures NewSequence(s, drop).0.recent == s.recent
  {}

  lemma SubmitKeepsRing(r: Rig)
    requires r.sched.recent.Valid()
    ensures Act(r, Submit).0.sched.recent == r.sched.recent
  {}

  // ---- the claims ----

  /** Over every mix of connections, drops, gaps and pairs: both predictions come true on every pair; at position p of
      its sequence a road key frame falls exactly at p % 20 == 0 and a wide one exactly at p == 0 or p % 20 == 10. */
  lemma PredictionsComeTrue(calls: seq<Call>, k: nat)
    requires k < |calls| && calls[k].Submit?
    ensures OutcomeAt(calls, k).predictedRoad == OutcomeAt(calls, k).road == (Position(calls[..k]) % GOP == 0)
    ensures OutcomeAt(calls, k).predictedWide == OutcomeAt(calls, k).wide
              == (Position(calls[..k]) == 0 || Position(calls[..k]) % GOP == WIDE_PHASE)
  {
    hide InStep, Act, Run, EverRestarted, Position;
    RunStaysInStep(calls[..k]);
    SubmitKeepsStep(Run(calls[..k]), Position(calls[..k]), EverRestarted(calls[..k]));
  }

  /** A double key frame heads a sequence and occurs nowhere else; both encoders are asked at once exactly there,
      except for the first pair of all when nothing has restarted yet. */
  lemma DoubleKeyFrameHeadsSequence(calls: seq<Call>, k: nat)
    requires k < |calls| && calls[k].Submit?
    ensures OutcomeAt(calls, k).road && OutcomeAt(calls, k).wide <==> Position(calls[..k]) == 0
    ensures OutcomeAt(calls, k).newSequence <==> Position(calls[..k]) == 0 && EverRestarted(calls[..k])
  {
    hide InStep, Act, Run, EverRestarted, Position;
    RunStaysInStep(calls[..k]);
    SubmitKeepsStep(Run(calls[..k]), Position(calls[..k]), EverRestarted(calls[..k]));
  }

  /** The first pair after a restart is a double key frame, and it was predicted. */
  lemma {:induction false} RestartBringsDoubleKeyFrame(calls: seq<Call>, i: nat, k: nat)
    requires i < k < |calls| && Restarts(calls, i) && calls[k].Submit?
    requires forall j :: i < j < k ==> !calls[j].Submit?
    ensures OutcomeAt(calls, k) == Outcome(true, true, true, true, true)
  {
    hide InStep, Act;
    PositionAfterRestart(calls, i, k);
    RunStaysInStep(calls[..k]);
    SubmitKeepsStep(Run(calls[..k]), 0, true);
  }

  lemma {:induction false} PositionAfterRestart(calls: seq<Call>, i: nat, k: nat)
    requires i < k <= |calls| && Restarts(calls, i)
    requires forall j :: i < j < k ==> !calls[j].Submit?
    ensures Position(calls[..k]) == 0 && EverRestarted(calls[..k])
  {
    hide Latest, Notes;
    var n := k - 1;
    assert calls[..k][..n] == calls[..n];
    assert calls[..k][n] == calls[n];
    assert i == n ==> Restarts(calls[..k], n);
    if i < n {
      PositionAfterRestart(calls, i, n);
    }
  }

  /** A drop reported again within the last 32 drops of the connection changes nothing; any other drop restarts. */
  lemma DropActsOnce(calls: seq<Call>, idx: nat)
    ensures var r := Run(calls);
            var (after, o) := Act(r, Dropped(idx));
            if idx in Latest(Notes(calls)) then after == r
            else after.sched.pos == 0 && after.needRoad && after.needWide
  {
    hide InStep, Ring.Represents, Latest, Ring.Contains, Ring.Note;
    RunStaysInStep(calls);
    WindowAnswers(Run(calls).sched.recent, Notes(calls), idx);
  }

  // ---- the object ----

  class Scheduler {
    var seqPos: nat
    var pendingRoad: bool
    var pendingWide: bool
    var nextIdrRoad: nat
    var nextIdrWide: nat
    const recentDrop: array<nat>
    var recentDropN: nat
    var recentDropPos: nat

    ghost predicate Valid()
      reads this, recentDrop
    {
      State().recent.Valid()
    }

    ghost function State(): Sched
      reads this, recentDrop
    {
      Sched(seqPos, pendingRoad, pendingWide, nextIdrRoad, nextIdrWide,
            Ring(recentDrop[..], recentDropN, recentDropPos))
    }

    constructor ()
      ensures Valid() && fresh(recentDrop) && State() == INITIAL
    {
      seqPos, pendingRoad, pendingWide, nextIdrRoad, nextIdrWide := 0, false, false, 0, 0;
      recentDrop := new nat[WINDOW](_ => 0);
      recentDropN, recentDropPos := 0, 0;
    }

    method StartNewSequence(drop: bool) returns (s: Step)
      modifies this
      ensures (State(), s) == NewSequence(old(State()), drop)
    {
      pendingRoad, pendingWide := true, true;
      seqPos, nextIdrRoad, nextIdrWide := 0, 0, 0;
      return Step(true, true, drop, false, false);
    }

    method OnConnect() returns (s: Step)
      requires Valid()
      modifies this
      ensures Valid() && (State(), s) == Do(old(State()), Connect)
    {
      s := StartNewSequence(false);
      recentDropN, recentDropPos := 0, 0;
    }

    method OnFrameSubmit() returns (s: Step)
      requires Valid()
      modifies this
      ensures Valid() && (State(), s) == Do(old(State()), Submit)
    {
      s := NOTHING;
      if seqPos == WIDE_PHASE {
        s := s.(requestWide := true);
        pendingWide := true;
      }
      s := s.(roadIdr := pendingRoad || seqPos == nextIdrRoad);
      if s.roadIdr {
        pendingRoad := false;
        nextIdrRoad := seqPos + GOP;
      }
      s := s.(wideIdr := pendingWide || seqPos == nextIdrWide);
      if s.wideIdr {
        pendingWide := false;
        nextIdrWide := seqPos + GOP;
      }
      seqPos := seqPos + 1;
    }

    /** Looks the index up, and notes it when it is not there. */
    method DropAlreadyReported(idx: nat) returns (seen: bool)
      requires Valid()
      modifies this, recentDrop
      ensures Valid() && seen == old(State().recent.Contains(idx))
      ensures State() == if seen then old(State()) else old(State()).(recent := old(State()).recent.Note(idx))
    {
      ghost var recent := recentDrop[..];
      for i := 0 to recentDropN
        invariant recentDrop[..] == recent && forall k :: 0 <= k < i ==> recent[k] != idx
      {
        if recentDrop[i] == idx {
          assert recent[..recentDropN][i] == idx;
          return true;
        }
      }
      recentDrop[recentDropPos] := idx;
      recentDropPos := (recentDropPos + 1) % WINDOW;
      if recentDropN < WINDOW {
        recentDropN := recentDropN + 1;
      }
      return false;
    }

    method OnFrameDropped(idx: nat) returns (s: Step)
      requires Valid()
      modifies this, recentDrop
      ensures Valid() && (State(), s) == Do(old(State()), Dropped(idx))
    {
      var seen := DropAlreadyReported(idx);
      if seen {
        return NOTHING;
      }
      s := StartNewSequence(true);
    }

    method OnStreamGap() returns (s: Step)
      requires Valid()
      modifies this
      ensures Valid() && (State(), s) == Do(old(State()), Gap)
    {
      s := StartNewSequence(true);
    }
  }
}
