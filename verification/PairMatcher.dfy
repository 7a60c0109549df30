/** Pairing the frames of two cameras by their start-of-frame times, one slot per camera. */
module PairMatcher {
  import opened Options

  const TOLERANCE_NS: nat := 10_000_000

  datatype Frame = Frame(frameId: nat, sof: nat, payload: nat)

  /** A frame of one of the two cameras arrives. */
  datatype Arrival = Arrival(isRoad: bool, frame: Frame)

  datatype Pair = Pair(road: Frame, wide: Frame)
  datatype Actions = Actions(killRoad: Option<Frame>, killWide: Option<Frame>, pair: Option<Pair>)
  datatype Slots = Slots(road: Option<Frame>, wide: Option<Frame>) {
    function Of(isRoad: bool): Option<Frame> {
      if isRoad then road else wide
    }
  }

  const EMPTY := Slots(None, None)

  predicate Pairable(a: nat, b: nat) {
    (if a > b then a - b else b - a) <= TOLERANCE_NS
  }

  function MakeSlots(isRoad: bool, mine: Option<Frame>, other: Option<Frame>): Slots {
    if isRoad then Slots(mine, other) else Slots(other, mine)
  }

  function MakeActions(isRoad: bool, mine: Option<Frame>, other: Option<Frame>, pair: Option<Pair>): Actions {
    if isRoad then Actions(mine, other, pair) else Actions(other, mine, pair)
  }

  function MakePair(isRoad: bool, mine: Frame, other: Frame): Pair {
    if isRoad then Pair(mine, other) else Pair(other, mine)
  }

  /** Pair with the other slot, or replace one's own; a slot whose window has passed is emptied. */
  function Push(s: Slots, a: Arrival): (Slots, Actions) {
    var mine, other := s.Of(a.isRoad), s.Of(!a.isRoad);
    if other.Some? && Pairable(a.frame.sof, other.value.sof) then
      (EMPTY, MakeActions(a.isRoad, mine, None, Some(MakePair(a.isRoad, a.frame, other.value))))
    else
      var late := other.Some? && other.value.sof + TOLERANCE_NS < a.frame.sof;
      (MakeSlots(a.isRoad, Some(a.frame), if late then None else other),
       MakeActions(a.isRoad, mine, if late then other else None, None))
  }

  function Run(arrivals: seq<Arrival>): Slots {
    if arrivals == [] then EMPTY else Push(Run(arrivals[..|arrivals| - 1]), arrivals[|arrivals| - 1]).0
  }

  /** What happens when the k-th frame arrives. */
  function ActionsAt(arrivals: seq<Arrival>, k: nat): Actions
    requires k < |arrivals|
  {
    Push(Run(arrivals[..k]), arrivals[k]).1
  }

  // ---- conservation ----

  function Held(isRoad: bool, f: Option<Frame>): multiset<Arrival> {
    if f.Some? then multiset{Arrival(isRoad, f.value)} else multiset{}
  }

  function SlotCount(s: Slots): multiset<Arrival> {
    Held(true, s.road) + Held(false, s.wide)
  }

  function Both(pair: Option<Pair>): multiset<Arrival> {
    if pair.Some? then Held(true, Some(pair.value.road)) + Held(false, Some(pair.value.wide)) else multiset{}
  }

  /** The frames an action list disposes of: both of a pair, and each dead one. */
  function Disposed(a: Actions): multiset<Arrival> {
    Held(true, a.killRoad) + Held(false, a.killWide) + Both(a.pair)
  }

  function DisposedBy(arrivals: seq<Arrival>): multiset<Arrival> {
    if arrivals == [] then multiset{}
    else DisposedBy(arrivals[..|arrivals| - 1]) + Disposed(ActionsAt(arrivals, |arrivals| - 1))
  }

  lemma SlotCountBySide(isRoad: bool, mine: Option<Frame>, other: Option<Frame>)
    ensures SlotCount(MakeSlots(isRoad, mine, other)) == Held(isRoad, mine) + Held(!isRoad, other)
  {
    hide Held;
  }

  lemma DisposedBySide(isRoad: bool, mine: Option<Frame>, other: Option<Frame>, pair: Option<Pair>)
    ensures Disposed(MakeActions(isRoad, mine, other, pair)) == Held(isRoad, mine) + Held(!isRoad, other) + Both(pair)
  {
    hide Held, Both;
  }

  lemma BothBySide(isRoad: bool, mine: Frame, other: Frame)
    ensures Both(Some(MakePair(isRoad, mine, other))) == Held(isRoad, Some(mine)) + Held(!isRoad, Some(other))
  {
    hide Held;
  }

  lemma PushConserves(s: Slots, a: Arrival)
    ensures SlotCount(Push(s, a).0) + Disposed(Push(s, a).1) == SlotCount(s) + multiset{a}
  {
    hide Held, Both, SlotCount, Disposed, Pairable, MakeSlots, MakeActions, MakePair;
    var mine, other, f := s.Of(a.isRoad), s.Of(!a.isRoad), a.frame;
    SideOf(s, a.isRoad);
    SlotCountBySide(a.isRoad, mine, other);
    NothingHeld(a);
    if other.Some? && Pairable(f.sof, other.value.sof) {
      BothBySide(a.isRoad, f, other.value);
      DisposedBySide(a.isRoad, mine, None, Some(MakePair(a.isRoad, f, other.value)));
    } else {
      var late := other.Some? && other.value.sof + TOLERANCE_NS < f.sof;
      SlotCountBySide(a.isRoad, Some(f), if late then None else other);
      DisposedBySide(a.isRoad, mine, if late then other else None, None);
    }
  }

  lemma SideOf(s: Slots, isRoad: bool)
    ensures MakeSlots(isRoad, s.Of(isRoad), s.Of(!isRoad)) == s
  {}

  lemma NothingHeld(a: Arrival)
    ensures SlotCount(EMPTY) == multiset{} && Both(None) == multiset{}
    ensures Held(true, None) == multiset{} == Held(false, None)
    ensures Held(a.isRoad, Some(a.frame)) == multiset{a}
  {}

  /** Every frame that arrived was paired once, killed once, or is in a slot: none is lost and none counted twice. */
  lemma {:induction false} FramesAreConserved(arrivals: seq<Arrival>)
    ensures SlotCount(Run(arrivals)) + DisposedBy(arrivals) == multiset(arrivals)
  {
    hide Push, SlotCount, Disposed;
    if arrivals == [] {
      NothingHeld(Arrival(true, Frame(0, 0, 0)));
    } else {
      var n := |arrivals| - 1;
      FramesAreConserved(arrivals[..n]);
      PushConserves(Run(arrivals[..n]), arrivals[n]);
      MultisetOfLast(arrivals);
      Rebalance(SlotCount(Run(arrivals)), DisposedBy(arrivals[..n]), Disposed(ActionsAt(arrivals, n)),
                SlotCount(Run(arrivals[..n])), multiset{arrivals[n]});
    }
  }

  lemma Rebalance(after: multiset<Arrival>, d: multiset<Arrival>, now: multiset<Arrival>,
                  before: multiset<Arrival>, arrived: multiset<Arrival>)
    requires after + now == before + arrived
    ensures after + (d + now) == (before + d) + arrived
  {
    assert after + (d + now) == (after + now) + d;
  }

  lemma MultisetOfLast(s: seq<Arrival>)
    requires s != []
    ensures multiset(s) == multiset(s[..|s| - 1]) + multiset{s[|s| - 1]}
  {
    assert s == s[..|s| - 1] + [s[|s| - 1]];
  }

  // ---- exactness ----

  /** On each side the times increase by more than twice the tolerance. */
  ghost predicate Separated(arrivals: seq<Arrival>) {
    forall i, j :: 0 <= i < j < |arrivals| && arrivals[i].isRoad == arrivals[j].isRoad ==>
      arrivals[i].frame.sof + 2 * TOLERANCE_NS < arrivals[j].frame.sof
  }

  ghost predicate Partners(arrivals: seq<Arrival>, i: nat, j: nat) {
    && i < |arrivals| && j < |arrivals| && arrivals[i].isRoad != arrivals[j].isRoad
    && Pairable(arrivals[i].frame.sof, arrivals[j].frame.sof)
  }

  /** The pair that two arrivals form. */
  function PairOf(a: Arrival, b: Arrival): Pair {
    MakePair(a.isRoad, a.frame, b.frame)
  }

  /** A slot holds an arrival of its side. */
  lemma {:induction false} SlotsHoldArrivals(arrivals: seq<Arrival>, isRoad: bool) returns (i: nat)
    requires Run(arrivals).Of(isRoad).Some?
    ensures i < |arrivals| && arrivals[i] == Arrival(isRoad, Run(arrivals).Of(isRoad).value)
  {
    var n := |arrivals| - 1;
    var before := Run(arrivals[..n]);
    if before.Of(isRoad) == Run(arrivals).Of(isRoad) {
      i := SlotsHoldArrivals(arrivals[..n], isRoad);
    } else {
      i := n;
    }
  }

  /** A frame has at most one partner. */
  lemma PartnerIsUnique(arrivals: seq<Arrival>, e: nat, l: nat, i: nat)
    requires Separated(arrivals) && Partners(arrivals, e, l) && Partners(arrivals, i, l)
    ensures i == e
  {
    var sof := k => if 0 <= k < |arrivals| then arrivals[k].frame.sof else 0;
    assert i < e ==> sof(i) + 2 * TOLERANCE_NS < sof(e);
    assert e < i ==> sof(e) + 2 * TOLERANCE_NS < sof(i);
  }

  /** An emitted pair consists of the frame that just arrived and its only in-tolerance partner. */
  lemma EmittedPairIsUnique(arrivals: seq<Arrival>, l: nat) returns (e: nat)
    requires Separated(arrivals) && l < |arrivals| && ActionsAt(arrivals, l).pair.Some?
    ensures e < l && Partners(arrivals, e, l)
    ensures ActionsAt(arrivals, l).pair == Some(PairOf(arrivals[l], arrivals[e]))
    ensures forall i :: Partners(arrivals, i, l) ==> i == e
  {
    e := SlotsHoldArrivals(arrivals[..l], !arrivals[l].isRoad);
    forall i | Partners(arrivals, i, l)
      ensures i == e
    {
      PartnerIsUnique(arrivals, e, l, i);
    }
  }

  /** No frame of the earlier one's side arrives between the two. */
  ghost predicate Undisturbed(arrivals: seq<Arrival>, e: nat, l: nat)
    requires e < |arrivals|
  {
    forall k :: e < k < l && k < |arrivals| ==> arrivals[k].isRoad != arrivals[e].isRoad
  }

  /** Nothing that arrives before the partner touches a waiting frame, except a successor on its own side. */
  lemma {:induction false} WaitsInSlot(arrivals: seq<Arrival>, e: nat, l: nat, k: nat)
    requires Separated(arrivals) && Partners(arrivals, e, l) && e < k <= l
    requires forall m :: e < m < k ==> arrivals[m].isRoad != arrivals[e].isRoad
    ensures Run(arrivals[..k]).Of(arrivals[e].isRoad) == Some(arrivals[e].frame)
  {
    var n := k - 1;
    assert arrivals[..k][..n] == arrivals[..n];
    var s, a := Run(arrivals[..n]), arrivals[n];
    if n == e {
      if s.Of(!a.isRoad).Some? {
        var i := SlotsHoldArrivals(arrivals[..n], !a.isRoad);
        assert arrivals[i].frame.sof + 2 * TOLERANCE_NS < arrivals[l].frame.sof;
      }
    } else {
      WaitsInSlot(arrivals, e, l, n);
      assert arrivals[n].frame.sof + 2 * TOLERANCE_NS < arrivals[l].frame.sof;
    }
  }

  /** Two partners are paired when the later one arrives, exactly if no same-side successor of the earlier one came
      first; such a successor kills the earlier one the moment it arrives. */
  lemma PartnersPairUnlessDisturbed(arrivals: seq<Arrival>, e: nat, l: nat)
    requires Separated(arrivals) && Partners(arrivals, e, l) && e < l
    ensures ActionsAt(arrivals, l).pair == Some(PairOf(arrivals[l], arrivals[e])) <==> Undisturbed(arrivals, e, l)
    ensures !Undisturbed(arrivals, e, l) ==> exists k :: e < k < l && Kills(arrivals, k, e)
  {
    if Undisturbed(arrivals, e, l) {
      WaitsInSlot(arrivals, e, l, l);
    } else {
      var k := FirstSuccessor(arrivals, e, l);
      WaitsInSlot(arrivals, e, l, k);
      assert Kills(arrivals, k, e);
      NotInSlotLater(arrivals, e, k, l);
    }
  }

  /** Arrival k makes the matcher give up frame e. */
  ghost predicate Kills(arrivals: seq<Arrival>, k: nat, e: nat)
    requires e < |arrivals|
  {
    k < |arrivals| && (if arrivals[e].isRoad then ActionsAt(arrivals, k).killRoad else ActionsAt(arrivals, k).killWide)
                      == Some(arrivals[e].frame)
  }

  lemma FirstSuccessor(arrivals: seq<Arrival>, e: nat, l: nat) returns (k: nat)
    requires e < l < |arrivals| && !Undisturbed(arrivals, e, l)
    ensures e < k < l && arrivals[k].isRoad == arrivals[e].isRoad
    ensures forall m :: e < m < k ==> arrivals[m].isRoad != arrivals[e].isRoad
  {
    k := e + 1;
    while arrivals[k].isRoad != arrivals[e].isRoad
      invariant e < k < l
      invariant forall m :: e < m < k ==> arrivals[m].isRoad != arrivals[e].isRoad
      decreases l - k
    {
      k := k + 1;
    }
  }

  /** Once a successor has arrived, the slot never holds the frame again. */
  lemma {:induction false} NotInSlotLater(arrivals: seq<Arrival>, e: nat, k: nat, m: nat)
    requires Separated(arrivals) && e < k < m <= |arrivals| && arrivals[k].isRoad == arrivals[e].isRoad
    ensures Run(arrivals[..m]).Of(arrivals[e].isRoad) != Some(arrivals[e].frame)
  {
    var n := m - 1;
    assert arrivals[..m][..n] == arrivals[..n];
    if n > k {
      NotInSlotLater(arrivals, e, k, n);
    }
    if arrivals[n].isRoad == arrivals[e].isRoad {
      assert arrivals[e].frame.sof + 2 * TOLERANCE_NS < arrivals[n].frame.sof;
    }
  }

  // ---- the object ----

  class Matcher {
    var road: Option<Frame>
    var wide: Option<Frame>

    ghost function State(): Slots
      reads this
    {
      Slots(road, wide)
    }

    constructor ()
      ensures State() == EMPTY
    {
      road, wide := None, None;
    }

    method Put(isRoad: bool, f: Option<Frame>)
      modifies this
      ensures State() == MakeSlots(isRoad, f, old(State()).Of(!isRoad))
    {
      if isRoad {
        road := f;
      } else {
        wide := f;
      }
    }

    method PushFrame(isRoad: bool, f: Frame) returns (a: Actions)
      modifies this
      ensures (State(), a) == Push(old(State()), Arrival(isRoad, f))
    {
      var mine, other := if isRoad then road else wide, if isRoad then wide else road;
      if other.Some? && Pairable(f.sof, other.value.sof) {
        a := MakeActions(isRoad, mine, None, Some(MakePair(isRoad, f, other.value)));
        Put(isRoad, None);
        Put(!isRoad, None);
        return;
      }
      Put(isRoad, Some(f));
      if other.Some? && other.value.sof + TOLERANCE_NS < f.sof {
        Put(!isRoad, None);
        return MakeActions(isRoad, mine, other, None);
      }
      return MakeActions(isRoad, mine, None, None);
    }
  }
}
