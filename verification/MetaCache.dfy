/** The contexts of frames in an encoder: first in, first out, looked up by the camera's frame number. */
module MetaCache {

  datatype OutMeta = OutMeta(frameId: nat, frameIdx: nat, epoch: nat, roadIdrPred: bool, wideIdrPred: bool)

  datatype Status = Hit | StaleMiss | GapMiss

  /** `om` counts only for a hit; `dead` are the older entries skipped by it. */
  datatype Taken = Taken(st: Status, om: OutMeta, dead: seq<OutMeta>)

  const NO_META := OutMeta(0, 0, 0, false, false)

  datatype State = State(q: seq<OutMeta>, pushedSinceClear: bool, lastPushed: nat)

  const FRESH := State([], false, 0)

  /** Where the number first occurs, or the length of the queue. */
  function Find(q: seq<OutMeta>, id: nat): (i: nat)
    ensures i <= |q| && (i < |q| ==> q[i].frameId == id)
    ensures forall j :: 0 <= j < i ==> q[j].frameId != id
  {
    if q == [] || q[0].frameId == id then 0 else 1 + Find(q[1..], id)
  }

  function MissOf(s: State, id: nat): Status {
    if !s.pushedSinceClear then StaleMiss
    else if s.q != [] && id < s.q[0].frameId then StaleMiss
    else if s.q == [] && id <= s.lastPushed then StaleMiss
    else GapMiss
  }

  function Taking(s: State, id: nat): (State, Taken) {
    var i := Find(s.q, id);
    if i < |s.q| then (s.(q := s.q[i + 1..]), Taken(Hit, s.q[i], s.q[..i]))
    else (s, Taken(MissOf(s, id), NO_META, []))
  }

  function Pushing(s: State, m: OutMeta): State {
    State(s.q + [m], true, m.frameId)
  }

  datatype Op = Pushed(m: OutMeta) | Took(id: nat) | Cleared

  function Do(s: State, op: Op): State {
    match op
    case Pushed(m) => Pushing(s, m)
    case Took(id) => Taking(s, id).0
    case Cleared => FRESH
  }

  function Run(ops: seq<Op>): State {
    if ops == [] then FRESH else Do(Run(ops[..|ops| - 1]), ops[|ops| - 1])
  }

  // ---- what the history alone says ----

  /** All entries ever pushed, oldest first. */
  function Submitted(ops: seq<Op>): seq<OutMeta> {
    if ops == [] then []
    else
      var before := Submitted(ops[..|ops| - 1]);
      if ops[|ops| - 1].Pushed? then before + [ops[|ops| - 1].m] else before
  }

  predicate PushedSinceClear(ops: seq<Op>) {
    ops != [] && (ops[|ops| - 1].Pushed? || (ops[|ops| - 1].Took? && PushedSinceClear(ops[..|ops| - 1])))
  }

  /** The camera numbers of the pushed entries strictly increase, across clears too. */
  ghost predicate Increasing(ms: seq<OutMeta>) {
    forall i, j :: 0 <= i < j < |ms| ==> ms[i].frameId < ms[j].frameId
  }

  ghost predicate HasId(ms: seq<OutMeta>, id: nat) {
    exists i :: 0 <= i < |ms| && ms[i].frameId == id
  }

  // ---- conservation ----

  datatype Fate = WasHit(m: OutMeta) | Died(m: OutMeta) | WasCleared(m: OutMeta)

  function Dead(ms: seq<OutMeta>): (fates: seq<Fate>)
    ensures |fates| == |ms| && forall i :: 0 <= i < |ms| ==> fates[i] == Died(ms[i])
  {
    seq(|ms|, i requires 0 <= i < |ms| => Died(ms[i]))
  }

  function AllCleared(ms: seq<OutMeta>): (fates: seq<Fate>)
    ensures |fates| == |ms| && forall i :: 0 <= i < |ms| ==> fates[i] == WasCleared(ms[i])
  {
    seq(|ms|, i requires 0 <= i < |ms| => WasCleared(ms[i]))
  }

  /** What one operation does to entries that leave the queue. */
  function FatesOf(s: State, op: Op): seq<Fate> {
    match op
    case Pushed(_) => []
    case Took(id) => var r := Taking(s, id).1; if r.st == Hit then Dead(r.dead) + [WasHit(r.om)] else []
    case Cleared => AllCleared(s.q)
  }

  /** What became of every entry that left the queue, in the order they left. */
  function Fates(ops: seq<Op>): seq<Fate> {
    if ops == [] then []
    else Fates(ops[..|ops| - 1]) + FatesOf(Run(ops[..|ops| - 1]), ops[|ops| - 1])
  }

  function Metas(fates: seq<Fate>): (ms: seq<OutMeta>)
    ensures |ms| == |fates| && forall i :: 0 <= i < |ms| ==> ms[i] == fates[i].m
  {
    seq(|fates|, i requires 0 <= i < |fates| => fates[i].m)
  }

  lemma StepConserves(s: State, op: Op)
    ensures Metas(FatesOf(s, op)) + Do(s, op).q == s.q + (if op.Pushed? then [op.m] else [])
  {}

  /** The entries that left, each by a hit, by being skipped or by a clear, and then those still queued, are exactly
      the entries pushed, in the order they were pushed: nothing is lost, duplicated or reordered. */
  lemma {:induction false} EntriesAreConserved(ops: seq<Op>)
    ensures Metas(Fates(ops)) + Run(ops).q == Submitted(ops)
  {
    hide Do, FatesOf;
    if ops != [] {
      var n := |ops| - 1;
      var before, fates := Fates(ops[..n]), FatesOf(Run(ops[..n]), ops[n]);
      EntriesAreConserved(ops[..n]);
      StepConserves(Run(ops[..n]), ops[n]);
      assert Metas(before + fates) == Metas(before) + Metas(fates);
      Regroup(Metas(before), Metas(fates), Run(ops).q, Run(ops[..n]).q, if ops[n].Pushed? then [ops[n].m] else []);
    }
  }

  lemma Regroup(gone: seq<OutMeta>, going: seq<OutMeta>, left: seq<OutMeta>, q: seq<OutMeta>, pushed: seq<OutMeta>)
    requires going + left == q + pushed
    ensures gone + going + left == gone + q + pushed
  {
    assert gone + going + left == gone + (going + left);
  }

  // ---- classification ----

  /** What the two bookkeeping fields mean. */
  lemma {:induction false} Bookkeeping(ops: seq<Op>)
    ensures Run(ops).pushedSinceClear == PushedSinceClear(ops)
    ensures Run(ops).q != [] ==> PushedSinceClear(ops)
    ensures PushedSinceClear(ops) ==>
              Submitted(ops) != [] && Run(ops).lastPushed == Submitted(ops)[|Submitted(ops)| - 1].frameId
  {
    hide Find;
    if ops != [] {
      Bookkeeping(ops[..|ops| - 1]);
    }
  }

  /** The oldest number that could still come out: of the oldest entry queued, or of the last one pushed. */
  function Oldest(ops: seq<Op>): nat
    requires Submitted(ops) != []
  {
    if Run(ops).q != [] then Run(ops).q[0].frameId else Submitted(ops)[|Submitted(ops)| - 1].frameId
  }

  /** How a look-up is answered after any run whose camera numbers increase, for every number: a hit exactly when it
      is queued; a gap exactly when it was never pushed, something has been pushed since the last clear, and it is
      newer than the oldest entry queued (or, when none is, than the last one pushed). */
  lemma LookupsAreClassified(ops: seq<Op>, id: nat)
    requires Increasing(Submitted(ops))
    ensures var st := Taking(Run(ops), id).1.st;
            && (st == Hit <==> HasId(Run(ops).q, id))
            && (st == GapMiss <==>
                  !HasId(Submitted(ops), id) && PushedSinceClear(ops) && Submitted(ops) != [] && Oldest(ops) < id)
  {
    hide Run, Submitted, Fates, Find, MissOf, Taking;
    Bookkeeping(ops);
    EntriesAreConserved(ops);
    HitIffQueued(Run(ops), id);
    Classify(Run(ops), Metas(Fates(ops)), id);
  }

  lemma HitIffQueued(s: State, id: nat)
    ensures Taking(s, id).1.st == Hit <==> HasId(s.q, id)
    ensures Taking(s, id).1.st != Hit ==> Taking(s, id) == (s, Taken(MissOf(s, id), NO_META, []))
  {}

  lemma Classify(s: State, gone: seq<OutMeta>, id: nat)
    requires Increasing(gone + s.q)
    requires s.q != [] ==> s.pushedSinceClear
    requires s.pushedSinceClear ==> gone + s.q != [] && s.lastPushed == (gone + s.q)[|gone + s.q| - 1].frameId
    ensures Taking(s, id).1.st == GapMiss <==>
              && !HasId(gone + s.q, id) && s.pushedSinceClear && gone + s.q != []
              && (if s.q != [] then s.q[0].frameId else (gone + s.q)[|gone + s.q| - 1].frameId) < id
  {
    hide Taking;
    var all, q := gone + s.q, s.q;
    HitIffQueued(s, id);
    if HasId(q, id) {
      var i :| 0 <= i < |q| && q[i].frameId == id;
      assert all[|gone| + i] == q[i];
    } else if HasId(all, id) {
      var i :| 0 <= i < |all| && all[i].frameId == id;
      QueuedHasId(gone, q, i);
      if q != [] {
        assert all[|gone|] == q[0];
      }
    }
  }

  lemma QueuedHasId(gone: seq<OutMeta>, q: seq<OutMeta>, i: nat)
    requires i < |gone + q|
    ensures i < |gone| || HasId(q, (gone + q)[i].frameId)
  {
    assert |gone| <= i ==> q[i - |gone|] == (gone + q)[i];
  }

  /** An entry that was pushed and is no longer queued is always a stale miss; a miss changes nothing. */
  lemma GoneEntriesAreStale(ops: seq<Op>, id: nat)
    requires Increasing(Submitted(ops)) && HasId(Submitted(ops), id) && !HasId(Run(ops).q, id)
    ensures Taking(Run(ops), id) == (Run(ops), Taken(StaleMiss, NO_META, []))
  {
    hide Find, MissOf;
    LookupsAreClassified(ops, id);
  }

  /** A hit takes out the entry and everything older, and leaves everything newer. */
  lemma HitSplitsQueue(ops: seq<Op>, id: nat)
    requires Increasing(Submitted(ops)) && Taking(Run(ops), id).1.st == Hit
    ensures var (after, r) := Taking(Run(ops), id);
            && Run(ops).q == r.dead + [r.om] + after.q && r.om.frameId == id
            && (forall m :: m in r.dead ==> m.frameId < id) && (forall m :: m in after.q ==> id < m.frameId)
  {
    hide Run, Submitted, Fates;
    EntriesAreConserved(ops);
    SuffixIncreases(Metas(Fates(ops)), Run(ops).q);
    SplitAtHit(Run(ops).q, Find(Run(ops).q, id));
  }

  lemma SuffixIncreases(gone: seq<OutMeta>, q: seq<OutMeta>)
    requires Increasing(gone + q)
    ensures Increasing(q)
  {
    forall i, j | 0 <= i < j < |q|
      ensures q[i].frameId < q[j].frameId
    {
      assert (gone + q)[|gone| + i] == q[i] && (gone + q)[|gone| + j] == q[j];
    }
  }

  lemma SplitAtHit(q: seq<OutMeta>, k: nat)
    requires Increasing(q) && k < |q|
    ensures q == q[..k] + [q[k]] + q[k + 1..]
    ensures forall m :: m in q[..k] ==> m.frameId < q[k].frameId
    ensures forall m :: m in q[k + 1..] ==> q[k].frameId < m.frameId
  {}

  // ---- the object ----

  class Cache {
    var q: seq<OutMeta>
    var pushedSinceClear: bool
    var lastPushedId: nat

    ghost function Value(): State
      reads this
    {
      State(q, pushedSinceClear, lastPushedId)
    }

    constructor ()
      ensures Value() == FRESH
    {
      q, pushedSinceClear, lastPushedId := [], false, 0;
    }

    method Push(m: OutMeta)
      modifies this
      ensures Value() == Pushing(old(Value()), m)
    {
      q := q + [m];
      pushedSinceClear := true;
      lastPushedId := m.frameId;
    }

    method Take(id: nat) returns (r: Taken)
      modifies this
      ensures (Value(), r) == Taking(old(Value()), id)
    {
      for i := 0 to |q|
        invariant q == old(q) && pushedSinceClear == old(pushedSinceClear) && lastPushedId == old(lastPushedId)
        invariant forall j :: 0 <= j < i ==> q[j].frameId != id
      {
        if q[i].frameId == id {
          var om, dead := q[i], [];
          for j := 0 to i
            invariant dead == q[..j]
          {
            dead := dead + [q[j]];
          }
          q := q[i + 1..];
          return Taken(Hit, om, dead);
        }
      }
      if !pushedSinceClear {
        return Taken(StaleMiss, NO_META, []);
      }
      if q != [] && id < q[0].frameId {
        return Taken(StaleMiss, NO_META, []);
      }
      if q == [] && id <= lastPushedId {
        return Taken(StaleMiss, NO_META, []);
      }
      return Taken(GapMiss, NO_META, []);
    }

    method Clear()
      modifies this
      ensures Value() == FRESH
    {
      q, pushedSinceClear, lastPushedId := [], false, 0;
    }
  }
}
