/** When the greedy search for the written points is exact, and when a slow point can wait. */
module UrgentSearch {
  import opened Bits
  import opened MapTargets
  import opened Options
  import opened ReplyCodec
  import opened Wire

  // ---- what can be written ----

  predicate Collectable(t: Target) {
    t.speed != 0 && t.distance <= MAX_DISTANCE_M && CoordsOk(t.lat, t.lon)
  }

  /** Lists that an update can write: few points, in range and with a speed, at distances that do not decrease. */
  predicate Writable(ts: seq<Target>) {
    |ts| <= CURVE_MAX_POINTS && Monotone(ts) && forall i :: 0 <= i < |ts| ==> Collectable(ts[i])
  }

  lemma WantedIsWritable(x: Input)
    requires x.Shape()
    ensures Writable(Wanted(x))
  {
    hide CurveValid, Visible, Usable, CoordsOk;
    UsableAreUsable(Visible(x.curve));
    assert forall i :: 0 <= i < |Wanted(x)| ==> Wanted(x)[i] in Usable(Visible(x.curve));
  }

  ghost predicate AllShape(xs: seq<Input>) {
    forall i :: 0 <= i < |xs| ==> xs[i].Shape()
  }

  /** The writer after a history of updates. */
  function After(xs: seq<Input>): Writer
    requires AllShape(xs)
  {
    if xs == [] then NEW_WRITER else Updated(After(xs[..|xs| - 1]), xs[|xs| - 1]).0
  }

  lemma {:induction false} AfterIsWritable(xs: seq<Input>)
    requires AllShape(xs)
    ensures Writable(After(xs).last)
  {
    assert Writable([]);
    hide Writable, Wanted, Declines;
    if xs != [] {
      AfterIsWritable(xs[..|xs| - 1]);
      WantedIsWritable(xs[|xs| - 1]);
    }
  }

  function PointOf(t: Target): CurvePoint {
    CurvePoint(t.lat, t.lon, t.distance, t.speed, 0)
  }

  /** The same input with these points instead of its own. */
  function Carrying(x: Input, ts: seq<Target>): (r: Input)
    requires |ts| <= CURVE_MAX_POINTS
    ensures r.Shape() && r.now == x.now
  {
    var points := seq(CURVE_MAX_POINTS, i requires 0 <= i => if i < |ts| then PointOf(ts[i]) else NO_POINT);
    x.(curve := x.curve.(count := |ts|, points := points))
  }

  lemma {:induction false} AllUsable(ps: seq<CurvePoint>, ts: seq<Target>)
    requires |ps| == |ts| && forall i :: 0 <= i < |ps| ==> PointUsable(ps[i]) && TargetOf(ps[i]) == ts[i]
    ensures Usable(ps) == ts
  {
    hide PointUsable, TargetOf;
    if ps != [] {
      var n := |ps| - 1;
      AllUsable(ps[..n], ts[..n]);
      assert ts == ts[..n] + [ts[n]];
    }
  }

  /** Whatever can be written is written by some first update, at the moment of any other with points. */
  lemma WritableIsWritten(x: Input, ts: seq<Target>)
    requires x.Shape() && Wanted(x) != [] && Writable(ts)
    ensures AllShape([Carrying(x, ts)]) && After([Carrying(x, ts)]) == Writer(true, x.now, ts)
  {
    hide HasBit, SampleTime, CoordsOk;
    var x0 := Carrying(x, ts);
    assert Visible(x0.curve) == x0.curve.points[..|ts|];
    AllUsable(Visible(x0.curve), ts);
    assert Wanted(x0) == ts;
    assert [x0][..0] == [];
    assert After([x0]) == Updated(NEW_WRITER, x0).0;
  }

  // ---- the conditions ----

  /** The one place near both would be (0, 0), which is never written. */
  predicate Opposite(p: Target, q: Target) {
    && p.lat + q.lat == 0 && p.lon + q.lon == 0
    && (p.lat == TOLERANCE || q.lat == TOLERANCE) && (p.lon == TOLERANCE || q.lon == TOLERANCE)
  }

  /** Some written point could be near both. */
  predicate Close(p: Target, q: Target) {
    && -2 * TOLERANCE <= p.lat - q.lat <= 2 * TOLERANCE && -2 * TOLERANCE <= p.lon - q.lon <= 2 * TOLERANCE
    && !Opposite(p, q)
  }

  predicate SamePlace(p: Target, q: Target) {
    p.lat == q.lat && p.lon == q.lon
  }

  /** Usable points that are close to each other have the same coordinates and the same speed. */
  predicate OnlyTwins(ts: seq<Target>) {
    forall i, j :: 0 <= i < j < |ts| && Close(ts[i], ts[j]) ==> SamePlace(ts[i], ts[j]) && ts[i].speed == ts[j].speed
  }

  /** Usable points that are close to each other have the same speed. */
  predicate SameSpeeds(ts: seq<Target>) {
    forall i, j :: 0 <= i < j < |ts| && Close(ts[i], ts[j]) ==> ts[i].speed == ts[j].speed
  }

  /** For these written points the search calls a change urgent exactly when they cannot all be kept. */
  ghost predicate Exact(ts: seq<Target>, last: seq<Target>) {
    Unmatched(ts, last, 0, Free(|ts|)) <==> !Kept(ts, last)
  }

  /** No usable point near a written one is slower than it. */
  predicate NoneSlower(ts: seq<Target>, last: seq<Target>) {
    forall k, j :: 0 <= k < |last| && 0 <= j < |ts| && Near(ts[j], last[k]) ==> ts[j].speed >= last[k].speed
  }

  lemma NearBothIsClose(p: Target, q: Target, w: Target)
    requires Near(p, w) && Near(q, w) && CoordsOk(w.lat, w.lon)
    ensures Close(p, q)
  {}

  function Clamped(x: int, c: int): int {
    if x < c - TOLERANCE then c - TOLERANCE else if x > c + TOLERANCE then c + TOLERANCE else x
  }

  function At(lat: I32, lon: I32, speed: U8): Target {
    Target(lat, lon, speed, MAX_DISTANCE_M)
  }

  /** A place near both that can be written: the one nearest to p, or one beside (0, 0). */
  function Shared(p: Target, q: Target, speed: U8): (a: Target)
    requires CoordsOk(p.lat, p.lon) && CoordsOk(q.lat, q.lon)
  {
    var x, y := Clamped(p.lat, q.lat), Clamped(p.lon, q.lon);
    if x != 0 || y != 0 then At(x, y, speed)
    else if p.lat < TOLERANCE && q.lat < TOLERANCE then At(-1, 0, speed)
    else if p.lat > -TOLERANCE && q.lat > -TOLERANCE then At(1, 0, speed)
    else if p.lon < TOLERANCE && q.lon < TOLERANCE then At(0, -1, speed)
    else At(0, 1, speed)
  }

  lemma CloseIsShared(p: Target, q: Target, speed: U8)
    requires CoordsOk(p.lat, p.lon) && CoordsOk(q.lat, q.lon) && Close(p, q)
    ensures var a := Shared(p, q, speed); Near(p, a) && Near(q, a) && CoordsOk(a.lat, a.lon)
  {}

  /** Close means that a place which can be written is near both. */
  lemma CloseWhenShared(p: Target, q: Target)
    requires CoordsOk(p.lat, p.lon) && CoordsOk(q.lat, q.lon)
    ensures Close(p, q) <==> exists a: Target :: CoordsOk(a.lat, a.lon) && Near(p, a) && Near(q, a)
  {
    hide CoordsOk, Close, Near;
    if Close(p, q) {
      CloseIsShared(p, q, 1);
    } else if a: Target :| CoordsOk(a.lat, a.lon) && Near(p, a) && Near(q, a) {
      NearBothIsClose(p, q, a);
    }
  }

  // ---- twins: any matching can follow the search ----

  lemma SamePlaceNear(p: Target, q: Target, w: Target)
    requires SamePlace(p, q)
    ensures Near(p, w) == Near(q, w)
  {}

  lemma Interchangeable(ts: seq<Target>, i: nat, j: nat, w: Target)
    requires OnlyTwins(ts) && i < |ts| && j < |ts| && Near(ts[i], w) && Near(ts[j], w) && CoordsOk(w.lat, w.lon)
    ensures SamePlace(ts[i], ts[j]) && ts[i].speed == ts[j].speed
  {
    hide Near, CoordsOk, Close;
    NearBothIsClose(ts[i], ts[j], w);
    NearBothIsClose(ts[j], ts[i], w);
    assert i < j || j < i || i == j;
  }

  /** The point the search takes is given up by whoever had it, in exchange for the point it leaves free. */
  function Exchange(m: seq<nat>, b: nat): (rest: seq<nat>)
    requires m != []
    ensures |rest| == |m| - 1
    ensures forall i :: 0 <= i < |rest| ==> rest[i] == if m[i + 1] == b then m[0] else m[i + 1]
  {
    seq(|m| - 1, i requires 0 <= i < |m| - 1 => if m[i + 1] == b then m[0] else m[i + 1])
  }

  lemma ExchangeInjects(ts: seq<Target>, last: seq<Target>, m: seq<nat>, b: nat)
    requires Injects(m, ts, last) && m != [] && b < |ts|
    requires SamePlace(ts[b], ts[m[0]]) && ts[b].speed == ts[m[0]].speed
    ensures Injects(Exchange(m, b), ts, last[1..])
    ensures forall i :: 0 <= i < |m| - 1 ==> Exchange(m, b)[i] != b && Exchange(m, b)[i] in m
  {
    hide Near, SamePlace;
    var rest := Exchange(m, b);
    forall i | 0 <= i < |rest|
      ensures rest[i] < |ts| && Near(ts[rest[i]], last[1..][i]) && ts[rest[i]].speed >= last[1..][i].speed
      ensures rest[i] != b && rest[i] in m
    {
      assert m[i + 1] != m[0];
      SamePlaceNear(ts[b], ts[m[0]], last[i + 1]);
    }
  }

  lemma {:induction false} SearchFollows(ts: seq<Target>, last: seq<Target>, k: nat, used: seq<bool>, m: seq<nat>)
    requires OnlyTwins(ts) && Writable(last) && k <= |last| && |used| == |ts|
    requires Injects(m, ts, last[k..]) && forall i :: 0 <= i < |m| ==> !used[m[i]]
    ensures !Unmatched(ts, last, k, used)
    decreases |last| - k
  {
    hide Near, Dist2, Best, OnlyTwins, SamePlace, CoordsOk, Monotone;
    if k < |last| {
      assert last[k..][0] == last[k] && last[k..][1..] == last[k + 1..];
      BestIsNearest(ts, used, last[k], |ts|, m[0]);
      var b := Best(ts, used, last[k], |ts|);
      assert Collectable(last[k]);
      Interchangeable(ts, b, m[0], last[k]);
      ExchangeInjects(ts, last[k..], m, b);
      SearchFollows(ts, last, k + 1, used[b := true], Exchange(m, b));
    }
  }

  lemma ExactForTwins(ts: seq<Target>, last: seq<Target>)
    requires OnlyTwins(ts) && Writable(last)
    ensures Exact(ts, last)
  {
    hide Unmatched, Injects, OnlyTwins, Writable;
    assert last[0..] == last;
    if Kept(ts, last) {
      var m :| Injects(m, ts, last);
      InjectsInRange(m, ts, last);
      SearchFollows(ts, last, 0, Free(|ts|), m);
    } else if !Unmatched(ts, last, 0, Free(|ts|)) {
      var m := MatchedFrom(ts, last, 0, Free(|ts|));
    }
  }

  lemma InjectsInRange(m: seq<nat>, ts: seq<Target>, last: seq<Target>)
    requires Injects(m, ts, last)
    ensures forall i :: 0 <= i < |m| ==> m[i] < |ts|
  {}

  // ---- same place, different speeds: the search takes them in order ----

  lemma ZeroDistance(p: Target, q: Target)
    requires Dist2(p, q) <= 0
    ensures SamePlace(p, q)
  {
    var x, y := p.lat - q.lat, p.lon - q.lon;
    NonNegative(x);
    NonNegative(y);
  }

  lemma NonNegative(x: int)
    ensures x * x >= 0 && (x * x == 0 ==> x == 0)
  {}

  /** Every written point is in the place of the point with its index, and the search takes that one. */
  lemma {:induction false} TakenInOrder(ts: seq<Target>, last: seq<Target>, k: nat, used: seq<bool>, n: nat)
    requires |last| == |ts| == |used| && k <= n < |ts| && forall i :: 0 <= i < |ts| ==> SamePlace(ts[i], last[i])
    requires forall i :: 0 <= i < |ts| ==> (used[i] <==> i < k)
    requires ts[n].speed < last[n].speed
    ensures Unmatched(ts, last, k, used)
    decreases |last| - k
  {
    hide Best;
    BestIsNearest(ts, used, last[k], |ts|, k);
    var b := Best(ts, used, last[k], |ts|);
    assert Dist2(ts[k], last[k]) == 0;
    SelfIsNearest(ts[b], last[k]);
    assert b == k;
    if k < n {
      TakenInOrder(ts, last, k + 1, used[b := true], n);
    }
  }

  function Swapped(ts: seq<Target>, i: nat, j: nat): (last: seq<Target>)
    requires i < j < |ts|
    ensures |last| == |ts|
  {
    ts[i := ts[i].(speed := ts[j].speed)][j := ts[j].(speed := ts[i].speed)]
  }

  lemma SwappedIsWritable(ts: seq<Target>, i: nat, j: nat)
    requires Writable(ts) && i < j < |ts|
    ensures Writable(Swapped(ts, i, j))
  {
    hide CoordsOk;
    var last := Swapped(ts, i, j);
    forall k | 0 <= k < |ts|
      ensures Collectable(last[k]) && last[k].distance == ts[k].distance
    {
      assert Collectable(ts[k]) && Collectable(ts[i]) && Collectable(ts[j]);
    }
  }

  lemma SpeedsSwapped(ts: seq<Target>, i: nat, j: nat) returns (last: seq<Target>)
    requires Writable(ts) && i < j < |ts| && SamePlace(ts[i], ts[j]) && ts[i].speed != ts[j].speed
    ensures Writable(last) && Kept(ts, last) && Unmatched(ts, last, 0, Free(|ts|))
  {
    last := Swapped(ts, i, j);
    var m := seq(|ts|, r requires 0 <= r < |ts| => if r == i then j else if r == j then i else r);
    SwappedIsWritable(ts, i, j);
    hide Writable, Unmatched;
    assert Injects(m, ts, last);
    TakenInOrder(ts, last, 0, Free(|ts|), if ts[i].speed < ts[j].speed then i else j);
  }

  // ---- all points but two: each takes itself ----

  /** No later point is in the same place. */
  predicate LastThere(ts: seq<Target>, p: nat)
    requires p < |ts|
  {
    forall r :: p < r < |ts| ==> !SamePlace(ts[p], ts[r])
  }

  lemma {:induction false} FindLast(ts: seq<Target>, i: nat) returns (p: nat)
    requires i < |ts|
    ensures i <= p < |ts| && SamePlace(ts[i], ts[p]) && LastThere(ts, p)
    decreases |ts| - i
  {
    if LastThere(ts, i) {
      p := i;
    } else {
      var r :| i < r < |ts| && SamePlace(ts[i], ts[r]);
      p := FindLast(ts, r);
    }
  }

  /** The first i points without those at u and v. */
  function Others(ts: seq<Target>, i: nat, u: nat, v: nat): (os: seq<Target>)
    requires i <= |ts|
  {
    if i == 0 then []
    else Others(ts, i - 1, u, v) + (if i - 1 == u || i - 1 == v then [] else [ts[i - 1]])
  }

  /** The indices of those points. */
  function TakenBut(n: nat, i: nat, u: nat, v: nat): (used: seq<bool>)
    ensures |used| == n && forall j :: 0 <= j < n ==> (used[j] <==> j < i && j != u && j != v)
  {
    seq(n, j => j < i && j != u && j != v)
  }

  lemma {:induction false} OthersCount(ts: seq<Target>, i: nat, u: nat, v: nat)
    requires i <= |ts|
    ensures |Others(ts, i, u, v)| == i - (if u < i then 1 else 0) - (if v < i && v != u then 1 else 0)
  {
    if i > 0 {
      OthersCount(ts, i - 1, u, v);
    }
  }

  /** Points at the greatest distance can follow them. */
  lemma {:induction false} OthersAreWritable(ts: seq<Target>, i: nat, u: nat, v: nat)
    requires Writable(ts) && i <= |ts|
    ensures Writable(Others(ts, i, u, v)) && |Others(ts, i, u, v)| <= i
    ensures var os := Others(ts, i, u, v); os != [] ==> i > 0 && os[|os| - 1].distance <= ts[i - 1].distance
  {
    hide CoordsOk;
    if i > 0 {
      OthersAreWritable(ts, i - 1, u, v);
      assert Collectable(ts[i - 1]);
    }
  }

  lemma WritableOneMore(ts: seq<Target>, t: Target)
    requires Writable(ts) && |ts| < CURVE_MAX_POINTS && Collectable(t) && t.distance == MAX_DISTANCE_M
    ensures Writable(ts + [t])
  {
    hide CoordsOk;
    if ts != [] {
      assert Collectable(ts[|ts| - 1]);
    }
  }

  lemma TakesItself(ts: seq<Target>, i: nat, u: nat, v: nat)
    requires u < |ts| && v < |ts| && LastThere(ts, u) && LastThere(ts, v) && i < |ts| && i != u && i != v
    ensures Best(ts, TakenBut(|ts|, i, u, v), ts[i], |ts|) == i
  {
    hide Best;
    var used := TakenBut(|ts|, i, u, v);
    BestIsNearest(ts, used, ts[i], |ts|, i);
    var b := Best(ts, used, ts[i], |ts|);
    SelfIsNearest(ts[b], ts[i]);
    hide Near, Dist2;
    ZeroDistance(ts[b], ts[i]);
  }

  /** From the i-th point on, the others take themselves and the search goes on behind them. */
  lemma {:induction false} OthersFirst(ts: seq<Target>, last: seq<Target>, i: nat, u: nat, v: nat)
    requires u < |ts| && v < |ts| && LastThere(ts, u) && LastThere(ts, v) && i <= |ts|
    requires Others(ts, |ts|, u, v) <= last
    ensures |Others(ts, i, u, v)| <= |Others(ts, |ts|, u, v)|
    ensures Unmatched(ts, last, |Others(ts, i, u, v)|, TakenBut(|ts|, i, u, v))
         == Unmatched(ts, last, |Others(ts, |ts|, u, v)|, TakenBut(|ts|, |ts|, u, v))
    decreases |ts| - i
  {
    hide Best, LastThere;
    if i < |ts| {
      OthersFirst(ts, last, i + 1, u, v);
      OthersGrow(ts, i + 1, |ts|, u, v);
      var k := |Others(ts, i, u, v)|;
      if i == u || i == v {
        assert TakenBut(|ts|, i + 1, u, v) == TakenBut(|ts|, i, u, v);
      } else {
        assert last[k] == Others(ts, i + 1, u, v)[k] == ts[i];
        TakesItself(ts, i, u, v);
        assert TakenBut(|ts|, i, u, v)[i := true] == TakenBut(|ts|, i + 1, u, v);
      }
    }
  }

  lemma {:induction false} OthersGrow(ts: seq<Target>, i: nat, n: nat, u: nat, v: nat)
    requires i <= n <= |ts|
    ensures Others(ts, i, u, v) <= Others(ts, n, u, v)
  {
    if i < n {
      OthersGrow(ts, i, n - 1, u, v);
    }
  }

  lemma OthersLeave(ts: seq<Target>, last: seq<Target>, u: nat, v: nat)
    requires u < |ts| && v < |ts| && LastThere(ts, u) && LastThere(ts, v) && Others(ts, |ts|, u, v) <= last
    ensures Unmatched(ts, last, 0, Free(|ts|))
         == Unmatched(ts, last, |Others(ts, |ts|, u, v)|, TakenBut(|ts|, |ts|, u, v))
  {
    hide Unmatched, LastThere;
    OthersFirst(ts, last, 0, u, v);
    assert TakenBut(|ts|, 0, u, v) == Free(|ts|);
  }

  // ---- different places: one written point takes what the next one needs ----

  /** a is near both points, and the search gives it v; b is near v only. */
  predicate Compete(ts: seq<Target>, u: nat, v: nat, a: Target, b: Target)
    requires u < |ts| && v < |ts|
  {
    && Collectable(a) && Collectable(b) && a.distance == b.distance == MAX_DISTANCE_M && a.speed == b.speed == 1
    && Near(ts[u], a) && Near(ts[v], a) && Near(ts[v], b) && !Near(ts[u], b)
    && (Dist2(ts[v], a) < Dist2(ts[u], a) || (Dist2(ts[v], a) == Dist2(ts[u], a) && v < u))
  }

  lemma SearchGetsStuck(ts: seq<Target>, last: seq<Target>, u: nat, v: nat, a: Target, b: Target)
    requires u < |ts| && v < |ts| && u != v && Compete(ts, u, v, a, b)
    requires LastThere(ts, u) && LastThere(ts, v) && last == Others(ts, |ts|, u, v) + [a, b]
    ensures Unmatched(ts, last, 0, Free(|ts|))
  {
    hide Best, Near, Dist2, Collectable, LastThere, Others;
    OthersLeave(ts, last, u, v);
    var used := TakenBut(|ts|, |ts|, u, v);
    var k := |Others(ts, |ts|, u, v)|;
    assert last[k] == a && last[k + 1] == b;
    BestIsNearest(ts, used, a, |ts|, v);
    BestIsNearest(ts, used, a, |ts|, u);
    assert Best(ts, used, a, |ts|) == v;
    assert Best(ts, used[v := true], b, |ts|) < 0;
  }

  /** With the two written points the other way round each finds its partner, so they can be kept. */
  lemma BothCanBeKept(ts: seq<Target>, last: seq<Target>, u: nat, v: nat, a: Target, b: Target)
    requires u < |ts| && v < |ts| && u != v && Compete(ts, u, v, a, b) && Writable(ts)
    requires LastThere(ts, u) && LastThere(ts, v) && last == Others(ts, |ts|, u, v) + [a, b]
    ensures Kept(ts, last)
  {
    hide Best, Near, Dist2, CoordsOk, LastThere, Others, Injects, Monotone;
    var os := Others(ts, |ts|, u, v);
    var turned := os + [b, a];
    OthersLeave(ts, turned, u, v);
    var used := TakenBut(|ts|, |ts|, u, v);
    var k := |os|;
    assert turned[k] == b && turned[k + 1] == a;
    BestIsNearest(ts, used, b, |ts|, v);
    assert Best(ts, used, b, |ts|) == v;
    BestIsNearest(ts, used[v := true], a, |ts|, u);
    assert Best(ts, used[v := true], a, |ts|) == u;
    assert Collectable(ts[u]) && Collectable(ts[v]);
    assert !Unmatched(ts, turned, k + 2, used[v := true][u := true]);
    assert !Unmatched(ts, turned, k + 1, used[v := true]);
    assert !Unmatched(ts, turned, 0, Free(|ts|));
    var m := MatchedFrom(ts, turned, 0, Free(|ts|));
    assert turned[0..] == turned;
    TurnedBack(ts, os, a, b, m);
  }

  lemma TurnedBack(ts: seq<Target>, os: seq<Target>, a: Target, b: Target, m: seq<nat>)
    requires Injects(m, ts, os + [b, a])
    ensures Kept(ts, os + [a, b])
  {
    hide Near;
    var k := |os|;
    var m' := m[k := m[k + 1]][k + 1 := m[k]];
    assert forall i :: 0 <= i < k ==> (os + [b, a])[i] == (os + [a, b])[i];
    assert (os + [b, a])[k] == (os + [a, b])[k + 1] && (os + [b, a])[k + 1] == (os + [a, b])[k];
    assert Injects(m', ts, os + [a, b]);
  }

  /** A coordinate that is not 0, the same or right beside it. */
  function NotZero(x: I32): int {
    if x == 0 then 1 else x
  }

  /** Of two different places near each other, one has a place in range that is near it and not near the other. */
  function Beyond(p: Target, q: Target): (r: (bool, Target))
    requires CoordsOk(p.lat, p.lon) && CoordsOk(q.lat, q.lon) && Near(p, q)
  {
    var step := TOLERANCE + 1;
    if p.lat > q.lat then
      if q.lat + step <= 900_000_000 then (true, At(q.lat + step, NotZero(p.lon), 1))
      else (false, At(p.lat - step, NotZero(q.lon), 1))
    else if p.lat < q.lat then
      if p.lat + step <= 900_000_000 then (false, At(p.lat + step, NotZero(q.lon), 1))
      else (true, At(q.lat - step, NotZero(p.lon), 1))
    else if p.lon > q.lon then
      if q.lon + step <= 1_800_000_000 then (true, At(NotZero(p.lat), q.lon + step, 1))
      else (false, At(NotZero(q.lat), p.lon - step, 1))
    else
      if p.lon + step <= 1_800_000_000 then (false, At(NotZero(q.lat), p.lon + step, 1))
      else (true, At(NotZero(p.lat), q.lon - step, 1))
  }

  lemma BeyondIsNearOne(p: Target, q: Target)
    requires CoordsOk(p.lat, p.lon) && CoordsOk(q.lat, q.lon) && Near(p, q) && !SamePlace(p, q)
    ensures var (first, b) := Beyond(p, q);
      CoordsOk(b.lat, b.lon) && (if first then Near(p, b) && !Near(q, b) else Near(q, b) && !Near(p, b))
  {}

  lemma PlaceIsNearest(p: Target, q: Target)
    requires !SamePlace(p, q)
    ensures forall a: Target :: SamePlace(a, p) ==> Dist2(p, a) < Dist2(q, a)
  {
    forall a: Target | SamePlace(a, p)
      ensures Dist2(p, a) < Dist2(q, a)
    {
      SelfIsNearest(q, a);
      if Dist2(q, a) <= 0 {
        ZeroDistance(q, a);
      }
    }
  }

  /** Two close points in different places always compete for a written point. */
  lemma NeighboursCompete(ts: seq<Target>, p: nat, q: nat) returns (u: nat, v: nat, a: Target, b: Target)
    requires Writable(ts) && p < |ts| && q < |ts| && Close(ts[p], ts[q]) && !SamePlace(ts[p], ts[q])
    ensures ((u == p && v == q) || (u == q && v == p)) && Compete(ts, u, v, a, b)
  {
    hide Close, SamePlace, Dist2, Beyond, Monotone;
    assert Collectable(ts[p]) && Collectable(ts[q]);
    if Near(ts[p], ts[q]) {
      BeyondIsNearOne(ts[p], ts[q]);
      var (first, c) := Beyond(ts[p], ts[q]);
      BeyondFits(ts[p], ts[q]);
      b := c;
      u, v := if first then q else p, if first then p else q;
      a := At(ts[v].lat, ts[v].lon, 1);
      SamePlaceOf(a, ts[v]);
      DifferentPlaces(ts[p], ts[q]);
      PlaceIsNearest(ts[v], ts[u]);
    } else {
      CloseIsShared(ts[p], ts[q], 1);
      a := Shared(ts[p], ts[q], 1);
      if Dist2(ts[p], a) < Dist2(ts[q], a) || (Dist2(ts[p], a) == Dist2(ts[q], a) && p < q) {
        u, v := q, p;
      } else {
        u, v := p, q;
      }
      b := At(ts[v].lat, ts[v].lon, 1);
    }
  }

  lemma BeyondFits(p: Target, q: Target)
    requires CoordsOk(p.lat, p.lon) && CoordsOk(q.lat, q.lon) && Near(p, q)
    ensures Beyond(p, q).1.speed == 1 && Beyond(p, q).1.distance == MAX_DISTANCE_M
  {}

  lemma SamePlaceOf(a: Target, p: Target)
    requires a.lat == p.lat && a.lon == p.lon
    ensures SamePlace(a, p)
  {}

  lemma DifferentPlaces(p: Target, q: Target)
    ensures SamePlace(p, q) == SamePlace(q, p)
  {}

  lemma CompetitionIsWritable(ts: seq<Target>, u: nat, v: nat, a: Target, b: Target)
    requires Writable(ts) && u < |ts| && v < |ts| && u != v && Compete(ts, u, v, a, b)
    ensures Writable(Others(ts, |ts|, u, v) + [a, b])
  {
    hide Writable, Others, Near, Dist2;
    var os := Others(ts, |ts|, u, v);
    OthersAreWritable(ts, |ts|, u, v);
    OthersCount(ts, |ts|, u, v);
    AtMostEight(ts);
    WritableOneMore(os, a);
    WritableOneMore(os + [a], b);
    assert os + [a] + [b] == os + [a, b];
  }

  lemma AtMostEight(ts: seq<Target>)
    requires Writable(ts)
    ensures |ts| <= CURVE_MAX_POINTS
  {}

  // ---- the theorem on the search ----

  lemma InexactWithoutTwins(ts: seq<Target>) returns (last: seq<Target>)
    requires Writable(ts) && !OnlyTwins(ts)
    ensures Writable(last) && !Exact(ts, last)
  {
    hide Unmatched, Kept, Compete, Others, Writable, LastThere;
    var i, j :| 0 <= i < j < |ts| && Close(ts[i], ts[j]) && !(SamePlace(ts[i], ts[j]) && ts[i].speed == ts[j].speed);
    if SamePlace(ts[i], ts[j]) {
      last := SpeedsSwapped(ts, i, j);
    } else {
      var p := FindLast(ts, i);
      var q := FindLast(ts, j);
      var u, v, a, b := NeighboursCompete(ts, p, q);
      last := Others(ts, |ts|, u, v) + [a, b];
      CompetitionIsWritable(ts, u, v, a, b);
      SearchGetsStuck(ts, last, u, v, a, b);
      BothCanBeKept(ts, last, u, v, a, b);
    }
  }

  /** The search is exact, whatever was written, exactly when usable points close to each other are twins. */
  lemma SearchIsExactIffTwins(ts: seq<Target>)
    requires Writable(ts)
    ensures OnlyTwins(ts) <==> forall last :: Writable(last) ==> Exact(ts, last)
  {
    hide OnlyTwins, Exact, Writable;
    if OnlyTwins(ts) {
      forall last | Writable(last)
        ensures Exact(ts, last)
      {
        ExactForTwins(ts, last);
      }
    } else {
      var last := InexactWithoutTwins(ts);
    }
  }

  // ---- what it means for updates ----

  lemma UrgentExactlyWhenNotKept(xs: seq<Input>, x: Input)
    requires AllShape(xs) && x.Shape() && OnlyTwins(Wanted(x))
    ensures Urgent(After(xs), x) <==> !Kept(Wanted(x), After(xs).last)
  {
    hide Wanted, Unmatched, Kept, OnlyTwins, Writable;
    AfterIsWritable(xs);
    NothingWrittenIsKept(xs, Wanted(x));
    if Wanted(x) == [] {
      EmptyIsKept(After(xs).last);
    } else {
      ExactForTwins(Wanted(x), After(xs).last);
    }
  }

  lemma {:induction false} NothingWrittenIsKept(xs: seq<Input>, ts: seq<Target>)
    requires AllShape(xs)
    ensures !After(xs).wrote ==> Kept(ts, After(xs).last)
  {
    hide Wanted, Declines, Injects;
    if xs == [] {
      NothingIsKept(ts);
    } else {
      NothingWrittenIsKept(xs[..|xs| - 1], ts);
    }
  }

  lemma NothingIsKept(ts: seq<Target>)
    ensures Kept(ts, [])
  {
    assert Injects([], ts, []);
  }

  /** The contract for urgent writes holds of an input, whatever updates came before, exactly when its usable points
      close to each other are twins: then an update is urgent just when a written point is gone or can only be matched
      to a slower one. */
  lemma ContractHoldsIffTwins(x: Input)
    requires x.Shape()
    ensures OnlyTwins(Wanted(x)) <==>
              forall xs :: AllShape(xs) ==> (Urgent(After(xs), x) <==> !Kept(Wanted(x), After(xs).last))
  {
    hide Wanted, Unmatched, Kept, OnlyTwins, Writable, Urgent, After, AllShape;
    if OnlyTwins(Wanted(x)) {
      forall xs | AllShape(xs)
        ensures Urgent(After(xs), x) <==> !Kept(Wanted(x), After(xs).last)
      {
        UrgentExactlyWhenNotKept(xs, x);
      }
    } else {
      WantedIsWritable(x);
      var last := InexactWithoutTwins(Wanted(x));
      SomeAreWanted(x);
      AtMostEight(last);
      WritableIsWritten(x, last);
      UrgentIsUnmatched(After([Carrying(x, last)]), x);
    }
  }

  lemma SomeAreWanted(x: Input)
    requires x.Shape() && !(OnlyTwins(Wanted(x)) && SameSpeeds(Wanted(x)))
    ensures Wanted(x) != []
  {
    hide Wanted;
  }

  lemma UrgentIsUnmatched(w: Writer, x: Input)
    requires x.Shape() && w.wrote && Wanted(x) != []
    ensures Urgent(w, x) <==> Unmatched(Wanted(x), w.last, 0, Free(|Wanted(x)|))
  {
    hide Wanted, Unmatched;
  }

  // ---- when a slow point can wait ----

  lemma DeclinedMeansNoneSlower(xs: seq<Input>, x: Input)
    requires AllShape(xs) && x.Shape() && Declines(After(xs), x) && SameSpeeds(Wanted(x))
    ensures NoneSlower(Wanted(x), After(xs).last)
  {
    hide Wanted, Declines, Near, SameSpeeds, CoordsOk, After, AllShape, Monotone;
    DeclinedMeansKept(After(xs), x);
    AfterIsWritable(xs);
    var ts, last := Wanted(x), After(xs).last;
    var m :| Injects(m, ts, last);
    forall k, j | 0 <= k < |last| && 0 <= j < |ts| && Near(ts[j], last[k])
      ensures ts[j].speed >= last[k].speed
    {
      assert Collectable(last[k]);
      OneSpeed(ts, j, m[k], last[k]);
    }
  }

  lemma OneSpeed(ts: seq<Target>, i: nat, j: nat, w: Target)
    requires SameSpeeds(ts) && i < |ts| && j < |ts| && Near(ts[i], w) && Near(ts[j], w) && CoordsOk(w.lat, w.lon)
    ensures ts[i].speed == ts[j].speed
  {
    hide Near, CoordsOk, Close;
    NearBothIsClose(ts[i], ts[j], w);
    NearBothIsClose(ts[j], ts[i], w);
    assert i < j || j < i || i == j;
  }

  /** All points but f are written, and one at f's speed that f takes though s is near it too. */
  lemma FasterStandsIn(ts: seq<Target>, f: nat, s: nat) returns (last: seq<Target>)
    requires Writable(ts) && f < |ts| && s < |ts| && Close(ts[f], ts[s]) && LastThere(ts, f)
    requires ts[s].speed < ts[f].speed
    ensures Writable(last) && !Unmatched(ts, last, 0, Free(|ts|)) && !NoneSlower(ts, last)
  {
    hide Best, LastThere, Others, Close, Shared, Monotone, Near;
    assert Collectable(ts[f]) && Collectable(ts[s]);
    var a := Shared(ts[f], ts[s], ts[f].speed);
    CloseIsShared(ts[f], ts[s], ts[f].speed);
    SharedFits(ts[f], ts[s], ts[f].speed);
    var os := Others(ts, |ts|, f, f);
    OthersAreWritable(ts, |ts|, f, f);
    OthersCount(ts, |ts|, f, f);
    WritableOneMore(os, a);
    last := os + [a];
    OthersLeave(ts, last, f, f);
    var used := TakenBut(|ts|, |ts|, f, f);
    var k := |os|;
    assert last[k] == a;
    BestIsNearest(ts, used, a, |ts|, f);
    assert Best(ts, used, a, |ts|) == f;
    assert !Unmatched(ts, last, k + 1, used[f := true]);
    assert Near(ts[s], last[k]) && ts[s].speed < last[k].speed;
  }

  lemma SharedFits(p: Target, q: Target, speed: U8)
    requires CoordsOk(p.lat, p.lon) && CoordsOk(q.lat, q.lon)
    ensures Shared(p, q, speed).speed == speed && Shared(p, q, speed).distance == MAX_DISTANCE_M
  {}

  /** Points near each other at different speeds: the slower one is near what the faster one was written as. */
  lemma SlowerBesideItself(ts: seq<Target>, f: nat, s: nat)
    requires f < |ts| && s < |ts| && Near(ts[s], ts[f]) && ts[s].speed < ts[f].speed
    ensures !Unmatched(ts, ts, 0, Free(|ts|)) && !NoneSlower(ts, ts)
  {
    hide Near;
    UnchangedIsMatched(ts, 0, Free(|ts|));
  }

  lemma SlowPointWaits(ts: seq<Target>) returns (last: seq<Target>)
    requires Writable(ts) && !SameSpeeds(ts)
    ensures Writable(last) && !Unmatched(ts, last, 0, Free(|ts|)) && !NoneSlower(ts, last)
  {
    hide Unmatched, Writable, LastThere, NoneSlower;
    var i, j :| 0 <= i < j < |ts| && Close(ts[i], ts[j]) && ts[i].speed != ts[j].speed;
    var f, s := if ts[i].speed > ts[j].speed then i else j, if ts[i].speed > ts[j].speed then j else i;
    var e := FindLast(ts, f);
    if ts[e].speed > ts[s].speed {
      last := FasterStandsIn(ts, e, s);
    } else {
      last := ts;
      SlowerBesideItself(ts, f, e);
    }
  }

  lemma DeclinesAtOnce(w: Writer, x: Input)
    requires x.Shape() && w.wrote && w.lastWrite == x.now && Wanted(x) != []
    requires !Unmatched(Wanted(x), w.last, 0, Free(|Wanted(x)|))
    ensures Declines(w, x)
  {
    hide Wanted, Unmatched;
  }

  /** A slow point near a written one can wait, after some updates, exactly when two usable points close to each other
      have different speeds. */
  lemma NoSlowPointWaitsIffSameSpeeds(x: Input)
    requires x.Shape()
    ensures SameSpeeds(Wanted(x)) <==>
              forall xs :: AllShape(xs) && Declines(After(xs), x) ==> NoneSlower(Wanted(x), After(xs).last)
  {
    hide Wanted, Unmatched, SameSpeeds, NoneSlower, Writable, Declines, After, AllShape;
    if SameSpeeds(Wanted(x)) {
      forall xs | AllShape(xs) && Declines(After(xs), x)
        ensures NoneSlower(Wanted(x), After(xs).last)
      {
        DeclinedMeansNoneSlower(xs, x);
      }
    } else {
      WantedIsWritable(x);
      var last := SlowPointWaits(Wanted(x));
      SomeAreWanted(x);
      AtMostEight(last);
      WritableIsWritten(x, last);
      DeclinesAtOnce(After([Carrying(x, last)]), x);
    }
  }

  // ---- inputs at which the written contract does not hold ----

  /** A valid input with two points, sampled at this moment. */
  function TwoPoints(p: CurvePoint, q: CurvePoint, now: U64): (x: Input)
    ensures x.Shape()
  {
    var points := [p, q, NO_POINT, NO_POINT, NO_POINT, NO_POINT, NO_POINT, NO_POINT];
    Input(true, true, true, 0, CurveAhead(2, 0, 0, 0, 0, points), 3, now, now)
  }

  lemma TwoPointsWanted(p: CurvePoint, q: CurvePoint, now: U64)
    requires PointUsable(p) && PointUsable(q) && p.distance <= q.distance
    requires 0 < now < 0x1_0000_0000
    ensures Wanted(TwoPoints(p, q, now)) == [TargetOf(p), TargetOf(q)]
  {
    var x := TwoPoints(p, q, now);
    assert HasBit(3, PHONE_LOCATION_OK) && HasBit(3, ROUTE_OK) && !HasBit(3, REROUTING) && !HasBit(0, 0) by {
      assert Bit(1, 0) == 1 && Bit(0, 0) == 0;
      assert Bit(3, 3) == Bit(1, 2) == Bit(0, 1) == Bit(0, 0);
    }
    hide PointUsable, HasBit;
    assert Visible(x.curve) == [p, q];
    assert [p, q][..1] == [p] && [p][..0] == [];
    assert Usable([p]) == [TargetOf(p)];
    assert Usable([p, q]) == [TargetOf(p), TargetOf(q)];
  }

  const A0 := CurvePoint(0, 1, 10, 50, 0)
  const B0 := CurvePoint(60, 1, 20, 50, 0)
  const A1 := CurvePoint(40, 1, 10, 50, 0)
  const B1 := CurvePoint(-45, 1, 20, 50, 0)

  /** Two points shift, both still within tolerance of a point of their own and no slower; 100 ms after the last write
      they are written all the same, because the first written point takes the partner the second one needs. */
  lemma HarmlessShiftIsWritten(t: U64)
    requires 0 < t < 0x1000_0000
    ensures var x0, x1 := TwoPoints(A0, B0, t), TwoPoints(A1, B1, t + 100_000_000);
      var w := Updated(NEW_WRITER, x0).0;
      && w.wrote && w.lastWrite == t && x1.now < w.lastWrite + MIN_CHANGED_NS
      && Kept(Wanted(x1), w.last) && Updated(w, x1).1.Some?
  {
    var x0, x1 := TwoPoints(A0, B0, t), TwoPoints(A1, B1, t + 100_000_000);
    assert PointUsable(A0) && PointUsable(B0) && PointUsable(A1) && PointUsable(B1);
    TwoPointsWanted(A0, B0, t);
    TwoPointsWanted(A1, B1, t + 100_000_000);
    hide Wanted;
    SearchMayCallUrgent();
  }

  lemma SearchMayCallUrgent()
    ensures var ts, last := [TargetOf(A1), TargetOf(B1)], [TargetOf(A0), TargetOf(B0)];
      Kept(ts, last) && Unmatched(ts, last, 0, Free(2))
  {
    var ts, last := [TargetOf(A1), TargetOf(B1)], [TargetOf(A0), TargetOf(B0)];
    assert Injects([1, 0], ts, last);
    var used := Free(2);
    assert Best(ts, used, last[0], 1) == 0;
    assert Best(ts, used, last[0], 2) == 0;
    assert Best(ts, used[0 := true], last[1], 1) == -1;
    assert Best(ts, used[0 := true], last[1], 2) == -1;
    assert Unmatched(ts, last, 1, used[0 := true]);
  }

  const WRITTEN := Target(1, 1, 50, 10)
  const FASTER := CurvePoint(1, 1, 10, 60, 0)
  const SLOWER := CurvePoint(11, 1, 20, 30, 0)

  /** A slow point that appears next to a written one can wait: the written point finds a partner that is not slower,
      and a new point alone is not urgent. */
  lemma SlowNewcomerMayWait(t: U64)
    requires 0 < t < 0x1000_0000
    ensures var x0, x1 := Carrying(TwoPoints(FASTER, SLOWER, t), [WRITTEN]), TwoPoints(FASTER, SLOWER, t + 100_000_000);
      var w := Updated(NEW_WRITER, x0).0;
      && w == Writer(true, t, [WRITTEN]) && Declines(w, x1)
      && TargetOf(SLOWER) in Wanted(x1) && Near(TargetOf(SLOWER), WRITTEN) && SLOWER.speed < WRITTEN.speed
  {
    var x := TwoPoints(FASTER, SLOWER, t);
    assert PointUsable(FASTER) && PointUsable(SLOWER);
    TwoPointsWanted(FASTER, SLOWER, t);
    TwoPointsWanted(FASTER, SLOWER, t + 100_000_000);
    var x0 := Carrying(x, [WRITTEN]);
    assert Writable([WRITTEN]);
    hide Wanted, Writable, TwoPoints, Carrying;
    WritableIsWritten(x, [WRITTEN]);
    assert [x0][..0] == [];
    var ts := [TargetOf(FASTER), TargetOf(SLOWER)];
    assert Best(ts, Free(2), WRITTEN, 1) == 0;
    assert Best(ts, Free(2), WRITTEN, 2) == 0;
    assert !Unmatched(ts, [WRITTEN], 1, Free(2)[0 := true]);
  }
}
