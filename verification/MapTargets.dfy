/** Which curve targets are written for the speed controller, and when. */
module MapTargets {
  import opened Options
  import opened ReplyCodec
  import opened Wire

  const MAX_AGE_NS: nat := 2_000_000_000
  const MIN_CHANGED_NS: nat := 500_000_000
  const REFRESH_NS: nat := 1_000_000_000
  const TOLERANCE := 50
  const MAX_DISTANCE_M := 600
  const NS_PER_MS: nat := 1_000_000

  datatype Input = Input(link: bool, curvePresent: bool, statePresent: bool, stateAge: U16, curve: CurveAhead,
                         health: U8, tEof: U64, now: U64)
  {
    predicate Shape() {
      |curve.points| == CURVE_MAX_POINTS
    }
  }

  datatype Target = Target(lat: I32, lon: I32, speed: U8, distance: U16)

  /** What is handed out: an empty list, or points with the time they were sampled and until when they hold. */
  datatype Envelope = Nothing | Targets(sample: nat, validUntil: nat, points: seq<Target>) {
    function Content(): seq<Target> {
      if Nothing? then [] else points
    }
  }

  // ---- which points are usable ----

  /** A coordinate in range, and not the unset (0, 0). */
  predicate CoordsOk(lat: I32, lon: I32) {
    && -900_000_000 <= lat <= 900_000_000 && -1_800_000_000 <= lon <= 1_800_000_000
    && !(lat == 0 && lon == 0)
  }

  predicate PointUsable(p: CurvePoint) {
    p.speed != 0 && p.distance <= MAX_DISTANCE_M && CoordsOk(p.lat, p.lon)
  }

  function TargetOf(p: CurvePoint): Target {
    Target(p.lat, p.lon, p.speed, p.distance)
  }

  function Usable(ps: seq<CurvePoint>): (ts: seq<Target>)
    ensures |ts| <= |ps|
  {
    if ps == [] then []
    else
      var n := |ps| - 1;
      Usable(ps[..n]) + (if PointUsable(ps[n]) then [TargetOf(ps[n])] else [])
  }

  function Visible(c: CurveAhead): (ps: seq<CurvePoint>)
    requires |c.points| == CURVE_MAX_POINTS
    ensures |ps| <= CURVE_MAX_POINTS
  {
    c.points[..Clamp(c.count)]
  }

  predicate Monotone(ts: seq<Target>) {
    forall i :: 0 < i < |ts| ==> ts[i - 1].distance <= ts[i].distance
  }

  /** The event is in the past, and at most so old; an event in the future counts as too old. */
  predicate Within(event: nat, now: nat, maxAge: nat) {
    event != 0 && now >= event && now - event <= maxAge
  }

  /** When a value of this age was sampled, counted back from the frame's time; 0 when unknown or too old. */
  function SampleTime(tEof: U64, now: U64, age: U16): nat {
    if age == AGE_INVALID || tEof < age * NS_PER_MS || tEof > now then 0
    else
      var sample := tEof - age * NS_PER_MS;
      if sample > 0xFFFF_FFFF_FFFF_FFFF - MAX_AGE_NS then 0
      else if Within(sample, now, MAX_AGE_NS) then sample else 0
  }

  function CurveSample(x: Input): nat {
    SampleTime(x.tEof, x.now, x.curve.age)
  }

  function PhoneSample(x: Input): nat {
    SampleTime(x.tEof, x.now, x.stateAge)
  }

  predicate CurveValid(x: Input) {
    && x.link && x.curvePresent && x.statePresent && HasBit(x.health, PHONE_LOCATION_OK)
    && CurveSample(x) != 0 && PhoneSample(x) != 0
    && !HasBit(x.health, REROUTING) && (!HasBit(x.curve.flags, 0) || HasBit(x.health, ROUTE_OK))
    && x.curve.count <= CURVE_MAX_POINTS
  }

  /** The targets this input calls for. */
  function Wanted(x: Input): (ts: seq<Target>)
    requires x.Shape()
    ensures |ts| <= CURVE_MAX_POINTS && Monotone(ts)
    ensures !x.link || !x.curvePresent ==> ts == []
  {
    var ts := Usable(Visible(x.curve));
    if CurveValid(x) && Monotone(ts) then ts else []
  }

  function EnvelopeOf(x: Input): Envelope
    requires x.Shape()
  {
    var c, p := CurveSample(x), PhoneSample(x);
    if Wanted(x) == [] then Nothing else Targets(c, (if c <= p then c else p) + MAX_AGE_NS, Wanted(x))
  }

  // ---- the matching of written points to usable ones ----

  predicate Near(p: Target, q: Target) {
    -TOLERANCE <= p.lat - q.lat <= TOLERANCE && -TOLERANCE <= p.lon - q.lon <= TOLERANCE
  }

  function Dist2(p: Target, q: Target): int {
    (p.lat - q.lat) * (p.lat - q.lat) + (p.lon - q.lon) * (p.lon - q.lon)
  }

  /** Among the first j new points, the nearest free one near `written`, the earlier of equals; -1 for none. */
  function Best(ts: seq<Target>, used: seq<bool>, written: Target, j: nat): (b: int)
    requires j <= |ts| == |used|
    ensures -1 <= b < j
    ensures b >= 0 ==> !used[b] && Near(ts[b], written)
  {
    if j == 0 then -1
    else
      var b := Best(ts, used, written, j - 1);
      if used[j - 1] || !Near(ts[j - 1], written) then b
      else if b < 0 || Dist2(ts[j - 1], written) < Dist2(ts[b], written) then j - 1 else b
  }

  /** From written point k on: some point finds no free partner, or its partner's speed is lower. */
  predicate Unmatched(ts: seq<Target>, last: seq<Target>, k: nat, used: seq<bool>)
    requires k <= |last| && |used| == |ts|
    decreases |last| - k
  {
    if k == |last| then false
    else
      var b := Best(ts, used, last[k], |ts|);
      b < 0 || ts[b].speed < last[k].speed || Unmatched(ts, last, k + 1, used[b := true])
  }

  function Free(n: nat): (used: seq<bool>)
    ensures |used| == n && forall i :: 0 <= i < n ==> !used[i]
  {
    seq(n, _ => false)
  }

  /** m sends every written point to a usable point of its own, near it and not slower. */
  ghost predicate Injects(m: seq<nat>, ts: seq<Target>, last: seq<Target>) {
    && |m| == |last|
    && (forall i :: 0 <= i < |m| ==> m[i] < |ts| && Near(ts[m[i]], last[i]) && ts[m[i]].speed >= last[i].speed)
    && (forall i, j :: 0 <= i < j < |m| ==> m[i] != m[j])
  }

  ghost predicate Kept(ts: seq<Target>, last: seq<Target>) {
    exists m :: Injects(m, ts, last)
  }

  lemma {:induction false} MatchedFrom(ts: seq<Target>, last: seq<Target>, k: nat, used: seq<bool>)
    returns (m: seq<nat>)
    requires k <= |last| && |used| == |ts| && !Unmatched(ts, last, k, used)
    ensures Injects(m, ts, last[k..])
    ensures forall i :: 0 <= i < |m| ==> !used[m[i]]
    decreases |last| - k
  {
    hide Near, Best;
    if k == |last| {
      m := [];
    } else {
      var b := Best(ts, used, last[k], |ts|);
      var rest := MatchedFrom(ts, last, k + 1, used[b := true]);
      m := [b] + rest;
      assert last[k..] == [last[k]] + last[k + 1..];
      assert forall i :: 0 <= i < |rest| ==> rest[i] != b;
    }
  }

  lemma IdentityInjects(ts: seq<Target>)
    ensures Kept(ts, ts)
  {
    assert Injects(seq(|ts|, i requires 0 <= i < |ts| => i), ts, ts);
  }

  lemma EmptyIsKept(last: seq<Target>)
    ensures Kept([], last) <==> last == []
  {
    if last == [] {
      IdentityInjects([]);
    } else if Kept([], last) {
      var m :| Injects(m, [], last);
      InjectsIntoSome(m, [], last);
    }
  }

  lemma InjectsIntoSome(m: seq<nat>, ts: seq<Target>, last: seq<Target>)
    requires Injects(m, ts, last)
    ensures last != [] ==> ts != []
  {
    if last != [] {
      assert m[0] < |ts|;
    }
  }

  /** The search finds a partner exactly when a free near point exists, and none of those is nearer. */
  lemma {:induction false} BestIsNearest(ts: seq<Target>, used: seq<bool>, written: Target, j: nat, i: nat)
    requires i < j <= |ts| == |used| && !used[i] && Near(ts[i], written)
    ensures var b := Best(ts, used, written, j); b >= 0 && Dist2(ts[b], written) <= Dist2(ts[i], written)
    ensures var b := Best(ts, used, written, j); Dist2(ts[b], written) == Dist2(ts[i], written) ==> b <= i
  {
    hide Near, Dist2;
    if i < j - 1 {
      BestIsNearest(ts, used, written, j - 1, i);
    }
  }

  /** Points that have not changed are never urgent: each still finds itself, also among equal coordinates. */
  lemma {:induction false} UnchangedIsMatched(ts: seq<Target>, k: nat, used: seq<bool>)
    requires k <= |ts| == |used| && forall i :: 0 <= i < |ts| ==> (used[i] <==> i < k)
    ensures !Unmatched(ts, ts, k, used)
    decreases |ts| - k
  {
    if k < |ts| {
      BestIsNearest(ts, used, ts[k], |ts|, k);
      var b := Best(ts, used, ts[k], |ts|);
      SelfIsNearest(ts[b], ts[k]);
      UnchangedIsMatched(ts, k + 1, used[b := true]);
    }
  }

  lemma SelfIsNearest(p: Target, q: Target)
    ensures Dist2(p, q) >= 0 == Dist2(q, q)
  {
    assert (p.lat - q.lat) * (p.lat - q.lat) >= 0;
    assert (p.lon - q.lon) * (p.lon - q.lon) >= 0;
  }

  // ---- the writer ----

  datatype Writer = Writer(wrote: bool, lastWrite: nat, last: seq<Target>)

  const NEW_WRITER := Writer(false, 0, [])

  predicate Same(w: Writer, x: Input)
    requires x.Shape()
  {
    w.wrote && Wanted(x) == w.last
  }

  function SinceLast(w: Writer, now: nat): nat {
    if now > w.lastWrite then now - w.lastWrite else 0
  }

  predicate Urgent(w: Writer, x: Input)
    requires x.Shape()
  {
    w.wrote && if Wanted(x) == [] then w.last != [] else Unmatched(Wanted(x), w.last, 0, Free(|Wanted(x)|))
  }

  predicate Declines(w: Writer, x: Input)
    requires x.Shape()
  {
    var since := SinceLast(w, x.now);
    if Same(w, x) then since < REFRESH_NS
    else w.wrote && !Urgent(w, x) && since < MIN_CHANGED_NS
  }

  function Updated(w: Writer, x: Input): (Writer, Option<Envelope>)
    requires x.Shape()
  {
    if Declines(w, x) then (w, None) else (Writer(true, x.now, Wanted(x)), Some(EnvelopeOf(x)))
  }

  // ---- the claims about one update ----

  /** When nothing is written, every point written last has a usable point of its own within 50 units in each
      coordinate and with no lower target speed. */
  lemma DeclinedMeansKept(w: Writer, x: Input)
    requires x.Shape() && Declines(w, x)
    ensures Kept(Wanted(x), w.last)
  {
    hide Wanted, Unmatched, Injects;
    var ts := Wanted(x);
    if Same(w, x) {
      IdentityInjects(ts);
    } else if ts == [] {
      IdentityInjects(ts);
    } else {
      var m := MatchedFrom(ts, w.last, 0, Free(|ts|));
      assert w.last[0..] == w.last;
    }
  }

  /** Exactly when an update writes: at first, after a full second, and in between only for changed points, at once if
      the change is urgent and otherwise half a second after the last write. */
  lemma WritesExactlyWhen(w: Writer, x: Input)
    requires x.Shape()
    ensures Updated(w, x).1.Some? <==>
      || !w.wrote
      || w.lastWrite + REFRESH_NS <= x.now
      || Urgent(w, x)
      || (Wanted(x) != w.last && w.lastWrite + MIN_CHANGED_NS <= x.now)
  {
    hide Wanted, Unmatched;
    if Same(w, x) {
      var ts := Wanted(x);
      UnchangedIsMatched(ts, 0, Free(|ts|));
    }
  }

  /** An envelope with points holds 1 to 8 of them, all in range and with a speed, at distances that do not decrease up
      to 600 m; it holds now, and for at most 2 s after the frame it answers. */
  lemma EnvelopeIsSound(w: Writer, x: Input)
    requires x.Shape() && Updated(w, x).1.Some?
    ensures var e := Updated(w, x).1.value;
      && e.Content() == Updated(w, x).0.last == Wanted(x)
      && (e.Targets? ==>
           && 1 <= |e.points| <= CURVE_MAX_POINTS
           && (forall i, j :: 0 <= i < j < |e.points| ==> e.points[i].distance <= e.points[j].distance)
           && (forall i :: 0 <= i < |e.points| ==> e.points[i].speed > 0 && e.points[i].distance <= MAX_DISTANCE_M
                                                   && CoordsOk(e.points[i].lat, e.points[i].lon))
           && 0 < e.sample <= x.tEof <= x.now <= e.validUntil <= x.tEof + MAX_AGE_NS)
  {
    hide Declines, Usable;
    UsableAreUsable(Visible(x.curve));
    assert forall i :: 0 <= i < |Wanted(x)| ==> Wanted(x)[i] in Usable(Visible(x.curve));
    MonotoneOverall(Wanted(x));
    if Wanted(x) != [] {
      SampleBounds(x.tEof, x.now, x.curve.age);
      SampleBounds(x.tEof, x.now, x.stateAge);
    }
  }

  lemma {:induction false} UsableAreUsable(ps: seq<CurvePoint>)
    ensures forall t :: t in Usable(ps) ==> t.speed != 0 && t.distance <= MAX_DISTANCE_M && CoordsOk(t.lat, t.lon)
  {
    hide CoordsOk;
    if ps != [] {
      var n := |ps| - 1;
      UsableAreUsable(ps[..n]);
      forall t | t in Usable(ps)
        ensures t.speed != 0 && t.distance <= MAX_DISTANCE_M && CoordsOk(t.lat, t.lon)
      {
        assert t in Usable(ps[..n]) || (PointUsable(ps[n]) && t == TargetOf(ps[n]));
      }
    }
  }

  lemma SampleBounds(tEof: U64, now: U64, age: U16)
    requires SampleTime(tEof, now, age) != 0
    ensures 0 < SampleTime(tEof, now, age) <= tEof <= now <= SampleTime(tEof, now, age) + MAX_AGE_NS
  {}

  lemma {:induction false} MonotoneBetween(ts: seq<Target>, i: nat, j: nat)
    requires Monotone(ts) && i <= j < |ts|
    ensures ts[i].distance <= ts[j].distance
  {
    if i < j {
      MonotoneBetween(ts, i, j - 1);
    }
  }

  lemma MonotoneOverall(ts: seq<Target>)
    requires Monotone(ts)
    ensures forall i, j :: 0 <= i < j < |ts| ==> ts[i].distance <= ts[j].distance
  {
    forall i, j | 0 <= i < j < |ts|
      ensures ts[i].distance <= ts[j].distance
    {
      MonotoneBetween(ts, i, j);
    }
  }

  // ---- the object ----

  lemma {:induction false} UsablePrefix(ps: seq<CurvePoint>, k: nat)
    requires k <= |ps|
    ensures Usable(ps[..k]) <= Usable(ps)
  {
    hide PointUsable, CoordsOk;
    if k < |ps| {
      UsablePrefix(ps[..|ps| - 1], k);
      assert ps[..|ps| - 1][..k] == ps[..k];
    } else {
      assert ps[..k] == ps;
    }
  }

  lemma UsableNext(ps: seq<CurvePoint>, i: nat)
    requires i < |ps|
    ensures Usable(ps[..i + 1]) == Usable(ps[..i]) + (if PointUsable(ps[i]) then [TargetOf(ps[i])] else [])
  {
    hide PointUsable, CoordsOk;
    assert ps[..i + 1][..i] == ps[..i];
  }

  lemma UsableEnds(ps: seq<CurvePoint>)
    ensures Usable(ps[..0]) == [] && Usable(ps[..|ps|]) == Usable(ps)
  {
    assert ps[..|ps|] == ps;
  }

  lemma VisibleIs(c: CurveAhead)
    requires |c.points| == CURVE_MAX_POINTS
    ensures |Visible(c)| == Clamp(c.count) && forall i :: 0 <= i < Clamp(c.count) ==> Visible(c)[i] == c.points[i]
  {}

  lemma MonotoneNext(ts: seq<Target>, t: Target)
    ensures Monotone(ts + [t]) <==> Monotone(ts) && (ts == [] || ts[|ts| - 1].distance <= t.distance)
  {
    if Monotone(ts + [t]) {
      forall i | 0 < i < |ts|
        ensures ts[i - 1].distance <= ts[i].distance
      {
        assert (ts + [t])[i - 1].distance <= (ts + [t])[i].distance;
      }
      assert ts != [] ==> (ts + [t])[|ts| - 1].distance <= (ts + [t])[|ts|].distance;
    }
  }

  lemma MonotonePrefix(ts: seq<Target>, more: seq<Target>)
    requires ts <= more && Monotone(more)
    ensures Monotone(ts)
  {
    forall i | 0 < i < |ts|
      ensures ts[i - 1].distance <= ts[i].distance
    {
      assert more[i - 1].distance <= more[i].distance;
    }
  }

  lemma UsableFails(ps: seq<CurvePoint>, k: nat)
    requires k <= |ps| && !Monotone(Usable(ps[..k]))
    ensures !Monotone(Usable(ps))
  {
    hide Usable, Monotone;
    UsablePrefix(ps, k);
    if Monotone(Usable(ps)) {
      MonotonePrefix(Usable(ps[..k]), Usable(ps));
    }
  }

  /** The next usable point is the next of all of them. */
  lemma NextUsable(ps: seq<CurvePoint>, i: nat, k: nat)
    requires i < |ps| && k <= |Usable(ps)| && Usable(ps[..i]) == Usable(ps)[..k]
    ensures if PointUsable(ps[i]) then
              k < |Usable(ps)| && Usable(ps)[k] == TargetOf(ps[i]) && Usable(ps[..i + 1]) == Usable(ps)[..k + 1]
            else Usable(ps[..i + 1]) == Usable(ps)[..k]
  {
    hide PointUsable, Usable, TargetOf;
    UsableNext(ps, i);
    UsablePrefix(ps, i + 1);
  }

  lemma SameOneMore(a: seq<Target>, b: seq<Target>, k: nat)
    requires k < |a| && k < |b| && a[..k] == b[..k] && a[k] == b[k]
    ensures a[..k + 1] == b[..k + 1]
  {}

  class MapTargetWriter {
    var wrote: bool
    var lastWriteNs: nat
    var lastPointCount: nat
    const lastPoints: array<Target>

    ghost predicate Valid()
      reads this, lastPoints
    {
      lastPoints.Length == CURVE_MAX_POINTS && lastPointCount <= lastPoints.Length && (!wrote ==> lastPointCount == 0)
    }

    ghost function State(): Writer
      requires Valid()
      reads this, lastPoints
    {
      Writer(wrote, lastWriteNs, lastPoints[..lastPointCount])
    }

    constructor ()
      ensures Valid() && fresh(lastPoints) && State() == NEW_WRITER
    {
      wrote, lastWriteNs, lastPointCount := false, 0, 0;
      lastPoints := new Target[CURVE_MAX_POINTS](_ => Target(0, 0, 0, 0));
    }

    /** How many points are usable; none when their distances ever decrease. */
    static method UsablePointCount(c: CurveAhead) returns (n: nat)
      requires |c.points| == CURVE_MAX_POINTS
      ensures n == if Monotone(Usable(Visible(c))) then |Usable(Visible(c))| else 0
    {
      var previous := 0;
      n := 0;
      ghost var ps, ts := Visible(c), [];
      UsableEnds(ps);
      VisibleIs(c);
      assert Monotone(ts);
      hide PointUsable, CoordsOk, Usable, Visible, Monotone, Clamp;
      for i := 0 to Clamp(c.count)
        invariant ts == Usable(ps[..i]) && n == |ts| && Monotone(ts) && (n > 0 ==> previous == ts[n - 1].distance)
      {
        var p := c.points[i];
        UsableNext(ps, i);
        if PointUsable(p) {
          MonotoneNext(ts, TargetOf(p));
          if n > 0 && p.distance < previous {
            UsableFails(ps, i + 1);
            return 0;
          }
          ts := ts + [TargetOf(p)];
          previous := p.distance;
          n := n + 1;
        }
      }
    }

    /** The usable points in order. */
    static method Collect(c: CurveAhead) returns (ts: seq<Target>)
      requires |c.points| == CURVE_MAX_POINTS
      ensures ts == Usable(Visible(c))
    {
      hide PointUsable, CoordsOk;
      ts := [];
      ghost var ps := Visible(c);
      for i := 0 to Clamp(c.count)
        invariant ps == Visible(c) && ts == Usable(ps[..i])
      {
        UsableNext(ps, i);
        if PointUsable(c.points[i]) {
          ts := ts + [TargetOf(c.points[i])];
        }
      }
      assert ps[..|ps|] == ps;
    }

    /** One written point after the other takes the nearest free new point. */
    method UrgentChange(c: CurveAhead) returns (urgent: bool)
      requires Valid() && |c.points| == CURVE_MAX_POINTS
      ensures urgent == Unmatched(Usable(Visible(c)), State().last, 0, Free(|Usable(Visible(c))|))
    {
      hide PointUsable, CoordsOk, Usable, Visible, Near, Dist2;
      var ts := Collect(c);
      var used := Free(|ts|);
      ghost var last := State().last;
      for k := 0 to lastPointCount
        invariant |used| == |ts|
        invariant Unmatched(ts, last, k, used) == Unmatched(ts, last, 0, Free(|ts|))
      {
        var written := lastPoints[k];
        var best := -1;
        for j := 0 to |ts|
          invariant best == Best(ts, used, written, j)
        {
          if !used[j] && Near(ts[j], written) && (best < 0 || Dist2(ts[j], written) < Dist2(ts[best], written)) {
            best := j;
          }
        }
        if best < 0 {
          return true;
        }
        used := used[best := true];
        if ts[best].speed < written.speed {
          return true;
        }
      }
      return false;
    }

    method SamePoints(c: CurveAhead, n: nat) returns (same: bool)
      requires Valid() && |c.points| == CURVE_MAX_POINTS && (n == 0 || n == |Usable(Visible(c))|)
      ensures same == (State().last == if n == 0 then [] else Usable(Visible(c)))
    {
      VisibleIs(c);
      UsableEnds(Visible(c));
      hide PointUsable, CoordsOk, Usable, Visible, Clamp, TargetOf;
      if n != lastPointCount {
        return false;
      }
      if n == 0 {
        return true;
      }
      var k := 0;
      ghost var ps := Visible(c);
      ghost var all, mine := Usable(ps), lastPoints[..n];
      for i := 0 to Clamp(c.count)
        invariant k <= n && mine[..k] == all[..k] && all[..k] == Usable(ps[..i])
      {
        var p := c.points[i];
        NextUsable(ps, i, k);
        if PointUsable(p) {
          k := k + 1;
          if TargetOf(p) != lastPoints[k - 1] {
            assert mine[k - 1] != all[k - 1];
            return false;
          }
          SameOneMore(mine, all, k - 1);
        }
      }
      return true;
    }

    method Remember(c: CurveAhead, n: nat)
      requires Valid() && wrote && |c.points| == CURVE_MAX_POINTS
      modifies this`lastPointCount, lastPoints
      ensures Valid() && State().last == if n == 0 then [] else Usable(Visible(c))
    {
      VisibleIs(c);
      UsableEnds(Visible(c));
      hide PointUsable, CoordsOk, Usable, Visible, Clamp, TargetOf;
      lastPointCount := 0;
      if n > 0 {
        ghost var ps := Visible(c);
        for i := 0 to Clamp(c.count)
          invariant Valid() && lastPointCount <= i && lastPoints[..lastPointCount] == Usable(ps[..i])
        {
          var p := c.points[i];
          UsableNext(ps, i);
          if PointUsable(p) {
            lastPoints[lastPointCount] := TargetOf(p);
            lastPointCount := lastPointCount + 1;
          }
        }
      }
    }

    method Update(x: Input) returns (e: Option<Envelope>)
      requires Valid() && x.Shape()
      modifies this, lastPoints
      ensures Valid() && (State(), e) == Updated(old(State()), x)
    {
      hide Unmatched, Usable, Visible, SampleTime, HasBit;
      var curveSample, phoneSample := CurveSample(x), PhoneSample(x);
      var valid := CurveValid(x);
      var n := 0;
      if valid {
        n := UsablePointCount(x.curve);
      }
      var same := SamePoints(x.curve, n);
      same := wrote && same;
      var since := if x.now > lastWriteNs then x.now - lastWriteNs else 0;
      if same && since < REFRESH_NS {
        return None;
      }
      var urgent := false;
      if wrote {
        if n == 0 {
          urgent := lastPointCount > 0;
        } else {
          urgent := UrgentChange(x.curve);
        }
      }
      if !same && !urgent && wrote && since < MIN_CHANGED_NS {
        return None;
      }
      e := Some(Nothing);
      if n > 0 {
        var earlier := if curveSample <= phoneSample then curveSample else phoneSample;
        var points := Collect(x.curve);
        e := Some(Targets(curveSample, earlier + MAX_AGE_NS, points));
      }
      wrote := true;
      lastWriteNs := x.now;
      Remember(x.curve, n);
    }
  }
}
