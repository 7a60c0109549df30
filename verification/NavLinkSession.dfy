/** The navigation side of the link: what the last reply said, over connections that come and go. */
module NavLinkSession {
  import opened MapTargets
  import opened Options
  import opened ReplyCodec
  import opened Wire

  // ---- the parts ----

  datatype Tracker = Tracker(initialized: bool, epoch: nat)

  const NO_EPOCH := Tracker(false, 0)

  function Tracked(t: Tracker, epoch: nat): (Tracker, bool) {
    if !t.initialized || epoch != t.epoch then (Tracker(true, epoch), true) else (t, false)
  }

  datatype Summary = Summary(lastReply: nat, tEof: U64, present: U8, health: U8, curve: CurveAhead, stateAge: U16)

  const NO_REPLY := Summary(0, 0, 0, 0, NO_CURVE, AGE_INVALID)

  datatype Session = Session(tracker: Tracker, cache: Summary, writer: Writer, helloSeen: bool,
                             pending: Option<Envelope>) {
    predicate Shape() {
      |cache.curve.points| == CURVE_MAX_POINTS
    }
  }

  const NEW_SESSION := Session(NO_EPOCH, NO_REPLY, NEW_WRITER, false, None)

  datatype Event = Epoch(epoch: nat, now: U64) | Disconnect(now: U64) | HelloOk
                 | GotReply(at: U64, tEof: U64, ext: NavExt, now: U64) | Idle(connected: bool, now: U64) | TakePending
  {
    predicate Shape() {
      GotReply? ==> ext.Shape()
    }
  }

  function InputOf(c: Summary, link: bool, now: U64): (x: Input)
    requires |c.curve.points| == CURVE_MAX_POINTS
    ensures x.Shape()
  {
    Input(link, HasBit(c.present, CURVE_AHEAD), HasBit(c.present, NAV_STATE), c.stateAge, c.curve, c.health,
          c.tEof, now)
  }

  function Decide(s: Session, link: bool, now: U64): (after: Session)
    requires s.Shape()
    ensures after.Shape()
  {
    var (w, e) := Updated(s.writer, InputOf(s.cache, link, now));
    s.(writer := w, pending := if e.Some? then e else s.pending)
  }

  function Disconnected(s: Session, now: U64): (after: Session)
    requires s.Shape()
    ensures after.Shape()
  {
    Decide(s.(helloSeen := false, cache := NO_REPLY), false, now)
  }

  function Next(s: Session, e: Event): (after: Session)
    requires s.Shape() && e.Shape()
    ensures after.Shape()
  {
    match e
    case Epoch(epoch, now) =>
      var (t, changed) := Tracked(s.tracker, epoch);
      if changed then Disconnected(s.(tracker := t), now) else s
    case Disconnect(now) => Disconnected(s, now)
    case HelloOk => s.(helloSeen := true)
    case GotReply(at, tEof, ext, now) =>
      Decide(s.(cache := Summary(at, tEof, ext.present, ext.health, ext.curve, ext.state.age)), true, now)
    case Idle(connected, now) => if connected then Decide(s, true, now) else Disconnected(s, now)
    case TakePending => s.(pending := None)
  }

  // ---- runs ----

  datatype Write = Write(at: nat, envelope: Envelope)

  /** A session, the last envelope taken from it, and every envelope written so far. */
  datatype World = World(s: Session, taken: Option<Envelope>, writes: seq<Write>)

  /** What a reader of the parameter ends up with: the pending envelope, or the last one taken. */
  function Newest(w: World): Option<Envelope> {
    if w.s.pending.Some? then w.s.pending else w.taken
  }

  /** The decision an event leads to, if it leads to one: the link flag and the clock. */
  function DecisionOf(s: Session, e: Event): Option<(bool, U64)> {
    match e
    case Epoch(epoch, now) => if Tracked(s.tracker, epoch).1 then Some((false, now)) else None
    case Disconnect(now) => Some((false, now))
    case HelloOk => None
    case GotReply(_, _, _, now) => Some((true, now))
    case Idle(connected, now) => Some((connected, now))
    case TakePending => None
  }

  function Apply(w: World, e: Event): (after: World)
    requires w.s.Shape() && e.Shape()
    ensures after.s.Shape()
  {
    var s := Next(w.s, e);
    var d := DecisionOf(w.s, e);
    World(s, if e.TakePending? && w.s.pending.Some? then w.s.pending else w.taken,
          if d.Some? && Wrote(w.s, d.value, s) then
            w.writes + [Write(d.value.1, EnvelopeOf(InputOf(s.cache, d.value.0, d.value.1)))]
          else w.writes)
  }

  predicate Wrote(before: Session, d: (bool, U64), after: Session)
    requires after.Shape()
  {
    !Declines(before.writer, InputOf(after.cache, d.0, d.1))
  }

  ghost predicate AllShape(events: seq<Event>) {
    forall i :: 0 <= i < |events| ==> events[i].Shape()
  }

  ghost function Run(events: seq<Event>): (w: World)
    requires AllShape(events)
    ensures w.s.Shape()
  {
    if events == [] then World(NEW_SESSION, None, [])
    else Apply(Run(events[..|events| - 1]), events[|events| - 1])
  }

  /** Every event that decides does so with the cache it leaves behind. */
  lemma NextDecides(s: Session, e: Event)
    requires s.Shape() && e.Shape()
    ensures var d := DecisionOf(s, e);
      var after := Next(s, e);
      if d.None? then after.writer == s.writer && after.pending == (if e.TakePending? then None else s.pending)
      else
        var x := InputOf(after.cache, d.value.0, d.value.1);
        && after.writer == Updated(s.writer, x).0
        && after.pending == if Declines(s.writer, x) then s.pending else Some(EnvelopeOf(x))
  {
    hide Declines, EnvelopeOf, Wanted, HasBit;
  }

  // ---- the newest value is what the writer believes ----

  predicate InSync(w: World) {
    if w.s.writer.wrote then Newest(w).Some? && Newest(w).value.Content() == w.s.writer.last
    else Newest(w) == None && w.s.writer.last == []
  }

  lemma ApplyKeepsSync(w: World, e: Event)
    requires w.s.Shape() && e.Shape() && InSync(w)
    ensures InSync(Apply(w, e))
  {
    hide Declines, EnvelopeOf, Wanted, InputOf, Next, DecisionOf;
    NextDecides(w.s, e);
    var d := DecisionOf(w.s, e);
    if d.Some? {
      var x := InputOf(Next(w.s, e).cache, d.value.0, d.value.1);
      if !Declines(w.s.writer, x) {
        EnvelopeIsSound(w.s.writer, x);
      }
      TakeDecidesNothing(w.s, e);
    }
  }

  lemma TakeDecidesNothing(s: Session, e: Event)
    ensures e.TakePending? ==> DecisionOf(s, e) == None
  {}

  /** In every run, what a reader ends up with is exactly the content the writer compares against. */
  lemma {:induction false} NewestIsWhatTheWriterKeeps(events: seq<Event>)
    requires AllShape(events)
    ensures InSync(Run(events))
  {
    hide Apply, InSync;
    if events == [] {
      StartsInSync();
    } else {
      NewestIsWhatTheWriterKeeps(events[..|events| - 1]);
      ApplyKeepsSync(Run(events[..|events| - 1]), events[|events| - 1]);
    }
  }

  lemma StartsInSync()
    ensures InSync(World(NEW_SESSION, None, []))
  {}

  /** In every run, after every decision the targets that a reader ends up with are all still backed: each has a usable
      point of its own within tolerance and with no lower speed. */
  lemma WrittenTargetsStayBacked(events: seq<Event>, e: Event)
    requires AllShape(events) && e.Shape() && DecisionOf(Run(events).s, e).Some?
    ensures var w := Apply(Run(events), e);
      var d := DecisionOf(Run(events).s, e).value;
      Newest(w).Some? && Kept(Wanted(InputOf(w.s.cache, d.0, d.1)), Newest(w).value.Content())
  {
    hide Run, EnvelopeOf, Wanted, InputOf, Next, DecisionOf, Kept, Declines;
    var w := Run(events);
    NewestIsWhatTheWriterKeeps(events);
    ApplyKeepsSync(w, e);
    NextDecides(w.s, e);
    var d := DecisionOf(w.s, e).value;
    var x := InputOf(Next(w.s, e).cache, d.0, d.1);
    FirstCallWrites(w.s.writer, x);
    if Declines(w.s.writer, x) {
      DeclinedMeansKept(w.s.writer, x);
    } else {
      IdentityInjects(Wanted(x));
    }
  }

  lemma FirstCallWrites(w: Writer, x: Input)
    requires x.Shape()
    ensures !w.wrote ==> !Declines(w, x)
  {}

  // ---- disconnects ----

  predicate Clears(s: Session, e: Event) {
    e.Disconnect? || (e.Idle? && !e.connected) || (e.Epoch? && Tracked(s.tracker, e.epoch).1)
  }

  lemma NothingWanted(c: Summary, link: bool, now: U64)
    requires |c.curve.points| == CURVE_MAX_POINTS && (!link || c == NO_REPLY)
    ensures Wanted(InputOf(c, link, now)) == []
  {
    assert !HasBit(0, CURVE_AHEAD);
  }

  /** No envelope that is handed out is a list of no points: an empty content is always the bare `[]`. */
  predicate Canonical(w: World) {
    && (w.s.pending.Some? ==> w.s.pending.value.Nothing? || w.s.pending.value.points != [])
    && (w.taken.Some? ==> w.taken.value.Nothing? || w.taken.value.points != [])
  }

  lemma ApplyKeepsCanonical(w: World, e: Event)
    requires w.s.Shape() && e.Shape() && Canonical(w)
    ensures Canonical(Apply(w, e))
  {
    hide Declines, Wanted, InputOf, Next, DecisionOf;
    NextDecides(w.s, e);
  }

  lemma {:induction false} RunIsCanonical(events: seq<Event>)
    requires AllShape(events)
    ensures Canonical(Run(events))
  {
    hide Apply, Canonical;
    if events == [] {
      StartsCanonical();
    } else {
      RunIsCanonical(events[..|events| - 1]);
      ApplyKeepsCanonical(Run(events[..|events| - 1]), events[|events| - 1]);
    }
  }

  lemma StartsCanonical()
    ensures Canonical(World(NEW_SESSION, None, []))
  {}

  /** From a disconnect, a lost link or a new epoch on, until a reply arrives, a reader ends up with `[]`, and the
      summary of the last reply is gone. */
  lemma {:induction false} DisconnectClearsUntilReply(events: seq<Event>, i: nat, k: nat)
    requires AllShape(events) && i < k <= |events| && Clears(Run(events[..i]).s, events[i])
    requires forall j :: i < j < k ==> !events[j].GotReply?
    ensures Newest(Run(events[..k])) == Some(Nothing) && Run(events[..k]).s.cache == NO_REPLY
  {
    hide Run, Wanted, Declines, Clears, InputOf, EnvelopeOf, Kept, Canonical, InSync;
    var n := k - 1;
    assert events[..k][..n] == events[..n];
    RunOneMore(events[..k]);
    var w, e := Run(events[..n]), events[n];
    if i < n {
      DisconnectClearsUntilReply(events, i, n);
    }
    ClearedCache(w.s, e);
    RunIsCanonical(events[..k]);
    NewestIsWhatTheWriterKeeps(events[..n]);
    NextDecides(w.s, e);
    if DecisionOf(w.s, e).Some? {
      var d := DecisionOf(w.s, e).value;
      NothingWanted(Next(w.s, e).cache, d.0, d.1);
      WrittenTargetsStayBacked(events[..n], e);
      EmptyIsKept(Newest(Apply(w, e)).value.Content());
      EmptyContent(Apply(w, e));
    } else {
      NoDecisionKeepsNewest(w, e);
    }
  }

  lemma RunOneMore(events: seq<Event>)
    requires AllShape(events) && events != []
    ensures Run(events) == Apply(Run(events[..|events| - 1]), events[|events| - 1])
  {}

  lemma ClearedCache(s: Session, e: Event)
    requires s.Shape() && e.Shape()
    ensures (s.cache == NO_REPLY && !e.GotReply?) || Clears(s, e) ==> Next(s, e).cache == NO_REPLY
    ensures Clears(s, e) ==> DecisionOf(s, e).Some?
  {
    hide Updated, InputOf;
  }

  lemma EmptyContent(w: World)
    requires Canonical(w) && Newest(w).Some? && Newest(w).value.Content() == []
    ensures Newest(w) == Some(Nothing)
  {}

  lemma NoDecisionKeepsNewest(w: World, e: Event)
    requires w.s.Shape() && e.Shape() && DecisionOf(w.s, e).None?
    ensures Newest(Apply(w, e)) == Newest(w)
  {
    hide Updated, InputOf, EnvelopeOf;
  }

  // ---- timing and soundness of everything written ----

  predicate UrgentStep(content: seq<Target>, last: seq<Target>) {
    if content == [] then last != [] else Unmatched(content, last, 0, Free(|content|))
  }

  /** Two writes in a row: unchanged content waits a second, changed content half a second unless it is urgent. */
  predicate Spaced(a: Write, b: Write) {
    if a.envelope.Content() == b.envelope.Content() then a.at + REFRESH_NS <= b.at
    else UrgentStep(b.envelope.Content(), a.envelope.Content()) || a.at + MIN_CHANGED_NS <= b.at
  }

  predicate Sound(w: Write) {
    w.envelope.Targets? ==>
      && 1 <= |w.envelope.points| <= CURVE_MAX_POINTS
      && (forall i, j :: 0 <= i < j < |w.envelope.points| ==>
            w.envelope.points[i].distance <= w.envelope.points[j].distance)
      && (forall i :: 0 <= i < |w.envelope.points| ==>
            w.envelope.points[i].speed > 0 && w.envelope.points[i].distance <= MAX_DISTANCE_M)
      && w.at <= w.envelope.validUntil <= w.at + MAX_AGE_NS
  }

  ghost predicate Recorded(w: World) {
    && (w.s.writer.wrote <==> w.writes != [])
    && (w.writes != [] ==>
          var l := w.writes[|w.writes| - 1];
          l.at == w.s.writer.lastWrite && l.envelope.Content() == w.s.writer.last)
    && (forall k :: 0 < k < |w.writes| ==> Spaced(w.writes[k - 1], w.writes[k]))
    && (forall k :: 0 <= k < |w.writes| ==> Sound(w.writes[k]))
  }

  lemma WrittenIsSound(wr: Writer, x: Input)
    requires x.Shape() && !Declines(wr, x)
    ensures Sound(Write(x.now, EnvelopeOf(x)))
    ensures EnvelopeOf(x).Content() == Wanted(x)
    ensures Updated(wr, x).0 == Writer(true, x.now, Wanted(x))
  {
    hide Declines, Wanted;
    EnvelopeIsSound(wr, x);
  }

  lemma WrittenIsSpaced(wr: Writer, x: Input, a: Write)
    requires x.Shape() && !Declines(wr, x) && wr.wrote
    requires a.at == wr.lastWrite && a.envelope.Content() == wr.last && EnvelopeOf(x).Content() == Wanted(x)
    ensures Spaced(a, Write(x.now, EnvelopeOf(x)))
  {
    hide Wanted, EnvelopeOf, Unmatched;
  }

  lemma ApplyRecords(w: World, e: Event)
    requires w.s.Shape() && e.Shape() && Recorded(w)
    ensures Recorded(Apply(w, e))
  {
    hide Declines, EnvelopeOf, Wanted, InputOf, Next, DecisionOf, Spaced, Sound;
    NextDecides(w.s, e);
    var d := DecisionOf(w.s, e);
    if d.Some? {
      var x := InputOf(Next(w.s, e).cache, d.value.0, d.value.1);
      NowOf(Next(w.s, e).cache, d.value.0, d.value.1);
      if !Declines(w.s.writer, x) {
        WrittenIsSound(w.s.writer, x);
        if w.writes != [] {
          WrittenIsSpaced(w.s.writer, x, w.writes[|w.writes| - 1]);
        }
      }
    }
  }

  lemma NowOf(c: Summary, link: bool, now: U64)
    requires |c.curve.points| == CURVE_MAX_POINTS
    ensures InputOf(c, link, now).now == now
  {}

  /** In every run, with no condition on the clock: consecutive writes are spaced, and all of them are sound. */
  lemma {:induction false} WritesAreSpacedAndSound(events: seq<Event>)
    requires AllShape(events)
    ensures forall k :: 0 < k < |Run(events).writes| ==> Spaced(Run(events).writes[k - 1], Run(events).writes[k])
    ensures forall k :: 0 <= k < |Run(events).writes| ==> Sound(Run(events).writes[k])
    ensures Recorded(Run(events))
  {
    hide Apply, Spaced, Sound;
    if events != [] {
      WritesAreSpacedAndSound(events[..|events| - 1]);
      ApplyRecords(Run(events[..|events| - 1]), events[|events| - 1]);
    }
  }

  /** Whatever the decisions before it did, one made half a second or more after the last write leaves the reader with
      exactly the targets that are wanted then. */
  lemma HalfASecondBringsWanted(events: seq<Event>, e: Event)
    requires AllShape(events) && e.Shape() && DecisionOf(Run(events).s, e).Some?
    requires var w := Run(events);
      w.writes == [] || w.writes[|w.writes| - 1].at + MIN_CHANGED_NS <= DecisionOf(w.s, e).value.1
    ensures var w := Apply(Run(events), e);
      var d := DecisionOf(Run(events).s, e).value;
      Newest(w).Some? && Newest(w).value.Content() == Wanted(InputOf(w.s.cache, d.0, d.1))
  {
    hide Run, EnvelopeOf, Wanted, InputOf, Next, DecisionOf, Declines, Sound, Spaced;
    var w := Run(events);
    NewestIsWhatTheWriterKeeps(events);
    WritesAreSpacedAndSound(events);
    ApplyKeepsSync(w, e);
    NextDecides(w.s, e);
    var d := DecisionOf(w.s, e).value;
    NowOf(Next(w.s, e).cache, d.0, d.1);
    LateDecision(w.s.writer, InputOf(Next(w.s, e).cache, d.0, d.1));
  }

  lemma LateDecision(wr: Writer, x: Input)
    requires x.Shape() && (!wr.wrote || wr.lastWrite + MIN_CHANGED_NS <= x.now)
    ensures Updated(wr, x).0.wrote && Updated(wr, x).0.last == Wanted(x)
  {
    hide Wanted, EnvelopeOf, Urgent;
  }

  // ---- the objects ----

  class ConnEpochTracker {
    var initialized: bool
    var epoch: nat

    ghost function State(): Tracker
      reads this
    {
      Tracker(initialized, epoch)
    }

    constructor ()
      ensures State() == NO_EPOCH
    {
      initialized, epoch := false, 0;
    }

    method Update(e: nat) returns (changed: bool)
      modifies this
      ensures (State(), changed) == Tracked(old(State()), e)
    {
      if !initialized || e != epoch {
        initialized := true;
        epoch := e;
        return true;
      }
      return false;
    }
  }

  class NavLinkCache {
    var value: Summary

    constructor ()
      ensures value == NO_REPLY
    {
      value := NO_REPLY;
    }

    method OnReply(at: U64, tEof: U64, ext: NavExt)
      modifies this
      ensures value == Summary(at, tEof, ext.present, ext.health, ext.curve, ext.state.age)
    {
      value := Summary(at, tEof, ext.present, ext.health, ext.curve, ext.state.age);
    }

    method Reset()
      modifies this
      ensures value == NO_REPLY
    {
      value := NO_REPLY;
    }
  }

  class LinkSession {
    const tracker: ConnEpochTracker
    const cache: NavLinkCache
    const writer: MapTargetWriter
    var helloSeen: bool
    var pending: Option<Envelope>

    ghost function Parts(): set<object> {
      {tracker, cache, writer, writer.lastPoints}
    }

    ghost predicate Valid()
      reads this, Parts()
    {
      this !in Parts() && writer.Valid() && |cache.value.curve.points| == CURVE_MAX_POINTS
    }

    ghost function State(): Session
      requires Valid()
      reads this, Parts()
    {
      Session(tracker.State(), cache.value, writer.State(), helloSeen, pending)
    }

    constructor ()
      ensures Valid() && fresh(Parts()) && State() == NEW_SESSION
    {
      tracker := new ConnEpochTracker();
      cache := new NavLinkCache();
      writer := new MapTargetWriter();
      helloSeen, pending := false, None;
    }

    method DecideNow(link: bool, now: U64)
      requires Valid()
      modifies this`pending, writer, writer.lastPoints
      ensures Valid() && State() == Decide(old(State()), link, now)
    {
      hide Updated;
      var e := writer.Update(InputOf(cache.value, link, now));
      if e.Some? {
        pending := e;
      }
    }

    method OnDisconnect(now: U64)
      requires Valid()
      modifies this, Parts()
      ensures Valid() && State() == Disconnected(old(State()), now)
    {
      hide Decide;
      helloSeen := false;
      cache.Reset();
      DecideNow(false, now);
    }

    method OnEpoch(epoch: nat, now: U64) returns (changed: bool)
      requires Valid()
      modifies this, Parts()
      ensures Valid() && State() == Next(old(State()), Epoch(epoch, now))
      ensures changed == Tracked(old(State()).tracker, epoch).1
    {
      hide Decide, Disconnected;
      changed := tracker.Update(epoch);
      if changed {
        OnDisconnect(now);
      }
    }

    method OnHelloOk()
      requires Valid()
      modifies this`helloSeen
      ensures Valid() && State() == Next(old(State()), HelloOk)
    {
      helloSeen := true;
    }

    method OnReply(at: U64, tEof: U64, ext: NavExt, now: U64)
      requires Valid() && ext.Shape()
      modifies this, Parts()
      ensures Valid() && State() == Next(old(State()), GotReply(at, tEof, ext, now))
    {
      hide Decide;
      cache.OnReply(at, tEof, ext);
      DecideNow(true, now);
    }

    method OnIdle(connected: bool, now: U64)
      requires Valid()
      modifies this, Parts()
      ensures Valid() && State() == Next(old(State()), Idle(connected, now))
    {
      hide Decide, Disconnected;
      if !connected {
        OnDisconnect(now);
        return;
      }
      DecideNow(true, now);
    }

    method Take() returns (out: Option<Envelope>)
      requires Valid()
      modifies this`pending
      ensures Valid() && out == old(pending) && State() == Next(old(State()), TakePending)
    {
      out, pending := pending, None;
    }
  }
}
