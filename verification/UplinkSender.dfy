/** The sender object over a socket, refining the state machine of module Uplink. */
module UplinkSender {
  import opened DropWindow
  import opened Options
  import opened Uplink
  import opened UplinkRuns
  import opened Wire

  /** A socket that answers as it likes: -1 is an error, 0 would block, n > 0 took n bytes. */
  class Socket {
    var replies: seq<int>
    var written: seq<U8>

    constructor ()
      ensures replies == [] && written == []
    {
      replies, written := [], [];
    }

    method WriteSome(data: seq<U8>) returns (n: int)
      modifies this
      ensures -1 <= n <= |data|
      ensures replies == old(replies) + [n]
      ensures written == if n <= 0 then old(written) else old(written) + data[..n]
    {
      n :| -1 <= n <= |data|;
      replies := replies + [n];
      if n > 0 {
        written := written + data[..n];
      }
    }

    method Connect() returns (ok: bool)
    {
      ok := *;
    }
  }

  /** After these replies the frame has come to f with `out` on the wire, and the rest is as from f. */
  ghost predicate Reached(f0: OutFrame, done: seq<int>, f: OutFrame, out: seq<U8>)
    requires f0.Ok() && f.Ok()
  {
    forall rest: seq<int> ::
      WriteOut(f0, done + rest) ==
        Written(WriteOut(f, rest).frame, WriteOut(f, rest).state, out + WriteOut(f, rest).bytes)
  }

  lemma ReachedStart(f: OutFrame)
    requires f.Ok()
    ensures Reached(f, [], f, [])
  {
    hide WriteOut, OutFrame.Ok;
    forall rest: seq<int>
      ensures WriteOut(f, [] + rest) ==
              Written(WriteOut(f, rest).frame, WriteOut(f, rest).state, [] + WriteOut(f, rest).bytes)
    {
      assert [] + rest == rest;
      assert [] + WriteOut(f, rest).bytes == WriteOut(f, rest).bytes;
    }
  }

  lemma WriteOutStep(f: OutFrame, n: int, rest: seq<int>)
    requires f.Ok() && !Waiting(f) && n > 0
    ensures var g := Advance(f, n);
            && Extends(f, g, Taken(f, n)) && g.Ok()
            && WriteOut(f, [n] + rest) ==
                 if g.Complete() then Written(g, Done, Taken(f, n))
                 else Written(WriteOut(g, rest).frame, WriteOut(g, rest).state, Taken(f, n) + WriteOut(g, rest).bytes)
  {
    hide OutFrame.Ok, OutFrame.Complete, OutFrame.Sent, Advance, Taken, Waiting;
    AdvanceOk(f, n);
    assert ([n] + rest)[1..] == rest;
  }

  lemma WriteOutStop(f: OutFrame, last: seq<int>)
    requires f.Ok() && (if Waiting(f) then last == [] else |last| == 1 && last[0] <= 0)
    ensures WriteOut(f, last) == Written(f, if last != [] && last[0] < 0 then Error else Blocked, [])
  {}

  lemma ReachedAt(f0: OutFrame, done: seq<int>, f: OutFrame, out: seq<U8>, rest: seq<int>)
    requires f0.Ok() && f.Ok() && Reached(f0, done, f, out)
    ensures WriteOut(f0, done + rest) ==
              Written(WriteOut(f, rest).frame, WriteOut(f, rest).state, out + WriteOut(f, rest).bytes)
  {
    hide OutFrame.Ok, WriteOut;
  }

  lemma ReachedMore(f0: OutFrame, done: seq<int>, f: OutFrame, out: seq<U8>, n: int)
    requires f0.Ok() && f.Ok() && Reached(f0, done, f, out)
    requires !Waiting(f) && n > 0
    ensures Advance(f, n).Ok()
    ensures if Advance(f, n).Complete() then WriteOut(f0, done + [n]) == Written(Advance(f, n), Done, out + Taken(f, n))
            else Reached(f0, done + [n], Advance(f, n), out + Taken(f, n))
  {
    hide OutFrame.Ok, OutFrame.Complete, OutFrame.Sent, Advance, Taken, Extends, Waiting, WriteOut;
    var g, t := Advance(f, n), Taken(f, n);
    WriteOutStep(f, n, []);
    if g.Complete() {
      assert [n] + [] == [n];
      ReachedAt(f0, done, f, out, [n]);
    } else {
      forall rest: seq<int>
        ensures WriteOut(f0, done + [n] + rest) ==
                Written(WriteOut(g, rest).frame, WriteOut(g, rest).state, out + t + WriteOut(g, rest).bytes)
      {
        WriteOutStep(f, n, rest);
        ReachedAt(f0, done, f, out, [n] + rest);
        assert done + [n] + rest == done + ([n] + rest);
        assert out + (t + WriteOut(g, rest).bytes) == out + t + WriteOut(g, rest).bytes;
      }
    }
  }

  /** Where the loop stops, the machine stops. */
  lemma ReachedEnd(f0: OutFrame, done: seq<int>, f: OutFrame, out: seq<U8>, last: seq<int>)
    requires f0.Ok() && f.Ok() && Reached(f0, done, f, out)
    requires if Waiting(f) then last == [] else |last| == 1 && last[0] <= 0
    ensures WriteOut(f0, done + last) == Written(f, if last != [] && last[0] < 0 then Error else Blocked, out)
  {
    hide OutFrame.Ok, WriteOut, Waiting;
    WriteOutStop(f, last);
    assert out + [] == out;
  }

  lemma AppendAssoc<T>(a: seq<T>, b: seq<T>, c: seq<T>)
    ensures a + b + c == a + (b + c)
  {}

  lemma AppendNothing<T>(a: seq<T>)
    ensures a + [] == a
  {}

  class Sender {
    const cfg: Config
    const sock: Socket
    var connected: bool
    var connEpoch: nat
    var streamOpen: bool
    var connectFailures: nat
    var inflight: Option<OutFrame>
    var queued: Option<OutFrame>
    var lastProgress: nat
    var dropped: Ring
    var events: seq<Event>

    ghost function State(): Uplink.Sender
      reads this
    {
      Uplink.Sender(cfg, connected, connEpoch, streamOpen, connectFailures, inflight, queued, lastProgress, dropped,
                    events)
    }

    constructor (sock: Socket, cfg: Config)
      ensures State() == Initial(cfg) && this.sock == sock && Sound(State())
    {
      this.cfg, this.sock := cfg, sock;
      connected, connEpoch, streamOpen, connectFailures := false, 0, false, 0;
      inflight, queued, lastProgress, dropped, events := None, None, 0, EMPTY, [];
    }

    method Emit(kind: EventKind, idx: nat)
      modifies this`events
      ensures State() == old(State()).Emit(kind, idx)
    {
      events := events + [Event(kind, idx, connEpoch)];
    }

    method FindSlot(idx: U32) returns (slot: Slot)
      requires dropped.Valid()
      modifies this
      ensures (State(), slot) == FindOrCreate(old(State()), idx)
    {
      if inflight.Some? && inflight.value.idx == idx {
        return InFlight;
      }
      if queued.Some? && queued.value.idx == idx {
        return Queued;
      }
      if dropped.Contains(idx) {
        return NoSlot;
      }
      if inflight.Some? && idx < inflight.value.idx {
        return NoSlot;
      }
      if queued.Some? && idx < queued.value.idx {
        return NoSlot;
      }
      if queued.Some? {
        var dead, gap := queued.value.idx, streamOpen;
        dropped := dropped.Note(dead);
        Emit(if gap then Drop else HeadBarrier, dead);
        if gap {
          streamOpen := false;
        }
        queued := None;
      }
      queued := Some(NewFrame(idx));
      return Queued;
    }

    method Resolve()
      requires dropped.Valid()
      modifies this
      ensures State() == ResolveGate(old(State()))
    {
      if streamOpen || queued.None? {
        return;
      }
      var f := queued.value;
      if f.road.None? || f.wide.None? {
        return;
      }
      if f.road.value.actual && f.wide.value.actual && f.road.value.predicted && f.road.value.widePredicted {
        streamOpen := true;
        return;
      }
      dropped := dropped.Note(f.idx);
      queued := None;
      Emit(HeadBarrier, f.idx);
    }

    method SubmitRoadSegment(r: RoadSub)
      requires Sound(State()) && r.Ok()
      modifies this
      ensures State() == SubmitRoad(old(State()), r) && Sound(State())
    {
      SubmitRoadSound(State(), r);
      hide OutFrame.Ok, OutFrame.Complete, OutFrame.Unsent, RoadSub.Ok, FindOrCreate, ResolveGate;
      if !connected || r.epoch != connEpoch {
        return;
      }
      FindKeepsRing(State(), r.idx);
      var slot := FindSlot(r.idx);
      match slot
      case NoSlot =>
      case InFlight =>
        if inflight.value.road.None? {
          inflight := Some(inflight.value.(road := Some(r)));
          Resolve();
        }
      case Queued =>
        if queued.value.road.None? {
          queued := Some(queued.value.(road := Some(r)));
          Resolve();
        }
    }

    method SubmitWideSegment(x: WideSub)
      requires Sound(State()) && x.Ok()
      modifies this
      ensures State() == SubmitWide(old(State()), x) && Sound(State())
    {
      SubmitWideSound(State(), x);
      hide OutFrame.Ok, OutFrame.Complete, OutFrame.Unsent, WideSub.Ok, FindOrCreate, ResolveGate;
      if !connected || x.epoch != connEpoch {
        return;
      }
      FindKeepsRing(State(), x.idx);
      var slot := FindSlot(x.idx);
      match slot
      case NoSlot =>
      case InFlight =>
        if inflight.value.wide.None? {
          inflight := Some(inflight.value.(wide := Some(x)));
          Resolve();
        }
      case Queued =>
        if queued.value.wide.None? {
          queued := Some(queued.value.(wide := Some(x)));
          Resolve();
        }
    }

    method DropLink()
      modifies this
      ensures State() == DropConnection(old(State()))
    {
      connected := false;
      streamOpen := false;
      inflight := None;
      queued := None;
    }

    /** One write of what is pending. */
    method Offer(f: OutFrame) returns (n: int, g: OutFrame)
      requires f.Ok() && !Waiting(f)
      modifies sock
      ensures sock.replies == old(sock.replies) + [n]
      ensures n <= 0 ==> g == f && sock.written == old(sock.written)
      ensures n > 0 ==> g == Advance(f, n) && g.Ok() && Remaining(g) < Remaining(f)
                        && sock.written == old(sock.written) + Taken(f, n)
    {
      hide OutFrame.Ok, OutFrame.Complete, OutFrame.Sent, Advance, Taken, Waiting, Pending, Remaining;
      g := f;
      n := sock.WriteSome(Pending(f));
      if n > 0 {
        TakenIsPending(f, n);
        AdvanceOk(f, n);
        ExtendsOk(f, Advance(f, n), Taken(f, n));
        AdvanceShrinks(f, n);
        g := Advance(f, n);
      }
    }

    /** The write loop: whatever the socket takes goes on until the frame is out, or the socket blocks or fails. */
    method WriteFrame(f0: OutFrame) returns (f: OutFrame, state: WriteState, ghost replies: seq<int>)
      requires f0.Ok() && !f0.Complete()
      modifies sock
      ensures sock.replies == old(sock.replies) + replies
      ensures f == WriteOut(f0, replies).frame && state == WriteOut(f0, replies).state
      ensures sock.written == old(sock.written) + WriteOut(f0, replies).bytes
    {
      hide OutFrame.Ok, OutFrame.Complete, OutFrame.Sent, Advance, Taken, Reached, Waiting, WriteOut, Pending;
      hide Remaining;
      f, replies := f0, [];
      ghost var out: seq<U8> := [];
      ghost var log0, wrote0 := sock.replies, sock.written;
      ReachedStart(f0);
      AppendNothing(log0);
      AppendNothing(wrote0);
      while true
        invariant f.Ok() && Reached(f0, replies, f, out)
        invariant sock.replies == log0 + replies && sock.written == wrote0 + out
        decreases Remaining(f)
      {
        if Waiting(f) {
          ReachedEnd(f0, replies, f, out, []);
          AppendNothing(replies);
          return f, Blocked, replies;
        }
        var n, g := Offer(f);
        AppendAssoc(log0, replies, [n]);
        if n <= 0 {
          ReachedEnd(f0, replies, f, out, [n]);
          return f, if n < 0 then Error else Blocked, replies + [n];
        }
        ReachedMore(f0, replies, f, out, n);
        AppendAssoc(wrote0, out, Taken(f, n));
        replies, out, f := replies + [n], out + Taken(f, n), g;
        if f.Complete() {
          return f, Done, replies;
        }
      }
    }

    /** An open or qualifying gate lets the queued frame go in flight. */
    method StartQueued(now: nat) returns (started: bool)
      requires Sound(State()) && connected
      modifies this
      ensures State() == TryStart(old(State()), now).0 && started == TryStart(old(State()), now).1.Some?
    {
      hide OutFrame.Ok, OutFrame.Complete, OutFrame.Sent, OutFrame.Unsent, ResolveGate;
      if !streamOpen {
        Resolve();
      }
      started := streamOpen && inflight.None? && queued.Some? && queued.value.road.Some?;
      if started {
        inflight, queued, lastProgress := queued, None, now;
      }
    }

    /** Writes what the socket takes of the frame in flight; gives the connection up on an error or a stall. */
    method SendInflight(now: nat, started: bool, ghost begun: Option<OutFrame>)
      returns (progress: bool, ghost replies: seq<int>, ghost finishReplies: seq<int>)
      requires connected && inflight.Some? && inflight.value.Ok() && !inflight.value.Complete()
      requires started == begun.Some?
      modifies this, sock
      ensures var r := Send(old(State()), old(inflight.value), Tick(now, replies, finishReplies, false, 0), begun);
              State() == r.sender && progress == r.progress && sock.written == old(sock.written) + r.written
      ensures sock.replies == old(sock.replies) + replies + finishReplies
    {
      hide OutFrame.Ok, OutFrame.Complete, OutFrame.Sent, WriteOut, Elapsed, Extends;
      finishReplies := [];
      progress := started;
      var f0 := inflight.value;
      var f, ws, log := WriteFrame(f0);
      replies := log;
      AppendNothing(sock.replies);
      WriteOutOk(f0, log);
      ghost var out := WriteOut(f0, log).bytes;
      BytesMoved(f0, f, out);
      inflight := Some(f);
      if f.sent1 + f.sent2 != f0.sent1 + f0.sent2 {
        lastProgress := now;
      }
      match ws
      case Done =>
        inflight := None;
        Emit(FrameSent, f0.idx);
        return true, replies, finishReplies;
      case Error =>
        DropLink();
      case Blocked =>
        progress := progress || f.sent1 + f.sent2 != f0.sent1 + f0.sent2;
        if Elapsed(now, lastProgress) >= cfg.stallMs {
          Emit(Stall, f0.idx);
          ExtendsOk(f0, f, out);
          var g, ws2, log2 := WriteFrame(f);
          finishReplies := log2;
          if ws2.Done? {
            inflight := None;
            Emit(FrameSent, f0.idx);
          }
          DropLink();
          AppendAssoc(old(sock.written), out, WriteOut(f, log2).bytes);
        }
    }

    method TryConnect(connectedAt: nat) returns (ok: bool)
      requires dropped.Valid() && !connected
      modifies this, sock
      ensures State() == ConnectStep(old(State()), Tick(0, [], [], ok, connectedAt))
      ensures sock.written == old(sock.written) && sock.replies == old(sock.replies)
    {
      ok := sock.Connect();
      if ok {
        connected := true;
        streamOpen := false;
        connEpoch := connEpoch + 1;
        dropped := dropped.Cleared();
        connectFailures := 0;
        lastProgress := connectedAt;
        Emit(NewConnection, 0);
      } else {
        connectFailures := connectFailures + 1;
        if connectFailures == cfg.maxConnectFailures {
          Emit(LinkLost, 0);
        }
      }
    }

    /** One iteration of the sender thread; the returned tick records how the socket behaved. */
    method RunStep(now: nat, connectedAt: nat) returns (progress: bool, ghost tick: Tick)
      requires Sound(State())
      modifies this, sock
      ensures tick.now == now && (tick.connectedAt == connectedAt || old(connected))
      ensures var r := Step(old(State()), tick);
              State() == r.sender && progress == r.progress && sock.written == old(sock.written) + r.written
      ensures sock.replies == old(sock.replies) + tick.replies + tick.finishReplies
      ensures Sound(State())
    {
      hide OutFrame.Ok, OutFrame.Complete, OutFrame.Sent, OutFrame.Unsent, TryStart, Send, Ring.Valid;
      AppendNothing(sock.replies);
      tick := Tick(now, [], [], false, 0);
      if !connected {
        progress := TryConnect(connectedAt);
        tick := Tick(now, [], [], progress, connectedAt);
        ConnectIgnoresReplies(old(State()), tick, Tick(0, [], [], progress, connectedAt));
        assert sock.written == old(sock.written) + [];
        StepSound(old(State()), tick);
        return;
      }
      StartSound(State(), now);
      ghost var start := TryStart(State(), now);
      progress := StartQueued(now);
      if inflight.None? {
        assert sock.written == old(sock.written) + [];
        StepSound(old(State()), tick);
        return;
      }
      ghost var replies, finishReplies;
      progress, replies, finishReplies := SendInflight(now, progress, start.1);
      tick := Tick(now, replies, finishReplies, false, 0);
      StepSound(old(State()), tick);
    }

    method NotifyLost()
      modifies this
      ensures State() == NotifyDisconnect(old(State()))
      ensures old(Sound(State())) ==> Sound(State())
    {
      if connected {
        DropLink();
      }
    }

    method NotifyGap()
      modifies this
      ensures State() == NotifyStreamGap(old(State()))
      ensures old(Sound(State())) ==> Sound(State())
    {
      streamOpen := false;
    }
  }

  lemma ConnectIgnoresReplies(s: Uplink.Sender, t: Tick, u: Tick)
    requires s.dropped.Valid() && t.connectOk == u.connectOk && t.connectedAt == u.connectedAt
    ensures ConnectStep(s, t) == ConnectStep(s, u)
  {}

  /** Bytes were written iff the counters moved. */
  lemma BytesMoved(f: OutFrame, g: OutFrame, out: seq<U8>)
    requires Extends(f, g, out)
    ensures out == [] <==> g.sent1 + g.sent2 == f.sent1 + f.sent2
  {
    hide RoadSub.Chunk, WideSub.Chunk;
    assert |g.Sent()| == g.sent1 + g.sent2;
    assert |f.Sent()| == f.sent1 + f.sent2;
  }

  /** The bytes offered to the socket next. */
  function Pending(f: OutFrame): seq<U8>
    requires f.Ok()
  {
    if f.done1 then f.Chunk2()[f.sent2..] else f.Chunk1()[f.sent1..]
  }

  function Remaining(f: OutFrame): nat
    requires f.Ok()
  {
    (|f.Chunk1()| - f.sent1) + (|f.Chunk2()| - f.sent2)
  }

  lemma TakenIsPending(f: OutFrame, n: int)
    requires f.Ok() && 0 < n <= |Pending(f)|
    ensures Taken(f, n) == Pending(f)[..n]
  {}

  lemma AdvanceShrinks(f: OutFrame, n: int)
    requires f.Ok() && 0 < n <= |Pending(f)| && Advance(f, n).Ok()
    ensures Remaining(Advance(f, n)) < Remaining(f)
  {
    hide RoadSub.Chunk, WideSub.Chunk;
  }

  lemma FindKeepsRing(s: Uplink.Sender, idx: U32)
    requires s.dropped.Valid()
    ensures FindOrCreate(s, idx).0.dropped.Valid()
    ensures FindOrCreate(s, idx).1.InFlight? ==> FindOrCreate(s, idx).0.inflight.Some?
    ensures FindOrCreate(s, idx).1.Queued? ==> FindOrCreate(s, idx).0.queued.Some?
  {}
}
