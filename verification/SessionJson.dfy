/** The parser and the session together: a running session is closing exactly when the last request
    it handled was not an acceptable JSON document. */
module SessionJson {
  import opened Bytes
  import opened Protocol
  import opened Session
  import opened SessionInv
  import opened SessionRuns
  import opened SessionSteps
  import Json
  import JsonTokens
  import Up = Upload

  predicate Readable(f: Frame) {
    f.kind == REQUEST ==> Json.Parse(f.payload).Some?
  }

  predicate AllReadable(fs: seq<Frame>) {
    forall i :: 0 <= i < |fs| ==> Readable(fs[i])
  }

  /** The decoded frames the session is done with: all but the one its decoder still holds. */
  function Past(s: Session, log: Log): seq<Frame> {
    if CurrentFrame(s.decoder).Some? && log.decoded != [] then log.decoded[..|log.decoded| - 1] else log.decoded
  }

  predicate ReadInv(s: Session, log: Log) {
    s.result.Running? ==>
      var past := Past(s, log);
      if s.closing then past != [] && !Readable(past[|past| - 1]) && AllReadable(past[..|past| - 1])
      else AllReadable(past)
  }

  lemma FinishEnded(cfg: Config, t: Turn, r: Result)
    requires !r.Running?
    ensures var u := Finish(cfg, t, r); !u.s.result.Running? && ReadInv(u.s, u.log)
  {
    hide Detached, ReleasedIfOwned, Past, AllReadable, Readable;
  }

  predicate Pending(t: Turn, f: Frame) {
    && CurrentFrame(t.s.decoder) == Some(f) && f.kind != SERIAL
    && t.log.decoded != [] && t.log.decoded[|t.log.decoded| - 1] == f
  }

  /** dispatch() closes exactly on an unreadable request. */
  lemma DispatchReads(cfg: Config, t: Turn, f: Frame, io: Io)
    requires Pending(t, f) && !t.s.closing
    ensures var u := Dispatch(cfg, t, f, io);
      u.s.result.Running? ==>
        && u.log.decoded == t.log.decoded && u.s.decoder.status.Incomplete? && (u.s.closing <==> !Readable(f))
  {
    hide Finish, DispatchUploadFrame, DispatchNotJson, DispatchCall, CurrentFrame, JsonTokens.DocumentTokens, Json.Parse;
    var n := Noted(t, f.request);
    FinishEnded(cfg, t, ProtocolError);
    UploadFrameQuietly(cfg, n, f.request, f.payload);
    NotJsonCloses(cfg, n, f.request, io.now);
    CallQuietly(cfg, n, f.request, cfg.read(f.payload, JsonTokens.DocumentTokens(f.payload)), io);
  }

  lemma DispatchReadInv(cfg: Config, t: Turn, f: Frame, io: Io)
    requires Pending(t, f) && !t.s.closing && t.s.result.Running? && ReadInv(t.s, t.log)
    ensures var u := Dispatch(cfg, t, f, io); ReadInv(u.s, u.log)
  {
    hide Dispatch, Readable, FrameOf;
    DispatchReads(cfg, t, f, io);
    var d := t.log.decoded;
    assert d == d[..|d| - 1] + [f];
  }

  // ---- The stream ----

  /** A step that at most takes a serial frame from the decoder. */
  predicate Streams(t: Turn, u: Turn) {
    u.s.result.Running? ==>
      && t.s.result.Running? && u.log.decoded == t.log.decoded && u.s.closing == t.s.closing
      && (CurrentFrame(u.s.decoder) == CurrentFrame(t.s.decoder) ||
          (CurrentFrame(u.s.decoder).None? && CurrentFrame(t.s.decoder).value.kind == SERIAL))
  }

  predicate LastHeld(s: Session, log: Log) {
    CurrentFrame(s.decoder).Some? ==>
      log.decoded != [] && log.decoded[|log.decoded| - 1] == CurrentFrame(s.decoder).value
  }

  lemma StreamsReadInv(t: Turn, u: Turn)
    requires Streams(t, u) && ReadInv(t.s, t.log) && LastHeld(t.s, t.log) && !t.s.closing
    ensures ReadInv(u.s, u.log)
  {
    hide CurrentFrame;
    var d := t.log.decoded;
    if u.s.result.Running? && CurrentFrame(u.s.decoder).None? && CurrentFrame(t.s.decoder).Some? {
      assert d == d[..|d| - 1] + [CurrentFrame(t.s.decoder).value];
    }
  }

  lemma FinishStreams(cfg: Config, t: Turn, r: Result)
    requires !r.Running?
    ensures Streams(t, Finish(cfg, t, r))
  {
    hide Detached, ReleasedIfOwned, CurrentFrame;
  }

  lemma PumpStreams(cfg: Config, t: Turn, io: Io)
    requires t.s.result.Running?
    ensures Streams(t, Pump(cfg, t, io))
  {
    hide Finish, PumpIn, PumpFill, PumpOut, CurrentFrame;
    FinishStreams(cfg, t, IoError);
    FailedStreams(cfg, t, t);
    var (t1, ok1) := PumpIn(t, io.backend);
    PumpInStreams(t, io.backend);
    FailedStreams(cfg, t, t1);
    var (t2, ok2) := PumpFill(t1, io.backend);
    PumpFillStreams(t1, io.backend);
    FailedStreams(cfg, t, t2);
    PumpOutStreams(cfg, t2);
  }

  lemma FailedStreams(cfg: Config, t: Turn, u: Turn)
    ensures Streams(t, PumpFailed(cfg, u))
  {
    hide Finish, CurrentFrame;
    FinishEnded(cfg, u.(ch := u.ch.(owner := 0, toBackend := [], toPeer := []), events := u.events + [Shut]), IoError);
  }

  lemma PumpInStreams(t: Turn, b: Backend)
    ensures Streams(t, PumpIn(t, b).0)
  {
    hide Read, CurrentFrame, Count;
    ReadStreams(t.s, STREAM_CAPACITY);
  }

  lemma ReadStreams(s: Session, capacity: nat)
    ensures var r := Read(s, capacity).0;
      && r.result == s.result && r.closing == s.closing
      && (r.decoder == s.decoder || (CurrentFrame(r.decoder).None? && CurrentFrame(s.decoder).Some? &&
                                     CurrentFrame(s.decoder).value.kind == SERIAL))
  {
    hide Unread, FrameOf;
  }

  lemma PumpFillStreams(t: Turn, b: Backend)
    ensures PumpFill(t, b).0.s == t.s && PumpFill(t, b).0.log.decoded == t.log.decoded
  {
  }

  lemma PumpOutStreams(cfg: Config, t: Turn)
    ensures Streams(t, PumpOut(cfg, t))
  {
    hide Queue, CurrentFrame, Be32;
    forall f { QueueStreams(cfg, t, f); }
  }

  lemma QueueStreams(cfg: Config, t: Turn, f: Frame)
    ensures Streams(t, Queue(cfg, t, f))
  {
    hide Finish, Encode, CurrentFrame;
    FinishStreams(cfg, t, IoError);
  }

  lemma ActStreamStreams(cfg: Config, t: Turn, io: Io)
    requires t.s.result.Running?
    ensures Streams(t, ActStream(cfg, t, io))
  {
    hide Pump, CurrentFrame;
    PumpStreams(cfg, t, io);
  }

  // ---- One poll ----

  lemma ReceiveReads(t: Turn, arrived: seq<byte>, now: uint32)
    requires ReadInv(t.s, t.log) && t.s.decoder.status.Incomplete?
    ensures var u := Receive(t, arrived, now); ReadInv(u.s, u.log)
  {
    hide Fed, Readable, FrameOf;
  }

  lemma ActReads(cfg: Config, h: Home, t: Turn, io: Io)
    requires Kept(cfg, h, t) && t.s.result.Running? && !t.s.closing && ReadInv(t.s, t.log)
    ensures var u := Act(cfg, t, io); ReadInv(u.s, u.log)
  {
    hide Kept, ReadInv, Pump, Dispatch, Finish, CurrentFrame, ActStream;
    KeptHolds(cfg, h, t);
    StreamReads(cfg, t, io);
    if CurrentFrame(t.s.decoder).Some? {
      var f := CurrentFrame(t.s.decoder).value;
      if f.kind == SERIAL {
        FinishEnded(cfg, t, ProtocolError);
        if !CheckSerial(cfg, t, f).s.result.Running? {
          StreamIdle(cfg, CheckSerial(cfg, t, f), io);
        }
      } else if t.s.output == [] && t.s.owned && t.s.dataTurn {
        AlternateReads(cfg, h, t, f, io);
      } else if t.s.output == [] {
        DispatchReadInv(cfg, t, f, io);
        DispatchKeeps(cfg, h, t, f, io);
        DispatchedStream(cfg, h, Dispatch(cfg, t, f, io), io);
      }
    }
  }

  lemma KeptHolds(cfg: Config, h: Home, t: Turn)
    requires Kept(cfg, h, t)
    ensures LastHeld(t.s, t.log)
    ensures t.s.owned ==> !t.s.closing
  {
    hide WireInv, FlowInv, EventInv, DetachInv, OffsetInv, CurrentFrame, ReplyIds, AskedIds, HomeInv, Paid, Asked;
  }

  lemma StreamIdle(cfg: Config, t: Turn, io: Io)
    requires !t.s.result.Running?
    ensures ActStream(cfg, t, io) == t
  {
  }

  lemma StreamReads(cfg: Config, t: Turn, io: Io)
    requires t.s.result.Running? && !t.s.closing && LastHeld(t.s, t.log) && ReadInv(t.s, t.log)
    ensures var u := ActStream(cfg, t, io); ReadInv(u.s, u.log)
  {
    hide ActStream, ReadInv, LastHeld;
    ActStreamStreams(cfg, t, io);
    StreamsReadInv(t, ActStream(cfg, t, io));
  }

  /** After a dispatch the stream is pumped only for a session that still owns it. */
  lemma DispatchedStream(cfg: Config, h: Home, t: Turn, io: Io)
    requires Kept(cfg, h, t) && ReadInv(t.s, t.log)
    ensures var u := ActStream(cfg, t, io); ReadInv(u.s, u.log)
  {
    hide Kept, ReadInv, Pump;
    KeptHolds(cfg, h, t);
    if t.s.result.Running? && t.s.owned {
      StreamReads(cfg, t, io);
    }
  }

  lemma AlternateReads(cfg: Config, h: Home, t: Turn, f: Frame, io: Io)
    requires Kept(cfg, h, t) && t.s.result.Running? && !t.s.closing && ReadInv(t.s, t.log)
    requires CurrentFrame(t.s.decoder) == Some(f) && f.kind != SERIAL
    ensures var t1 := Pump(cfg, t, io); ReadInv(t1.s, t1.log)
    ensures var t1 := Pump(cfg, t, io);
      t1.s.result.Running? ==>
        var t2 := t1.(s := t1.s.(dataTurn := false));
        && ReadInv(t2.s, t2.log)
        && (var u := Dispatch(cfg, t2, f, io); ReadInv(u.s, u.log))
  {
    hide Kept, Pump, Dispatch, CurrentFrame, AllReadable;
    KeptHolds(cfg, h, t);
    PumpStreams(cfg, t, io);
    var t1 := Pump(cfg, t, io);
    StreamsReadInv(t, t1);
    if t1.s.result.Running? {
      DispatchReadInv(cfg, t1.(s := t1.s.(dataTurn := false)), f, io);
    }
  }

  lemma PollOpenReads(cfg: Config, h: Home, t: Turn, io: Io)
    requires Kept(cfg, h, t) && t.s.result.Running? && !t.s.closing && ReadInv(t.s, t.log)
    ensures var u := PollOpen(cfg, t, io); ReadInv(u.s, u.log)
  {
    hide Kept, ReadInv, Finish, Act, Receive, Needed;
    FinishEnded(cfg, t, IoError);
    FinishEnded(cfg, t, ProtocolError);
    if t.s.decoder.status.Incomplete? && |io.arrives| <= Min(Needed(t.s.decoder), READ_CAPACITY) {
      ReceiveKeeps(cfg, h, t, io.arrives, io.now);
      ReceiveReads(t, io.arrives, io.now);
      var t1 := Receive(t, io.arrives, io.now);
      ReceiveFrame(t, io.arrives, io.now);
      FinishEnded(cfg, t1, ProtocolError);
      ActReads(cfg, h, t1, io);
    } else if !t.s.decoder.status.Incomplete? {
      ActReads(cfg, h, t, io);
    }
  }

  lemma FlushReads(t: Turn, accepted: nat, now: uint32)
    requires accepted <= |t.s.output| && ReadInv(t.s, t.log)
    ensures var u := Flush(t, accepted, now); ReadInv(u.s, u.log) && u.s.closing == t.s.closing && u.s.result == t.s.result
  {
    hide CurrentFrame, AllReadable, Readable;
  }

  lemma PollReads(cfg: Config, h: Home, t: Turn, io: Io)
    requires Kept(cfg, h, t) && ReadInv(t.s, t.log)
    ensures var u := Poll(cfg, t, io); ReadInv(u.s, u.log)
  {
    hide Kept, ReadInv, Finish, PollOpen, Expired, Flush;
    forall r: Result | !r.Running? { FinishEnded(cfg, t, r); }
    if t.s.result.Running? && (t.s.output == [] || io.accepts <= |t.s.output|) {
      if t.s.output != [] {
        FlushKeeps(cfg, h, t, io.accepts, io.now);
        FlushReads(t, io.accepts, io.now);
      }
      var t1 := if t.s.output != [] then Flush(t, io.accepts, io.now) else t;
      FinishEnded(cfg, t1, ProtocolError);
      if !t1.s.closing {
        PollOpenReads(cfg, h, t1, io);
      }
    }
  }

  // ---- Whole runs ----

  predicate AllRead(w: World) {
    forall token :: token in w.entries ==> ReadInv(w.entries[token].s, w.entries[token].log)
  }

  lemma StepReads(cfg: Config, w: World, a: Action)
    requires WorldInv(cfg, w) && Enabled(cfg, w, a) && AllRead(w)
    ensures AllRead(Next(cfg, w, a))
  {
    hide WorldInv, Kept, ReadInv, Poll, CloseSession, ServicePolled, NewSession;
    match a
    case Create(token, sound, now) => NewReads(token, sound, now);
    case PollCall(token, io) =>
      EntryKept(cfg, w, token);
      PollReads(cfg, Home(token, w.ch), TurnOf(w, token), io);
    case CloseCall(token) => CloseReads(cfg, TurnOf(w, token));
    case Destroy(token) =>
    case UploadPoll(e) =>
  }

  lemma NewReads(token: uint32, sound: bool, now: uint32)
    ensures ReadInv(NewSession(token, sound, now), NewLog(now))
  {
  }

  lemma CloseReads(cfg: Config, t: Turn)
    ensures var u := CloseSession(cfg, t); ReadInv(u.s, u.log)
  {
    hide Finish, ReadInv;
    FinishEnded(cfg, t, if t.s.result.Running? then Closed else t.s.result);
  }

  lemma {:induction false} RunReads(cfg: Config, actions: seq<Action>)
    requires Legal(cfg, actions)
    ensures AllRead(Exec(cfg, actions))
  {
    hide WorldInv, Enabled, Next, AllRead;
    if actions != [] {
      var n := |actions| - 1;
      RunReads(cfg, actions[..n]);
      RunKeeps(cfg, actions[..n]);
      StepReads(cfg, Exec(cfg, actions[..n]), actions[n]);
    } else {
      assert AllRead(START) by { NoneRead(); }
    }
  }

  lemma NoneRead()
    ensures AllRead(START)
  {
  }

  /** Over every run: every request a running session has handled was an acceptable JSON document, but for
      the last one of a session that is closing, and a session is closing only after such a request. */
  lemma ClosesOnUnreadable(cfg: Config, actions: seq<Action>, token: uint32)
    requires Legal(cfg, actions) && token in Exec(cfg, actions).entries
    ensures var e := Exec(cfg, actions).entries[token]; var past := Past(e.s, e.log);
      e.s.result.Running? ==>
        && (e.s.closing <==> exists i :: 0 <= i < |past| && !Accepts(past[i]))
        && (forall i :: 0 <= i < |past| - 1 ==> Accepts(past[i]))
  {
    hide Legal, Exec, Past, Accepts;
    RunReads(cfg, actions);
    var e := Exec(cfg, actions).entries[token];
    var past := Past(e.s, e.log);
    forall i | 0 <= i < |past| ensures Accepts(past[i]) <==> Readable(past[i]) {
      AcceptsIff(past[i]);
    }
    if e.s.result.Running? {
      forall i | 0 <= i < |past| - 1 ensures Readable(past[i]) {
        assert e.s.closing ==> past[..|past| - 1][i] == past[i];
      }
    }
  }

  /** The grammar's own word for a readable frame. */
  ghost predicate Accepts(f: Frame) {
    f.kind == REQUEST ==> exists n :: Json.Acceptable(f.payload, n)
  }

  lemma AcceptsIff(f: Frame)
    ensures Accepts(f) <==> Readable(f)
  {
    hide Json.Parse, Json.Acceptable;
    forall n | Json.Acceptable(f.payload, n) ensures Json.Parse(f.payload).Some? {
      Json.ParseIff(f.payload, n);
    }
    if Json.Parse(f.payload).Some? {
      Json.ParseIff(f.payload, Json.Parse(f.payload).value.node);
    }
  }
}
