/** When a session is cut off: the handshake, idle, frame and flush limits, measured from logged events. */
module SessionTimes {
  import opened Bytes
  import opened Protocol
  import opened Session
  import opened SessionInv
  import opened SessionRuns
  import opened SessionSteps
  import JsonTokens
  import Up = Upload

  /** Milliseconds on the 32-bit clock. */
  function Since(now: uint32, event: uint32): nat {
    (now - event) % 0x1_0000_0000
  }

  /** A frame has begun and is not complete. */
  predicate MidFrame(d: Decoder) {
    d.bytes != [] && d.status.Incomplete?
  }

  /** The session's clock fields are the logged times. */
  predicate TimeInv(s: Session, log: Log) {
    s.result.Running? ==>
      && s.clock.startedAt == log.times.started && s.clock.progressAt == log.times.moved
      && (MidFrame(s.decoder) ==> s.clock.frameAt == log.times.framed)
      && (s.closing ==> s.clock.closingAt == log.times.closed)
  }

  lemma QuietTimes(t: Turn, u: Turn)
    requires TimeInv(t.s, t.log) && Quietly(t, u) && (t.s.result.Running? || !u.s.result.Running?) && !MidFrame(u.s.decoder)
    ensures TimeInv(u.s, u.log)
  {
  }

  lemma DispatchTimes(cfg: Config, t: Turn, f: Frame, io: Io)
    requires TimeInv(t.s, t.log) && t.s.result.Running? && !t.s.closing
    ensures var u := Dispatch(cfg, t, f, io); TimeInv(u.s, u.log) && !u.s.result.Timeout?
  {
    hide Finish, DispatchUploadFrame, DispatchNotJson, DispatchCall, JsonTokens.DocumentTokens, Up.Disconnect;
    var n := Noted(t, f.request);
    FinishLeaves(cfg, t, ProtocolError);
    FinishEnds(cfg, t, ProtocolError);
    UploadFrameQuietly(cfg, n, f.request, f.payload);
    NotJsonCloses(cfg, n, f.request, io.now);
    CallQuietly(cfg, n, f.request, cfg.read(f.payload, JsonTokens.DocumentTokens(f.payload)), io);
  }

  // ---- The stream ----

  /** The clock and its log alone, or both moved on; a partial frame untouched. */
  predicate Keeps(t: Turn, u: Turn) {
    && (u.s.result.Timeout? ==> t.s.result.Timeout?) && (u.s.result.Running? ==> t.s.result.Running?)
    && u.s.clock == t.s.clock && u.log.times == t.log.times && u.s.closing == t.s.closing
    && (u.s.decoder == t.s.decoder || u.s.decoder.bytes == [])
  }

  lemma FinishKeepsClock(cfg: Config, t: Turn, r: Result)
    requires !r.Timeout? && !r.Running?
    ensures Keeps(t, Finish(cfg, t, r))
  {
    hide Up.Disconnect;
  }

  lemma FailedKeeps(cfg: Config, t: Turn, u: Turn)
    requires Keeps(t, u)
    ensures Keeps(t, PumpFailed(cfg, u))
  {
    hide Finish;
    FinishKeepsClock(cfg, u.(ch := u.ch.(owner := 0, toBackend := [], toPeer := []), events := u.events + [Shut]), IoError);
  }

  lemma PumpInKeepsClock(t: Turn, b: Backend)
    ensures Keeps(t, PumpIn(t, b).0) && Keeps(t, PumpFill(t, b).0)
  {
    hide Read, Count;
    ReadShape(t.s);
  }

  lemma ReadShape(s: Session)
    ensures var r := Read(s, STREAM_CAPACITY).0;
      && r.result == s.result && r.clock == s.clock && r.closing == s.closing
      && (r.decoder == s.decoder || r.decoder.bytes == [])
  {
    hide Unread, CurrentFrame;
  }

  lemma PumpOutKeepsClock(cfg: Config, t: Turn)
    ensures Keeps(t, PumpOut(cfg, t))
  {
    hide Finish, Encode, Be32;
    FinishKeepsClock(cfg, t, IoError);
  }

  lemma PumpTimes(cfg: Config, t: Turn, io: Io)
    requires TimeInv(t.s, t.log) && t.s.result.Running?
    ensures var u := Pump(cfg, t, io); TimeInv(u.s, u.log) && !u.s.result.Timeout? && u.s.closing == t.s.closing
  {
    hide Finish, PumpIn, PumpFill, PumpOut, PumpFailed;
    FinishKeepsClock(cfg, t, IoError);
    FailedKeeps(cfg, t, t);
    PumpInKeepsClock(t, io.backend);
    var (t1, ok1) := PumpIn(t, io.backend);
    FailedKeeps(cfg, t, t1);
    PumpInKeepsClock(t1, io.backend);
    var (t2, ok2) := PumpFill(t1, io.backend);
    FailedKeeps(cfg, t, t2);
    PumpOutKeepsClock(cfg, t2);
  }

  // ---- One poll ----

  /** The clock is logged, and the session did not run out of time. */
  predicate InTime(u: Turn) {
    TimeInv(u.s, u.log) && !u.s.result.Timeout?
  }

  lemma StreamTimes(cfg: Config, t: Turn, io: Io)
    requires InTime(t)
    ensures InTime(ActStream(cfg, t, io))
  {
    hide Pump, TimeInv;
    if t.s.result.Running? {
      PumpTimes(cfg, t, io);
    }
  }

  lemma FinishInTime(cfg: Config, t: Turn, r: Result)
    requires !r.Running? && !r.Timeout?
    ensures InTime(Finish(cfg, t, r))
  {
    hide Detached, ReleasedIfOwned;
  }

  lemma ActTimes(cfg: Config, t: Turn, io: Io)
    requires InTime(t) && t.s.result.Running? && !t.s.closing
    ensures InTime(Act(cfg, t, io))
  {
    hide InTime, Pump, Dispatch, Finish, CurrentFrame, ActStream;
    StreamTimes(cfg, t, io);
    if CurrentFrame(t.s.decoder).Some? {
      var f := CurrentFrame(t.s.decoder).value;
      FinishInTime(cfg, t, ProtocolError);
      StreamTimes(cfg, CheckSerial(cfg, t, f), io);
      DispatchInTime(cfg, t, f, io);
      StreamTimes(cfg, Dispatch(cfg, t, f, io), io);
      PumpInTime(cfg, t, f, io);
    }
  }

  lemma DispatchInTime(cfg: Config, t: Turn, f: Frame, io: Io)
    requires InTime(t) && t.s.result.Running? && !t.s.closing
    ensures InTime(Dispatch(cfg, t, f, io))
  {
    hide Dispatch;
    DispatchTimes(cfg, t, f, io);
  }

  lemma PumpInTime(cfg: Config, t: Turn, f: Frame, io: Io)
    requires InTime(t) && t.s.result.Running? && !t.s.closing
    ensures var t1 := Pump(cfg, t, io);
      && InTime(t1)
      && (t1.s.result.Running? ==>
            var t2 := t1.(s := t1.s.(dataTurn := false)); InTime(t2) && InTime(Dispatch(cfg, t2, f, io)))
  {
    hide Dispatch, Pump;
    PumpTimes(cfg, t, io);
    var t1 := Pump(cfg, t, io);
    if t1.s.result.Running? {
      DispatchTimes(cfg, t1.(s := t1.s.(dataTurn := false)), f, io);
    }
  }

  lemma ReceiveTimes(t: Turn, arrived: seq<byte>, now: uint32)
    requires InTime(t) && t.s.decoder.status.Incomplete?
    ensures var u := Receive(t, arrived, now); InTime(u) && u.s.result == t.s.result && u.s.closing == t.s.closing
  {
    hide CurrentFrame, Needed, After;
  }

  lemma PollLiveTimes(cfg: Config, t: Turn, io: Io)
    requires InTime(t) && t.s.result.Running?
    ensures InTime(PollLive(cfg, t, io))
  {
    hide Finish, Act, Receive, Needed, InTime;
    FinishInTime(cfg, t, IoError);
    if t.s.output == [] || io.accepts <= |t.s.output| {
      var t1 := if t.s.output != [] then Flush(t, io.accepts, io.now) else t;
      if t.s.output != [] {
        FlushTimes(t, io.accepts, io.now);
      }
      FinishInTime(cfg, t1, ProtocolError);
      FinishInTime(cfg, t1, IoError);
      if !t1.s.closing {
        ActTimes(cfg, t1, io);
        if t1.s.decoder.status.Incomplete? {
          ReceiveTimes(t1, io.arrives, io.now);
          var t2 := Receive(t1, io.arrives, io.now);
          FinishInTime(cfg, t2, ProtocolError);
          ActTimes(cfg, t2, io);
        }
      }
    }
  }

  lemma FlushTimes(t: Turn, accepted: nat, now: uint32)
    requires InTime(t) && accepted <= |t.s.output|
    ensures var u := Flush(t, accepted, now); InTime(u) && u.s.result == t.s.result && u.s.closing == t.s.closing
  {
  }

  lemma PollTimes(cfg: Config, t: Turn, io: Io)
    requires TimeInv(t.s, t.log)
    ensures var u := Poll(cfg, t, io); TimeInv(u.s, u.log)
  {
    hide Finish, PollLive, Expired;
    if t.s.result.Running? {
      PollLiveTimes(cfg, t, io);
      forall r: Result | !r.Running? { FinishEnds(cfg, t, r); }
    }
  }

  // ---- Every run ----

  predicate AllTimed(w: World) {
    forall token :: token in w.entries ==> TimeInv(w.entries[token].s, w.entries[token].log)
  }

  lemma StepTimes(cfg: Config, w: World, a: Action)
    requires Enabled(cfg, w, a) && AllTimed(w)
    ensures AllTimed(Next(cfg, w, a))
  {
    hide TimeInv, Poll, CloseSession, ServicePolled, NewSession;
    match a
    case Create(token, sound, now) => NewTimes(token, sound, now);
    case PollCall(token, io) => PollTimes(cfg, TurnOf(w, token), io);
    case CloseCall(token) => CloseTimes(cfg, TurnOf(w, token));
    case _ =>
  }

  lemma NewTimes(token: uint32, sound: bool, now: uint32)
    ensures TimeInv(NewSession(token, sound, now), NewLog(now))
  {
  }

  lemma CloseTimes(cfg: Config, t: Turn)
    ensures var u := CloseSession(cfg, t); TimeInv(u.s, u.log)
  {
    hide Finish;
    FinishEnds(cfg, t, if t.s.result.Running? then Closed else t.s.result);
  }

  lemma {:induction false} RunTimes(cfg: Config, actions: seq<Action>)
    requires Legal(cfg, actions)
    ensures AllTimed(Exec(cfg, actions))
  {
    hide Enabled, Next;
    if actions != [] {
      hide AllTimed;
      var n := |actions| - 1;
      RunTimes(cfg, actions[..n]);
      StepTimes(cfg, Exec(cfg, actions[..n]), actions[n]);
    }
  }

  /** 5 seconds for the handshake from the start, 30 seconds idle since bytes last moved, 5 seconds for a
      frame from its first byte. */
  predicate Late(e: Entry, now: uint32) {
    || (!e.s.negotiated && Since(now, e.log.times.started) >= 5000)
    || (e.s.negotiated && Since(now, e.log.times.moved) >= 30000)
    || (MidFrame(e.s.decoder) && Since(now, e.log.times.framed) >= 5000)
  }

  /** After every run, a poll of a connected session that is not closing ends in a timeout if and only if one
      of the three limits has passed. */
  lemma TimeoutIff(cfg: Config, actions: seq<Action>, token: uint32, io: Io)
    requires Legal(cfg, actions) && token in Exec(cfg, actions).entries && io.connected
    requires var s := Exec(cfg, actions).entries[token].s; s.result.Running? && !s.closing
    ensures var w := Exec(cfg, actions);
      Poll(cfg, TurnOf(w, token), io).s.result.Timeout? <==> Late(w.entries[token], io.now)
  {
    hide Legal, Exec, Finish, PollLive;
    RunTimes(cfg, actions);
    var t := TurnOf(Exec(cfg, actions), token);
    PollLiveTimes(cfg, t, io);
    FinishEnds(cfg, t, Timeout);
  }

  /** A session that is closing after an unreadable request ends with a protocol error as soon as its last
      frame is out, or 1000 ms after that request; until then it goes on sending. */
  lemma ClosingEnds(cfg: Config, actions: seq<Action>, token: uint32, io: Io)
    requires Legal(cfg, actions) && token in Exec(cfg, actions).entries && io.connected
    requires var s := Exec(cfg, actions).entries[token].s; s.result.Running? && s.closing
    ensures var w := Exec(cfg, actions); var e := w.entries[token]; var u := Poll(cfg, TurnOf(w, token), io);
      if e.s.output == [] || Since(io.now, e.log.times.closed) >= 1000 then u.s.result.ProtocolError? && u.log.sent == e.log.sent
      else if io.accepts > |e.s.output| then u.s.result.IoError?
      else
        && u.log.sent == e.log.sent + e.s.output[..io.accepts]
        && (if io.accepts == |e.s.output| then u.s.result.ProtocolError?
            else u.s.result.Running? && u.s.closing && u.s.output == e.s.output[io.accepts..])
  {
    hide Legal, Exec, Finish, PollOpen;
    RunTimes(cfg, actions);
    var t := TurnOf(Exec(cfg, actions), token);
    FinishEnds(cfg, t, ProtocolError);
    FinishEnds(cfg, t, IoError);
    FinishSent(cfg, t, ProtocolError);
    if t.s.output != [] && io.accepts <= |t.s.output| {
      FinishEnds(cfg, Flush(t, io.accepts, io.now), ProtocolError);
      FinishSent(cfg, Flush(t, io.accepts, io.now), ProtocolError);
    }
  }

  lemma FinishSent(cfg: Config, t: Turn, r: Result)
    ensures Finish(cfg, t, r).log.sent == t.log.sent
  {
    hide Up.Disconnect;
  }

  // ---- What counts as progress ----

  /** Bytes went to the backend, came from it, left the current frame, or went into a frame to the peer. */
  predicate Moved(t: Turn, u: Turn) {
    || |u.log.delivered| != |t.log.delivered| || |u.log.produced| != |t.log.produced|
    || |Unread(u.s.decoder, u.s.dataOffset)| != |Unread(t.s.decoder, t.s.dataOffset)| || |u.log.frames| != |t.log.frames|
  }

  lemma InwardMoves(t: Turn, b: Backend)
    requires ValidDecoder(t.s.decoder) && OffsetInv(t.s.decoder, t.s.dataOffset) && t.ch.rx + 256 <= COUNTER_MAX
    requires |t.ch.toBackend| <= STREAM_CAPACITY
    ensures var (u, ok) := PumpIn(t, b);
      && (ok ==> (u.ch.rx != t.ch.rx || |u.ch.toBackend| != |t.ch.toBackend| <==>
                  |u.log.delivered| != |t.log.delivered| ||
                  |Unread(u.s.decoder, u.s.dataOffset)| != |Unread(t.s.decoder, t.s.dataOffset)|))
      && u.ch.tx == t.ch.tx && u.ch.toPeer == t.ch.toPeer && u.s.output == t.s.output
      && u.log.produced == t.log.produced && u.log.frames == t.log.frames
  {
    hide Read, Unread, ValidDecoder, OffsetInv;
    ReadSplits(t.s, STREAM_CAPACITY);
    var (s1, data) := Read(t.s, STREAM_CAPACITY);
    assert |data| + |Unread(s1.decoder, s1.dataOffset)| == |Unread(t.s.decoder, t.s.dataOffset)| by {
      assert |data + Unread(s1.decoder, s1.dataOffset)| == |Unread(t.s.decoder, t.s.dataOffset)|;
    }
  }

  /** A write to the peer takes bytes and queues a frame, or does neither. */
  lemma WriteMoves(cfg: Config, t: Turn)
    requires |t.ch.toPeer| <= STREAM_CAPACITY && t.s.result.Running?
    ensures var u := PumpOut(cfg, t);
      u.s.result.Running? ==>
        && u.ch == t.ch.(toPeer := u.ch.toPeer) && u.s == t.s.(output := u.s.output)
        && u.log == t.log.(frames := u.log.frames)
        && (if t.ch.toPeer != [] && t.s.output == [] then
              u.ch.toPeer == [] && u.s.output != [] && |u.log.frames| == |t.log.frames| + 1
            else u.ch.toPeer == t.ch.toPeer && u.s.output == t.s.output && u.log.frames == t.log.frames)
  {
    hide Finish, Encode, Be32;
    FinishEnds(cfg, t, IoError);
  }

  lemma OutwardMoves(cfg: Config, t: Turn, b: Backend)
    requires t.ch.tx + 256 <= COUNTER_MAX && |t.ch.toPeer| <= STREAM_CAPACITY && t.s.result.Running?
    ensures var (t1, ok) := PumpFill(t, b); var u := PumpOut(cfg, t1);
      && (ok && u.s.result.Running? ==>
            (u.ch.tx != t.ch.tx || |u.ch.toPeer| != |t.ch.toPeer| || |u.s.output| != |t.s.output| <==>
             |u.log.produced| != |t.log.produced| || |u.log.frames| != |t.log.frames|))
      && (u.s.result.Running? ==>
            u.ch.rx == t.ch.rx && u.ch.toBackend == t.ch.toBackend && u.s.decoder == t.s.decoder && u.s.dataOffset == t.s.dataOffset)
      && (u.s.result.Running? ==> u.log.delivered == t.log.delivered)
  {
    hide PumpOut;
    WriteMoves(cfg, PumpFill(t, b).0);
  }

  /** A stream poll counts as progress exactly when bytes moved, until a 64-bit byte counter is about to
      saturate. */
  lemma ProgressMeansMoved(cfg: Config, h: Home, t: Turn, io: Io)
    requires Flowing(cfg, h, t) && t.ch.rx + 256 <= COUNTER_MAX && t.ch.tx + 256 <= COUNTER_MAX
    ensures var u := Pump(cfg, t, io);
      u.s.result.Running? ==> u.log.times == (if Moved(t, u) then t.log.times.(moved := io.now) else t.log.times)
  {
    hide Finish, PumpIn, PumpFill, PumpOut, PumpFailed, Unread, Read;
    FlowingShape(cfg, h, t);
    FinishEnds(cfg, t, IoError);
    FailedEnds(cfg, t);
    var (t1, ok1) := PumpIn(t, io.backend);
    FailedEnds(cfg, t1);
    InwardMoves(t, io.backend);
    PumpInKeepsClock(t, io.backend);
    PumpInShape(t, io.backend);
    var (t2, ok2) := PumpFill(t1, io.backend);
    FailedEnds(cfg, t2);
    PumpInKeepsClock(t1, io.backend);
    PumpOutKeepsClock(cfg, t2);
    OutwardMoves(cfg, t1, io.backend);
  }

  lemma PumpInShape(t: Turn, b: Backend)
    ensures PumpIn(t, b).0.s.result == t.s.result
  {
    hide Read, Count;
    ReadShape(t.s);
  }

  lemma FailedEnds(cfg: Config, t: Turn)
    ensures !PumpFailed(cfg, t).s.result.Running?
  {
    hide Finish;
    FinishEnds(cfg, t.(ch := t.ch.(owner := 0, toBackend := [], toPeer := []), events := t.events + [Shut]), IoError);
  }

  lemma FlowingShape(cfg: Config, h: Home, t: Turn)
    requires Flowing(cfg, h, t)
    ensures ValidDecoder(t.s.decoder) && OffsetInv(t.s.decoder, t.s.dataOffset) && t.s.result.Running?
    ensures |t.ch.toBackend| <= STREAM_CAPACITY && |t.ch.toPeer| <= STREAM_CAPACITY
  {
    hide WireInv, EventInv, DetachInv, ReplyIds, AskedIds, HomeInv, Paid, Asked, OffsetInv, ValidDecoder, SerialData, Unread;
  }
}
