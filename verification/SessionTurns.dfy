/** Commands and backend output take turns: neither keeps the other waiting. */
module SessionTurns {
  import opened Bytes
  import opened Protocol
  import opened Session
  import opened SessionInv
  import opened SessionRuns
  import opened SessionSteps
  import opened SessionTimes
  import JsonTokens
  import Up = Upload

  /** A connected backend that does not overrun: takes no more than is pending, gives no more than a buffer. */
  predicate Behaves(ch: Channel, b: Backend) {
    b.connected && (ch.toBackend == [] || b.takes <= |ch.toBackend|) && |b.gives| <= 256
  }

  /** What the backend has for the peer. */
  function Offered(ch: Channel, b: Backend): seq<byte> {
    if ch.toPeer != [] then ch.toPeer else b.gives
  }

  function DataFrame(data: seq<byte>): Frame {
    Frame(SERIAL, 0, Be32(1) + data)
  }

  /** The session as far as dispatching goes. */
  predicate Unmoved(t: Turn, u: Turn) {
    && u.s == t.s.(output := u.s.output, clock := u.s.clock) && u.log.dispatched == t.log.dispatched && u.up == t.up
  }

  lemma ControlReads(s: Session, f: Frame)
    requires CurrentFrame(s.decoder) == Some(f) && f.kind != SERIAL
    ensures Read(s, STREAM_CAPACITY) == (s, [])
  {
  }

  lemma InwardTurn(t: Turn, b: Backend, f: Frame)
    requires CurrentFrame(t.s.decoder) == Some(f) && f.kind != SERIAL && Behaves(t.ch, b)
    ensures var (u, ok) := PumpIn(t, b);
      ok && u.s == t.s && u.log == t.log.(delivered := u.log.delivered) && u.up == t.up && u.ch.owner == t.ch.owner
      && u.ch.toPeer == t.ch.toPeer
  {
    hide Read, CurrentFrame;
    ControlReads(t.s, f);
  }

  lemma WriteSends(cfg: Config, t: Turn, data: seq<byte>)
    requires t.s.output == [] && t.s.decoder.limit >= MIN_OFFER && t.s.result.Running? && 0 < |data| <= 256
    ensures ValidFrame(DataFrame(data))
    ensures Write(cfg, t, data) ==
      (t.(s := t.s.(output := Wire(DataFrame(data))), log := t.log.(frames := t.log.frames + [DataFrame(data)])), |data|)
  {
    hide Wire, Finish, Be32;
    assert data[..|data|] == data;
  }

  lemma OutwardTurn(cfg: Config, t: Turn, b: Backend)
    requires t.s.output == [] && t.s.decoder.limit >= MIN_OFFER && t.s.result.Running? && |t.ch.toPeer| <= 256 && |b.gives| <= 256
    ensures var data := Offered(t.ch, b); var (t1, ok) := PumpFill(t, b); var u := PumpOut(cfg, t1);
      && ok && Unmoved(t, u) && u.ch.owner == t.ch.owner && u.ch.toPeer == []
      && (if data == [] then u.s == t.s && u.log.frames == t.log.frames
          else ValidFrame(DataFrame(data)) && u.s.output == Wire(DataFrame(data)) && u.log.frames == t.log.frames + [DataFrame(data)])
  {
    hide Write, Wire, Be32;
    var data := Offered(t.ch, b);
    if data != [] {
      WriteSends(cfg, PumpFill(t, b).0, data);
    }
  }

  /** One pump with a command waiting and nothing queued: all the backend offers goes out as one frame. */
  lemma PumpTurn(cfg: Config, h: Home, t: Turn, f: Frame, io: Io)
    requires Flowing(cfg, h, t) && CurrentFrame(t.s.decoder) == Some(f) && f.kind != SERIAL && t.s.output == [] && Behaves(t.ch, io.backend)
    ensures var data, u := Offered(t.ch, io.backend), Pump(cfg, t, io);
      && Unmoved(t, u)
      && (if data == [] then u.s.output == [] && u.log.frames == t.log.frames
          else ValidFrame(DataFrame(data)) && u.s.output == Wire(DataFrame(data)) && u.log.frames == t.log.frames + [DataFrame(data)])
  {
    hide PumpIn, PumpFill, PumpOut, PumpFailed, Finish, CurrentFrame, Wire, Be32;
    FlowingShape(cfg, h, t);
    FlowingOwns(cfg, h, t);
    InwardTurn(t, io.backend, f);
    OutwardTurn(cfg, PumpIn(t, io.backend).0, io.backend);
  }

  lemma FlowingOwns(cfg: Config, h: Home, t: Turn)
    requires Flowing(cfg, h, t)
    ensures t.s.owner == t.ch.owner != 0 && t.s.owned && t.s.decoder.limit >= MIN_OFFER
  {
    hide WireInv, EventInv, DetachInv, ReplyIds, AskedIds, HomeInv, Paid, Asked, OffsetInv, ValidDecoder, SerialData, Unread, CurrentFrame,
      Partial, WireAll;
  }

  // ---- What counts as dispatched ----

  lemma DispatchCounts(cfg: Config, t: Turn, f: Frame, io: Io)
    requires Asks(f)
    ensures Dispatch(cfg, t, f, io).log.dispatched == t.log.dispatched + [f.request]
  {
    hide Finish, DispatchUploadFrame, DispatchNotJson, DispatchCall, JsonTokens.DocumentTokens, Up.Disconnect;
    var n := Noted(t, f.request);
    UploadFrameQuietly(cfg, n, f.request, f.payload);
    NotJsonCloses(cfg, n, f.request, io.now);
    CallQuietly(cfg, n, f.request, cfg.read(f.payload, JsonTokens.DocumentTokens(f.payload)), io);
  }

  lemma FinishCounts(cfg: Config, t: Turn, r: Result)
    ensures Finish(cfg, t, r).log.dispatched == t.log.dispatched
  {
    hide Up.Disconnect;
  }

  lemma PumpCounts(cfg: Config, t: Turn, io: Io)
    ensures Pump(cfg, t, io).log.dispatched == t.log.dispatched
  {
    hide Finish, Read, Queue, Count;
    forall u, r { FinishCounts(cfg, u, r); }
    var (t1, ok1) := PumpIn(t, io.backend);
    var (t2, ok2) := PumpFill(t1, io.backend);
    OutCounts(cfg, t2);
  }

  lemma OutCounts(cfg: Config, t: Turn)
    ensures PumpOut(cfg, t).log.dispatched == t.log.dispatched
  {
    hide Finish, Encode, Be32;
    FinishCounts(cfg, t, IoError);
  }

  /** A request that can be read as a command. */
  predicate Command(cfg: Config, f: Frame) {
    && f.kind == REQUEST && JsonTokens.DocumentTokens(f.payload) != []
    && !cfg.read(f.payload, JsonTokens.DocumentTokens(f.payload)).Malformed?
  }

  /** Once a command has been served, it is data's turn. */
  lemma DispatchTurn(cfg: Config, t: Turn, f: Frame, io: Io)
    requires Command(cfg, f) && t.s.negotiated
    ensures Dispatch(cfg, t, f, io).s.dataTurn
  {
    hide DispatchFlash, DispatchCommand, JsonTokens.DocumentTokens;
  }

  lemma PumpTurnKept(cfg: Config, t: Turn, io: Io)
    ensures Pump(cfg, t, io).s.dataTurn == t.s.dataTurn
  {
    hide Finish, PumpIn, PumpFill, PumpOut, PumpFailed, Stirred;
    FinishTurn(cfg, t, IoError);
    InTurn(t, io.backend);
    var t1 := PumpIn(t, io.backend).0;
    InTurn(t1, io.backend);
    var t2 := PumpFill(t1, io.backend).0;
    FailedTurn(cfg, t);
    FailedTurn(cfg, t1);
    FailedTurn(cfg, t2);
    OutTurn(cfg, t2);
  }

  lemma InTurn(t: Turn, b: Backend)
    ensures PumpIn(t, b).0.s.dataTurn == PumpFill(t, b).0.s.dataTurn == t.s.dataTurn
  {
    hide Read, Count;
    ReadTurn(t.s);
  }

  lemma FailedTurn(cfg: Config, t: Turn)
    ensures PumpFailed(cfg, t).s.dataTurn == t.s.dataTurn
  {
    hide Finish;
    FinishTurn(cfg, t.(ch := t.ch.(owner := 0, toBackend := [], toPeer := []), events := t.events + [Shut]), IoError);
  }

  lemma FinishTurn(cfg: Config, t: Turn, r: Result)
    ensures Finish(cfg, t, r).s.dataTurn == t.s.dataTurn
  {
    hide Up.Disconnect;
  }

  lemma ReadTurn(s: Session)
    ensures Read(s, STREAM_CAPACITY).0.dataTurn == s.dataTurn
  {
    hide CurrentFrame, Unread;
  }

  lemma OutTurn(cfg: Config, t: Turn)
    ensures PumpOut(cfg, t).s.dataTurn == t.s.dataTurn
  {
    hide Finish, Encode, Be32;
    FinishTurn(cfg, t, IoError);
  }

  // ---- Turns ----

  /** A command with nothing queued: data goes first exactly when it is data's turn and there is some. */
  lemma ActTurn(cfg: Config, h: Home, t: Turn, f: Frame, io: Io)
    requires Flowing(cfg, h, t) && CurrentFrame(t.s.decoder) == Some(f) && Asks(f) && t.s.output == [] && Behaves(t.ch, io.backend)
    ensures var data, u := Offered(t.ch, io.backend), Act(cfg, t, io);
      if t.s.dataTurn && data != [] then
        && u.s.result.Running? && !u.s.dataTurn && u.log.dispatched == t.log.dispatched
        && u.log.frames == t.log.frames + [DataFrame(data)]
      else u.log.dispatched == t.log.dispatched + [f.request] && (Command(cfg, f) ==> u.s.dataTurn)
  {
    hide Dispatch, Pump, Kept, CurrentFrame, Wire, Be32, Finish, Command;
    PumpTurn(cfg, h, t, f, io);
    FlowingShape(cfg, h, t);
    OwnersNegotiated(cfg, h, t);
    var u := Pump(cfg, t, io);
    if Command(cfg, f) {
      DispatchTurn(cfg, t, f, io);
      DispatchTurn(cfg, u.(s := u.s.(dataTurn := false)), f, io);
      PumpTurnKept(cfg, Dispatch(cfg, t, f, io), io);
    }
    DispatchCounts(cfg, t, f, io);
    DispatchCounts(cfg, u.(s := u.s.(dataTurn := false)), f, io);
    PumpCounts(cfg, Dispatch(cfg, t, f, io), io);
    WireSome(DataFrame(Offered(t.ch, io.backend)));
  }

  lemma OwnersNegotiated(cfg: Config, h: Home, t: Turn)
    requires Flowing(cfg, h, t)
    ensures t.s.negotiated
  {
    hide WireInv, EventInv, DetachInv, ReplyIds, AskedIds, HomeInv, Paid, Asked, OffsetInv, ValidDecoder, SerialData, Unread, CurrentFrame,
      Partial, WireAll;
  }

  lemma WireSome(f: Frame)
    ensures ValidFrame(f) ==> Wire(f) != []
  {
  }

  /** After every run: of a session that owns the channel and has a command waiting once its last frame is out,
      the next poll sends what the backend has for the peer, if it is data's turn; otherwise, or with nothing to send,
      it serves the command, and then it is data's turn. */
  lemma TakeTurns(cfg: Config, actions: seq<Action>, token: uint32, io: Io, f: Frame)
    requires Legal(cfg, actions) && token in Exec(cfg, actions).entries && io.connected
    requires var w := Exec(cfg, actions); var e := w.entries[token];
      && e.s.result.Running? && e.s.owned && !Late(e, io.now) && CurrentFrame(e.s.decoder) == Some(f) && Asks(f)
      && io.accepts == |e.s.output| && Behaves(w.ch, io.backend)
    ensures var w := Exec(cfg, actions); var e := w.entries[token];
      var data, u := Offered(w.ch, io.backend), Poll(cfg, TurnOf(w, token), io);
      if e.s.dataTurn && data != [] then
        && u.s.result.Running? && !u.s.dataTurn && u.log.dispatched == e.log.dispatched
        && u.log.frames == e.log.frames + [DataFrame(data)]
      else u.log.dispatched == e.log.dispatched + [f.request] && (Command(cfg, f) ==> u.s.dataTurn)
  {
    hide Command, Legal, Exec, Act, Kept, Finish, CurrentFrame, Be32;
    var w := Exec(cfg, actions);
    var t, h := TurnOf(w, token), Home(token, w.ch);
    RunTimes(cfg, actions);
    RunKeeps(cfg, actions);
    assert EntryInv(cfg, w, token);
    FlowingOwns(cfg, h, t);
    ReadyFrame(t.s.decoder);
    NotClosing(cfg, h, t);
    FlushKeeps(cfg, h, t, |t.s.output|, io.now);
    assert t.s.output[|t.s.output|..] == [];
    var t1 := if t.s.output != [] then Flush(t, io.accepts, io.now) else t;
    assert Poll(cfg, t, io) == Act(cfg, t1, io);
    ActTurn(cfg, h, t1, f, io);
  }

  lemma ReadyFrame(d: Decoder)
    ensures CurrentFrame(d).Some? ==> d.status.Ready?
  {
  }

  lemma NotClosing(cfg: Config, h: Home, t: Turn)
    requires Flowing(cfg, h, t)
    ensures !t.s.closing
  {
    hide WireInv, EventInv, DetachInv, ReplyIds, AskedIds, HomeInv, Paid, Asked, OffsetInv, ValidDecoder, SerialData, Unread, CurrentFrame,
      Partial, WireAll;
  }
}
