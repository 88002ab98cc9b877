/** What a poll does when nothing is wrong, and that it ends a session for nothing else. */
module SessionPolls {
  import opened Bytes
  import opened Protocol
  import opened Session
  import opened SessionInv
  import opened SessionRuns
  import opened SessionTimes
  import opened SessionTurns
  import Up = Upload

  // ---- The stream ----

  /** What there is for the backend: the rest of the buffer, or else the next bytes of the current frame. */
  function Pending(t: Turn): seq<byte> {
    var rest := Unread(t.s.decoder, t.s.dataOffset);
    if t.ch.toBackend != [] then t.ch.toBackend else rest[..Min(256, |rest|)]
  }

  /** A connected backend that takes no more than it is offered and gives no more than a buffer holds. */
  predicate Steady(t: Turn, b: Backend) {
    b.connected && (Pending(t) == [] || b.takes <= |Pending(t)|) && (t.ch.toPeer != [] || |b.gives| <= 256)
  }

  lemma ReadTakes(s: Session)
    ensures var rest := Unread(s.decoder, s.dataOffset); Read(s, STREAM_CAPACITY).1 == rest[..Min(256, |rest|)]
  {
    var rest := Unread(s.decoder, s.dataOffset);
    assert rest[..|rest|] == rest;
  }

  /** Everything but the stream: a pump leaves it alone. */
  predicate Apart(t: Turn, u: Turn) {
    && u.s == t.s.(output := u.s.output, clock := u.s.clock, decoder := u.s.decoder, dataOffset := u.s.dataOffset)
    && u.log.dispatched == t.log.dispatched && u.up == t.up && u.ch.owner == t.ch.owner
  }

  lemma TakesIn(t: Turn, b: Backend)
    requires Steady(t, b)
    ensures var (u, ok) := PumpIn(t, b); var out := Pending(t);
      && ok && Apart(t, u) && u.s.output == t.s.output && u.ch.toPeer == t.ch.toPeer && u.log == t.log.(delivered := u.log.delivered)
      && u.log.delivered == t.log.delivered + (if out == [] then [] else out[..b.takes])
      && u.ch.toBackend == (if out == [] then [] else out[b.takes..])
  {
    hide Read, Unread, Count;
    ReadTakes(t.s);
    ReadApart(t.s);
    assert t.log.delivered + [] == t.log.delivered;
  }

  lemma ReadApart(s: Session)
    ensures var r := Read(s, STREAM_CAPACITY).0; r == s.(decoder := r.decoder, dataOffset := r.dataOffset) && r.decoder.limit == s.decoder.limit
  {
    hide CurrentFrame, Unread;
  }

  lemma GivesOut(cfg: Config, t: Turn, b: Backend)
    requires t.s.result.Running? && t.s.decoder.limit >= MIN_OFFER && |t.ch.toPeer| <= 256 && (t.ch.toPeer != [] || |b.gives| <= 256)
    ensures var (t1, ok) := PumpFill(t, b); var u := PumpOut(cfg, t1); var data := Offered(t.ch, b);
      && ok && Apart(t, u) && u.s.result.Running? && u.s.decoder == t.s.decoder && u.s.dataOffset == t.s.dataOffset
      && u.log.delivered == t.log.delivered && u.ch.toBackend == t.ch.toBackend
      && u.log.produced == t.log.produced + (if t.ch.toPeer == [] then b.gives else [])
      && (if data != [] && t.s.output == [] then
            u.ch.toPeer == [] && u.log.frames == t.log.frames + [DataFrame(data)] && u.s.output == Wire(DataFrame(data))
          else u.ch.toPeer == data && u.log.frames == t.log.frames && u.s.output == t.s.output)
  {
    hide Write, Wire, Be32, Count;
    var data := Offered(t.ch, b);
    assert t.log.produced + [] == t.log.produced;
    if data != [] && t.s.output == [] {
      WriteSends(cfg, PumpFill(t, b).0, data);
    } else {
      WriteWaits(cfg, PumpFill(t, b).0);
    }
  }

  lemma WriteWaits(cfg: Config, t: Turn)
    requires t.s.output != [] || t.ch.toPeer == []
    ensures PumpOut(cfg, t) == t
  {
    hide Queue;
  }

  /** One pump with a steady backend: the session goes on; the backend gets exactly the bytes it takes, and all that it
      offers goes out as one frame as soon as nothing is queued. */
  lemma PumpStays(cfg: Config, h: Home, t: Turn, io: Io)
    requires Flowing(cfg, h, t) && Steady(t, io.backend)
    ensures var u, out, data := Pump(cfg, t, io), Pending(t), Offered(t.ch, io.backend);
      && Apart(t, u) && u.s.result.Running?
      && u.log.delivered == t.log.delivered + (if out == [] then [] else out[..io.backend.takes])
      && u.ch.toBackend == (if out == [] then [] else out[io.backend.takes..])
      && u.log.produced == t.log.produced + (if t.ch.toPeer == [] then io.backend.gives else [])
      && (if data != [] && t.s.output == [] then u.ch.toPeer == [] && u.log.frames == t.log.frames + [DataFrame(data)]
          else u.ch.toPeer == data && u.log.frames == t.log.frames && u.s.output == t.s.output)
  {
    hide PumpIn, PumpFill, PumpOut, PumpFailed, Finish, Wire, Be32, Pending, Unread;
    FlowingShape(cfg, h, t);
    FlowingOwns(cfg, h, t);
    TakesIn(t, io.backend);
    LimitStays(t, io.backend);
    GivesOut(cfg, PumpIn(t, io.backend).0, io.backend);
  }

  lemma LimitStays(t: Turn, b: Backend)
    ensures PumpIn(t, b).0.s.decoder.limit == t.s.decoder.limit
  {
    hide Read, Count;
    ReadApart(t.s);
  }

  /** With any other backend the session ends with an I/O error, and the channel is cleared, shut and free. */
  lemma PumpEnds(cfg: Config, h: Home, t: Turn, io: Io)
    requires Flowing(cfg, h, t) && !Steady(t, io.backend)
    ensures var u := Pump(cfg, t, io);
      u.s.result.IoError? && !u.s.owned && u.ch.owner == 0 && u.ch.toBackend == u.ch.toPeer == [] && u.events == t.events + [Shut]
  {
    hide PumpOut, Read, Unread, PumpFailed, Count;
    FlowingOwns(cfg, h, t);
    ReadTakes(t.s);
    ReadApart(t.s);
    var t1 := PumpIn(t, io.backend).0;
    FailedShuts(cfg, t);
    FailedShuts(cfg, t1);
    FailedShuts(cfg, PumpFill(t1, io.backend).0);
  }

  lemma FailedShuts(cfg: Config, t: Turn)
    requires t.s.owner != 0
    ensures var u := PumpFailed(cfg, t);
      u.s.result.IoError? && !u.s.owned && u.ch.owner == 0 && u.ch.toBackend == u.ch.toPeer == [] && u.events == t.events + [Shut]
  {
    hide Up.Disconnect;
  }

  // ---- Polls ----

  /** A session in time and a transport that does not overrun. */
  predicate Polite(e: Entry, io: Io) {
    && io.connected && e.s.result.Running? && !e.s.closing && !Late(e, io.now) && io.accepts <= |e.s.output|
    && (e.s.decoder.status.Incomplete? ==> |io.arrives| <= 256 && |io.arrives| <= Needed(e.s.decoder))
  }

  /** After the transport's part of a poll. */
  function Arrived(t: Turn, io: Io): Turn
    requires io.accepts <= |t.s.output|
  {
    var t1 := Flush(t, io.accepts, io.now);
    if t.s.decoder.status.Incomplete? then Receive(t1, io.arrives, io.now) else t1
  }

  /** Exactly the accepted bytes left and exactly the delivered ones came in; nothing else happened. */
  lemma ArrivedIs(t: Turn, io: Io)
    requires io.accepts <= |t.s.output|
    ensures var u := Arrived(t, io); var d := if t.s.decoder.status.Incomplete? then Fed(t.s.decoder, io.arrives).0 else t.s.decoder;
      && u.s == t.s.(output := t.s.output[io.accepts..], decoder := d, clock := u.s.clock) && u.ch == t.ch && u.up == t.up
      && u.log.sent == t.log.sent + t.s.output[..io.accepts]
      && u.log.taken == t.log.taken + (if t.s.decoder.status.Incomplete? then io.arrives else [])
      && u.log.dispatched == t.log.dispatched && u.log.frames == t.log.frames && u.log.delivered == t.log.delivered
      && u.log.produced == t.log.produced && u.log.exchanges == t.log.exchanges && u.events == t.events
  {
    hide CurrentFrame, After, Needed;
    FedNothing(t.s.decoder);
    assert t.log.taken + [] == t.log.taken;
  }

  lemma FedNothing(d: Decoder)
    ensures Fed(d, []).0 == d
  {
  }

  /** A polite poll is the transport's part, then the verdict on the header, then the session's part. */
  lemma PollParts(cfg: Config, actions: seq<Action>, token: uint32, io: Io)
    requires Legal(cfg, actions) && token in Exec(cfg, actions).entries && Polite(Exec(cfg, actions).entries[token], io)
    ensures var w := Exec(cfg, actions); var t := Arrived(TurnOf(w, token), io); var status := t.s.decoder.status;
      && Kept(cfg, Home(token, w.ch), t) && t.s.result.Running? && !t.s.closing
      && Poll(cfg, TurnOf(w, token), io) == if !status.Incomplete? && !status.Ready? then Finish(cfg, t, ProtocolError) else Act(cfg, t, io)
  {
    hide Legal, Exec, Act, Kept, Finish, Receive, Needed;
    var w := Exec(cfg, actions);
    var t, h := TurnOf(w, token), Home(token, w.ch);
    RunTimes(cfg, actions);
    RunKeeps(cfg, actions);
    assert EntryInv(cfg, w, token);
    FlushKeeps(cfg, h, t, io.accepts, io.now);
    FlushNone(t, io.now);
    var t1 := Flush(t, io.accepts, io.now);
    if t.s.decoder.status.Incomplete? {
      ReceiveKeeps(cfg, h, t1, io.arrives, io.now);
      ReceiveFrame(t1, io.arrives, io.now);
    }
  }

  lemma FlushNone(t: Turn, now: uint32)
    ensures t.s.output == [] ==> Flush(t, 0, now) == t
  {
    if t.s.output == [] {
      assert t.s.output[0..] == [] && t.log.sent + t.s.output[..0] == t.log.sent;
    }
  }

  /** A header that is not acceptable ends the session. */
  lemma BadHeaderEnds(cfg: Config, actions: seq<Action>, token: uint32, io: Io)
    requires Legal(cfg, actions) && token in Exec(cfg, actions).entries && Polite(Exec(cfg, actions).entries[token], io)
    requires var status := Arrived(TurnOf(Exec(cfg, actions), token), io).s.decoder.status; !status.Incomplete? && !status.Ready?
    ensures Poll(cfg, TurnOf(Exec(cfg, actions), token), io).s.result.ProtocolError?
  {
    hide Legal, Exec, Poll, Act, Kept, Finish, Arrived, Late, Needed;
    PollParts(cfg, actions, token, io);
    FinishEnds(cfg, Arrived(TurnOf(Exec(cfg, actions), token), io), ProtocolError);
  }

  /** Nothing to serve: an unfinished frame, or a command behind a frame that is still going out. */
  predicate NothingDue(t: Turn) {
    t.s.decoder.status.Incomplete? || (t.s.output != [] && CurrentFrame(t.s.decoder).Some? && CurrentFrame(t.s.decoder).value.kind != SERIAL)
  }

  lemma NothingActs(cfg: Config, t: Turn, io: Io)
    requires NothingDue(t)
    ensures Act(cfg, t, io) == ActStream(cfg, t, io) && Unread(t.s.decoder, t.s.dataOffset) == []
  {
    hide ActStream;
  }

  /** Such a poll leaves the session running and serves nothing; without the channel it does nothing more, and with
      it, it pumps. */
  lemma QuietPoll(cfg: Config, actions: seq<Action>, token: uint32, io: Io)
    requires Legal(cfg, actions) && token in Exec(cfg, actions).entries && Polite(Exec(cfg, actions).entries[token], io)
    requires var t := Arrived(TurnOf(Exec(cfg, actions), token), io); NothingDue(t) && (t.s.owned ==> Steady(t, io.backend))
    ensures var w := Exec(cfg, actions); var t, u := Arrived(TurnOf(w, token), io), Poll(cfg, TurnOf(w, token), io);
      u.s.result.Running? && (if t.s.owned then u == Pump(cfg, t, io) && Apart(t, u) else u == t)
  {
    hide Legal, Exec, Poll, Act, Kept, Finish, Arrived, Late, Needed, Pump, Steady, CurrentFrame, Unread;
    var w := Exec(cfg, actions);
    var t := Arrived(TurnOf(w, token), io);
    PollParts(cfg, actions, token, io);
    NothingActs(cfg, t, io);
    ReadyFrame(t.s.decoder);
    if t.s.owned {
      PumpStays(cfg, Home(token, w.ch), t, io);
    }
  }

  /** A command of a session without the channel is served by the first poll that finds nothing queued; a response or
      an event ends the session. */
  lemma CommandServed(cfg: Config, actions: seq<Action>, token: uint32, io: Io, f: Frame)
    requires Legal(cfg, actions) && token in Exec(cfg, actions).entries && Polite(Exec(cfg, actions).entries[token], io)
    requires var t := Arrived(TurnOf(Exec(cfg, actions), token), io);
      !t.s.owned && t.s.output == [] && CurrentFrame(t.s.decoder) == Some(f) && f.kind != SERIAL
    ensures var w := Exec(cfg, actions); var t, u := Arrived(TurnOf(w, token), io), Poll(cfg, TurnOf(w, token), io);
      if Asks(f) then u == ActStream(cfg, Dispatch(cfg, t, f, io), io) && u.log.dispatched == t.log.dispatched + [f.request]
      else u.s.result.ProtocolError?
  {
    hide Legal, Exec, Poll, Kept, Finish, Arrived, Late, Needed, Pump, CurrentFrame, Dispatch;
    var t := Arrived(TurnOf(Exec(cfg, actions), token), io);
    PollParts(cfg, actions, token, io);
    ReadyFrame(t.s.decoder);
    if Asks(f) {
      DispatchCounts(cfg, t, f, io);
      PumpCounts(cfg, Dispatch(cfg, t, f, io), io);
    } else {
      Uninvited(cfg, t, f, io);
    }
  }

  lemma Uninvited(cfg: Config, t: Turn, f: Frame, io: Io)
    requires !Asks(f)
    ensures Dispatch(cfg, t, f, io).s.result.ProtocolError?
  {
    hide Finish;
    FinishEnds(cfg, t, ProtocolError);
  }

  /** A serial frame: its owner's data goes to the backend; anyone else's, or one without data or for another channel,
      ends the session. */
  lemma SerialServed(cfg: Config, actions: seq<Action>, token: uint32, io: Io, f: Frame)
    requires Legal(cfg, actions) && token in Exec(cfg, actions).entries && Polite(Exec(cfg, actions).entries[token], io)
    requires var t := Arrived(TurnOf(Exec(cfg, actions), token), io);
      CurrentFrame(t.s.decoder) == Some(f) && f.kind == SERIAL && (t.s.owned ==> Steady(t, io.backend))
    ensures var w := Exec(cfg, actions); var t, u := Arrived(TurnOf(w, token), io), Poll(cfg, TurnOf(w, token), io);
      if t.s.owned && |f.payload| > 4 && GetBe32(f.payload, 0) == 1 then
        && u.s.result.Running? && u == Pump(cfg, t, io)
        && var out := Pending(t); u.log.delivered == t.log.delivered + (if out == [] then [] else out[..io.backend.takes])
      else u.s.result.ProtocolError?
  {
    hide Legal, Exec, Poll, Kept, Finish, Arrived, Late, Needed, Pump, CurrentFrame, Unread, GetBe32, Pending;
    var w := Exec(cfg, actions);
    var t, h := Arrived(TurnOf(w, token), io), Home(token, w.ch);
    PollParts(cfg, actions, token, io);
    ReadyFrame(t.s.decoder);
    FinishEnds(cfg, t, ProtocolError);
    if t.s.owned {
      FlowingOwns(cfg, h, t);
      OwnersNegotiated(cfg, h, t);
      PumpStays(cfg, h, t, io);
    }
  }

  // ---- Tokens and the upload service ----

  lemma EndedStays(cfg: Config, t: Turn, io: Io)
    requires !t.s.result.Running?
    ensures !Poll(cfg, t, io).s.result.Running?
  {
    hide PollLive, Finish;
  }

  lemma CloseEnds(cfg: Config, t: Turn)
    ensures !CloseSession(cfg, t).s.result.Running?
  {
    hide Finish;
    FinishEnds(cfg, t, Closed);
    FinishEnds(cfg, t, t.s.result);
  }

  /** A session is created running exactly when it has a token and a sound identity, with nothing decoded, queued or
      owned; no other session notices. */
  lemma Created(cfg: Config, w: World, token: uint32, sound: bool, now: uint32)
    ensures var v := Next(cfg, w, Create(token, sound, now));
      && token in v.entries && v.ch == w.ch && v.up == w.up && v.events == w.events
      && (forall k :: k in w.entries && k != token ==> k in v.entries && v.entries[k] == w.entries[k])
      && var s := v.entries[token].s;
         && (s.result.Running? <==> token != 0 && sound) && s.owner == token && s.decoder == Fresh(4096) && s.output == []
         && !s.negotiated && !s.owned && !s.closing && !s.dataTurn && !s.uploadReleased && v.entries[token].log.times.started == now
  {
  }

  /** No running session has the token zero, which stands for no owner. */
  lemma {:induction false} RunningTokens(cfg: Config, actions: seq<Action>, token: uint32)
    requires Legal(cfg, actions) && token in Exec(cfg, actions).entries && Exec(cfg, actions).entries[token].s.result.Running?
    ensures token != 0
    decreases |actions|
  {
    hide Poll, CloseSession, Enabled, ServicePolled;
    if actions != [] {
      var n := |actions| - 1;
      var w, a := Exec(cfg, actions[..n]), actions[n];
      if token in w.entries && w.entries[token].s.result.Running? {
        RunningTokens(cfg, actions[..n], token);
      } else {
        match a
        case PollCall(k, io) =>
          if k == token && k in w.entries {
            EndedStays(cfg, TurnOf(w, k), io);
          }
        case CloseCall(k) =>
          if k == token && k in w.entries {
            CloseEnds(cfg, TurnOf(w, k));
          }
        case _ =>
      }
    }
  }

  /** What the service's poll makes of a queued commit in time: unarmed it fails as unauthorized; refused by the
      replacement it fails with io_error; otherwise it follows the report, with the stage given up. */
  lemma CommitFollows(u: Up.Upload, e: Service)
    requires u.last.id != 0 && u.commitPending && u.last.state.Committing? && !e.replacing
    requires (e.now - u.stagedAt) % 0x1_0000_0000 < 30000
    ensures var v := ServicePolled(u, e);
      if !e.armed then v.last == u.last.(state := Up.Stage.Failed, error := Up.Unauthorized)
      else if !e.accepted then v.last == u.last.(state := Up.Stage.Failed, error := Up.IoError)
      else
        && !v.commitPending && v.stage == Fill(4096, 0)
        && (e.report.Waiting? ==> v.last == u.last.(touched := false))
        && (e.report.Complete? ==> v.last == u.last.(state := Up.Installed, touched := true) && v.generation == e.report.generation)
        && (e.report.Denied? ==> v.last == u.last.(state := Up.Stage.Failed, error := Up.Unauthorized, touched := false))
        && (e.report.TimedOut? ==> v.last == u.last.(state := Up.Stage.Failed, error := Up.ParkTimeout, touched := false))
        && (e.report.Failed? ==> v.last == u.last.(state := Up.Stage.Failed, error := Up.InstallFailed, touched := e.report.touched))
        && (e.report.Idle? ==> v.last == u.last.(state := Up.Stage.Failed, error := Up.IoError, touched := false))
  {
  }
}
