/** A staged upload belongs to its session: nobody else disturbs it, and it is gone when the session is. */
module SessionEnds {
  import opened Bytes
  import opened Protocol
  import opened Session
  import opened SessionInv
  import opened SessionRuns
  import opened SessionSteps
  import UploadText
  import JsonTokens
  import Up = Upload

  predicate Staged(u: Up.Upload) {
    u.last.id != 0 && (u.last.state.Accepted? || u.last.state.Verified?)
  }

  /** An upload this session staged, only while the session is open. */
  predicate Hosts(cfg: Config, t: Turn) {
    Staged(t.up) ==> cfg.service && (t.up.owner == t.s.owner ==> t.s.result.Running? && !t.s.closing && !t.s.uploadReleased)
  }

  /** Another session's upload is as it was. */
  predicate Spares(t: Turn, u: Turn) {
    && u.s.owner == t.s.owner
    && (Staged(t.up) && t.up.owner != t.s.owner ==> u.up == t.up) && (Staged(u.up) && u.up.owner != t.s.owner ==> u.up == t.up)
  }

  predicate Good(cfg: Config, t: Turn, u: Turn) {
    Hosts(cfg, u) && Spares(t, u)
  }

  lemma GoodThen(cfg: Config, t: Turn, u: Turn, v: Turn)
    requires Good(cfg, t, u) && Good(cfg, u, v)
    ensures Good(cfg, t, v)
  {
  }

  lemma Unaffected(cfg: Config, t: Turn, u: Turn)
    requires Hosts(cfg, t) && u.up == t.up && u.s.owner == t.s.owner && u.s.result == t.s.result && u.s.closing == t.s.closing
    requires u.s.uploadReleased == t.s.uploadReleased
    ensures Good(cfg, t, u)
  {
  }

  lemma LeavesGood(cfg: Config, t: Turn, u: Turn)
    requires Hosts(cfg, t) && Leaves(cfg, t, u)
    ensures Good(cfg, t, u)
  {
  }

  // ---- Ending ----

  /** How a session's end leaves the upload record: its own staged upload aborted as disconnected and the stage empty,
      anything else as it was. */
  lemma EndingUploads(cfg: Config, t: Turn, r: Result)
    requires Hosts(cfg, t) && cfg.service && !t.s.uploadReleased
    ensures var u := Finish(cfg, t, r);
      if Staged(t.up) && t.up.owner == t.s.owner then
        u.up == t.up.(last := t.up.last.(state := Up.Aborted, error := Up.Disconnected), stage := Fill(4096, 0))
      else u.up == t.up
  {
  }

  lemma FinishGood(cfg: Config, t: Turn, r: Result)
    requires Hosts(cfg, t)
    ensures Good(cfg, t, Finish(cfg, t, r))
  {
  }

  lemma FailedGood(cfg: Config, t: Turn)
    requires Hosts(cfg, t)
    ensures Good(cfg, t, PumpFailed(cfg, t))
  {
    hide Finish;
    FinishGood(cfg, t.(ch := t.ch.(owner := 0, toBackend := [], toPeer := []), events := t.events + [Shut]), IoError);
  }

  // ---- Dispatch ----

  /** A session that may ask for things: open, and still attached to the service. */
  predicate Open(t: Turn) {
    t.s.result.Running? && !t.s.closing && !t.s.uploadReleased
  }

  lemma CallGood(cfg: Config, t: Turn, c: Call, a: Answers)
    requires Hosts(cfg, t) && Open(t) && c.Flash? && cfg.service
    ensures Good(cfg, t, t.(up := FlashCall(cfg, t, c, a).0))
  {
  }

  lemma ChunkGood(cfg: Config, t: Turn, id: uint32, offset: uint32, data: seq<byte>)
    requires Hosts(cfg, t) && Open(t) && cfg.service
    ensures Good(cfg, t, t.(up := Up.Chunk(t.up, t.s.owner, id, offset, data).0))
  {
  }

  lemma ReplyGood(cfg: Config, t: Turn, id: uint32, r: (Up.Upload, Up.Error))
    requires Good(cfg, t, t.(up := r.0))
    ensures Good(cfg, t, UploadReply(cfg, t, id, r))
  {
    hide Refuse, Answer, Leaves, Good, UploadText.ErrorName, UploadText.RecordTail;
    var u := t.(up := r.0);
    assert Hosts(cfg, u) by { GoodHosts(cfg, t, u); }
    RefuseLeaves(cfg, u, id, UploadText.ErrorName(r.1));
    AnswerLeaves(cfg, u, id, Text(UploadText.RecordTail(r.0.last)));
    LeavesGood(cfg, u, UploadReply(cfg, t, id, r));
    GoodThen(cfg, t, u, UploadReply(cfg, t, id, r));
  }

  lemma GoodHosts(cfg: Config, t: Turn, u: Turn)
    requires Good(cfg, t, u)
    ensures Hosts(cfg, u) && u.s.owner == t.s.owner
  {
  }

  lemma FrameGood(cfg: Config, t: Turn, id: uint32, payload: seq<byte>)
    requires Hosts(cfg, t) && Open(t)
    ensures Good(cfg, t, DispatchUploadFrame(cfg, t, id, payload))
  {
    hide UploadReply, Good, GetBe32, Up.Chunk;
    forall e { SelfGood(cfg, t, e); }
    if cfg.service && |payload| > 8 {
      var id', offset := GetBe32(payload, 0), GetBe32(payload, 4);
      ChunkGood(cfg, t, id', offset, payload[8..]);
      ReplyGood(cfg, t, id, Up.Chunk(t.up, t.s.owner, id', offset, payload[8..]));
    }
  }

  lemma SelfGood(cfg: Config, t: Turn, e: Up.Error)
    requires Hosts(cfg, t)
    ensures forall id :: Good(cfg, t, UploadReply(cfg, t, id, (t.up, e)))
  {
    hide UploadReply;
    assert t.(up := t.up) == t;
    forall id ensures Good(cfg, t, UploadReply(cfg, t, id, (t.up, e))) {
      ReplyGood(cfg, t, id, (t.up, e));
    }
  }

  lemma FlashGood(cfg: Config, t: Turn, id: uint32, c: Call, a: Answers)
    requires Hosts(cfg, t) && Open(t) && c.Flash? && cfg.service
    ensures Good(cfg, t, DispatchFlash(cfg, t, id, c, a))
  {
    hide UploadReply, Good, FlashCall, Refuse, Leaves;
    forall code ensures Good(cfg, t, Refuse(cfg, t, id, code)) {
      RefuseLeaves(cfg, t, id, code);
      LeavesGood(cfg, t, Refuse(cfg, t, id, code));
    }
    CallGood(cfg, t, c, a);
    ReplyGood(cfg, t, id, FlashCall(cfg, t, c, a));
  }

  lemma RequestGood(cfg: Config, t: Turn, id: uint32, c: Call, io: Io)
    requires Hosts(cfg, t) && Open(t)
    ensures Good(cfg, t, DispatchCall(cfg, t, id, c, io))
  {
    hide DispatchFlash, DispatchCommand, Refuse, Leaves, Up.Disconnect;
    if cfg.service && c.Flash? {
      FlashGood(cfg, t, id, c, io.answers);
    } else {
      CallQuietly(cfg, t, id, c, io);
      hide DispatchCall;
      LeavesGood(cfg, t, DispatchCall(cfg, t, id, c, io));
    }
  }

  lemma NotJsonGood(cfg: Config, t: Turn, id: uint32, now: uint32)
    requires Hosts(cfg, t) && Open(t)
    ensures Good(cfg, t, DispatchNotJson(cfg, t, id, now))
  {
    hide Refuse;
    RefuseLeaves(cfg, t, id, "invalid_argument");
  }

  lemma DispatchGood(cfg: Config, t: Turn, f: Frame, io: Io)
    requires Hosts(cfg, t) && Open(t)
    ensures Good(cfg, t, Dispatch(cfg, t, f, io))
  {
    hide Finish, DispatchUploadFrame, DispatchNotJson, DispatchCall, JsonTokens.DocumentTokens;
    var n := Noted(t, f.request);
    FinishGood(cfg, t, ProtocolError);
    FrameGood(cfg, n, f.request, f.payload);
    NotJsonGood(cfg, n, f.request, io.now);
    RequestGood(cfg, n, f.request, cfg.read(f.payload, JsonTokens.DocumentTokens(f.payload)), io);
  }

  // ---- The stream ----

  lemma OutGood(cfg: Config, t: Turn)
    requires Hosts(cfg, t)
    ensures Good(cfg, t, PumpOut(cfg, t))
  {
    hide Queue, Leaves, Be32;
    QueueLeaves(cfg, t, Frame(SERIAL, 0, Be32(1) + t.ch.toPeer[..Min(|t.ch.toPeer|, STREAM_CAPACITY)]));
    LeavesGood(cfg, t, Queue(cfg, t, Frame(SERIAL, 0, Be32(1) + t.ch.toPeer[..Min(|t.ch.toPeer|, STREAM_CAPACITY)])));
    Unaffected(cfg, t, t);
  }

  lemma InGood(cfg: Config, t: Turn, b: Backend)
    requires Hosts(cfg, t)
    ensures Good(cfg, t, PumpIn(t, b).0) && Good(cfg, t, PumpFill(t, b).0)
  {
    hide Read, Count;
    ReadSame(t.s);
  }

  lemma ReadSame(s: Session)
    ensures var r := Read(s, STREAM_CAPACITY).0; r == s.(decoder := r.decoder, dataOffset := r.dataOffset)
  {
    hide CurrentFrame, Unread;
  }

  lemma PumpGood(cfg: Config, t: Turn, io: Io)
    requires Hosts(cfg, t)
    ensures Good(cfg, t, Pump(cfg, t, io))
  {
    hide Finish, PumpIn, PumpFill, PumpOut, PumpFailed, Stirred;
    FinishGood(cfg, t, IoError);
    FailedGood(cfg, t);
    InGood(cfg, t, io.backend);
    var t1 := PumpIn(t, io.backend).0;
    FailedGood(cfg, t1);
    InGood(cfg, t1, io.backend);
    var t2 := PumpFill(t1, io.backend).0;
    FailedGood(cfg, t2);
    OutGood(cfg, t2);
  }

  // ---- Polls ----

  lemma ActGood(cfg: Config, t: Turn, io: Io)
    requires Hosts(cfg, t) && Open(t)
    ensures Good(cfg, t, Act(cfg, t, io))
  {
    hide Dispatch, Pump, Finish, CurrentFrame, Good;
    if CurrentFrame(t.s.decoder).Some? {
      var f := CurrentFrame(t.s.decoder).value;
      FinishGood(cfg, t, ProtocolError);
      Self(cfg, t);
      StreamGood(cfg, t, CheckSerial(cfg, t, f), io);
      DispatchGood(cfg, t, f, io);
      StreamGood(cfg, t, Dispatch(cfg, t, f, io), io);
      StreamGood(cfg, t, t, io);
      PumpGood(cfg, t, io);
      TurnTaken(cfg, t, f, io);
    } else {
      Self(cfg, t);
      StreamGood(cfg, t, t, io);
    }
  }

  lemma Self(cfg: Config, t: Turn)
    requires Hosts(cfg, t)
    ensures Good(cfg, t, t)
  {
  }

  lemma StreamGood(cfg: Config, t: Turn, u: Turn, io: Io)
    requires Good(cfg, t, u)
    ensures Good(cfg, t, ActStream(cfg, u, io))
  {
    hide Pump;
    PumpGood(cfg, u, io);
  }

  lemma TurnTaken(cfg: Config, t: Turn, f: Frame, io: Io)
    requires Hosts(cfg, t) && Open(t)
    ensures var u := Pump(cfg, t, io); var v := u.(s := u.s.(dataTurn := false));
      u.s.result.Running? ==> Good(cfg, t, v) && Good(cfg, t, Dispatch(cfg, v, f, io))
  {
    hide Pump, Dispatch;
    PumpGood(cfg, t, io);
    var u := Pump(cfg, t, io);
    var v := u.(s := u.s.(dataTurn := false));
    if u.s.result.Running? {
      PumpOpen(cfg, t, io);
      DispatchGood(cfg, v, f, io);
    }
  }

  /** A pump that does not end the session leaves it open. */
  lemma PumpOpen(cfg: Config, t: Turn, io: Io)
    requires Open(t)
    ensures Pump(cfg, t, io).s.result.Running? ==> Open(Pump(cfg, t, io))
  {
    hide Finish, Read, Queue, Count, Stirred, PumpFailed;
    ReadSame(t.s);
    FinishOver(cfg, t, IoError);
    var t1 := PumpIn(t, io.backend).0;
    var t2 := PumpFill(t1, io.backend).0;
    FailedOver(cfg, t);
    FailedOver(cfg, t1);
    FailedOver(cfg, t2);
    OutOpen(cfg, t2);
  }

  lemma FinishOver(cfg: Config, t: Turn, r: Result)
    ensures Finish(cfg, t, r).s.result == r
  {
    hide Up.Disconnect;
  }

  lemma FailedOver(cfg: Config, t: Turn)
    ensures !PumpFailed(cfg, t).s.result.Running?
  {
    hide Finish;
    FinishOver(cfg, t.(ch := t.ch.(owner := 0, toBackend := [], toPeer := []), events := t.events + [Shut]), IoError);
  }

  lemma OutOpen(cfg: Config, t: Turn)
    requires Open(t)
    ensures PumpOut(cfg, t).s.result.Running? ==> Open(PumpOut(cfg, t))
  {
    hide Finish, Encode, Be32;
    FinishOver(cfg, t, IoError);
  }

  lemma PollOpenGood(cfg: Config, t: Turn, io: Io)
    requires Hosts(cfg, t) && Open(t)
    ensures Good(cfg, t, PollOpen(cfg, t, io))
  {
    hide Finish, Act, Fed, CurrentFrame, Needed;
    FinishGood(cfg, t, IoError);
    FinishGood(cfg, t, ProtocolError);
    ActGood(cfg, t, io);
    var t1 := Receive(t, io.arrives, io.now);
    FinishGood(cfg, t1, ProtocolError);
    ActGood(cfg, t1, io);
  }

  lemma PollGood(cfg: Config, t: Turn, io: Io)
    requires Hosts(cfg, t) && (t.s.result.Running? && !t.s.closing ==> !t.s.uploadReleased)
    ensures Good(cfg, t, Poll(cfg, t, io))
  {
    hide Finish, PollOpen, Expired;
    Self(cfg, t);
    forall r { FinishGood(cfg, t, r); }
    if t.s.result.Running? && (t.s.output == [] || io.accepts <= |t.s.output|) {
      var t1 := if t.s.output != [] then Flush(t, io.accepts, io.now) else t;
      FinishGood(cfg, t1, ProtocolError);
      if !t.s.closing {
        PollOpenGood(cfg, t1, io);
      }
    }
  }

  // ---- Runs ----

  /** A staged upload's owner is a session that is open. */
  predicate WorldHosts(cfg: Config, w: World) {
    Staged(w.up) ==> cfg.service && w.up.owner in w.entries && OpenEntry(w.entries[w.up.owner])
  }

  predicate OpenEntry(e: Entry) {
    e.s.result.Running? && !e.s.closing && !e.s.uploadReleased
  }

  lemma EntryFacts(cfg: Config, w: World, token: uint32)
    requires WorldInv(cfg, w) && WorldHosts(cfg, w) && token in w.entries
    ensures var t := TurnOf(w, token);
      Hosts(cfg, t) && t.s.owner == token && (t.s.result.Running? && !t.s.closing ==> !t.s.uploadReleased)
  {
    hide WireInv, DecodeInv, OffsetInv, FlowInv, OwnInv, EventInv, Paid, Asked, HomeInv;
    assert EntryInv(cfg, w, token);
  }

  lemma PutHosts(cfg: Config, w: World, token: uint32, u: Turn)
    requires WorldHosts(cfg, w) && token in w.entries && w.entries[token].s.owner == token && Good(cfg, TurnOf(w, token), u)
    ensures WorldHosts(cfg, Put(w, token, u))
  {
  }

  lemma CloseGood(cfg: Config, t: Turn)
    requires Hosts(cfg, t)
    ensures Good(cfg, t, CloseSession(cfg, t)) && !CloseSession(cfg, t).s.result.Running?
  {
    hide Finish;
    var r := if t.s.result.Running? then Closed else t.s.result;
    FinishGood(cfg, t, r);
    FinishOver(cfg, t, r);
  }

  lemma ServiceHosts(u: Up.Upload, e: Service)
    ensures Staged(ServicePolled(u, e)) ==> Staged(u) && ServicePolled(u, e).owner == u.owner
  {
  }

  lemma HostsStep(cfg: Config, w: World, a: Action)
    requires WorldInv(cfg, w) && WorldHosts(cfg, w) && Enabled(cfg, w, a)
    ensures WorldHosts(cfg, Next(cfg, w, a))
  {
    hide WorldInv, Poll, CloseSession, ServicePolled, Put, Good;
    match a
    case Create(_, _, _) =>
    case PollCall(token, io) =>
      EntryFacts(cfg, w, token);
      PollGood(cfg, TurnOf(w, token), io);
      PutHosts(cfg, w, token, Poll(cfg, TurnOf(w, token), io));
    case CloseCall(token) =>
      EntryFacts(cfg, w, token);
      CloseGood(cfg, TurnOf(w, token));
      PutHosts(cfg, w, token, CloseSession(cfg, TurnOf(w, token)));
    case Destroy(token) =>
      EntryFacts(cfg, w, token);
      CloseGood(cfg, TurnOf(w, token));
      PutHosts(cfg, w, token, CloseSession(cfg, TurnOf(w, token)));
      PutEnds(w, token, CloseSession(cfg, TurnOf(w, token)));
      RemoveHosts(cfg, Put(w, token, CloseSession(cfg, TurnOf(w, token))), token);
    case UploadPoll(e) => ServiceHosts(w.up, e);
  }

  lemma PutEnds(w: World, token: uint32, t: Turn)
    ensures token in Put(w, token, t).entries && Put(w, token, t).entries[token].s == t.s
  {
  }

  lemma RemoveHosts(cfg: Config, w: World, token: uint32)
    requires WorldHosts(cfg, w) && token in w.entries
    ensures !w.entries[token].s.result.Running? ==> WorldHosts(cfg, Removed(w, token))
  {
  }

  /** Over every run: an upload that is accepted or verified belongs to a session that is running and not closing, so
      it does not outlive it. */
  lemma {:induction false} StagedHasSession(cfg: Config, actions: seq<Action>)
    requires Legal(cfg, actions)
    ensures WorldHosts(cfg, Exec(cfg, actions))
  {
    hide WorldInv, Enabled, Next;
    if actions != [] {
      hide WorldHosts;
      var n := |actions| - 1;
      StagedHasSession(cfg, actions[..n]);
      RunKeeps(cfg, actions[..n]);
      HostsStep(cfg, Exec(cfg, actions[..n]), actions[n]);
    }
  }

  /** After every run, no call on another session touches a staged upload, whatever it sends. */
  lemma OthersUploadsSafe(cfg: Config, actions: seq<Action>, token: uint32, io: Io)
    requires Legal(cfg, actions) && token in Exec(cfg, actions).entries
    requires var u := Exec(cfg, actions).up; Staged(u) && u.owner != token
    ensures var w := Exec(cfg, actions);
      && Poll(cfg, TurnOf(w, token), io).up == w.up && CloseSession(cfg, TurnOf(w, token)).up == w.up
  {
    hide Legal, Exec, Poll, CloseSession, WorldInv;
    var w := Exec(cfg, actions);
    StagedHasSession(cfg, actions);
    RunKeeps(cfg, actions);
    EntryFacts(cfg, w, token);
    PollGood(cfg, TurnOf(w, token), io);
    CloseGood(cfg, TurnOf(w, token));
  }
}
