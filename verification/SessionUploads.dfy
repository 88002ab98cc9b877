/** Over every run of any number of sessions, what is staged is what the acknowledged data frames carried. */
module SessionUploads {
  import opened Bytes
  import opened Protocol
  import opened Session
  import opened SessionInv
  import opened SessionRuns
  import opened SessionSteps
  import opened UploadWire
  import UploadText
  import JsonTokens
  import Up = Upload
  import Image = StatefulImage

  // ---- What was acknowledged ----

  /** A reply that says it worked. */
  predicate Ok(reply: seq<byte>) {
    Ascii("{\"ok\":true") <= reply
  }

  /** An acknowledged flash.begin. */
  predicate Starts(cfg: Config, e: Exchange) {
    && e.request.kind == REQUEST && JsonTokens.DocumentTokens(e.request.payload) != []
    && (var c := cfg.read(e.request.payload, JsonTokens.DocumentTokens(e.request.payload)); c.Flash? && c.verb.FlashBegin?)
    && Ok(e.reply)
  }

  /** An acknowledged data frame. */
  predicate Carries(e: Exchange) {
    e.request.kind == UPLOAD && |e.request.payload| >= 8 && Ok(e.reply)
  }

  function Step(cfg: Config, content: seq<byte>, e: Exchange): seq<byte> {
    if Starts(cfg, e) then [] else if Carries(e) then content + e.request.payload[8..] else content
  }

  /** The data of the acknowledged frames since the last acknowledged begin. */
  function Content(cfg: Config, from: seq<byte>, es: seq<Exchange>): seq<byte> {
    if es == [] then from else Step(cfg, Content(cfg, from, es[..|es| - 1]), es[|es| - 1])
  }

  lemma ContentSnoc(cfg: Config, from: seq<byte>, es: seq<Exchange>, e: Exchange)
    ensures Content(cfg, from, es + [e]) == Step(cfg, Content(cfg, from, es), e)
  {
    assert (es + [e])[..|es|] == es;
  }

  lemma {:induction false} ContentAppend(cfg: Config, from: seq<byte>, a: seq<Exchange>, b: seq<Exchange>)
    ensures Content(cfg, from, a + b) == Content(cfg, Content(cfg, from, a), b)
    decreases |b|
  {
    hide Step;
    if b == [] {
      assert a + b == a;
    } else {
      var n := |b| - 1;
      ContentAppend(cfg, from, a, b[..n]);
      assert (a + b)[..|a + b| - 1] == a + b[..n];
    }
  }

  /** The staging buffer begins with this content, as long as nothing has taken or cleared it. */
  predicate Holds(u: Up.Upload, content: seq<byte>) {
    && Up.StageInv(u)
    && (u.last.state.Accepted? || u.last.state.Verified? || u.commitPending ==>
          |content| == u.last.received <= Up.STAGE && content == u.stage[..u.last.received])
  }

  ghost predicate TurnHolds(cfg: Config, from: seq<byte>, base: nat, t: Turn) {
    base <= |t.log.exchanges| && Holds(t.up, Content(cfg, from, t.log.exchanges[base..]))
  }

  lemma ErrorNotOk(code: string)
    ensures !Ok(ErrorText(code))
  {
    var text := "{\"ok\":false,\"error\":{\"code\":\"" + code + "\",\"message\":\"" + code + "\"}}";
    assert text[6] == 'f' && |text| > 10;
    assert ErrorText(code)[6] == 'f' as int && Ascii("{\"ok\":true")[6] == 't' as int;
  }

  lemma ResultOk(tail: seq<byte>)
    ensures Ok(ResultText(tail))
  {
    var head := Ascii(UploadText.HEAD);
    assert head[..10] == Ascii("{\"ok\":true");
    assert ResultText(tail)[..10] == head[..10];
  }

  // ---- The record alone ----

  lemma DisconnectHolds(u: Up.Upload, owner: uint32, content: seq<byte>)
    requires Holds(u, content)
    ensures Holds(Up.Disconnect(u, owner), content)
  {
  }

  lemma FlashHolds(cfg: Config, t: Turn, c: Call, a: Answers, content: seq<byte>)
    requires Holds(t.up, content) && c.Flash?
    ensures var (u, e) := FlashCall(cfg, t, c, a);
      Holds(u, if c.verb.FlashBegin? && e == Up.NoError then [] else content)
  {
    hide Image.Validate;
  }

  lemma ServiceHolds(u: Up.Upload, e: Service, content: seq<byte>)
    requires Holds(u, content)
    ensures Holds(ServicePolled(u, e), content)
  {
  }

  /** The exchanges as they were, and the record left alone or disconnected. */
  predicate Spares(t: Turn, u: Turn) {
    && u.log.exchanges == t.log.exchanges && u.s.owner == t.s.owner
    && (u.up == t.up || u.up == Up.Disconnect(t.up, t.s.owner))
  }

  // ---- One dispatch ----

  lemma LeavesHolds(cfg: Config, t: Turn, u: Turn, content: seq<byte>)
    requires Leaves(cfg, t, u) && Holds(t.up, content)
    ensures Holds(u.up, content)
  {
    hide Up.Disconnect, Holds;
    DisconnectHolds(t.up, t.s.owner, content);
  }

  /** The exchanges after a dispatch: the same, or one more. */
  ghost predicate Grows(cfg: Config, content: seq<byte>, t: Turn, f: Frame, u: Turn) {
    || (u.log.exchanges == t.log.exchanges && Holds(u.up, content))
    || (|u.log.exchanges| == |t.log.exchanges| + 1 && u.log.exchanges[..|t.log.exchanges|] == t.log.exchanges &&
        Holds(u.up, Step(cfg, content, u.log.exchanges[|t.log.exchanges|])))
  }

  /** A refusal changes nothing. */
  lemma RefusedGrows(cfg: Config, t: Turn, f: Frame, r: Turn, code: string, content: seq<byte>)
    requires Holds(t.up, content) && Refused(t, f, r, code)
    ensures Grows(cfg, content, t, f, r)
  {
    hide Holds, ErrorText, Ok, Wire, ValidFrame;
    ErrorNotOk(code);
  }

  lemma ExtendsHolds(u: Up.Upload, v: Up.Upload, data: seq<byte>, content: seq<byte>)
    requires Holds(u, content) && u.last.state.Accepted? && Extends(u, v, data) && u.last.received + |data| <= u.last.size
    ensures Holds(v, content + data)
  {
  }

  lemma ExtendedGrows(cfg: Config, t: Turn, f: Frame, r: Turn, data: seq<byte>, content: seq<byte>)
    requires Holds(t.up, content) && t.up.last.state.Accepted? && t.up.last.received + |data| <= t.up.last.size
    requires f.kind == UPLOAD && |f.payload| >= 8 && f.payload[8..] == data
    requires Reported(t, f, r, r.up) && Extends(t.up, r.up, data)
    ensures Grows(cfg, content, t, f, r)
  {
    hide Holds, Extends, Ok, Wire, ValidFrame, UploadText.RecordTail, ResultText;
    ResultOk(UploadText.RecordTail(r.up.last));
    ExtendsHolds(t.up, r.up, data, content);
  }

  lemma HoldsStage(u: Up.Upload, content: seq<byte>)
    requires Holds(u, content)
    ensures Up.StageInv(u)
  {
  }

  lemma ChunkGrows(cfg: Config, h: Home, t: Turn, f: Frame, io: Io, content: seq<byte>)
    requires Due(cfg, h, t, f) && f.kind == UPLOAD && Holds(t.up, content)
    ensures Grows(cfg, content, t, f, Dispatch(cfg, t, f, io))
  {
    hide Due, Dispatch, Refused, Reported, Grows, Holds, Extends, GetBe32, Be32;
    HoldsStage(t.up, content);
    var p, r := f.payload, Dispatch(cfg, t, f, io);
    forall code | Refused(t, f, r, code) ensures Grows(cfg, content, t, f, r) {
      RefusedGrows(cfg, t, f, r, code, content);
    }
    if t.s.negotiated && cfg.service && 8 < |p| <= 1032 {
      var id, offset, data := GetBe32(p, 0), GetBe32(p, 4), p[8..];
      Be32Inverse(p, 0);
      Be32Inverse(p, 4);
      assert p == p[0..4] + p[4..8] + p[8..];
      ChunkFrame(cfg, h, t, f, io, id, offset, data);
      if Reported(t, f, r, r.up) && Extends(t.up, r.up, data) && t.up.last.state.Accepted? &&
         t.up.last.received + |data| <= t.up.last.size {
        ExtendedGrows(cfg, t, f, r, data, content);
      }
    } else {
      OtherFrame(cfg, h, t, f, io);
    }
  }

  // ---- Requests ----

  lemma FlashGrows(cfg: Config, h: Home, t: Turn, f: Frame, io: Io, c: Call, content: seq<byte>)
    requires Asking(cfg, h, t, f, c) && Holds(t.up, content)
    ensures Grows(cfg, content, t, f, Dispatch(cfg, t, f, io))
  {
    hide Asking, Dispatch, Refused, Grows, Holds, Answered, FlashCall, ErrorText, UploadText.RecordTail, ResultText, UploadText.ErrorName;
    AskingFlash(cfg, h, t, f, c);
    var r := Dispatch(cfg, t, f, io);
    forall code | Refused(t, f, r, code) ensures Grows(cfg, content, t, f, r) {
      RefusedGrows(cfg, t, f, r, code, content);
    }
    if Reaches(cfg, h, t, f, c) {
      Reached(cfg, h, t, f, io, c);
      FlashHolds(cfg, t, c, io.answers, content);
      var call := FlashCall(cfg, t, c, io.answers);
      AskingStarts(cfg, h, t, f, c);
      if call.1 != Up.NoError {
        AnsweredGrows(cfg, t, f, r, ErrorText(UploadText.ErrorName(call.1)), call.0, content, false) by {
          ErrorNotOk(UploadText.ErrorName(call.1));
        }
      } else {
        AnsweredGrows(cfg, t, f, r, ResultText(UploadText.RecordTail(call.0.last)), call.0, content, c.verb.FlashBegin?) by {
          ResultOk(UploadText.RecordTail(call.0.last));
        }
      }
    } else {
      FlashRefused(cfg, h, t, f, io, c);
    }
  }

  /** Whether this request would be a begin, if acknowledged. */
  predicate AsksBegin(cfg: Config, f: Frame) {
    && f.kind == REQUEST && JsonTokens.DocumentTokens(f.payload) != []
    && (var c := cfg.read(f.payload, JsonTokens.DocumentTokens(f.payload)); c.Flash? && c.verb.FlashBegin?)
  }

  lemma AskingStarts(cfg: Config, h: Home, t: Turn, f: Frame, c: Call)
    requires Asking(cfg, h, t, f, c)
    ensures f.kind == REQUEST && c.Flash? && (AsksBegin(cfg, f) <==> c.verb.FlashBegin?)
  {
    hide Due, JsonTokens.DocumentTokens;
  }

  lemma AnsweredGrows(cfg: Config, t: Turn, f: Frame, r: Turn, reply: seq<byte>, up: Up.Upload, content: seq<byte>, begins: bool)
    requires Answered(t, f, r, reply, up) && f.kind == REQUEST && Holds(up, if begins then [] else content)
    requires begins <==> AsksBegin(cfg, f) && Ok(reply)
    ensures Grows(cfg, content, t, f, r)
  {
    hide Holds, Ok, Wire, ValidFrame, JsonTokens.DocumentTokens;
  }

  /** A dispatch that is no acknowledged begin and no data frame. */
  lemma PlainGrows(cfg: Config, t: Turn, f: Frame, r: Turn, content: seq<byte>)
    requires f.kind == REQUEST && r.log.exchanges == t.log.exchanges && Holds(r.up, content)
    requires AsksBegin(cfg, f) ==> |r.log.frames| <= |t.log.frames| || !Ok(r.log.frames[|r.log.frames| - 1].payload)
    ensures Grows(cfg, content, t, f, Paired(t, f, r))
  {
    hide Holds, Ok, JsonTokens.DocumentTokens;
  }

  lemma RequestGrows(cfg: Config, h: Home, t: Turn, f: Frame, io: Io, content: seq<byte>)
    requires Due(cfg, h, t, f) && f.kind == REQUEST && Holds(t.up, content)
    ensures Grows(cfg, content, t, f, Dispatch(cfg, t, f, io))
  {
    hide Due, Holds, Grows, DispatchNotJson, DispatchCall, JsonTokens.DocumentTokens, Up.Disconnect, Paired, Ok;
    HoldsStage(t.up, content);
    var n := Noted(t, f.request);
    var tokens := JsonTokens.DocumentTokens(f.payload);
    DisconnectHolds(t.up, t.s.owner, content);
    if tokens == [] {
      NotJsonCloses(cfg, n, f.request, io.now);
      DisconnectHolds(Up.Disconnect(t.up, t.s.owner), t.s.owner, content);
      PlainGrows(cfg, t, f, DispatchNotJson(cfg, n, f.request, io.now), content);
    } else {
      var c := cfg.read(f.payload, tokens);
      if cfg.service && c.Flash? {
        FlashGrows(cfg, h, t, f, io, c, content);
      } else {
        CallQuietly(cfg, n, f.request, c, io);
        var r := DispatchCall(cfg, n, f.request, c, io);
        LeavesHolds(cfg, n, r, content);
        if c.Flash? {
          DueOpen(cfg, h, t, f);
          NoServiceReply(cfg, n, f.request, c, io);
        }
        PlainGrows(cfg, t, f, r, content);
      }
    }
  }

  lemma NoServiceReply(cfg: Config, t: Turn, id: uint32, c: Call, io: Io)
    requires !cfg.service && c.Flash? && Roomy(t, id)
    ensures var r := DispatchCall(cfg, t, id, c, io); r.log.frames != [] && !Ok(r.log.frames[|r.log.frames| - 1].payload)
  {
    hide Refuse, ErrorText, Wire, Ok;
    RefuseSends(cfg, t, id, "invalid_state");
    RefuseSends(cfg, t, id, "unsupported");
    ErrorNotOk("invalid_state");
    ErrorNotOk("unsupported");
  }

  lemma DispatchGrows(cfg: Config, h: Home, t: Turn, f: Frame, io: Io, content: seq<byte>)
    requires Due(cfg, h, t, f) && Holds(t.up, content)
    ensures Grows(cfg, content, t, f, Dispatch(cfg, t, f, io))
  {
    if f.kind == UPLOAD {
      ChunkGrows(cfg, h, t, f, io, content);
    } else if f.kind == REQUEST {
      RequestGrows(cfg, h, t, f, io, content);
    } else {
      hide Due, Holds, Finish, Up.Disconnect;
      FinishLeaves(cfg, t, ProtocolError);
      LeavesHolds(cfg, t, Finish(cfg, t, ProtocolError), content);
    }
  }

  // ---- One poll ----

  lemma DispatchHolds(cfg: Config, h: Home, t: Turn, f: Frame, io: Io, from: seq<byte>, base: nat)
    requires Due(cfg, h, t, f) && TurnHolds(cfg, from, base, t)
    ensures TurnHolds(cfg, from, base, Dispatch(cfg, t, f, io))
  {
    hide Due, Dispatch, Holds, Step, Content;
    var es, r := t.log.exchanges, Dispatch(cfg, t, f, io);
    DispatchGrows(cfg, h, t, f, io, Content(cfg, from, es[base..]));
    if r.log.exchanges != es {
      var e := r.log.exchanges[|es|];
      assert r.log.exchanges == es + [e];
      assert r.log.exchanges[base..] == es[base..] + [e];
      ContentSnoc(cfg, from, es[base..], e);
    }
  }

  lemma SparesHolds(t: Turn, u: Turn, content: seq<byte>)
    requires Spares(t, u) && Holds(t.up, content)
    ensures Holds(u.up, content)
  {
    hide Up.Disconnect, Holds;
    DisconnectHolds(t.up, t.s.owner, content);
  }

  lemma FinishSpares(cfg: Config, t: Turn, r: Result)
    ensures Spares(t, Finish(cfg, t, r))
  {
    hide Up.Disconnect;
  }

  lemma QueueSpares(cfg: Config, t: Turn, f: Frame)
    ensures Spares(t, Queue(cfg, t, f))
  {
    hide Queue, Up.Disconnect;
    QueueLeaves(cfg, t, f);
  }

  lemma SparesTurn(cfg: Config, t: Turn, u: Turn, from: seq<byte>, base: nat)
    requires Spares(t, u) && TurnHolds(cfg, from, base, t)
    ensures TurnHolds(cfg, from, base, u)
  {
    hide Holds, Content, Up.Disconnect;
    SparesHolds(t, u, Content(cfg, from, t.log.exchanges[base..]));
  }

  /** The record, the exchanges and the owner as they were. */
  predicate Aside(t: Turn, u: Turn) {
    u.up == t.up && u.log.exchanges == t.log.exchanges && u.s.owner == t.s.owner
  }

  lemma FailedSpares(cfg: Config, t: Turn, u: Turn)
    requires Aside(t, u)
    ensures Spares(t, PumpFailed(cfg, u))
  {
    hide Finish, Up.Disconnect;
    FinishSpares(cfg, u.(ch := u.ch.(owner := 0, toBackend := [], toPeer := []), events := u.events + [Shut]), IoError);
  }

  lemma PumpInAside(t: Turn, b: Backend)
    ensures Aside(t, PumpIn(t, b).0) && Aside(t, PumpFill(t, b).0)
  {
    hide Read, Count;
    ReadKeeps(t.s);
  }

  lemma PumpSpares(cfg: Config, t: Turn, io: Io)
    ensures Spares(t, Pump(cfg, t, io))
  {
    hide Finish, Up.Disconnect, PumpIn, PumpFill, PumpOut, PumpFailed;
    FinishSpares(cfg, t, IoError);
    FailedSpares(cfg, t, t);
    PumpInAside(t, io.backend);
    var (t1, ok1) := PumpIn(t, io.backend);
    FailedSpares(cfg, t, t1);
    PumpInAside(t1, io.backend);
    var (t2, ok2) := PumpFill(t1, io.backend);
    FailedSpares(cfg, t, t2);
    PumpOutSpares(cfg, t2);
  }

  lemma ReadKeeps(s: Session)
    ensures Read(s, STREAM_CAPACITY).0.owner == s.owner
  {
    hide Unread, CurrentFrame;
  }

  lemma PumpOutSpares(cfg: Config, t: Turn)
    ensures Spares(t, PumpOut(cfg, t))
  {
    hide Queue, Be32, Up.Disconnect;
    forall f { QueueSpares(cfg, t, f); }
  }

  lemma ActHolds(cfg: Config, h: Home, t: Turn, io: Io, from: seq<byte>, base: nat)
    requires Kept(cfg, h, t) && t.s.result.Running? && !t.s.closing && TurnHolds(cfg, from, base, t)
    ensures TurnHolds(cfg, from, base, Act(cfg, t, io))
  {
    hide Kept, TurnHolds, Pump, Dispatch, Finish, CurrentFrame, Spares;
    StreamHolds(cfg, t, io, from, base);
    if CurrentFrame(t.s.decoder).Some? {
      var f := CurrentFrame(t.s.decoder).value;
      if f.kind == SERIAL {
        FinishSpares(cfg, t, ProtocolError);
        SparesTurn(cfg, t, Finish(cfg, t, ProtocolError), from, base);
        StreamHolds(cfg, CheckSerial(cfg, t, f), io, from, base);
      } else if t.s.output == [] && t.s.owned && t.s.dataTurn {
        AlternateHolds(cfg, h, t, f, io, from, base);
      } else if t.s.output == [] {
        DispatchHolds(cfg, h, t, f, io, from, base);
        StreamHolds(cfg, Dispatch(cfg, t, f, io), io, from, base);
      }
    }
  }

  lemma StreamHolds(cfg: Config, t: Turn, io: Io, from: seq<byte>, base: nat)
    requires TurnHolds(cfg, from, base, t)
    ensures TurnHolds(cfg, from, base, ActStream(cfg, t, io))
  {
    hide TurnHolds, Pump, Spares;
    PumpSpares(cfg, t, io);
    SparesTurn(cfg, t, Pump(cfg, t, io), from, base);
  }

  lemma AlternateHolds(cfg: Config, h: Home, t: Turn, f: Frame, io: Io, from: seq<byte>, base: nat)
    requires Kept(cfg, h, t) && t.s.result.Running? && !t.s.closing && TurnHolds(cfg, from, base, t) && t.s.owned
    requires CurrentFrame(t.s.decoder) == Some(f) && f.kind != SERIAL && t.s.output == []
    ensures var t1 := Pump(cfg, t, io);
      && TurnHolds(cfg, from, base, t1)
      && (t1.s.result.Running? ==>
            var t2 := t1.(s := t1.s.(dataTurn := false));
            && TurnHolds(cfg, from, base, t2)
            && (t2.s.output == [] ==> TurnHolds(cfg, from, base, Dispatch(cfg, t2, f, io))))
  {
    hide Kept, Pump, Dispatch, CurrentFrame, Holds, Content;
    PumpSpares(cfg, t, io);
    var t1 := Pump(cfg, t, io);
    SparesTurn(cfg, t, t1, from, base);
    if t1.s.result.Running? {
      PumpKeeps(cfg, h, t, io);
      TurnFlag(cfg, h, t1);
      var t2 := t1.(s := t1.s.(dataTurn := false));
      if t2.s.output == [] {
        DueQuiet(cfg, h, t, f);
        PumpFrame(cfg, t, io);
        DispatchHolds(cfg, h, t2, f, io, from, base);
      }
    }
  }

  lemma PollHolds(cfg: Config, h: Home, t: Turn, io: Io, from: seq<byte>, base: nat)
    requires Kept(cfg, h, t) && TurnHolds(cfg, from, base, t)
    ensures TurnHolds(cfg, from, base, Poll(cfg, t, io))
  {
    hide Kept, TurnHolds, Finish, PollOpen, Expired, Flush, Spares;
    forall r { FinishSpares(cfg, t, r); }
    forall r { SparesTurn(cfg, t, Finish(cfg, t, r), from, base); }
    if t.s.result.Running? && (t.s.output == [] || io.accepts <= |t.s.output|) {
      if t.s.output != [] {
        FlushKeeps(cfg, h, t, io.accepts, io.now);
        FlushSpares(t, io.accepts, io.now);
        SparesTurn(cfg, t, Flush(t, io.accepts, io.now), from, base);
      }
      var t1 := if t.s.output != [] then Flush(t, io.accepts, io.now) else t;
      FinishSpares(cfg, t1, ProtocolError);
      SparesTurn(cfg, t1, Finish(cfg, t1, ProtocolError), from, base);
      if !t1.s.closing {
        PollOpenHolds(cfg, h, t1, io, from, base);
      }
    }
  }

  lemma FlushSpares(t: Turn, accepted: nat, now: uint32)
    requires accepted <= |t.s.output|
    ensures Spares(t, Flush(t, accepted, now)) && Flush(t, accepted, now).s.result == t.s.result
  {
  }

  lemma ReceiveSpares(t: Turn, arrived: seq<byte>, now: uint32)
    ensures Spares(t, Receive(t, arrived, now))
  {
    hide Fed, CurrentFrame, Up.Disconnect;
  }

  lemma PollOpenHolds(cfg: Config, h: Home, t: Turn, io: Io, from: seq<byte>, base: nat)
    requires Kept(cfg, h, t) && t.s.result.Running? && !t.s.closing && TurnHolds(cfg, from, base, t)
    ensures TurnHolds(cfg, from, base, PollOpen(cfg, t, io))
  {
    hide Kept, TurnHolds, Finish, Act, Receive, Needed, Spares;
    FinishSpares(cfg, t, IoError);
    SparesTurn(cfg, t, Finish(cfg, t, IoError), from, base);
    FinishSpares(cfg, t, ProtocolError);
    SparesTurn(cfg, t, Finish(cfg, t, ProtocolError), from, base);
    if t.s.decoder.status.Incomplete? && |io.arrives| <= Min(Needed(t.s.decoder), READ_CAPACITY) {
      ReceiveKeeps(cfg, h, t, io.arrives, io.now);
      var t1 := Receive(t, io.arrives, io.now);
      ReceiveFrame(t, io.arrives, io.now);
      ReceiveSpares(t, io.arrives, io.now);
      SparesTurn(cfg, t, t1, from, base);
      FinishSpares(cfg, t1, ProtocolError);
      SparesTurn(cfg, t1, Finish(cfg, t1, ProtocolError), from, base);
      ActHolds(cfg, h, t1, io, from, base);
    } else if !t.s.decoder.status.Incomplete? {
      ActHolds(cfg, h, t, io, from, base);
    }
  }

  // ---- Every run ----

  predicate WorldHolds(cfg: Config, w: World) {
    Holds(w.up, Content(cfg, [], w.exchanges))
  }

  /** A session's turn, seen from the shared record. */
  lemma PutHolds(cfg: Config, w: World, token: uint32, t: Turn)
    requires token in w.entries
    requires TurnHolds(cfg, Content(cfg, [], w.exchanges), |w.entries[token].log.exchanges|, t)
    ensures WorldHolds(cfg, Put(w, token, t))
  {
    hide Holds, Content;
    ContentAppend(cfg, [], w.exchanges, t.log.exchanges[|w.entries[token].log.exchanges|..]);
  }

  lemma TurnBegins(cfg: Config, w: World, token: uint32)
    requires token in w.entries && WorldHolds(cfg, w)
    ensures TurnHolds(cfg, Content(cfg, [], w.exchanges), |w.entries[token].log.exchanges|, TurnOf(w, token))
  {
    hide Holds, Step;
    var es := w.entries[token].log.exchanges;
    assert es[|es|..] == [];
  }

  lemma CloseHolds(cfg: Config, w: World, token: uint32)
    requires token in w.entries && WorldHolds(cfg, w)
    ensures WorldHolds(cfg, Put(w, token, CloseSession(cfg, TurnOf(w, token))))
  {
    hide WorldHolds, TurnHolds, Finish, Leaves, Put;
    var t := TurnOf(w, token);
    var r := if t.s.result.Running? then Closed else t.s.result;
    TurnBegins(cfg, w, token);
    FinishSpares(cfg, t, r);
    SparesTurn(cfg, t, Finish(cfg, t, r), Content(cfg, [], w.exchanges), |w.entries[token].log.exchanges|);
    PutHolds(cfg, w, token, Finish(cfg, t, r));
  }

  lemma StepHolds(cfg: Config, w: World, a: Action)
    requires WorldInv(cfg, w) && WorldHolds(cfg, w) && Enabled(cfg, w, a)
    ensures WorldHolds(cfg, Next(cfg, w, a))
  {
    hide WorldInv, Poll, CloseSession, ServicePolled, NewSession, Content, Holds, Kept, Put, TurnHolds;
    match a
    case Create(_, _, _) =>
    case PollCall(token, io) =>
      TurnBegins(cfg, w, token);
      EntryKept(cfg, w, token);
      PollHolds(cfg, Home(token, w.ch), TurnOf(w, token), io, Content(cfg, [], w.exchanges), |w.entries[token].log.exchanges|);
      PutHolds(cfg, w, token, Poll(cfg, TurnOf(w, token), io));
    case CloseCall(token) => CloseHolds(cfg, w, token);
    case Destroy(token) => CloseHolds(cfg, w, token);
    case UploadPoll(e) => ServiceHolds(w.up, e, Content(cfg, [], w.exchanges));
  }

  lemma {:induction false} RunHolds(cfg: Config, actions: seq<Action>)
    requires Legal(cfg, actions)
    ensures WorldHolds(cfg, Exec(cfg, actions))
  {
    hide WorldInv, Enabled, Next;
    if actions != [] {
      hide WorldHolds;
      var n := |actions| - 1;
      RunHolds(cfg, actions[..n]);
      RunKeeps(cfg, actions[..n]);
      StepHolds(cfg, Exec(cfg, actions[..n]), actions[n]);
    }
  }

  /** Over every run of every number of sessions, and until a commit takes it: what is staged is exactly the
      data of the frames acknowledged since the acknowledged begin, in the order they were acknowledged. */
  lemma StagedIsAcknowledged(cfg: Config, actions: seq<Action>)
    requires Legal(cfg, actions)
    ensures var w := Exec(cfg, actions); var u := w.up;
      u.last.state.Accepted? || u.last.state.Verified? || u.commitPending ==>
        u.last.received <= 4096 && u.stage[..u.last.received] == Content(cfg, [], w.exchanges)
  {
    hide Legal, Exec, Content;
    RunHolds(cfg, actions);
  }
}
