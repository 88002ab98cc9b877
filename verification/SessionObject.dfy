/** Session and Channel as the firmware keeps them: objects whose calls change them in place. */
module SessionObject {
  import opened Bytes
  import opened Protocol
  import opened Session
  import JsonDocument
  import JsonTokens
  import UploadText
  import Up = Upload
  import opened UploadService

  /** Channel with its Stream: the owner and the unsent part of each direction. */
  class SharedChannel {
    var owner: uint32
    var toBackend: seq<byte>
    var toPeer: seq<byte>
    var rx: nat
    var tx: nat
    ghost var events: seq<Event>

    ghost function View(): Channel
      reads this
    {
      Channel(owner, toBackend, toPeer, rx, tx)
    }

    constructor ()
      ensures View() == Channel(0, [], [], 0, 0) && events == []
    {
      owner, toBackend, toPeer, rx, tx, events := 0, [], [], 0, 0, [];
    }

    /** Stream::clear() and what the backend is told. */
    method Shutdown()
      modifies this
      ensures View() == old(View()).(owner := 0, toBackend := [], toPeer := []) && events == old(events) + [Shut]
    {
      owner, toBackend, toPeer, events := 0, [], [], events + [Shut];
    }

    method Release(peer: uint32)
      modifies this
      ensures View() == (if peer == 0 || peer != old(owner) then old(View())
                         else old(View()).(owner := 0, toBackend := [], toPeer := []))
      ensures events == (if peer == 0 || peer != old(owner) then old(events) else old(events) + [Shut])
    {
      if peer != 0 && peer == owner {
        Shutdown();
      }
    }
  }

  class PeerSession {
    const cfg: Config
    const channel: SharedChannel
    const service: Service
    const owner: uint32
    var clock: Clock
    var decoder: Decoder
    var output: seq<byte>
    var dataOffset: nat
    var negotiated: bool
    var owned: bool
    var closing: bool
    var dataTurn: bool
    var uploadReleased: bool
    var result: Result
    ghost var log: Log

    ghost predicate Valid()
      reads this, service, service.stage
    {
      service.Valid() && service.sha == cfg.sha && service.contract == cfg.contract
    }

    ghost function View(): Turn
      requires Valid()
      reads this, channel, service, service.stage
    {
      Turn(Session(owner, clock, decoder, output, dataOffset, negotiated, owned, closing, dataTurn, uploadReleased, result),
           channel.View(), service.View(), log, channel.events)
    }

    constructor (cfg: Config, channel: SharedChannel, service: Service, token: uint32, sound: bool, now: uint32)
      requires service.Valid() && service.sha == cfg.sha && service.contract == cfg.contract
      ensures Valid() && this.cfg == cfg && this.channel == channel && this.service == service
      ensures View() == Turn(NewSession(token, sound, now), channel.View(), service.View(), NewLog(now), channel.events)
    {
      this.cfg, this.channel, this.service, owner := cfg, channel, service, token;
      clock := Clock(now, now, 0, 0);
      decoder := Fresh(MAX_PAYLOAD);
      output, dataOffset := [], 0;
      negotiated, owned, closing, dataTurn, uploadReleased := false, false, false, false, false;
      result := if token == 0 || !sound then IoError else Running;
      log := NewLog(now);
    }

    // ---- Ending ----

    method LetGo()
      requires Valid()
      modifies this, channel, service, service.stage
      ensures Valid() && View() == Detached(cfg, ReleasedIfOwned(old(View())))
    {
      hide Up.Disconnect, Up.StageInv;
      if owned {
        channel.Release(owner);
      }
      if cfg.service && !uploadReleased {
        service.DisconnectOwner(owner);
        log := log.(disconnects := log.disconnects + 1);
      }
    }

    method FinishWith(r: Result)
      requires Valid()
      modifies this, channel, service, service.stage
      ensures Valid() && View() == Finish(cfg, old(View()), r)
    {
      hide Detached, ReleasedIfOwned, Up.StageInv;
      LetGo();
      owned, uploadReleased, output, dataOffset, result := false, true, [], 0, r;
      decoder := Reset(decoder);
    }

    // ---- Replies ----

    method QueueFrame(f: Frame)
      requires Valid()
      modifies this, channel, service, service.stage
      ensures Valid() && View() == Queue(cfg, old(View()), f)
    {
      hide Finish, Encode, Up.StageInv;
      if output != [] || |f.payload| > decoder.limit {
        FinishWith(IoError);
        return;
      }
      var bytes := Encode(HEADER + RESPONSE_CAPACITY, f);
      if bytes == [] {
        FinishWith(IoError);
        return;
      }
      output := bytes;
      log := log.(frames := log.frames + [f]);
    }

    method RefuseWith(id: uint32, code: string)
      requires Valid()
      modifies this, channel, service, service.stage
      ensures Valid() && View() == Refuse(cfg, old(View()), id, code)
    {
      hide Finish, Queue, ErrorText, Up.StageInv;
      var body := ErrorText(code);
      if |body| >= 128 {
        FinishWith(IoError);
      } else {
        QueueFrame(Frame(RESPONSE, id, body));
      }
    }

    method AnswerWith(id: uint32, text: Text)
      requires Valid()
      modifies this, channel, service, service.stage
      ensures Valid() && View() == Answer(cfg, old(View()), id, text)
    {
      hide Finish, Queue, Refuse, Up.StageInv;
      if text.NoText? || |ResultText(text.tail)| > RESPONSE_CAPACITY {
        FinishWith(IoError);
      } else if |ResultText(text.tail)| > decoder.limit {
        RefuseWith(id, "response_too_large");
      } else {
        QueueFrame(Frame(RESPONSE, id, ResultText(text.tail)));
      }
    }

    method UploadAnswer(id: uint32, e: Up.Error)
      requires Valid()
      modifies this, channel, service, service.stage
      ensures Valid() && View() == UploadReply(cfg, old(View()), id, (old(service.View()), e))
    {
      hide Refuse, Answer, Up.StageInv;
      if e != Up.NoError {
        RefuseWith(id, UploadText.ErrorName(e));
      } else {
        AnswerWith(id, Text(UploadText.RecordTail(service.last)));
      }
    }

    // ---- Dispatch ----

    method CallFlash(c: Call, a: Answers) returns (e: Up.Error)
      requires Valid() && c.Flash?
      modifies service, service.stage
      ensures Valid() && (service.View(), e) == FlashCall(cfg, old(View()), c, a)
    {
      hide Up.Begin, Up.Finish, Up.Commit, Up.Abort, Up.StageInv;
      match c.verb
      case FlashBegin => e := service.BeginUpload(a.armed, a.replacing, owner, c.size, c.digest);
      case FlashStatus => e := if c.id == 0 || c.id != service.last.id then Up.WrongTarget else Up.NoError;
      case FlashFinish => e := service.FinishUpload(owner, c.id);
      case FlashCommit => e := service.CommitUpload(a.armed, owner, c.id);
      case FlashAbort => e := service.AbortUpload(owner, c.id);
    }

    method DispatchFlashCall(id: uint32, c: Call, a: Answers)
      requires Valid() && c.Flash?
      modifies this, channel, service, service.stage
      ensures Valid() && View() == DispatchFlash(cfg, old(View()), id, c, a)
    {
      hide Refuse, Answer, FlashCall, Up.StageInv;
      if !c.valid {
        RefuseWith(id, "invalid_argument");
      } else if !negotiated {
        RefuseWith(id, "invalid_state");
      } else if c.target != Up.TARGET_ID || (c.verb.FlashBegin? && !c.sameBoard) {
        RefuseWith(id, "wrong_target");
      } else if (c.verb.FlashBegin? || c.verb.FlashCommit?) && channel.owner != 0 {
        RefuseWith(id, "busy");
      } else {
        var e := CallFlash(c, a);
        UploadAnswer(id, e);
      }
    }

    method DispatchChunk(id: uint32, payload: seq<byte>)
      requires Valid()
      modifies this, channel, service, service.stage
      ensures Valid() && View() == DispatchUploadFrame(cfg, old(View()), id, payload)
    {
      hide Refuse, Answer, Up.Chunk, Up.StageInv, Join;
      var e := if !negotiated then Up.InvalidState else if !cfg.service then Up.Unsupported else Up.InvalidArgument;
      if negotiated && cfg.service && |payload| > 8 && |payload| - 8 <= Up.MAX_CHUNK {
        e := service.AcceptChunk(owner, GetBe32(payload, 0), GetBe32(payload, 4), payload[8..]);
      }
      UploadAnswer(id, e);
    }

    method AcquireChannel(configured: bool, a: Answers) returns (r: BackendResult)
      requires Valid()
      modifies this, channel
      ensures Valid() && (View(), r) == Acquire(old(View()), configured, a)
    {
      hide Up.StageInv;
      if channel.owner != 0 {
        return Busy;
      }
      if configured && !a.configured.Ok? {
        return a.configured;
      }
      if !a.prepared.Ok? {
        return a.prepared;
      }
      if owner == 0 {
        return BackendIoError;
      }
      channel.owner, channel.toBackend, channel.toPeer, channel.rx, channel.tx := owner, [], [], 0, 0;
      channel.events := channel.events + [Opened(owner)];
      owned := true;
      log := log.(delivered := [], produced := [], inMark := |log.decoded|, outMark := |log.frames|);
      return Ok;
    }

    method SucceedWith(id: uint32)
      requires Valid()
      modifies this, channel, service, service.stage
      ensures Valid() && View() == Succeed(cfg, old(View()), id)
    {
      hide Queue, Ascii, Up.StageInv;
      QueueFrame(Frame(RESPONSE, id, Ascii("{\"ok\":true,\"result\":{}}")));
    }

    method DispatchOpenCall(id: uint32, c: Call, a: Answers)
      requires Valid() && c.Serial?
      modifies this, channel, service, service.stage
      ensures Valid() && View() == DispatchOpen(cfg, old(View()), id, c, a)
    {
      hide Refuse, Succeed, Acquire, Up.StageInv;
      if owned {
        RefuseWith(id, "invalid_state");
      } else if cfg.service && service.last.id != 0 && Up.Staging(service.last.state) {
        RefuseWith(id, "busy");
      } else if cfg.uart && c.configured && !c.complete {
        RefuseWith(id, "invalid_argument");
      } else {
        var r := AcquireChannel(c.configured, a);
        if r.Ok? {
          SucceedWith(id);
        } else {
          RefuseWith(id, BackendError(r));
        }
      }
    }

    method DispatchConfigureCall(id: uint32, c: Call, a: Answers)
      requires Valid() && c.Serial?
      modifies this, channel, service, service.stage
      ensures Valid() && View() == DispatchConfigure(cfg, old(View()), id, c, a)
    {
      hide Refuse, Answer, Up.StageInv;
      var r := if cfg.uart && !c.complete then InvalidArgument
        else if owner == 0 || owner != channel.owner then BackendIoError
        else if channel.toBackend != [] || channel.toPeer != [] then Busy
        else a.configured;
      if r.Ok? {
        AnswerWith(id, a.text);
      } else {
        RefuseWith(id, BackendError(r));
      }
    }

    method DispatchSerialCall(id: uint32, c: Call, a: Answers)
      requires Valid() && c.Serial?
      modifies this, channel, service, service.stage
      ensures Valid() && View() == DispatchSerial(cfg, old(View()), id, c, a)
    {
      hide Refuse, Answer, Succeed, DispatchOpen, DispatchConfigure, Up.StageInv;
      if c.channel != 1 {
        RefuseWith(id, "wrong_target");
      } else if c.op.Open? {
        DispatchOpenCall(id, c, a);
      } else if !owned {
        RefuseWith(id, "invalid_state");
      } else if c.op.Close? {
        channel.Release(owner);
        owned := false;
        SucceedWith(id);
      } else if c.op.Configure? {
        DispatchConfigureCall(id, c, a);
      } else if c.op.Control? {
        RefuseWith(id, "unsupported");
      } else {
        AnswerWith(id, a.text);
      }
    }

    method DispatchHelloCall(id: uint32, offer: uint32, a: Answers)
      requires Valid()
      modifies this, channel, service, service.stage
      ensures Valid() && View() == DispatchHello(cfg, old(View()), id, offer, a)
    {
      hide Refuse, Answer, Finish, Negotiated, Up.StageInv;
      if negotiated {
        RefuseWith(id, "invalid_state");
        return;
      }
      var (d, ok) := Negotiated(Reset(decoder), offer);
      decoder := d;
      if !ok {
        FinishWith(IoError);
        return;
      }
      negotiated := true;
      AnswerWith(id, a.text);
    }

    method DispatchCommandCall(id: uint32, c: Call, a: Answers)
      requires Valid()
      modifies this, channel, service, service.stage
      ensures Valid() && View() == DispatchCommand(cfg, old(View()), id, c, a)
    {
      hide Refuse, Answer, DispatchHello, DispatchSerial, Up.StageInv;
      match c
      case Hello(offer) => DispatchHelloCall(id, offer, a);
      case Diagnostics =>
        if a.memory {
          AnswerWith(id, a.text);
        } else {
          RefuseWith(id, "unsupported");
        }
      case Serial(_, _, _, _) => DispatchSerialCall(id, c, a);
      case _ => RefuseWith(id, "unsupported");
    }

    method GiveUp(id: uint32, now: uint32)
      requires Valid()
      modifies this, channel, service, service.stage
      ensures Valid() && View() == DispatchNotJson(cfg, old(View()), id, now)
    {
      hide Refuse, Detached, ReleasedIfOwned, Up.StageInv;
      RefuseWith(id, "invalid_argument");
      decoder := Reset(decoder);
      LetGo();
      owned, uploadReleased, closing, clock := false, true, true, clock.(closingAt := now);
      log := log.(times := log.times.(closed := now));
    }

    method DispatchRequestFrame(id: uint32, payload: seq<byte>, io: Io)
      requires Valid()
      modifies this, channel, service, service.stage
      ensures Valid() && View() == DispatchRequest(cfg, old(View()), id, payload, io)
    {
      hide Refuse, DispatchNotJson, DispatchCall, Up.StageInv, JsonTokens.DocumentTokens;
      var document := new JsonDocument.Document();
      var parsed := document.ParseText(payload);
      if !parsed {
        GiveUp(id, io.now);
      } else {
        var c := cfg.read(payload, document.tokens[..document.count]);
        DispatchReadCall(id, c, io);
      }
    }

    method DispatchReadCall(id: uint32, c: Call, io: Io)
      requires Valid()
      modifies this, channel, service, service.stage
      ensures Valid() && View() == DispatchCall(cfg, old(View()), id, c, io)
    {
      hide Refuse, DispatchFlash, DispatchCommand, Up.StageInv;
      if cfg.service && c.Flash? {
        DispatchFlashCall(id, c, io.answers);
      } else if c.Malformed? {
        RefuseWith(id, "invalid_argument");
        decoder := Reset(decoder);
        return;
      } else if !negotiated && !c.Hello? {
        RefuseWith(id, "invalid_state");
        decoder := Reset(decoder);
        return;
      } else {
        DispatchCommandCall(id, c, io.answers);
      }
      decoder := Reset(decoder);
      dataTurn := true;
    }

    method DispatchFrame(f: Frame, io: Io)
      requires Valid()
      modifies this, channel, service, service.stage
      ensures Valid() && View() == Dispatch(cfg, old(View()), f, io)
    {
      hide DispatchUploadFrame, DispatchRequest, Finish, Up.StageInv;
      if f.kind != UPLOAD && f.kind != REQUEST {
        FinishWith(ProtocolError);
        return;
      }
      ghost var queued := |log.frames|;
      log := log.(dispatched := log.dispatched + [f.request]);
      if f.kind == UPLOAD {
        DispatchChunk(f.request, f.payload);
        decoder := Reset(decoder);
      } else {
        DispatchRequestFrame(f.request, f.payload, io);
      }
      if |log.frames| > queued {
        log := log.(exchanges := log.exchanges + [Exchange(f, log.frames[|log.frames| - 1].payload)]);
      }
    }

    // ---- The byte stream ----

    /** read(): the next bytes of the current serial frame. */
    method ReadData(capacity: nat) returns (data: seq<byte>)
      requires Valid()
      modifies this
      ensures Valid() && View() == old(View()).(s := Read(old(View().s), capacity).0) && data == Read(old(View().s), capacity).1
    {
      hide CurrentFrame, SerialPayload, Up.StageInv;
      var current := CurrentFrame(decoder);
      if current.None? || current.value.kind != SERIAL {
        return [];
      }
      var rest := Unread(decoder, dataOffset);
      var count := Min(capacity, |rest|);
      data := rest[..count];
      if count == |rest| {
        decoder, dataOffset := Reset(decoder), 0;
      } else {
        dataOffset := dataOffset + count;
      }
    }

    /** write(): at most one queued serial frame. */
    method WriteData(data: seq<byte>) returns (count: nat)
      requires Valid()
      modifies this, channel, service, service.stage
      ensures Valid() && (View(), count) == Write(cfg, old(View()), data)
    {
      hide Queue, Be32, Up.StageInv;
      if output != [] {
        return 0;
      }
      count := Min(|data|, STREAM_CAPACITY);
      if count != 0 {
        QueueFrame(Frame(SERIAL, 0, Be32(1) + data[..count]));
        if !result.Running? {
          count := 0;
        }
      }
    }

    method PumpInward(b: Backend) returns (ok: bool)
      requires Valid()
      modifies this, channel
      ensures Valid() && (View(), ok) == PumpIn(old(View()), b)
    {
      hide Read, Up.StageInv;
      if channel.toBackend == [] {
        var data := ReadData(STREAM_CAPACITY);
        channel.toBackend := data;
      }
      if channel.toBackend == [] {
        return true;
      }
      if b.takes > |channel.toBackend| {
        return false;
      }
      log := log.(delivered := log.delivered + channel.toBackend[..b.takes]);
      channel.toBackend, channel.rx := channel.toBackend[b.takes..], Count(channel.rx, b.takes);
      return true;
    }

    method PumpOutward(b: Backend) returns (ok: bool)
      requires Valid()
      modifies this, channel, service, service.stage
      ensures Valid() && ok == PumpFill(old(View()), b).1
      ensures View() == (if ok then PumpOut(cfg, PumpFill(old(View()), b).0) else PumpFill(old(View()), b).0)
    {
      hide Write, Up.StageInv;
      if channel.toPeer == [] {
        if |b.gives| > STREAM_CAPACITY {
          return false;
        }
        log := log.(produced := log.produced + b.gives);
        channel.toPeer, channel.tx := b.gives, Count(channel.tx, |b.gives|);
      }
      if channel.toPeer != [] {
        var sent := WriteData(channel.toPeer);
        if sent <= |channel.toPeer| {
          channel.toPeer := channel.toPeer[sent..];
        }
      }
      return true;
    }

    method PumpStops()
      requires Valid()
      modifies this, channel, service, service.stage
      ensures Valid() && View() == PumpFailed(cfg, old(View()))
    {
      hide Finish, Up.StageInv;
      channel.Shutdown();
      FinishWith(IoError);
    }

    method PumpStream(io: Io)
      requires Valid()
      modifies this, channel, service, service.stage
      ensures Valid() && View() == Pump(cfg, old(View()), io)
    {
      hide Finish, PumpIn, PumpFill, PumpOut, PumpFailed, Up.StageInv;
      var rx, tx, waiting, ready, queued := channel.rx, channel.tx, |channel.toBackend|, |channel.toPeer|, |output|;
      if owner == 0 || owner != channel.owner {
        FinishWith(IoError);
        return;
      }
      if !owned || !io.backend.connected {
        PumpStops();
        return;
      }
      var ok := PumpInward(io.backend);
      if ok {
        ok := PumpOutward(io.backend);
      }
      if !ok {
        PumpStops();
        return;
      }
      if rx != channel.rx || tx != channel.tx || waiting != |channel.toBackend| || ready != |channel.toPeer| || queued != |output| {
        clock := clock.(progressAt := io.now);
        log := log.(times := log.times.(moved := io.now));
      }
    }

    // ---- poll() ----

    method Stream(io: Io)
      requires Valid()
      modifies this, channel, service, service.stage
      ensures Valid() && View() == ActStream(cfg, old(View()), io)
    {
      hide Pump, Up.StageInv;
      if result.Running? && owned {
        PumpStream(io);
      }
    }

    method ActOn(io: Io)
      requires Valid()
      modifies this, channel, service, service.stage
      ensures Valid() && View() == Act(cfg, old(View()), io)
    {
      hide Pump, Dispatch, Finish, ActStream, CurrentFrame, Up.StageInv;
      var current := CurrentFrame(decoder);
      if current.Some? {
        var f := current.value;
        if f.kind == SERIAL {
          if !negotiated || !owned || |f.payload| <= 4 || GetBe32(f.payload, 0) != 1 {
            FinishWith(ProtocolError);
          }
        } else {
          if output == [] && owned && dataTurn {
            PumpStream(io);
            if !result.Running? {
              return;
            }
            dataTurn := false;
            if output == [] {
              DispatchFrame(f, io);
            }
            return;
          }
          if output == [] {
            DispatchFrame(f, io);
          }
        }
      }
      Stream(io);
    }

    method TakeInput(arrived: seq<byte>, now: uint32)
      requires Valid()
      modifies this
      ensures Valid() && View() == Receive(old(View()), arrived, now)
    {
      hide Fed, CurrentFrame, Up.StageInv;
      if arrived == [] {
        return;
      }
      clock := clock.(progressAt := now, frameAt := if decoder.bytes == [] then now else clock.frameAt);
      log := log.(times := log.times.(moved := now, framed := if decoder.bytes == [] then now else log.times.framed));
      decoder := Fed(decoder, arrived).0;
      var current := CurrentFrame(decoder);
      log := log.(taken := log.taken + arrived,
                  decoded := match current case None => log.decoded case Some(f) => log.decoded + [f]);
    }

    method PollOpened(io: Io)
      requires Valid()
      modifies this, channel, service, service.stage
      ensures Valid() && View() == PollOpen(cfg, old(View()), io)
    {
      hide Finish, Receive, Act, Needed, Up.StageInv;
      if decoder.status.Incomplete? {
        if |io.arrives| > Min(Needed(decoder), READ_CAPACITY) {
          FinishWith(IoError);
          return;
        }
        TakeInput(io.arrives, io.now);
      }
      if !decoder.status.Incomplete? && !decoder.status.Ready? {
        FinishWith(ProtocolError);
        return;
      }
      ActOn(io);
    }

    method PollRunning(io: Io)
      requires Valid()
      modifies this, channel, service, service.stage
      ensures Valid() && View() == PollLive(cfg, old(View()), io)
    {
      hide Finish, PollOpen, Up.StageInv;
      if output != [] {
        if io.accepts > |output| {
          FinishWith(IoError);
          return;
        }
        log := log.(sent := log.sent + output[..io.accepts]);
        output := output[io.accepts..];
        if io.accepts > 0 {
          clock := clock.(progressAt := io.now);
          log := log.(times := log.times.(moved := io.now));
        }
      }
      if closing {
        if output == [] {
          FinishWith(ProtocolError);
        }
        return;
      }
      PollOpened(io);
    }

    /** poll(): one turn of the session, against the specification every run theorem is about. */
    method PollOnce(io: Io)
      requires Valid()
      modifies this, channel, service, service.stage
      ensures Valid() && View() == Poll(cfg, old(View()), io)
    {
      hide Finish, PollLive, Up.StageInv;
      if !result.Running? {
        return;
      }
      if !io.connected {
        FinishWith(Disconnected);
        return;
      }
      if closing {
        if output == [] || Elapsed(io.now, clock.closingAt) >= ERROR_FLUSH_MS {
          FinishWith(ProtocolError);
          return;
        }
      } else if ExpiredAt(io.now) {
        FinishWith(Timeout);
        return;
      }
      PollRunning(io);
    }

    predicate ExpiredAt(now: uint32)
      reads this
    {
      || (!negotiated && Elapsed(now, clock.startedAt) >= HANDSHAKE_MS)
      || (negotiated && Elapsed(now, clock.progressAt) >= IDLE_MS)
      || (decoder.bytes != [] && decoder.status.Incomplete? && Elapsed(now, clock.frameAt) >= FRAME_MS)
    }

    method CloseNow()
      requires Valid()
      modifies this, channel, service, service.stage
      ensures Valid() && View() == CloseSession(cfg, old(View()))
    {
      hide Finish, Up.StageInv;
      FinishWith(if result.Running? then Closed else result);
    }
  }
}
