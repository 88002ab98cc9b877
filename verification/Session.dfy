/**
 The FMGO session stack: sessions over partial transports, the shared channel
 and its two bounded buffers, and the upload service they share. One poll of one
 session is a function of the state and of everything the outside world answers
 during that poll.
 */
module Session {
  import opened Bytes
  import opened Protocol
  import JsonTokens
  import UploadText
  import Up = Upload
  import Image = StatefulImage

  const HANDSHAKE_MS := 5000
  const FRAME_MS := 5000
  const IDLE_MS := 30000
  const ERROR_FLUSH_MS := 1000
  const RESPONSE_CAPACITY := 1024
  const STREAM_CAPACITY := 256
  const READ_CAPACITY := 256
  const COUNTER_MAX := 0xffff_ffff_ffff_ffff

  // ---- Requests, as the fields of a parsed document are read ----

  datatype Verb = FlashBegin | FlashStatus | FlashFinish | FlashCommit | FlashAbort

  datatype SerialOp = Open | Close | Configure | Control | Status

  datatype Call =
    | Malformed
    | Flash(verb: Verb, valid: bool, target: uint32, sameBoard: bool, id: uint32, size: uint32, digest: Image.Digest)
    | Hello(offer: uint32)
    | Diagnostics
    | Unknown
    | Serial(op: SerialOp, channel: uint32, configured: bool, complete: bool)

  /** How request() and dispatch_upload() read the members of a document from its text and its tokens. */
  type Reader = (seq<byte>, seq<JsonTokens.Token>) -> Call

  /** What does not change during a boot: the service, the backend kind and how documents are read. */
  datatype Config = Config(service: bool, uart: bool, read: Reader, sha: Image.Hash, contract: Image.Contract)

  // ---- State ----

  datatype Result = Running | Closed | Disconnected | Timeout | ProtocolError | IoError

  datatype Clock = Clock(startedAt: uint32, progressAt: uint32, frameAt: uint32, closingAt: uint32)

  /** `output` is the unsent part of the one queued frame. */
  datatype Session = Session(
    owner: uint32, clock: Clock, decoder: Decoder, output: seq<byte>, dataOffset: nat,
    negotiated: bool, owned: bool, closing: bool, dataTurn: bool, uploadReleased: bool, result: Result)

  /** The shared stream: its owner, the unsent part of each direction's buffer, and byte counters. */
  datatype Channel = Channel(owner: uint32, toBackend: seq<byte>, toPeer: seq<byte>, rx: nat, tx: nat)

  /** What the backend is told. */
  datatype Event = Opened(owner: uint32) | Shut

  /** A dispatched frame and the payload of its response. */
  datatype Exchange = Exchange(request: Frame, reply: seq<byte>)

  /** When the session started, when bytes last moved, when its newest frame began and when it began to close. */
  datatype Times = Times(started: uint32, moved: uint32, framed: uint32, closed: uint32)

  /** One session's history: bytes exchanged with its transport, frames decoded and queued, requests
      dispatched and what they were answered, and, since it last opened the channel, bytes exchanged with
      the backend. */
  datatype Log = Log(
    taken: seq<byte>, decoded: seq<Frame>, sent: seq<byte>, frames: seq<Frame>, dispatched: seq<uint32>,
    delivered: seq<byte>, produced: seq<byte>, inMark: nat, outMark: nat, disconnects: nat, exchanges: seq<Exchange>,
    times: Times)

  datatype Turn = Turn(s: Session, ch: Channel, up: Up.Upload, log: Log, events: seq<Event>)

  // ---- The world's answers during one poll ----

  datatype BackendResult = Ok | Unsupported | InvalidArgument | Busy | BackendIoError

  /** Formatted response text: a failed formatter, or what follows the head of a successful reply. */
  datatype Text = NoText | Text(tail: seq<byte>)

  datatype Backend = Backend(connected: bool, takes: nat, gives: seq<byte>)

  datatype Answers = Answers(armed: bool, replacing: bool, memory: bool, text: Text,
                             configured: BackendResult, prepared: BackendResult)

  datatype Io = Io(now: uint32, connected: bool, accepts: nat, arrives: seq<byte>, backend: Backend, answers: Answers)

  function NewLog(now: uint32): Log {
    Log([], [], [], [], [], [], [], 0, 0, 0, [], Times(now, now, 0, 0))
  }

  /** A session starts running unless its token or its identity is unusable. */
  function NewSession(token: uint32, sound: bool, now: uint32): Session {
    Session(token, Clock(now, now, 0, 0), Fresh(MAX_PAYLOAD), [], 0, false, false, false, false, false,
            if token == 0 || !sound then IoError else Running)
  }

  // ---- Ending a session ----

  function Released(t: Turn): Turn {
    if t.s.owner == 0 || t.s.owner != t.ch.owner then t
    else t.(ch := t.ch.(owner := 0, toBackend := [], toPeer := []), events := t.events + [Shut])
  }

  function ReleasedIfOwned(t: Turn): Turn {
    if t.s.owned then Released(t) else t
  }

  function Detached(cfg: Config, t: Turn): Turn {
    if cfg.service && !t.s.uploadReleased then
      t.(up := Up.Disconnect(t.up, t.s.owner), log := t.log.(disconnects := t.log.disconnects + 1))
    else t
  }

  function Finish(cfg: Config, t0: Turn, r: Result): Turn {
    var t := Detached(cfg, ReleasedIfOwned(t0));
    t.(s := t.s.(owned := false, uploadReleased := true, decoder := Reset(t.s.decoder), output := [], dataOffset := 0,
                 result := r))
  }

  /** close(): a session that already ended keeps its result. */
  function CloseSession(cfg: Config, t: Turn): Turn {
    Finish(cfg, t, if t.s.result.Running? then Closed else t.s.result)
  }

  // ---- Replies ----

  function Queue(cfg: Config, t: Turn, f: Frame): Turn {
    if t.s.output != [] || |f.payload| > t.s.decoder.limit then Finish(cfg, t, IoError)
    else
      var bytes := Encode(HEADER + RESPONSE_CAPACITY, f);
      if bytes == [] then Finish(cfg, t, IoError)
      else t.(s := t.s.(output := bytes), log := t.log.(frames := t.log.frames + [f]))
  }

  function ErrorText(code: string): seq<byte> {
    Ascii("{\"ok\":false,\"error\":{\"code\":\"" + code + "\",\"message\":\"" + code + "\"}}")
  }

  function Refuse(cfg: Config, t: Turn, id: uint32, code: string): Turn {
    var body := ErrorText(code);
    if |body| >= 128 then Finish(cfg, t, IoError) else Queue(cfg, t, Frame(RESPONSE, id, body))
  }

  function Succeed(cfg: Config, t: Turn, id: uint32): Turn {
    Queue(cfg, t, Frame(RESPONSE, id, Ascii("{\"ok\":true,\"result\":{}}")))
  }

  function ResultText(tail: seq<byte>): (b: seq<byte>)
    ensures |b| == 21 + |tail|
  {
    Ascii(UploadText.HEAD) + tail
  }

  /** A formatted reply, or response_too_large when the peer's limit cannot take it. */
  function Answer(cfg: Config, t: Turn, id: uint32, text: Text): Turn {
    if text.NoText? || |ResultText(text.tail)| > RESPONSE_CAPACITY then Finish(cfg, t, IoError)
    else if |ResultText(text.tail)| > t.s.decoder.limit then Refuse(cfg, t, id, "response_too_large")
    else Queue(cfg, t, Frame(RESPONSE, id, ResultText(text.tail)))
  }

  /** An error by its name, or the whole record. */
  function UploadReply(cfg: Config, t: Turn, id: uint32, r: (Up.Upload, Up.Error)): Turn {
    var t' := t.(up := r.0);
    if r.1 != Up.NoError then Refuse(cfg, t', id, UploadText.ErrorName(r.1))
    else Answer(cfg, t', id, Text(UploadText.RecordTail(r.0.last)))
  }

  // ---- Dispatch ----

  function BackendError(r: BackendResult): string {
    match r
    case Unsupported => "unsupported" case InvalidArgument => "invalid_argument" case Busy => "busy"
    case BackendIoError | Ok => "io_error"
  }

  function FlashCall(cfg: Config, t: Turn, c: Call, a: Answers): (Up.Upload, Up.Error)
    requires c.Flash?
  {
    match c.verb
    case FlashBegin => Up.Begin(t.up, cfg.contract, a.armed, a.replacing, t.s.owner, c.size, c.digest)
    case FlashStatus => (t.up, if c.id == 0 || c.id != t.up.last.id then Up.WrongTarget else Up.NoError)
    case FlashFinish => Up.Finish(t.up, cfg.sha, cfg.contract, t.s.owner, c.id)
    case FlashCommit => Up.Commit(t.up, a.armed, t.s.owner, c.id)
    case FlashAbort => Up.Abort(t.up, t.s.owner, c.id)
  }

  /** dispatch_upload(): console ownership and a staged upload exclude each other. */
  function DispatchFlash(cfg: Config, t: Turn, id: uint32, c: Call, a: Answers): Turn
    requires c.Flash?
  {
    if !c.valid then Refuse(cfg, t, id, "invalid_argument")
    else if !t.s.negotiated then Refuse(cfg, t, id, "invalid_state")
    else if c.target != Up.TARGET_ID || (c.verb.FlashBegin? && !c.sameBoard) then Refuse(cfg, t, id, "wrong_target")
    else if (c.verb.FlashBegin? || c.verb.FlashCommit?) && t.ch.owner != 0 then Refuse(cfg, t, id, "busy")
    else UploadReply(cfg, t, id, FlashCall(cfg, t, c, a))
  }

  function DispatchUploadFrame(cfg: Config, t: Turn, id: uint32, payload: seq<byte>): Turn {
    var r :=
      if !t.s.negotiated then (t.up, Up.InvalidState)
      else if !cfg.service then (t.up, Up.Unsupported)
      else if |payload| > 8 && |payload| - 8 <= Up.MAX_CHUNK then
        Up.Chunk(t.up, t.s.owner, GetBe32(payload, 0), GetBe32(payload, 4), payload[8..])
      else (t.up, Up.InvalidArgument);
    UploadReply(cfg, t, id, r)
  }

  /** Channel::acquire(). */
  function Acquire(t: Turn, configured: bool, a: Answers): (Turn, BackendResult) {
    if t.ch.owner != 0 then (t, Busy)
    else if configured && !a.configured.Ok? then (t, a.configured)
    else if !a.prepared.Ok? then (t, a.prepared)
    else if t.s.owner == 0 then (t, BackendIoError)
    else
      (t.(ch := Channel(t.s.owner, [], [], 0, 0), events := t.events + [Opened(t.s.owner)], s := t.s.(owned := true),
          log := t.log.(delivered := [], produced := [], inMark := |t.log.decoded|, outMark := |t.log.frames|)),
       Ok)
  }

  function DispatchOpen(cfg: Config, t: Turn, id: uint32, c: Call, a: Answers): Turn
    requires c.Serial?
  {
    if t.s.owned then Refuse(cfg, t, id, "invalid_state")
    else if cfg.service && Up.BlocksConsole(t.up) then Refuse(cfg, t, id, "busy")
    else if cfg.uart && c.configured && !c.complete then Refuse(cfg, t, id, "invalid_argument")
    else
      var (t', r) := Acquire(t, c.configured, a);
      if r.Ok? then Succeed(cfg, t', id) else Refuse(cfg, t', id, BackendError(r))
  }

  function DispatchConfigure(cfg: Config, t: Turn, id: uint32, c: Call, a: Answers): Turn
    requires c.Serial?
  {
    var r := if cfg.uart && !c.complete then InvalidArgument
      else if t.s.owner == 0 || t.s.owner != t.ch.owner then BackendIoError
      else if t.ch.toBackend != [] || t.ch.toPeer != [] then Busy
      else a.configured;
    if r.Ok? then Answer(cfg, t, id, a.text) else Refuse(cfg, t, id, BackendError(r))
  }

  function DispatchSerial(cfg: Config, t: Turn, id: uint32, c: Call, a: Answers): Turn
    requires c.Serial?
  {
    if c.channel != 1 then Refuse(cfg, t, id, "wrong_target")
    else if c.op.Open? then DispatchOpen(cfg, t, id, c, a)
    else if !t.s.owned then Refuse(cfg, t, id, "invalid_state")
    else
      match c.op
      case Close => var t' := Released(t); Succeed(cfg, t'.(s := t'.s.(owned := false)), id)
      case Configure => DispatchConfigure(cfg, t, id, c, a)
      case Control => Refuse(cfg, t, id, "unsupported")
      case _ => Answer(cfg, t, id, a.text)
  }

  function DispatchHello(cfg: Config, t: Turn, id: uint32, offer: uint32, a: Answers): Turn {
    if t.s.negotiated then Refuse(cfg, t, id, "invalid_state")
    else
      var (d, ok) := Negotiated(Reset(t.s.decoder), offer);
      if !ok then Finish(cfg, t.(s := t.s.(decoder := d)), IoError)
      else Answer(cfg, t.(s := t.s.(decoder := d, negotiated := true)), id, a.text)
  }

  function ResetDecoder(t: Turn): Turn {
    t.(s := t.s.(decoder := Reset(t.s.decoder)))
  }

  function TakeTurn(t: Turn): Turn {
    t.(s := t.s.(dataTurn := true))
  }

  /** An unreadable request is answered, everything is given up, and the session only flushes. */
  function DispatchNotJson(cfg: Config, t0: Turn, id: uint32, now: uint32): Turn {
    var t := Detached(cfg, ReleasedIfOwned(ResetDecoder(Refuse(cfg, t0, id, "invalid_argument"))));
    t.(s := t.s.(owned := false, uploadReleased := true, closing := true, clock := t.s.clock.(closingAt := now)),
       log := t.log.(times := t.log.times.(closed := now)))
  }

  function DispatchCommand(cfg: Config, t: Turn, id: uint32, c: Call, a: Answers): Turn {
    match c
    case Hello(offer) => DispatchHello(cfg, t, id, offer, a)
    case Diagnostics => if a.memory then Answer(cfg, t, id, a.text) else Refuse(cfg, t, id, "unsupported")
    case Serial(_, _, _, _) => DispatchSerial(cfg, t, id, c, a)
    case _ => Refuse(cfg, t, id, "unsupported")
  }

  function DispatchRequest(cfg: Config, t: Turn, id: uint32, payload: seq<byte>, io: Io): Turn {
    var tokens := JsonTokens.DocumentTokens(payload);
    if tokens == [] then DispatchNotJson(cfg, t, id, io.now) else DispatchCall(cfg, t, id, cfg.read(payload, tokens), io)
  }

  function DispatchCall(cfg: Config, t: Turn, id: uint32, c: Call, io: Io): Turn {
    if cfg.service && c.Flash? then TakeTurn(ResetDecoder(DispatchFlash(cfg, t, id, c, io.answers)))
    else if c.Malformed? then ResetDecoder(Refuse(cfg, t, id, "invalid_argument"))
    else if !t.s.negotiated && !c.Hello? then ResetDecoder(Refuse(cfg, t, id, "invalid_state"))
    else TakeTurn(ResetDecoder(DispatchCommand(cfg, t, id, c, io.answers)))
  }

  function Noted(t: Turn, id: uint32): Turn {
    t.(log := t.log.(dispatched := t.log.dispatched + [id]))
  }

  /** Records the response that this dispatch queued, if it did. */
  function Paired(t: Turn, f: Frame, r: Turn): Turn {
    if |r.log.frames| <= |t.log.frames| then r
    else r.(log := r.log.(exchanges := r.log.exchanges + [Exchange(f, r.log.frames[|r.log.frames| - 1].payload)]))
  }

  /** dispatch() for every frame but serial ones. */
  function Dispatch(cfg: Config, t: Turn, f: Frame, io: Io): Turn {
    if f.kind == UPLOAD then
      Paired(t, f, ResetDecoder(DispatchUploadFrame(cfg, Noted(t, f.request), f.request, f.payload)))
    else if f.kind == REQUEST then Paired(t, f, DispatchRequest(cfg, Noted(t, f.request), f.request, f.payload, io))
    else Finish(cfg, t, ProtocolError)
  }

  /** dispatch() for serial frames: the stream consumes them through read(). */
  function CheckSerial(cfg: Config, t: Turn, f: Frame): Turn {
    if !t.s.negotiated || !t.s.owned || |f.payload| <= 4 || GetBe32(f.payload, 0) != 1 then Finish(cfg, t, ProtocolError)
    else t
  }

  // ---- The byte stream ----

  function SerialPayload(f: Frame): seq<byte> {
    if f.kind == SERIAL && |f.payload| > 4 then f.payload[4..] else []
  }

  function CurrentFrame(d: Decoder): Option<Frame> {
    if d.status.Ready? && |d.bytes| >= HEADER then Some(FrameOf(d)) else None
  }

  /** The part of the current serial frame that read() has not handed over. */
  function Unread(d: Decoder, offset: nat): seq<byte> {
    match CurrentFrame(d)
    case None => []
    case Some(f) => var data := SerialPayload(f); if offset <= |data| then data[offset..] else []
  }

  /** Session::read(). */
  function Read(s: Session, capacity: nat): (Session, seq<byte>) {
    var rest := Unread(s.decoder, s.dataOffset);
    var count := Min(capacity, |rest|);
    if CurrentFrame(s.decoder).None? || CurrentFrame(s.decoder).value.kind != SERIAL then (s, [])
    else if count == |rest| then (s.(decoder := Reset(s.decoder), dataOffset := 0), rest)
    else (s.(dataOffset := s.dataOffset + count), rest[..count])
  }

  /** Session::write(): one serial frame when nothing is queued; returns how many bytes it took. */
  function Write(cfg: Config, t: Turn, data: seq<byte>): (Turn, nat) {
    if t.s.output != [] then (t, 0)
    else
      var count := Min(|data|, STREAM_CAPACITY);
      if count == 0 then (t, 0)
      else
        var t' := Queue(cfg, t, Frame(SERIAL, 0, Be32(1) + data[..count]));
        (t', if t'.s.result.Running? then count else 0)
  }

  function Count(counter: nat, n: nat): nat {
    Min(COUNTER_MAX, counter + n)
  }

  /** One read and one write from the peer towards the backend; false when the backend overran. */
  function PumpIn(t: Turn, b: Backend): (Turn, bool) {
    var t1 := if t.ch.toBackend != [] then t else
      var (s, data) := Read(t.s, STREAM_CAPACITY);
      t.(s := s, ch := t.ch.(toBackend := data));
    if t1.ch.toBackend == [] then (t1, true)
    else if b.takes > |t1.ch.toBackend| then (t1, false)
    else
      (t1.(ch := t1.ch.(toBackend := t1.ch.toBackend[b.takes..], rx := Count(t1.ch.rx, b.takes)),
           log := t1.log.(delivered := t1.log.delivered + t1.ch.toBackend[..b.takes])),
       true)
  }

  /** The read half towards the peer. */
  function PumpFill(t: Turn, b: Backend): (Turn, bool) {
    if t.ch.toPeer != [] then (t, true)
    else if |b.gives| > STREAM_CAPACITY then (t, false)
    else
      (t.(ch := t.ch.(toPeer := b.gives, tx := Count(t.ch.tx, |b.gives|)),
          log := t.log.(produced := t.log.produced + b.gives)),
       true)
  }

  /** The write half towards the peer. */
  function PumpOut(cfg: Config, t: Turn): Turn {
    if t.ch.toPeer == [] then t
    else
      var (t', sent) := Write(cfg, t, t.ch.toPeer);
      if sent <= |t'.ch.toPeer| then t'.(ch := t'.ch.(toPeer := t'.ch.toPeer[sent..])) else t'
  }

  /** A failed stream poll: the channel is cleared and shut, then the session ends. */
  function PumpFailed(cfg: Config, t: Turn): Turn {
    Finish(cfg, t.(ch := t.ch.(owner := 0, toBackend := [], toPeer := []), events := t.events + [Shut]), IoError)
  }

  predicate Stirred(t: Turn, t': Turn) {
    || t.ch.rx != t'.ch.rx || t.ch.tx != t'.ch.tx || |t.ch.toBackend| != |t'.ch.toBackend|
    || |t.ch.toPeer| != |t'.ch.toPeer| || |t.s.output| != |t'.s.output|
  }

  function Progressed(t: Turn, t': Turn, now: uint32): Turn {
    if Stirred(t, t') then t'.(s := t'.s.(clock := t'.s.clock.(progressAt := now)), log := t'.log.(times := t'.log.times.(moved := now)))
    else t'
  }

  /** Session::pump() over Channel::poll() over Stream::poll(). */
  function Pump(cfg: Config, t: Turn, io: Io): Turn {
    if t.s.owner == 0 || t.s.owner != t.ch.owner then Finish(cfg, t, IoError)
    else if !t.s.owned || !io.backend.connected then PumpFailed(cfg, t)
    else
      var (t1, ok1) := PumpIn(t, io.backend);
      if !ok1 then PumpFailed(cfg, t1)
      else
        var (t2, ok2) := PumpFill(t1, io.backend);
        if !ok2 then PumpFailed(cfg, t2) else Progressed(t, PumpOut(cfg, t2), io.now)
  }

  // ---- poll() ----

  function Elapsed(now: uint32, since: uint32): uint32 {
    if now >= since then now - since else now - since + WORD_SPAN
  }

  predicate Expired(s: Session, now: uint32) {
    || (!s.negotiated && Elapsed(now, s.clock.startedAt) >= HANDSHAKE_MS)
    || (s.negotiated && Elapsed(now, s.clock.progressAt) >= IDLE_MS)
    || (s.decoder.bytes != [] && s.decoder.status.Incomplete? && Elapsed(now, s.clock.frameAt) >= FRAME_MS)
  }

  function Flush(t: Turn, accepted: nat, now: uint32): Turn
    requires accepted <= |t.s.output|
  {
    var clock := if accepted > 0 then t.s.clock.(progressAt := now) else t.s.clock;
    t.(s := t.s.(output := t.s.output[accepted..], clock := clock),
       log := t.log.(sent := t.log.sent + t.s.output[..accepted],
                     times := if accepted > 0 then t.log.times.(moved := now) else t.log.times))
  }

  /** The bytes the transport delivered go to the decoder; a completed frame is logged. */
  function Receive(t: Turn, arrived: seq<byte>, now: uint32): Turn {
    if arrived == [] then t
    else
      var clock := t.s.clock.(progressAt := now, frameAt := if t.s.decoder.bytes == [] then now else t.s.clock.frameAt);
      var d := Fed(t.s.decoder, arrived).0;
      var s := t.s.(decoder := d, clock := clock);
      t.(s := s,
         log := t.log.(taken := t.log.taken + arrived,
                       decoded := match CurrentFrame(d) case None => t.log.decoded case Some(f) => t.log.decoded + [f],
                       times := t.log.times.(moved := now,
                                             framed := if t.s.decoder.bytes == [] then now else t.log.times.framed)))
  }

  /** poll() once a frame may be ready: dispatch it, alternating with the stream. */
  function Act(cfg: Config, t: Turn, io: Io): Turn {
    match CurrentFrame(t.s.decoder)
    case None => ActStream(cfg, t, io)
    case Some(f) =>
      if f.kind == SERIAL then ActStream(cfg, CheckSerial(cfg, t, f), io)
      else if t.s.output == [] && t.s.owned && t.s.dataTurn then
        var t1 := Pump(cfg, t, io);
        if !t1.s.result.Running? then t1
        else
          var t2 := t1.(s := t1.s.(dataTurn := false));
          if t2.s.output == [] then Dispatch(cfg, t2, f, io) else t2
      else ActStream(cfg, if t.s.output == [] then Dispatch(cfg, t, f, io) else t, io)
  }

  function ActStream(cfg: Config, t: Turn, io: Io): Turn {
    if t.s.result.Running? && t.s.owned then Pump(cfg, t, io) else t
  }

  function PollOpen(cfg: Config, t: Turn, io: Io): Turn {
    var capacity := Min(Needed(t.s.decoder), READ_CAPACITY);
    if t.s.decoder.status.Incomplete? && |io.arrives| > capacity then Finish(cfg, t, IoError)
    else
      var t1 := if t.s.decoder.status.Incomplete? then Receive(t, io.arrives, io.now) else t;
      if !t1.s.decoder.status.Incomplete? && !t1.s.decoder.status.Ready? then Finish(cfg, t1, ProtocolError)
      else Act(cfg, t1, io)
  }

  function PollLive(cfg: Config, t: Turn, io: Io): Turn {
    if t.s.output != [] && io.accepts > |t.s.output| then Finish(cfg, t, IoError)
    else
      var t1 := if t.s.output != [] then Flush(t, io.accepts, io.now) else t;
      if t1.s.closing then (if t1.s.output != [] then t1 else Finish(cfg, t1, ProtocolError))
      else PollOpen(cfg, t1, io)
  }

  /** Session::poll(). */
  function Poll(cfg: Config, t: Turn, io: Io): Turn {
    if !t.s.result.Running? then t
    else if !io.connected then Finish(cfg, t, Disconnected)
    else if t.s.closing && (t.s.output == [] || Elapsed(io.now, t.s.clock.closingAt) >= ERROR_FLUSH_MS) then
      Finish(cfg, t, ProtocolError)
    else if !t.s.closing && Expired(t.s, io.now) then Finish(cfg, t, Timeout)
    else PollLive(cfg, t, io)
  }
}
