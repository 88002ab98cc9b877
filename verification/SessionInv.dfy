/** What one poll of one session keeps: whole frames on the wire, one reply per request, no byte lost
    between peer and backend, and sole ownership of the channel. */
module SessionInv {
  import opened Bytes
  import opened Protocol
  import opened Session
  import JsonTokens
  import UploadText
  import Up = Upload
  import Image = StatefulImage

  predicate AllValid(fs: seq<Frame>) {
    forall i :: 0 <= i < |fs| ==> ValidFrame(fs[i])
  }

  /** The request IDs answered by these frames. */
  function ReplyIds(fs: seq<Frame>): seq<uint32> {
    if fs == [] then []
    else
      var n := |fs| - 1;
      ReplyIds(fs[..n]) + (if fs[n].kind == RESPONSE then [fs[n].request] else [])
  }

  /** A frame that must be answered. */
  predicate Asks(f: Frame) {
    f.kind == REQUEST || f.kind == UPLOAD
  }

  /** The request IDs these frames ask to be answered. */
  function AskedIds(fs: seq<Frame>): seq<uint32> {
    if fs == [] then []
    else
      var n := |fs| - 1;
      AskedIds(fs[..n]) + (if Asks(fs[n]) then [fs[n].request] else [])
  }

  /** The stream bytes these frames carry. */
  function SerialData(fs: seq<Frame>): seq<byte> {
    if fs == [] then [] else SerialData(fs[..|fs| - 1]) + SerialPayload(fs[|fs| - 1])
  }

  lemma Snoc(fs: seq<Frame>, f: Frame)
    ensures ReplyIds(fs + [f]) == ReplyIds(fs) + (if f.kind == RESPONSE then [f.request] else [])
    ensures SerialData(fs + [f]) == SerialData(fs) + SerialPayload(f)
    ensures AskedIds(fs + [f]) == AskedIds(fs) + (if Asks(f) then [f.request] else [])
  {
    assert (fs + [f])[..|fs|] == fs;
  }

  lemma {:induction false} WireSnoc(fs: seq<Frame>, f: Frame)
    requires AllValid(fs) && ValidFrame(f)
    ensures AllValid(fs + [f]) && WireAll(fs + [f]) == WireAll(fs) + Wire(f)
    decreases |fs|
  {
    hide Wire, ValidFrame;
    if fs == [] {
      assert [f][1..] == [] && fs + [f] == [f];
      assert WireAll([f]) == Wire(f) + WireAll([]);
      assert Wire(f) + [] == Wire(f) == [] + Wire(f);
    } else {
      WireSnoc(fs[1..], f);
      assert (fs + [f])[1..] == fs[1..] + [f];
    }
  }

  // ---- The invariant of one session with the channel and the upload service ----

  /** Whole frames go out: what the transport took, then the unsent rest, is their concatenation. */
  predicate WireInv(s: Session, log: Log) {
    && AllValid(log.frames)
    && (s.result.Running? ==> WireAll(log.frames) == log.sent + s.output)
    && log.sent <= WireAll(log.frames)
  }

  function Partial(d: Decoder): seq<byte> {
    if d.status.Ready? then [] else d.bytes
  }

  /** What came in is the decoded frames and the unfinished one. */
  predicate DecodeInv(s: Session, log: Log) {
    && ValidDecoder(s.decoder) && MIN_OFFER <= s.decoder.limit && AllValid(log.decoded)
    && (s.result.Running? ==> WireAll(log.decoded) + Partial(s.decoder) == log.taken)
    && (CurrentFrame(s.decoder).Some? ==>
          log.decoded != [] && log.decoded[|log.decoded| - 1] == CurrentFrame(s.decoder).value)
  }

  predicate OffsetInv(d: Decoder, offset: nat) {
    offset > 0 ==>
      CurrentFrame(d).Some? && CurrentFrame(d).value.kind == SERIAL && offset < |SerialPayload(CurrentFrame(d).value)|
  }

  /** Both directions of the stream conserve bytes while the session owns the channel. */
  predicate FlowInv(s: Session, ch: Channel, log: Log) {
    s.owned ==>
      && log.inMark <= |log.decoded| && log.outMark <= |log.frames|
      && SerialData(log.decoded[log.inMark..]) == log.delivered + ch.toBackend + Unread(s.decoder, s.dataOffset)
      && log.produced == SerialData(log.frames[log.outMark..]) + ch.toPeer
      && |ch.toBackend| <= STREAM_CAPACITY && |ch.toPeer| <= STREAM_CAPACITY
  }

  predicate OwnInv(s: Session, ch: Channel, up: Up.Upload) {
    && (s.owned ==> ch.owner == s.owner != 0 && s.result.Running? && s.negotiated && !s.closing && !s.uploadReleased)
    && (ch.owner == s.owner != 0 ==> s.owned)
    && (Up.BlocksConsole(up) ==> ch.owner == 0)
  }

  function OwnerAfter(events: seq<Event>): uint32 {
    if events == [] then 0
    else match events[|events| - 1] case Opened(o) => o case Shut => 0
  }

  /** The backend is opened and shut in turn. */
  predicate Alternates(events: seq<Event>) {
    events == [] ||
    (var n := |events| - 1;
     && Alternates(events[..n])
     && match events[n] case Opened(o) => o != 0 && OwnerAfter(events[..n]) == 0 case Shut => OwnerAfter(events[..n]) != 0)
  }

  lemma EventAppends(events: seq<Event>, e: Event)
    requires Alternates(events)
    requires match e case Opened(o) => o != 0 && OwnerAfter(events) == 0 case Shut => OwnerAfter(events) != 0
    ensures Alternates(events + [e]) && OwnerAfter(events + [e]) == (match e case Opened(o) => o case Shut => 0)
  {
    assert (events + [e])[..|events|] == events;
  }

  predicate EventInv(owner: uint32, events: seq<Event>) {
    Alternates(events) && OwnerAfter(events) == owner
  }

  /** The upload service hears of a session's end at most once, exactly when the session let go of it. */
  predicate DetachInv(cfg: Config, s: Session, log: Log) {
    && log.disconnects == (if cfg.service && s.uploadReleased then 1 else 0)
    && (s.uploadReleased ==> !s.result.Running? || s.closing)
    && (!s.result.Running? && !s.uploadReleased ==> s.result.IoError? && log.taken == [] && log.sent == [])
  }

  /** A session and the channel as its turn found them. */
  datatype Home = Home(owner: uint32, ch: Channel)

  /** A turn leaves a channel alone that belongs to another session. */
  predicate HomeInv(h: Home, owner: uint32, ch: Channel) {
    && owner == h.owner
    && (ch == h.ch || ((h.ch.owner == 0 || h.ch.owner == owner) && (ch.owner == 0 || ch.owner == owner)))
  }

  predicate TurnInv(cfg: Config, h: Home, t: Turn) {
    && HomeInv(h, t.s.owner, t.ch)
    && WireInv(t.s, t.log) && DecodeInv(t.s, t.log) && OffsetInv(t.s.decoder, t.s.dataOffset) && FlowInv(t.s, t.ch, t.log)
    && OwnInv(t.s, t.ch, t.up) && EventInv(t.ch.owner, t.events) && DetachInv(cfg, t.s, t.log)
    && (!cfg.service ==> !Up.BlocksConsole(t.up))
  }

  /** No frame is half read, and the complete one, if any, is not a serial frame. */
  predicate Quiet(d: Decoder) {
    Partial(d) == [] && (CurrentFrame(d).Some? ==> CurrentFrame(d).value.kind != SERIAL)
  }

  /** Every dispatched request has been answered, in order. */
  predicate Paid(t: Turn) {
    t.s.result.Running? ==> ReplyIds(t.log.frames) == t.log.dispatched
  }

  /** The request that waits in the decoder. */
  function Waiting(d: Decoder): seq<uint32> {
    if CurrentFrame(d).Some? && Asks(CurrentFrame(d).value) then [CurrentFrame(d).value.request] else []
  }

  /** Every decoded request has been dispatched, but for the one that waits. */
  predicate Asked(t: Turn) {
    t.s.result.Running? ==> AskedIds(t.log.decoded) == t.log.dispatched + Waiting(t.s.decoder)
  }

  predicate Kept(cfg: Config, h: Home, t: Turn) {
    TurnInv(cfg, h, t) && Paid(t) && Asked(t)
  }

  /** The request in the decoder has been dispatched and answered; the decoder still holds it. */
  predicate Replied(cfg: Config, h: Home, t: Turn) {
    && TurnInv(cfg, h, t) && Paid(t) && Quiet(t.s.decoder)
    && (t.s.result.Running? ==> AskedIds(t.log.decoded) == t.log.dispatched)
  }

  /** All but the newest request have been answered, and there is room for its answer. */
  predicate Owing(cfg: Config, h: Home, t: Turn, id: uint32) {
    && TurnInv(cfg, h, t) && Quiet(t.s.decoder) && t.s.result.Running? && !t.s.closing && t.s.output == []
    && ReplyIds(t.log.frames) + [id] == t.log.dispatched == AskedIds(t.log.decoded)
  }

  // ---- Ending ----

  lemma DisconnectBlocks(u: Up.Upload, owner: uint32)
    ensures Up.BlocksConsole(Up.Disconnect(u, owner)) ==> Up.BlocksConsole(u)
  {
  }

  lemma ReleasedEvents(t: Turn)
    requires EventInv(t.ch.owner, t.events)
    ensures EventInv(Released(t).ch.owner, Released(t).events)
    ensures Released(t).ch.owner == (if t.ch.owner == t.s.owner then 0 else t.ch.owner)
  {
    hide Alternates, OwnerAfter;
    if t.s.owner != 0 && t.s.owner == t.ch.owner {
      EventAppends(t.events, Shut);
    }
  }

  lemma EndedDecoder(s: Session, log: Log)
    requires DecodeInv(s, log)
    ensures ValidDecoder(Reset(s.decoder))
  {
  }

  lemma FinishKeeps(cfg: Config, h: Home, t: Turn, r: Result)
    requires TurnInv(cfg, h, t) && !r.Running?
    ensures TurnInv(cfg, h, Finish(cfg, t, r)) && !Finish(cfg, t, r).s.result.Running?
    ensures Finish(cfg, t, r).s.output == [] && !Finish(cfg, t, r).s.owned
  {
    hide WireAll, ValidFrame, ValidDecoder, Up.Disconnect, Up.BlocksConsole, EventInv, SerialData, Released, AllValid, Unread;
    EndedDecoder(t.s, t.log);
    ReleasedEvents(t);
    DisconnectBlocks(t.up, t.s.owner);
    ReleasedFrame(t);
  }

  lemma ReleasedFrame(t: Turn)
    ensures var r := Released(t);
      r.s == t.s && r.up == t.up && r.log == t.log && (r.ch.owner != t.ch.owner ==> r.ch.owner == 0) &&
      (t.ch.owner == t.s.owner != 0 ==> r.ch.owner == 0)
  {
  }

  lemma FinishReplied(cfg: Config, h: Home, t: Turn, r: Result)
    requires TurnInv(cfg, h, t) && !r.Running?
    ensures Replied(cfg, h, Finish(cfg, t, r))
  {
    hide TurnInv, CurrentFrame;
    FinishKeeps(cfg, h, t, r);
    ResetQuiet(t.s.decoder);
    FinishDecoder(cfg, t, r);
    hide Finish;
  }

  lemma FinishKept(cfg: Config, h: Home, t: Turn, r: Result)
    requires TurnInv(cfg, h, t) && !r.Running?
    ensures Kept(cfg, h, Finish(cfg, t, r))
  {
    hide TurnInv, Finish;
    FinishKeeps(cfg, h, t, r);
  }

  lemma ResetQuiet(d: Decoder)
    ensures Quiet(Reset(d))
  {
  }

  lemma FinishDecoder(cfg: Config, t: Turn, r: Result)
    ensures Finish(cfg, t, r).s.decoder == Reset(t.s.decoder)
  {
    hide Up.Disconnect;
  }

  // ---- Replies ----

  lemma FramesSnoc(fs: seq<Frame>, f: Frame, mark: nat)
    requires mark <= |fs|
    ensures (fs + [f])[mark..] == fs[mark..] + [f]
  {
  }

  lemma QueueKeeps(cfg: Config, h: Home, t: Turn, id: uint32, payload: seq<byte>)
    requires Owing(cfg, h, t, id)
    ensures Replied(cfg, h, Queue(cfg, t, Frame(RESPONSE, id, payload)))
  {
    hide WireAll, ValidFrame, ValidDecoder, Up.BlocksConsole, EventInv, SerialData, Finish, Wire, Unread, ReplyIds, AskedIds, Quiet;
    var f := Frame(RESPONSE, id, payload);
    FinishReplied(cfg, h, t, IoError);
    var bytes := Encode(HEADER + RESPONSE_CAPACITY, f);
    if bytes != [] {
      WireSnoc(t.log.frames, f);
      Snoc(t.log.frames, f);
      assert t.log.sent + [] == t.log.sent;
      if t.s.owned {
        FramesSnoc(t.log.frames, f, t.log.outMark);
        Snoc(t.log.frames[t.log.outMark..], f);
        assert SerialData(t.log.frames[t.log.outMark..]) + [] == SerialData(t.log.frames[t.log.outMark..]);
      }
    }
  }

  lemma RefuseKeeps(cfg: Config, h: Home, t: Turn, id: uint32, code: string)
    requires Owing(cfg, h, t, id)
    ensures Replied(cfg, h, Refuse(cfg, t, id, code))
  {
    hide TurnInv, Queue, Finish, ErrorText, ReplyIds, AskedIds, Replied;
    FinishReplied(cfg, h, t, IoError);
    QueueKeeps(cfg, h, t, id, ErrorText(code));
  }

  lemma AnswerKeeps(cfg: Config, h: Home, t: Turn, id: uint32, text: Text)
    requires Owing(cfg, h, t, id)
    ensures Replied(cfg, h, Answer(cfg, t, id, text))
  {
    hide TurnInv, Queue, Finish, Refuse, ReplyIds, AskedIds, Replied;
    FinishReplied(cfg, h, t, IoError);
    RefuseKeeps(cfg, h, t, id, "response_too_large");
    if text.Text? {
      QueueKeeps(cfg, h, t, id, ResultText(text.tail));
    }
  }

  lemma SucceedKeeps(cfg: Config, h: Home, t: Turn, id: uint32)
    requires Owing(cfg, h, t, id)
    ensures Replied(cfg, h, Succeed(cfg, t, id))
  {
    hide Queue, Replied, Owing, Ascii;
    QueueKeeps(cfg, h, t, id, Ascii("{\"ok\":true,\"result\":{}}"));
  }

  // ---- Dispatch: every branch owes exactly one reply and pays it ----

  lemma UploadReplyKeeps(cfg: Config, h: Home, t: Turn, id: uint32, r: (Up.Upload, Up.Error))
    requires Owing(cfg, h, t, id)
    requires Up.BlocksConsole(r.0) ==> cfg.service && t.ch.owner == 0
    ensures Replied(cfg, h, UploadReply(cfg, t, id, r))
  {
    hide WireInv, DecodeInv, OffsetInv, FlowInv, EventInv, DetachInv, Refuse, Answer, ReplyIds, AskedIds, Replied, Quiet, Up.BlocksConsole;
    var t' := t.(up := r.0);
    assert Owing(cfg, h, t', id);
    RefuseKeeps(cfg, h, t', id, UploadText.ErrorName(r.1));
    AnswerKeeps(cfg, h, t', id, Text(UploadText.RecordTail(r.0.last)));
  }

  lemma FlashBlocks(cfg: Config, t: Turn, c: Call, a: Answers)
    requires c.Flash?
    ensures Up.BlocksConsole(FlashCall(cfg, t, c, a).0) ==> c.verb.FlashBegin? || Up.BlocksConsole(t.up)
  {
    hide Image.Validate, Up.Staged;
  }

  lemma ChunkBlocks(u: Up.Upload, owner: uint32, id: uint32, offset: uint32, data: seq<byte>)
    ensures Up.BlocksConsole(Up.Chunk(u, owner, id, offset, data).0) == Up.BlocksConsole(u)
  {
    hide Up.Splice;
  }

  lemma FlashKeeps(cfg: Config, h: Home, t: Turn, id: uint32, c: Call, a: Answers)
    requires Owing(cfg, h, t, id) && c.Flash? && cfg.service
    ensures Replied(cfg, h, DispatchFlash(cfg, t, id, c, a))
  {
    hide WireInv, DecodeInv, OffsetInv, FlowInv, EventInv, DetachInv, Refuse, ReplyIds, AskedIds, Replied, Quiet, Up.BlocksConsole,
      UploadReply, FlashCall, Owing;
    OwingOwn(cfg, h, t, id);
    FlashBlocks(cfg, t, c, a);
    forall code { RefuseKeeps(cfg, h, t, id, code); }
    if !((c.verb.FlashBegin? || c.verb.FlashCommit?) && t.ch.owner != 0) {
      UploadReplyKeeps(cfg, h, t, id, FlashCall(cfg, t, c, a));
    }
  }

  lemma OwingOwn(cfg: Config, h: Home, t: Turn, id: uint32)
    requires Owing(cfg, h, t, id)
    ensures OwnInv(t.s, t.ch, t.up) && (!cfg.service ==> !Up.BlocksConsole(t.up))
  {
  }

  lemma UploadFrameKeeps(cfg: Config, h: Home, t: Turn, id: uint32, payload: seq<byte>)
    requires Owing(cfg, h, t, id)
    ensures Replied(cfg, h, DispatchUploadFrame(cfg, t, id, payload))
  {
    hide Replied, Up.BlocksConsole, UploadReply, Up.Chunk, Owing, Join;
    OwingOwn(cfg, h, t, id);
    var r :=
      if !t.s.negotiated then (t.up, Up.InvalidState)
      else if !cfg.service then (t.up, Up.Unsupported)
      else if |payload| > 8 && |payload| - 8 <= Up.MAX_CHUNK then
        ChunkBlocks(t.up, t.s.owner, GetBe32(payload, 0), GetBe32(payload, 4), payload[8..]);
        Up.Chunk(t.up, t.s.owner, GetBe32(payload, 0), GetBe32(payload, 4), payload[8..])
      else (t.up, Up.InvalidArgument);
    UploadReplyKeeps(cfg, h, t, id, r);
  }

  lemma AcquireKeeps(cfg: Config, h: Home, t: Turn, id: uint32, configured: bool, a: Answers)
    requires Owing(cfg, h, t, id) && t.s.negotiated && (cfg.service ==> !Up.BlocksConsole(t.up))
    ensures Owing(cfg, h, Acquire(t, configured, a).0, id)
  {
    hide WireAll, ValidDecoder, ValidFrame, Alternates, OwnerAfter, ReplyIds, AskedIds, Up.BlocksConsole, AllValid;
    if t.ch.owner == 0 && t.s.owner != 0 {
      EventAppends(t.events, Opened(t.s.owner));
      assert t.log.decoded[|t.log.decoded|..] == [] && t.log.frames[|t.log.frames|..] == [];
      assert Unread(t.s.decoder, t.s.dataOffset) == [];
    }
  }

  lemma OpenKeeps(cfg: Config, h: Home, t: Turn, id: uint32, c: Call, a: Answers)
    requires Owing(cfg, h, t, id) && t.s.negotiated && c.Serial?
    ensures Replied(cfg, h, DispatchOpen(cfg, t, id, c, a))
  {
    hide Owing, Replied, Refuse, Succeed, Acquire, Up.BlocksConsole;
    forall code { RefuseKeeps(cfg, h, t, id, code); }
    if !(cfg.service && Up.BlocksConsole(t.up)) {
      AcquireKeeps(cfg, h, t, id, c.configured, a);
      var (t', r) := Acquire(t, c.configured, a);
      SucceedKeeps(cfg, h, t', id);
      RefuseKeeps(cfg, h, t', id, BackendError(r));
    }
  }

  lemma ConfigureKeeps(cfg: Config, h: Home, t: Turn, id: uint32, c: Call, a: Answers)
    requires Owing(cfg, h, t, id) && c.Serial?
    ensures Replied(cfg, h, DispatchConfigure(cfg, t, id, c, a))
  {
    hide Owing, Replied, Refuse, Answer;
    forall code { RefuseKeeps(cfg, h, t, id, code); }
    AnswerKeeps(cfg, h, t, id, a.text);
  }

  lemma GiveUpKeeps(cfg: Config, h: Home, t: Turn, id: uint32)
    requires Owing(cfg, h, t, id) && t.s.owned
    ensures var t' := Released(t); Owing(cfg, h, t'.(s := t'.s.(owned := false)), id)
  {
    hide WireAll, AllValid, ValidDecoder, OffsetInv, EventInv, ReplyIds, AskedIds, Up.BlocksConsole, Released, Quiet;
    ReleasedEvents(t);
    ReleasedFrame(t);
  }

  lemma SerialKeeps(cfg: Config, h: Home, t: Turn, id: uint32, c: Call, a: Answers)
    requires Owing(cfg, h, t, id) && t.s.negotiated && c.Serial?
    ensures Replied(cfg, h, DispatchSerial(cfg, t, id, c, a))
  {
    hide Owing, Replied, Refuse, Succeed, Answer, Released, DispatchOpen, DispatchConfigure;
    forall code { RefuseKeeps(cfg, h, t, id, code); }
    AnswerKeeps(cfg, h, t, id, a.text);
    OpenKeeps(cfg, h, t, id, c, a);
    ConfigureKeeps(cfg, h, t, id, c, a);
    if t.s.owned {
      GiveUpKeeps(cfg, h, t, id);
      var t' := Released(t);
      SucceedKeeps(cfg, h, t'.(s := t'.s.(owned := false)), id);
    }
  }

  lemma DecoderReplaced(cfg: Config, h: Home, t: Turn, id: uint32, d: Decoder)
    requires Owing(cfg, h, t, id) && ValidDecoder(d) && d.bytes == [] && d.status.Incomplete? && !t.s.negotiated
    requires MIN_OFFER <= d.limit
    ensures TurnInv(cfg, h, t.(s := t.s.(decoder := d)))
    ensures Owing(cfg, h, t.(s := t.s.(decoder := d, negotiated := true)), id)
  {
    hide EventInv, ReplyIds, AskedIds, Up.BlocksConsole, WireAll, AllValid, ValidDecoder, SerialData;
  }

  lemma NegotiatedValid(d: Decoder, offer: uint32)
    requires ValidDecoder(d) && MIN_OFFER <= d.limit
    ensures var (n, ok) := Negotiated(Reset(d), offer);
      ValidDecoder(n) && n.bytes == [] && n.status.Incomplete? && MIN_OFFER <= n.limit
  {
  }

  lemma OwingDecoder(cfg: Config, h: Home, t: Turn, id: uint32)
    requires Owing(cfg, h, t, id)
    ensures ValidDecoder(t.s.decoder) && MIN_OFFER <= t.s.decoder.limit
  {
  }

  lemma HelloKeeps(cfg: Config, h: Home, t: Turn, id: uint32, offer: uint32, a: Answers)
    requires Owing(cfg, h, t, id)
    ensures Replied(cfg, h, DispatchHello(cfg, t, id, offer, a))
  {
    hide Owing, Replied, Refuse, Answer, Finish, Negotiated, ValidDecoder, TurnInv;
    RefuseKeeps(cfg, h, t, id, "invalid_state");
    OwingDecoder(cfg, h, t, id);
    NegotiatedValid(t.s.decoder, offer);
    var (d, ok) := Negotiated(Reset(t.s.decoder), offer);
    if !t.s.negotiated {
      DecoderReplaced(cfg, h, t, id, d);
      FinishReplied(cfg, h, t.(s := t.s.(decoder := d)), IoError);
      AnswerKeeps(cfg, h, t.(s := t.s.(decoder := d, negotiated := true)), id, a.text);
    }
  }

  lemma ResetFacts(d: Decoder)
    requires ValidDecoder(d)
    ensures ValidDecoder(Reset(d)) && Partial(Reset(d)) == [] && CurrentFrame(Reset(d)).None? && Quiet(Reset(d))
    ensures Reset(d).limit == d.limit
    ensures CurrentFrame(d).Some? ==> Partial(d) == []
  {
    hide Check, GetBe16, GetBe32, Size, FrameOf;
  }

  lemma QuietUnread(d: Decoder, offset: nat)
    requires Quiet(d)
    ensures Unread(d, offset) == []
  {
    hide CurrentFrame, Partial;
  }

  lemma ResetKeeps(cfg: Config, h: Home, t: Turn)
    requires Replied(cfg, h, t)
    ensures Replied(cfg, h, ResetDecoder(t)) && Kept(cfg, h, ResetDecoder(t)) && Kept(cfg, h, TakeTurn(ResetDecoder(t)))
    ensures CurrentFrame(ResetDecoder(t).s.decoder).None?
  {
    hide EventInv, ReplyIds, AskedIds, Up.BlocksConsole, WireAll, AllValid, SerialData, ValidDecoder, CurrentFrame, Partial, Reset;
    ResetFacts(t.s.decoder);
    QuietUnread(t.s.decoder, t.s.dataOffset);
  }

  lemma CommandKeeps(cfg: Config, h: Home, t: Turn, id: uint32, c: Call, a: Answers)
    requires Owing(cfg, h, t, id) && (t.s.negotiated || c.Hello?)
    ensures Replied(cfg, h, DispatchCommand(cfg, t, id, c, a))
  {
    hide Owing, Replied, Refuse, Answer, DispatchHello, DispatchSerial;
    RefuseKeeps(cfg, h, t, id, "unsupported");
    match c
    case Hello(offer) => HelloKeeps(cfg, h, t, id, offer, a);
    case Diagnostics => AnswerKeeps(cfg, h, t, id, a.text);
    case Serial(_, _, _, _) => SerialKeeps(cfg, h, t, id, c, a);
    case _ =>
  }

  lemma NotJsonKeeps(cfg: Config, h: Home, t0: Turn, id: uint32, now: uint32)
    requires Owing(cfg, h, t0, id)
    ensures Kept(cfg, h, DispatchNotJson(cfg, t0, id, now))
  {
    hide Owing, Refuse, Replied, Kept, ResetDecoder;
    RefuseKeeps(cfg, h, t0, id, "invalid_argument");
    var t := ResetDecoder(Refuse(cfg, t0, id, "invalid_argument"));
    ResetKeeps(cfg, h, Refuse(cfg, t0, id, "invalid_argument"));
    LetGoKeeps(cfg, h, t, now);
  }

  lemma LetGoKeeps(cfg: Config, h: Home, t: Turn, now: uint32)
    requires Kept(cfg, h, t)
    ensures var u := Detached(cfg, ReleasedIfOwned(t));
      Kept(cfg, h, u.(s := u.s.(owned := false, uploadReleased := true, closing := true,
                                clock := u.s.clock.(closingAt := now)),
                      log := u.log.(times := u.log.times.(closed := now))))
  {
    hide WireAll, ValidFrame, ValidDecoder, Up.Disconnect, Up.BlocksConsole, EventInv, SerialData, Released, AllValid, Unread,
      ReplyIds, AskedIds, Waiting;
    ReleasedEvents(t);
    ReleasedFrame(t);
    DisconnectBlocks(t.up, t.s.owner);
  }

  lemma RequestKeeps(cfg: Config, h: Home, t: Turn, id: uint32, payload: seq<byte>, io: Io)
    requires Owing(cfg, h, t, id)
    ensures Kept(cfg, h, DispatchRequest(cfg, t, id, payload, io))
  {
    hide Owing, Kept, DispatchNotJson, DispatchCall, JsonTokens.DocumentTokens;
    NotJsonKeeps(cfg, h, t, id, io.now);
    CallKeeps(cfg, h, t, id, cfg.read(payload, JsonTokens.DocumentTokens(payload)), io);
  }

  lemma CallKeeps(cfg: Config, h: Home, t: Turn, id: uint32, c: Call, io: Io)
    requires Owing(cfg, h, t, id)
    ensures Kept(cfg, h, DispatchCall(cfg, t, id, c, io))
  {
    hide Owing, Replied, Kept, Refuse, DispatchFlash, DispatchCommand, ResetDecoder, TakeTurn;
    if cfg.service && c.Flash? {
      FlashKeeps(cfg, h, t, id, c, io.answers);
      ResetKeeps(cfg, h, DispatchFlash(cfg, t, id, c, io.answers));
    } else if c.Malformed? {
      RefuseKeeps(cfg, h, t, id, "invalid_argument");
      ResetKeeps(cfg, h, Refuse(cfg, t, id, "invalid_argument"));
    } else if !t.s.negotiated && !c.Hello? {
      RefuseKeeps(cfg, h, t, id, "invalid_state");
      ResetKeeps(cfg, h, Refuse(cfg, t, id, "invalid_state"));
    } else {
      CommandKeeps(cfg, h, t, id, c, io.answers);
      ResetKeeps(cfg, h, DispatchCommand(cfg, t, id, c, io.answers));
    }
  }

  /** A request that waits in the decoder, with nothing queued. */
  predicate Due(cfg: Config, h: Home, t: Turn, f: Frame) {
    && Kept(cfg, h, t) && t.s.result.Running? && !t.s.closing && t.s.output == []
    && CurrentFrame(t.s.decoder) == Some(f) && f.kind != SERIAL
  }

  lemma NotedOwes(cfg: Config, h: Home, t: Turn, f: Frame)
    requires Due(cfg, h, t, f) && Asks(f)
    ensures Owing(cfg, h, Noted(t, f.request), f.request)
  {
    hide ReplyIds, AskedIds, WireAll, AllValid, Alternates, Up.BlocksConsole, ValidDecoder, SerialData, CurrentFrame, Partial;
    ResetFacts(t.s.decoder);
  }

  lemma DispatchKeeps(cfg: Config, h: Home, t: Turn, f: Frame, io: Io)
    requires Due(cfg, h, t, f)
    ensures Kept(cfg, h, Dispatch(cfg, t, f, io))
  {
    hide Owing, DispatchUploadFrame, DispatchRequest, ResetDecoder, Finish, Noted, TurnInv, Replied, CurrentFrame, Paired;
    FinishKept(cfg, h, t, ProtocolError);
    if Asks(f) {
      NotedOwes(cfg, h, t, f);
      hide Kept;
      UploadFrameKeeps(cfg, h, Noted(t, f.request), f.request, f.payload);
      ResetKeeps(cfg, h, DispatchUploadFrame(cfg, Noted(t, f.request), f.request, f.payload));
      RequestKeeps(cfg, h, Noted(t, f.request), f.request, f.payload, io);
      PairedKeeps(cfg, h, t, f, ResetDecoder(DispatchUploadFrame(cfg, Noted(t, f.request), f.request, f.payload)));
      PairedKeeps(cfg, h, t, f, DispatchRequest(cfg, Noted(t, f.request), f.request, f.payload, io));
    }
  }

  lemma PairedKeeps(cfg: Config, h: Home, t: Turn, f: Frame, r: Turn)
    ensures Kept(cfg, h, r) ==> Kept(cfg, h, Paired(t, f, r))
  {
    hide WireAll, ValidFrame, ValidDecoder, Up.BlocksConsole, EventInv, SerialData, AllValid, Unread, ReplyIds, AskedIds, OffsetInv,
      CurrentFrame, Partial, Waiting;
  }

  // ---- The stream ----

  predicate Flowing(cfg: Config, h: Home, t: Turn) {
    Kept(cfg, h, t) && t.s.owned
  }

  lemma UnreadSplits(d: Decoder, offset: nat, count: nat)
    requires count < |Unread(d, offset)|
    ensures Unread(d, offset)[..count] + Unread(d, offset + count) == Unread(d, offset)
    ensures CurrentFrame(d).Some? && offset + count < |SerialPayload(CurrentFrame(d).value)|
  {
    hide CurrentFrame, SerialPayload;
    var data := SerialPayload(CurrentFrame(d).value);
    assert data[offset..][count..] == data[offset + count..];
  }

  /** read() hands over the next bytes of the current frame and keeps the rest. */
  lemma ReadSplits(s: Session, capacity: nat)
    requires ValidDecoder(s.decoder) && OffsetInv(s.decoder, s.dataOffset) && capacity > 0
    ensures var (s', data) := Read(s, capacity);
      && data + Unread(s'.decoder, s'.dataOffset) == Unread(s.decoder, s.dataOffset) && |data| <= capacity
      && ValidDecoder(s'.decoder) && OffsetInv(s'.decoder, s'.dataOffset)
      && Partial(s'.decoder) == Partial(s.decoder)
      && (CurrentFrame(s'.decoder).Some? ==> CurrentFrame(s'.decoder) == CurrentFrame(s.decoder))
      && Waiting(s'.decoder) == Waiting(s.decoder) && s'.decoder.limit == s.decoder.limit
      && s' == s.(decoder := s'.decoder, dataOffset := s'.dataOffset)
  {
    hide ValidDecoder, CurrentFrame, Partial, Reset, SerialPayload, Unread;
    ResetFacts(s.decoder);
    QuietUnread(Reset(s.decoder), 0);
    var rest := Unread(s.decoder, s.dataOffset);
    var count := Min(capacity, |rest|);
    if CurrentFrame(s.decoder).None? || CurrentFrame(s.decoder).value.kind != SERIAL {
      assert [] + rest == rest;
    } else if count == |rest| {
      assert rest + [] == rest;
    } else {
      UnreadSplits(s.decoder, s.dataOffset, count);
    }
  }

  lemma PumpInKeeps(cfg: Config, h: Home, t: Turn, b: Backend)
    requires Flowing(cfg, h, t)
    ensures Flowing(cfg, h, PumpIn(t, b).0) && PumpIn(t, b).0.s.output == t.s.output
  {
    hide WireAll, ValidDecoder, ValidFrame, EventInv, ReplyIds, AskedIds, Up.BlocksConsole, AllValid, SerialData, Read, Unread,
      OffsetInv, CurrentFrame, Partial;
    ReadSplits(t.s, STREAM_CAPACITY);
    var (s1, data) := Read(t.s, STREAM_CAPACITY);
    var t1 := if t.ch.toBackend != [] then t else t.(s := s1, ch := t.ch.(toBackend := data));
    var unread := Unread(t.s.decoder, t.s.dataOffset);
    assert t.log.delivered + [] == t.log.delivered;
    assert t.log.delivered + data + Unread(s1.decoder, s1.dataOffset) == t.log.delivered + (data + Unread(s1.decoder, s1.dataOffset));
    assert Flowing(cfg, h, t1);
    if b.takes <= |t1.ch.toBackend| {
      var p := t1.ch.toBackend;
      assert t1.log.delivered + p == t1.log.delivered + p[..b.takes] + p[b.takes..];
    }
  }

  lemma PumpFillKeeps(cfg: Config, h: Home, t: Turn, b: Backend)
    requires Flowing(cfg, h, t)
    ensures Flowing(cfg, h, PumpFill(t, b).0) && PumpFill(t, b).0.s.output == t.s.output
  {
    hide WireAll, ValidDecoder, ValidFrame, EventInv, ReplyIds, AskedIds, Up.BlocksConsole, AllValid, SerialData, Unread, OffsetInv,
      CurrentFrame, Partial;
    if t.ch.toPeer == [] {
      var data := SerialData(t.log.frames[t.log.outMark..]);
      assert data + [] == data;
    }
  }

  lemma SerialFrame(data: seq<byte>)
    requires 0 < |data| <= STREAM_CAPACITY
    ensures SerialPayload(Frame(SERIAL, 0, Be32(1) + data)) == data
    ensures ValidFrame(Frame(SERIAL, 0, Be32(1) + data))
  {
    hide Be32;
    assert (Be32(1) + data)[4..] == data;
  }

  lemma WriteKeeps(cfg: Config, h: Home, t: Turn)
    requires Flowing(cfg, h, t) && t.s.output == [] && t.ch.toPeer != []
    ensures Kept(cfg, h, PumpOut(cfg, t))
  {
    hide WireAll, ValidFrame, ValidDecoder, Up.BlocksConsole, EventInv, SerialData, Finish, Wire, Unread, ReplyIds, AskedIds, SerialPayload,
      OffsetInv, CurrentFrame, Partial;
    var data := t.ch.toPeer;
    assert data[..|data|] == data;
    var f := Frame(SERIAL, 0, Be32(1) + data);
    FinishReplied(cfg, h, t, IoError);
    FinishKeeps(cfg, h, t, IoError);
    SerialFrame(data);
    var bytes := Encode(HEADER + RESPONSE_CAPACITY, f);
    if |f.payload| <= t.s.decoder.limit && bytes != [] {
      WireSnoc(t.log.frames, f);
      Snoc(t.log.frames, f);
      FramesSnoc(t.log.frames, f, t.log.outMark);
      Snoc(t.log.frames[t.log.outMark..], f);
      assert t.log.sent + [] == t.log.sent && ReplyIds(t.log.frames) + [] == ReplyIds(t.log.frames);
      assert data[|data|..] == [];
    } else {
      WriteFails(cfg, t);
    }
  }

  lemma WriteFails(cfg: Config, t: Turn)
    requires t.s.output == [] && 0 < |t.ch.toPeer| <= STREAM_CAPACITY
    requires var f := Frame(SERIAL, 0, Be32(1) + t.ch.toPeer);
      |f.payload| > t.s.decoder.limit || Encode(HEADER + RESPONSE_CAPACITY, f) == []
    ensures PumpOut(cfg, t) == Finish(cfg, t, IoError)
  {
    hide Wire, ValidFrame, Up.Disconnect;
    assert t.ch.toPeer[..|t.ch.toPeer|] == t.ch.toPeer;
  }

  lemma PumpFailedKeeps(cfg: Config, h: Home, t: Turn)
    requires Flowing(cfg, h, t)
    ensures Kept(cfg, h, PumpFailed(cfg, t)) && !PumpFailed(cfg, t).s.result.Running?
  {
    hide WireAll, ValidFrame, ValidDecoder, Up.Disconnect, Up.BlocksConsole, Alternates, OwnerAfter, SerialData, AllValid, Unread,
      ReplyIds, AskedIds;
    EventAppends(t.events, Shut);
    EndedDecoder(t.s, t.log);
    DisconnectBlocks(t.up, t.s.owner);
  }

  lemma PumpKeeps(cfg: Config, h: Home, t: Turn, io: Io)
    requires Flowing(cfg, h, t)
    ensures Kept(cfg, h, Pump(cfg, t, io))
  {
    hide WireInv, DecodeInv, OffsetInv, FlowInv, EventInv, DetachInv, Up.BlocksConsole, PumpIn, PumpFill, PumpFailed, Finish, PumpOut,
      Progressed, ReplyIds, AskedIds;
    PumpFailedKeeps(cfg, h, t);
    PumpInKeeps(cfg, h, t, io.backend);
    var t1 := PumpIn(t, io.backend).0;
    PumpFailedKeeps(cfg, h, t1);
    PumpFillKeeps(cfg, h, t1, io.backend);
    var t2 := PumpFill(t1, io.backend).0;
    PumpFailedKeeps(cfg, h, t2);
    PumpOutKeeps(cfg, h, t2);
    ProgressKeeps(cfg, h, t, PumpOut(cfg, t2), io.now);
  }

  lemma PumpOutKeeps(cfg: Config, h: Home, t: Turn)
    requires Flowing(cfg, h, t)
    ensures Kept(cfg, h, PumpOut(cfg, t))
  {
    hide TurnInv, Queue, Paid;
    if t.ch.toPeer != [] && t.s.output == [] {
      hide PumpOut;
      WriteKeeps(cfg, h, t);
    } else if t.ch.toPeer != [] {
      assert t.ch.toPeer[0..] == t.ch.toPeer;
      assert PumpOut(cfg, t) == t;
    }
  }

  lemma ProgressKeeps(cfg: Config, h: Home, t0: Turn, t: Turn, now: uint32)
    requires Kept(cfg, h, t)
    ensures Kept(cfg, h, Progressed(t0, t, now))
  {
    hide WireAll, ValidFrame, ValidDecoder, Up.BlocksConsole, EventInv, SerialData, AllValid, Unread, ReplyIds, AskedIds, OffsetInv;
  }

  /** While the session runs, pumping leaves alone a complete frame that is not serial. */
  lemma PumpFrame(cfg: Config, t: Turn, io: Io)
    requires Quiet(t.s.decoder)
    ensures var p := Pump(cfg, t, io); p.s.result.Running? ==> p.s.closing == t.s.closing && p.s.decoder == t.s.decoder
  {
    hide PumpIn, PumpFill, PumpOut, PumpFailed, Finish, Quiet;
    var t1 := PumpIn(t, io.backend).0;
    var t2 := PumpFill(t1, io.backend).0;
    FinishEnds(cfg, t, IoError);
    PumpFailedEnds(cfg, t);
    PumpFailedEnds(cfg, t1);
    PumpFailedEnds(cfg, t2);
    QuietIn(t, io.backend);
    QuietFill(t1, io.backend);
    QuietOut(cfg, t2);
  }

  lemma FinishEnds(cfg: Config, t: Turn, r: Result)
    ensures Finish(cfg, t, r).s.result == r
  {
    hide Up.Disconnect;
  }

  lemma PumpFailedEnds(cfg: Config, t: Turn)
    ensures !PumpFailed(cfg, t).s.result.Running?
  {
    hide Up.Disconnect;
  }

  lemma QuietIn(t: Turn, b: Backend)
    requires Quiet(t.s.decoder)
    ensures PumpIn(t, b).0.s == t.s
  {
    hide CurrentFrame, Partial;
    QuietUnread(t.s.decoder, t.s.dataOffset);
    NoSerial(t.s.decoder);
  }

  lemma NoSerial(d: Decoder)
    requires Quiet(d)
    ensures CurrentFrame(d).None? || CurrentFrame(d).value.kind != SERIAL
  {
  }

  lemma QuietFill(t: Turn, b: Backend)
    ensures PumpFill(t, b).0.s == t.s
  {
  }

  lemma QuietOut(cfg: Config, t: Turn)
    ensures var p := PumpOut(cfg, t); p.s.result.Running? ==> p.s.closing == t.s.closing && p.s.decoder == t.s.decoder
  {
    hide Finish, Encode, Be32;
    FinishEnds(cfg, t, IoError);
  }

  // ---- poll() ----

  lemma FlushKeeps(cfg: Config, h: Home, t: Turn, accepted: nat, now: uint32)
    requires Kept(cfg, h, t) && t.s.result.Running? && accepted <= |t.s.output|
    ensures Kept(cfg, h, Flush(t, accepted, now))
  {
    hide WireAll, ValidFrame, ValidDecoder, Up.BlocksConsole, EventInv, SerialData, AllValid, Unread, ReplyIds, AskedIds, OffsetInv,
      CurrentFrame, Partial;
    var o := t.s.output;
    assert t.log.sent + o == t.log.sent + o[..accepted] + o[accepted..];
  }

  lemma FedWhole(d: Decoder, arrived: seq<byte>)
    requires ValidDecoder(d) && d.status.Incomplete? && 0 < |arrived| <= Needed(d)
    ensures var e := Fed(d, arrived).0;
      ValidDecoder(e) && e.bytes == d.bytes + arrived && (e.status.Ready? ==> |e.bytes| >= HEADER)
    ensures Fed(d, arrived).0.limit == d.limit
  {
    hide Check, GetBe16, GetBe32;
    FeedValid(d, arrived);
    assert arrived[..|arrived|] == arrived;
  }

  lemma Arrived(d: Decoder, e: Decoder, arrived: seq<byte>, decoded: seq<Frame>, taken: seq<byte>)
    requires ValidDecoder(e) && !d.status.Ready? && e.bytes == d.bytes + arrived && AllValid(decoded)
    requires WireAll(decoded) + d.bytes == taken && (e.status.Ready? ==> |e.bytes| >= HEADER)
    ensures var fs := match CurrentFrame(e) case None => decoded case Some(f) => decoded + [f];
      AllValid(fs) && WireAll(fs) + Partial(e) == taken + arrived
  {
    hide ValidDecoder, WireAll, Wire, FrameOf, ValidFrame;
    assert taken + arrived == WireAll(decoded) + e.bytes;
    if e.status.Ready? {
      ReadyIsWire(e);
      WireSnoc(decoded, FrameOf(e));
      assert WireAll(decoded) + Wire(FrameOf(e)) + [] == WireAll(decoded) + e.bytes;
    }
  }

  lemma FlowArrives(e: Decoder, decoded: seq<Frame>, mark: nat)
    requires mark <= |decoded|
    ensures var fs := match CurrentFrame(e) case None => decoded case Some(f) => decoded + [f];
      SerialData(fs[mark..]) == SerialData(decoded[mark..]) + Unread(e, 0)
  {
    hide CurrentFrame, SerialData, SerialPayload;
    if CurrentFrame(e).Some? {
      var f := CurrentFrame(e).value;
      FramesSnoc(decoded, f, mark);
      Snoc(decoded[mark..], f);
      assert SerialPayload(f)[0..] == SerialPayload(f);
    } else {
      assert SerialData(decoded[mark..]) + [] == SerialData(decoded[mark..]);
    }
  }

  lemma AskArrives(e: Decoder, decoded: seq<Frame>)
    ensures var fs := match CurrentFrame(e) case None => decoded case Some(f) => decoded + [f];
      AskedIds(fs) == AskedIds(decoded) + Waiting(e)
  {
    hide CurrentFrame, AskedIds, Asks;
    if CurrentFrame(e).Some? {
      Snoc(decoded, CurrentFrame(e).value);
    } else {
      assert AskedIds(decoded) + [] == AskedIds(decoded);
    }
  }

  lemma ReceiveKeeps(cfg: Config, h: Home, t: Turn, arrived: seq<byte>, now: uint32)
    requires Kept(cfg, h, t) && t.s.result.Running? && t.s.decoder.status.Incomplete?
    requires |arrived| <= Needed(t.s.decoder)
    ensures Kept(cfg, h, Receive(t, arrived, now))
  {
    hide WireAll, ValidFrame, ValidDecoder, Up.BlocksConsole, EventInv, SerialData, AllValid, Unread, ReplyIds, AskedIds, Fed, CurrentFrame, Needed;
    if arrived != [] {
      var d := t.s.decoder;
      FedWhole(d, arrived);
      NotReady(d);
      var e := Fed(d, arrived).0;
      Arrived(d, e, arrived, t.log.decoded, t.log.taken);
      AskArrives(e, t.log.decoded);
      assert t.log.dispatched + [] == t.log.dispatched;
      if t.s.owned {
        FlowArrives(e, t.log.decoded, t.log.inMark);
        NotReadyUnread(d, t.s.dataOffset);
        assert t.log.delivered + t.ch.toBackend + [] == t.log.delivered + t.ch.toBackend;
      }
    }
  }

  lemma NotReady(d: Decoder)
    requires !d.status.Ready?
    ensures CurrentFrame(d).None? && Partial(d) == d.bytes
  {
  }

  lemma NotReadyUnread(d: Decoder, offset: nat)
    requires !d.status.Ready?
    ensures Unread(d, offset) == []
  {
  }

  lemma ActStreamKeeps(cfg: Config, h: Home, t: Turn, io: Io)
    requires Kept(cfg, h, t)
    ensures Kept(cfg, h, ActStream(cfg, t, io))
  {
    hide TurnInv, Pump, Paid;
    if t.s.result.Running? && t.s.owned {
      PumpKeeps(cfg, h, t, io);
    }
  }

  lemma DueQuiet(cfg: Config, h: Home, t: Turn, f: Frame)
    requires Due(cfg, h, t, f)
    ensures Quiet(t.s.decoder)
  {
    hide WireInv, OffsetInv, FlowInv, OwnInv, EventInv, DetachInv, Paid, Asked, AskedIds, ValidDecoder, CurrentFrame, Partial;
    ResetFacts(t.s.decoder);
  }

  lemma AlternateKeeps(cfg: Config, h: Home, t: Turn, f: Frame, io: Io)
    requires Due(cfg, h, t, f) && t.s.owned
    ensures var t1 := Pump(cfg, t, io); var t2 := t1.(s := t1.s.(dataTurn := false));
      Kept(cfg, h, t1) && Kept(cfg, h, t2) && (t1.s.result.Running? && t2.s.output == [] ==> Kept(cfg, h, Dispatch(cfg, t2, f, io)))
  {
    hide Kept, Pump, Dispatch, Quiet, CurrentFrame;
    DueQuiet(cfg, h, t, f);
    PumpKeeps(cfg, h, t, io);
    PumpFrame(cfg, t, io);
    var t1 := Pump(cfg, t, io);
    TurnFlag(cfg, h, t1);
    var t2 := t1.(s := t1.s.(dataTurn := false));
    if t1.s.result.Running? && t2.s.output == [] {
      DispatchKeeps(cfg, h, t2, f, io);
    }
  }

  lemma TurnFlag(cfg: Config, h: Home, t: Turn)
    requires Kept(cfg, h, t)
    ensures Kept(cfg, h, t.(s := t.s.(dataTurn := false)))
  {
    hide WireAll, ValidFrame, ValidDecoder, Up.BlocksConsole, EventInv, SerialData, AllValid, Unread, ReplyIds, AskedIds, OffsetInv,
      CurrentFrame, Partial;
  }

  lemma ActKeeps(cfg: Config, h: Home, t: Turn, io: Io)
    requires Kept(cfg, h, t) && t.s.result.Running? && !t.s.closing
    ensures Kept(cfg, h, Act(cfg, t, io))
  {
    hide TurnInv, Pump, Paid, Dispatch, Quiet, Finish, CurrentFrame, ActStream;
    ActStreamKeeps(cfg, h, t, io);
    if CurrentFrame(t.s.decoder).Some? {
      var f := CurrentFrame(t.s.decoder).value;
      if f.kind == SERIAL {
        FinishKept(cfg, h, t, ProtocolError);
        ActStreamKeeps(cfg, h, CheckSerial(cfg, t, f), io);
      } else {
        if t.s.output == [] && t.s.owned && t.s.dataTurn {
          AlternateKeeps(cfg, h, t, f, io);
        } else if t.s.output == [] {
          DispatchKeeps(cfg, h, t, f, io);
          ActStreamKeeps(cfg, h, Dispatch(cfg, t, f, io), io);
        }
      }
    }
  }

  lemma PollOpenKeeps(cfg: Config, h: Home, t: Turn, io: Io)
    requires Kept(cfg, h, t) && t.s.result.Running? && !t.s.closing
    ensures Kept(cfg, h, PollOpen(cfg, t, io))
  {
    hide TurnInv, Paid, Finish, Act, Receive, Needed;
    FinishKept(cfg, h, t, IoError);
    FinishKept(cfg, h, t, ProtocolError);
    if t.s.decoder.status.Incomplete? && |io.arrives| <= Min(Needed(t.s.decoder), READ_CAPACITY) {
      ReceiveKeeps(cfg, h, t, io.arrives, io.now);
      var t1 := Receive(t, io.arrives, io.now);
      ReceiveFrame(t, io.arrives, io.now);
      FinishKept(cfg, h, t1, ProtocolError);
      ActKeeps(cfg, h, t1, io);
    } else if !t.s.decoder.status.Incomplete? {
      ActKeeps(cfg, h, t, io);
    }
  }

  lemma ReceiveFrame(t: Turn, arrived: seq<byte>, now: uint32)
    ensures var r := Receive(t, arrived, now).s; r.result == t.s.result && r.closing == t.s.closing
  {
    hide Fed, CurrentFrame;
  }

  lemma PollLiveKeeps(cfg: Config, h: Home, t: Turn, io: Io)
    requires Kept(cfg, h, t) && t.s.result.Running?
    ensures Kept(cfg, h, PollLive(cfg, t, io))
  {
    hide TurnInv, Paid, Finish, PollOpen;
    FinishKept(cfg, h, t, IoError);
    if t.s.output == [] || io.accepts <= |t.s.output| {
      if t.s.output != [] {
        FlushKeeps(cfg, h, t, io.accepts, io.now);
      }
      var t1 := if t.s.output != [] then Flush(t, io.accepts, io.now) else t;
      FinishKept(cfg, h, t1, ProtocolError);
      if !t1.s.closing {
        PollOpenKeeps(cfg, h, t1, io);
      }
    }
  }

  /** Every poll, whatever the world answers, keeps the session's invariant and pays every reply. */
  lemma PollKeeps(cfg: Config, h: Home, t: Turn, io: Io)
    requires Kept(cfg, h, t)
    ensures Kept(cfg, h, Poll(cfg, t, io))
  {
    hide TurnInv, Paid, Finish, PollLive, Expired;
    if t.s.result.Running? {
      FinishKept(cfg, h, t, Disconnected);
      FinishKept(cfg, h, t, ProtocolError);
      FinishKept(cfg, h, t, Timeout);
      PollLiveKeeps(cfg, h, t, io);
    }
  }

  // ---- What a reply says ----

  function OkText(): seq<byte> {
    Ascii("{\"ok\":true,\"result\":{}}")
  }

  lemma ErrorIsNotOk(code: string)
    ensures ErrorText(code) != OkText()
  {
    var text := "{\"ok\":false,\"error\":{\"code\":\"" + code + "\",\"message\":\"" + code + "\"}}";
    assert text[6] == 'f' && |text| > 6;
    assert ErrorText(code)[6] == 'f' as int && OkText()[6] == 't' as int;
  }

  /** The payload of the newest queued frame. */
  function NewestPayload(t: Turn): seq<byte> {
    if t.log.frames == [] then [] else t.log.frames[|t.log.frames| - 1].payload
  }

  lemma RefusedSays(cfg: Config, t: Turn, id: uint32, code: string)
    requires t.s.output == []
    ensures var r := Refuse(cfg, t, id, code);
      r.s.result.Running? ==> NewestPayload(r) != OkText() && r.s.owned == t.s.owned && r.ch == t.ch
  {
    hide Finish, ErrorText, OkText, Encode;
    ErrorIsNotOk(code);
    FinishEnds(cfg, t, IoError);
  }

  lemma SucceededSays(cfg: Config, t: Turn, id: uint32)
    requires t.s.output == []
    ensures var r := Succeed(cfg, t, id);
      r.s.result.Running? ==> NewestPayload(r) == OkText() && r.s.owned == t.s.owned && r.ch == t.ch
  {
    hide Finish, Ascii, Encode;
    FinishEnds(cfg, t, IoError);
  }

  /** serial.open answers ok exactly when it made this session the owner of an empty channel, and
      serial.close exactly when it gave the channel up. */
  lemma OkMeansOwned(cfg: Config, h: Home, t: Turn, id: uint32, c: Call, a: Answers)
    requires Owing(cfg, h, t, id) && c.Serial? && c.channel == 1 && (c.op.Open? || c.op.Close?)
    ensures var r := DispatchSerial(cfg, t, id, c, a);
      r.s.result.Running? ==>
        && (NewestPayload(r) == OkText() <==> r.s.owned != t.s.owned)
        && (NewestPayload(r) == OkText() && c.op.Open? ==> r.ch == Channel(t.s.owner, [], [], 0, 0))
        && (NewestPayload(r) == OkText() && c.op.Close? ==> r.ch.owner == 0)
  {
    hide Refuse, Succeed, TurnInv, OkText, NewestPayload, Up.BlocksConsole;
    OwingOwn(cfg, h, t, id);
    forall code { RefusedSays(cfg, t, id, code); }
    if c.op.Open? {
      var (t', r) := Acquire(t, c.configured, a);
      SucceededSays(cfg, t', id);
      RefusedSays(cfg, t', id, BackendError(r));
    } else if t.s.owned {
      var t' := Released(t);
      SucceededSays(cfg, t'.(s := t'.s.(owned := false)), id);
    }
  }
}
