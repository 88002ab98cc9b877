/**
 What an upload frame or a flash request on the wire does to the upload record,
 and what it is answered: the call behind it, its argument order, its effect and
 its error, in one statement per call.
 */
module UploadWire {
  import opened Bytes
  import opened Protocol
  import opened Session
  import opened SessionInv
  import UploadText
  import JsonTokens
  import Up = Upload
  import Image = StatefulImage

  // ---- The reply goes out ----

  /** A dispatch that answered `reply` and left the record `up`; the session goes on. */
  predicate Answered(t: Turn, f: Frame, r: Turn, reply: seq<byte>, up: Up.Upload) {
    && r.s.result.Running? && r.up == up && r.ch == t.ch
    && ValidFrame(Frame(RESPONSE, f.request, reply)) && r.s.output == Wire(Frame(RESPONSE, f.request, reply))
    && r.log.frames == t.log.frames + [Frame(RESPONSE, f.request, reply)]
    && r.log.exchanges == t.log.exchanges + [Exchange(f, reply)]
  }

  predicate Refused(t: Turn, f: Frame, r: Turn, code: string) {
    Answered(t, f, r, ErrorText(code), t.up)
  }

  /** Answered with the whole record. */
  predicate Reported(t: Turn, f: Frame, r: Turn, up: Up.Upload) {
    Answered(t, f, r, ResultText(UploadText.RecordTail(up.last)), up)
  }

  lemma ErrorFits(code: string)
    requires |code| <= 30
    ensures |ErrorText(code)| < 128
  {
  }

  /** Room for a reply: nothing queued, a nonzero request, and the negotiated limit. */
  predicate Roomy(t: Turn, id: uint32) {
    t.s.output == [] && t.s.decoder.limit >= MIN_OFFER && id != 0 && t.s.result.Running?
  }

  lemma QueueSends(cfg: Config, t: Turn, id: uint32, body: seq<byte>)
    requires Roomy(t, id) && |body| <= MIN_OFFER
    ensures ValidFrame(Frame(RESPONSE, id, body))
    ensures var f := Frame(RESPONSE, id, body);
      Queue(cfg, t, f) == t.(s := t.s.(output := Wire(f)), log := t.log.(frames := t.log.frames + [f]))
  {
    hide Wire, Finish;
  }

  lemma RefuseSends(cfg: Config, t: Turn, id: uint32, code: string)
    requires Roomy(t, id) && |code| <= 30
    ensures ValidFrame(Frame(RESPONSE, id, ErrorText(code)))
    ensures var f := Frame(RESPONSE, id, ErrorText(code));
      Refuse(cfg, t, id, code) == t.(s := t.s.(output := Wire(f)), log := t.log.(frames := t.log.frames + [f]))
  {
    hide Queue, ErrorText, Wire;
    ErrorFits(code);
    QueueSends(cfg, t, id, ErrorText(code));
  }

  lemma RecordSends(cfg: Config, t: Turn, id: uint32, last: Up.Status)
    requires Roomy(t, id)
    ensures var body := ResultText(UploadText.RecordTail(last));
      && ValidFrame(Frame(RESPONSE, id, body))
      && Answer(cfg, t, id, Text(UploadText.RecordTail(last))) ==
           t.(s := t.s.(output := Wire(Frame(RESPONSE, id, body))), log := t.log.(frames := t.log.frames + [Frame(RESPONSE, id, body)]))
  {
    hide Queue, UploadText.RecordTail, Wire, Refuse, Finish;
    UploadText.TailFits(last);
    QueueSends(cfg, t, id, ResultText(UploadText.RecordTail(last)));
  }

  lemma NamesFit(e: Up.Error)
    ensures |UploadText.ErrorName(e)| <= 30
  {
  }

  /** What UploadReply leaves, given the call's result. */
  lemma ReplySends(cfg: Config, t: Turn, id: uint32, r: (Up.Upload, Up.Error))
    requires Roomy(t, id)
    ensures var body := if r.1 != Up.NoError then ErrorText(UploadText.ErrorName(r.1)) else ResultText(UploadText.RecordTail(r.0.last));
      && ValidFrame(Frame(RESPONSE, id, body))
      && UploadReply(cfg, t, id, r) ==
           t.(up := r.0, s := t.s.(output := Wire(Frame(RESPONSE, id, body))),
              log := t.log.(frames := t.log.frames + [Frame(RESPONSE, id, body)]))
  {
    hide Refuse, Answer, ErrorText, UploadText.RecordTail, UploadText.ErrorName, Wire;
    NamesFit(r.1);
    RefuseSends(cfg, t.(up := r.0), id, UploadText.ErrorName(r.1));
    RecordSends(cfg, t.(up := r.0), id, r.0.last);
  }

  lemma DueOpen(cfg: Config, h: Home, t: Turn, f: Frame)
    requires Due(cfg, h, t, f) && Asks(f)
    ensures Roomy(Noted(t, f.request), f.request)
  {
    hide WireInv, FlowInv, EventInv, DetachInv, OffsetInv, ReplyIds, AskedIds, HomeInv, Paid, Asked, ValidDecoder, WireAll, Partial, CurrentFrame;
  }

  // ---- Upload frames ----

  lemma PayloadFields(id: uint32, offset: uint32, data: seq<byte>)
    ensures var p := Be32(id) + Be32(offset) + data;
      |p| == 8 + |data| && GetBe32(p, 0) == id && GetBe32(p, 4) == offset && p[8..] == data
  {
    hide Be32, GetBe32;
    var p := Be32(id) + Be32(offset) + data;
    assert p[0..4] == Be32(id) && p[4..8] == Be32(offset);
    GetBe32Inverse(p, 0, id);
    GetBe32Inverse(p, 4, offset);
  }

  /** The stage after `data` arrived at the end of what was received: that much more, in order. */
  predicate Extends(u: Up.Upload, v: Up.Upload, data: seq<byte>) {
    && u.last.received + |data| <= Up.STAGE
    && v.stage[..u.last.received + |data|] == u.stage[..u.last.received] + data
    && v == u.(stage := v.stage, last := u.last.(received := u.last.received + |data|))
  }

  /** A data frame: upload ID, offset and data, each in its place. */
  lemma ChunkFrame(cfg: Config, h: Home, t: Turn, f: Frame, io: Io, id: uint32, offset: uint32, data: seq<byte>)
    requires Due(cfg, h, t, f) && f.kind == UPLOAD && f.payload == Be32(id) + Be32(offset) + data
    requires t.s.negotiated && cfg.service && 1 <= |data| <= 1024 && Up.StageInv(t.up)
    ensures var r, last := Dispatch(cfg, t, f, io), t.up.last;
      if id == 0 || id != last.id then Refused(t, f, r, "wrong_target")
      else if t.s.owner == 0 || t.s.owner != t.up.owner then Refused(t, f, r, "wrong_owner")
      else if !last.state.Accepted? then Refused(t, f, r, "invalid_state")
      else if last.received + |data| > last.size then Refused(t, f, r, "invalid_argument")
      else if offset != last.received then Refused(t, f, r, "wrong_offset")
      else Reported(t, f, r, r.up) && Extends(t.up, r.up, data)
  {
    hide Due, UploadReply, Be32, GetBe32, ErrorText, UploadText.RecordTail, Wire, ResultText;
    PayloadFields(id, offset, data);
    DueOpen(cfg, h, t, f);
    var n := Noted(t, f.request);
    var call := Up.Chunk(t.up, t.s.owner, id, offset, data);
    ReplySends(cfg, n, f.request, call);
    SplicedPrefix(t.up.stage, t.up.last.received, data);
  }

  lemma SplicedPrefix(stage: Up.Buffer, at: nat, data: seq<byte>)
    ensures at + |data| <= Up.STAGE ==> Up.Splice(stage, at, data)[..at + |data|] == stage[..at] + data
  {
  }

  /** Every other data frame: too early, no service, no data or too much of it. */
  lemma OtherFrame(cfg: Config, h: Home, t: Turn, f: Frame, io: Io)
    requires Due(cfg, h, t, f) && f.kind == UPLOAD && Up.StageInv(t.up)
    requires !t.s.negotiated || !cfg.service || |f.payload| <= 8 || |f.payload| > 1032
    ensures var r := Dispatch(cfg, t, f, io);
      if !t.s.negotiated then Refused(t, f, r, "invalid_state")
      else if !cfg.service then Refused(t, f, r, "unsupported")
      else Refused(t, f, r, "invalid_argument")
  {
    hide Due, UploadReply, GetBe32, ErrorText, UploadText.RecordTail, Wire, ResultText;
    DueOpen(cfg, h, t, f);
    var n := Noted(t, f.request);
    ReplySends(cfg, n, f.request, (t.up, Up.InvalidState));
    ReplySends(cfg, n, f.request, (t.up, Up.Unsupported));
    ReplySends(cfg, n, f.request, (t.up, Up.InvalidArgument));
  }

  // ---- Flash requests ----

  /** A readable request that asks for a flash method. */
  predicate Asking(cfg: Config, h: Home, t: Turn, f: Frame, c: Call) {
    && Due(cfg, h, t, f) && f.kind == REQUEST && cfg.service && c.Flash? && Up.StageInv(t.up)
    && JsonTokens.DocumentTokens(f.payload) != [] && c == cfg.read(f.payload, JsonTokens.DocumentTokens(f.payload))
  }

  lemma FlashDispatch(cfg: Config, h: Home, t: Turn, f: Frame, io: Io, c: Call)
    requires Asking(cfg, h, t, f, c)
    ensures var n := Noted(t, f.request);
      && Roomy(n, f.request)
      && Dispatch(cfg, t, f, io) == Paired(t, f, TakeTurn(ResetDecoder(DispatchFlash(cfg, n, f.request, c, io.answers))))
  {
    hide Due, DispatchFlash, JsonTokens.DocumentTokens;
    DueOpen(cfg, h, t, f);
  }

  lemma CallSends(cfg: Config, h: Home, t: Turn, f: Frame, io: Io, c: Call)
    requires Asking(cfg, h, t, f, c) && c.valid && t.s.negotiated && c.target == 2 && (c.verb.FlashBegin? ==> c.sameBoard)
    requires c.verb.FlashBegin? || c.verb.FlashCommit? ==> t.ch.owner == 0
    ensures var r, call := Dispatch(cfg, t, f, io), FlashCall(cfg, t, c, io.answers);
      if call.1 != Up.NoError then Answered(t, f, r, ErrorText(UploadText.ErrorName(call.1)), call.0) else Reported(t, f, r, call.0)
  {
    hide Asking, FlashCall, UploadReply, ErrorText, UploadText.RecordTail, UploadText.ErrorName, Wire, ResultText;
    FlashDispatch(cfg, h, t, f, io, c);
    assert c.Flash? && f.kind == REQUEST by { AskingFlash(cfg, h, t, f, c); }
    var n := Noted(t, f.request);
    ReplySends(cfg, n, f.request, FlashCall(cfg, n, c, io.answers));
    SameCall(cfg, t, f.request, c, io.answers);
  }

  lemma AskingFlash(cfg: Config, h: Home, t: Turn, f: Frame, c: Call)
    requires Asking(cfg, h, t, f, c)
    ensures c.Flash? && f.kind == REQUEST && Up.StageInv(t.up)
  {
  }

  lemma SameCall(cfg: Config, t: Turn, id: uint32, c: Call, a: Answers)
    requires c.Flash?
    ensures FlashCall(cfg, Noted(t, id), c, a) == FlashCall(cfg, t, c, a)
  {
    hide Up.Begin, Up.Finish, Up.Commit, Up.Abort;
  }

  /** Requests that never reach the upload service. */
  lemma FlashRefused(cfg: Config, h: Home, t: Turn, f: Frame, io: Io, c: Call)
    requires Asking(cfg, h, t, f, c)
    ensures var r := Dispatch(cfg, t, f, io);
      && (!c.valid ==> Refused(t, f, r, "invalid_argument"))
      && (c.valid && !t.s.negotiated ==> Refused(t, f, r, "invalid_state"))
      && (c.valid && t.s.negotiated && (c.target != 2 || (c.verb.FlashBegin? && !c.sameBoard)) ==> Refused(t, f, r, "wrong_target"))
      && (c.valid && t.s.negotiated && c.target == 2 && (c.verb.FlashCommit? || (c.verb.FlashBegin? && c.sameBoard)) ==>
            t.ch.owner != 0 ==> Refused(t, f, r, "busy"))
  {
    hide Asking, FlashCall, UploadReply, ErrorText, Wire, Refuse;
    FlashDispatch(cfg, h, t, f, io, c);
    AskingFlash(cfg, h, t, f, c);
    var n := Noted(t, f.request);
    RefuseSends(cfg, n, f.request, "invalid_argument");
    RefuseSends(cfg, n, f.request, "invalid_state");
    RefuseSends(cfg, n, f.request, "wrong_target");
    RefuseSends(cfg, n, f.request, "busy");
  }

  /** A request that reaches the upload service. */
  predicate Reaches(cfg: Config, h: Home, t: Turn, f: Frame, c: Call) {
    && Asking(cfg, h, t, f, c) && c.valid && t.s.negotiated && c.target == 2 && (c.verb.FlashBegin? ==> c.sameBoard)
    && (c.verb.FlashBegin? || c.verb.FlashCommit? ==> t.ch.owner == 0)
  }

  lemma AnsweredUp(t: Turn, f: Frame, r: Turn, reply: seq<byte>, up: Up.Upload)
    requires Answered(t, f, r, reply, up)
    ensures r.up == up
  {
  }

  lemma Reached(cfg: Config, h: Home, t: Turn, f: Frame, io: Io, c: Call)
    requires Reaches(cfg, h, t, f, c)
    ensures c.Flash? && Up.StageInv(t.up)
    ensures var r, call := Dispatch(cfg, t, f, io), FlashCall(cfg, t, c, io.answers);
      && r.up == call.0
      && if call.1 != Up.NoError then Answered(t, f, r, ErrorText(UploadText.ErrorName(call.1)), call.0) else Reported(t, f, r, call.0)
  {
    hide Asking, Dispatch, FlashCall, Answered;
    AskingFlash(cfg, h, t, f, c);
    CallSends(cfg, h, t, f, io, c);
    var r, call := Dispatch(cfg, t, f, io), FlashCall(cfg, t, c, io.answers);
    AnsweredUp(t, f, r, if call.1 != Up.NoError then ErrorText(UploadText.ErrorName(call.1))
                        else ResultText(UploadText.RecordTail(call.0.last)), call.0);
  }

  /** A new transaction: the next ID, nothing received, this session its owner, its time the service's. */
  predicate Begins(t: Turn, v: Up.Upload, c: Call)
    requires c.Flash?
  {
    && v.last == Up.Status(t.up.nextId, c.size, 0, c.digest, Up.Accepted, Up.NoError, false) && v.owner == t.s.owner
    && v.stagedAt == t.up.now == v.now && v.stage == Fill(4096, 0)
    && v.nextId == (t.up.nextId + 1) % 0x1_0000_0000 && v.generation == 0 && v.commitPending == t.up.commitPending
  }

  lemma BeginRequest(cfg: Config, h: Home, t: Turn, f: Frame, io: Io, c: Call)
    requires Reaches(cfg, h, t, f, c) && c.Flash? && c.verb.FlashBegin?
    ensures var r, u, a, max := Dispatch(cfg, t, f, io), t.up, io.answers, cfg.contract.maximum;
      if !a.armed then Refused(t, f, r, "unauthorized")
      else if (u.last.id != 0 && (u.last.state.Accepted? || u.last.state.Verified? || u.last.state.Committing?)) || a.replacing then
        Refused(t, f, r, "busy")
      else if c.size > 4096 || c.size > max then Refused(t, f, r, "insufficient_storage")
      else if t.s.owner == 0 || c.size < 260 || max != 4096 then Refused(t, f, r, "invalid_argument")
      else if u.nextId == 0 then Refused(t, f, r, "io_error")
      else Reported(t, f, r, r.up) && Begins(t, r.up, c)
  {
    hide Reaches, Dispatch, Answered, ErrorText, UploadText.RecordTail, ResultText;
    Reached(cfg, h, t, f, io, c);
  }

  /** The first thing wrong with a call on an existing transaction. */
  function Misdirected(t: Turn, id: uint32): string {
    if id == 0 || id != t.up.last.id then "wrong_target"
    else if t.s.owner == 0 || t.s.owner != t.up.owner then "wrong_owner" else ""
  }

  lemma StatusRequest(cfg: Config, h: Home, t: Turn, f: Frame, io: Io, c: Call)
    requires Reaches(cfg, h, t, f, c) && c.Flash? && c.verb.FlashStatus?
    ensures var r := Dispatch(cfg, t, f, io);
      if c.id == 0 || c.id != t.up.last.id then Refused(t, f, r, "wrong_target") else Reported(t, f, r, t.up)
  {
    hide Reaches, Dispatch, Answered, ErrorText, UploadText.RecordTail, ResultText;
    Reached(cfg, h, t, f, io, c);
  }

  /** The record after a transaction failed with this error: nothing staged. */
  predicate Fails(u: Up.Upload, v: Up.Upload, e: Up.Error) {
    && v.last == u.last.(state := Up.Stage.Failed, error := e) && v.stage == Fill(4096, 0)
    && v == u.(stage := v.stage, last := v.last, commitPending := false, generation := 0)
  }

  lemma FinishRequest(cfg: Config, h: Home, t: Turn, f: Frame, io: Io, c: Call)
    requires Reaches(cfg, h, t, f, c) && c.Flash? && c.verb.FlashFinish?
    ensures var r, u := Dispatch(cfg, t, f, io), t.up;
      if Misdirected(t, c.id) != "" then Refused(t, f, r, Misdirected(t, c.id))
      else if !u.last.state.Accepted? then Refused(t, f, r, "invalid_state")
      else if u.last.received != u.last.size then Refused(t, f, r, "incomplete")
      else
        var image := u.stage[..u.last.received];
        if cfg.sha(image) != u.last.digest then
          Answered(t, f, r, ErrorText("digest_mismatch"), r.up) && Fails(u, r.up, Up.DigestMismatch)
        else if Image.Validate(cfg.sha, image, cfg.contract).error != Image.Ok then
          Answered(t, f, r, ErrorText("invalid_image"), r.up) && Fails(u, r.up, Up.InvalidImage)
        else Reported(t, f, r, u.(last := u.last.(state := Up.Verified)))
  {
    hide Reaches, Dispatch, Answered, ErrorText, Image.Validate, UploadText.RecordTail, ResultText;
    Reached(cfg, h, t, f, io, c);
  }

  lemma CommitRequest(cfg: Config, h: Home, t: Turn, f: Frame, io: Io, c: Call)
    requires Reaches(cfg, h, t, f, c) && c.Flash? && c.verb.FlashCommit?
    ensures var r, u := Dispatch(cfg, t, f, io), t.up;
      if Misdirected(t, c.id) != "" then Refused(t, f, r, Misdirected(t, c.id))
      else if !u.last.state.Verified? then Refused(t, f, r, "invalid_state")
      else if !io.answers.armed then Refused(t, f, r, "unauthorized")
      else Reported(t, f, r, u.(last := u.last.(state := Up.Committing), commitPending := true))
  {
    hide Reaches, Dispatch, Answered, ErrorText, UploadText.RecordTail, ResultText;
    Reached(cfg, h, t, f, io, c);
  }

  lemma AbortRequest(cfg: Config, h: Home, t: Turn, f: Frame, io: Io, c: Call)
    requires Reaches(cfg, h, t, f, c) && c.Flash? && c.verb.FlashAbort?
    ensures var r, u := Dispatch(cfg, t, f, io), t.up;
      if Misdirected(t, c.id) != "" then Refused(t, f, r, Misdirected(t, c.id))
      else if !u.last.state.Accepted? && !u.last.state.Verified? then Refused(t, f, r, "invalid_state")
      else Reported(t, f, r, u.(last := u.last.(state := Up.Aborted), stage := Fill(4096, 0)))
  {
    hide Reaches, Dispatch, Answered, ErrorText, UploadText.RecordTail, ResultText;
    Reached(cfg, h, t, f, io, c);
  }
}
