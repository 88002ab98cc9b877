/** What every other request does and is answered: hello, diagnostics and the serial commands. */
module SessionCommands {
  import opened Bytes
  import opened Protocol
  import opened Session
  import opened SessionInv
  import opened UploadWire
  import JsonTokens
  import Up = Upload

  /** The session goes on with this reply queued and the request taken from the decoder. */
  predicate Replies(t: Turn, f: Frame, r: Turn, reply: seq<byte>) {
    && r.s.result.Running? && ValidFrame(Frame(RESPONSE, f.request, reply)) && r.s.output == Wire(Frame(RESPONSE, f.request, reply))
    && r.log.frames == t.log.frames + [Frame(RESPONSE, f.request, reply)] && r.log.exchanges == t.log.exchanges + [Exchange(f, reply)]
    && r.s.decoder.bytes == [] && r.s.decoder.status.Incomplete? && r.up == t.up && r.s.closing == t.s.closing
  }

  /** The channel, the backend, ownership and the negotiation as they were. */
  predicate Alone(t: Turn, r: Turn) {
    && r.ch == t.ch && r.events == t.events && r.s.owned == t.s.owned && r.s.negotiated == t.s.negotiated
    && r.s.decoder.limit == t.s.decoder.limit
  }

  predicate Refuses(t: Turn, f: Frame, r: Turn, code: string) {
    Replies(t, f, r, ErrorText(code)) && Alone(t, r)
  }

  /** A formatted reply: the text, a refusal when it exceeds the peer's limit, or the end of a session whose
      formatter failed. */
  predicate Formats(t: Turn, f: Frame, r: Turn, text: Text, limit: nat) {
    if text.NoText? || 21 + |text.tail| > 1024 then r.s.result.IoError?
    else if 21 + |text.tail| > limit then Replies(t, f, r, ErrorText("response_too_large"))
    else Replies(t, f, r, ResultText(text.tail))
  }

  /** A readable request that is no flash method. */
  predicate Commands(cfg: Config, h: Home, t: Turn, f: Frame, c: Call) {
    && Due(cfg, h, t, f) && f.kind == REQUEST && !c.Flash?
    && JsonTokens.DocumentTokens(f.payload) != [] && c == cfg.read(f.payload, JsonTokens.DocumentTokens(f.payload))
  }

  lemma CommandDispatch(cfg: Config, h: Home, t: Turn, f: Frame, io: Io, c: Call)
    requires Commands(cfg, h, t, f, c)
    ensures var n := Noted(t, f.request);
      Roomy(n, f.request) && !c.Flash? && Dispatch(cfg, t, f, io) == Paired(t, f, DispatchCall(cfg, n, f.request, c, io))
  {
    hide Due, DispatchCall, JsonTokens.DocumentTokens;
    DueOpen(cfg, h, t, f);
  }

  /** One reply queued. */
  function Said(t: Turn, id: uint32, reply: seq<byte>): Turn {
    var f := Frame(RESPONSE, id, reply);
    if ValidFrame(f) then t.(s := t.s.(output := Wire(f)), log := t.log.(frames := t.log.frames + [f])) else t
  }

  lemma RefuseSaid(cfg: Config, t: Turn, id: uint32, code: string)
    requires Roomy(t, id) && |code| <= 30
    ensures Refuse(cfg, t, id, code) == Said(t, id, ErrorText(code)) && ValidFrame(Frame(RESPONSE, id, ErrorText(code)))
  {
    hide Refuse, ErrorText, Wire;
    RefuseSends(cfg, t, id, code);
  }

  /** The history and the record of `t`. */
  predicate Follows(t: Turn, u: Turn) {
    && u.s.result.Running? && u.up == t.up && u.s.closing == t.s.closing
    && u.log.frames == t.log.frames && u.log.exchanges == t.log.exchanges
  }

  /** A reply queued from `u`, as dispatch() leaves it. */
  lemma Delivered(t: Turn, f: Frame, u: Turn, reply: seq<byte>)
    requires Follows(t, u) && ValidFrame(Frame(RESPONSE, f.request, reply))
    ensures var r := Paired(t, f, ResetDecoder(Said(u, f.request, reply)));
      Replies(t, f, r, reply) && Alone(u, r)
    ensures var r := Paired(t, f, TakeTurn(ResetDecoder(Said(u, f.request, reply))));
      Replies(t, f, r, reply) && Alone(u, r)
  {
    hide Wire;
  }

  lemma DeliveredRefusal(cfg: Config, t: Turn, f: Frame, code: string)
    requires Roomy(Noted(t, f.request), f.request) && |code| <= 30
    ensures var u := Noted(t, f.request); Refuse(cfg, u, f.request, code) == Said(u, f.request, ErrorText(code))
    ensures Refuses(t, f, Paired(t, f, ResetDecoder(Said(Noted(t, f.request), f.request, ErrorText(code)))), code)
    ensures Refuses(t, f, Paired(t, f, TakeTurn(ResetDecoder(Said(Noted(t, f.request), f.request, ErrorText(code))))), code)
  {
    hide Refuse, ErrorText, Wire, Said, Paired, Replies;
    RefuseSaid(cfg, Noted(t, f.request), f.request, code);
    Delivered(t, f, Noted(t, f.request), ErrorText(code));
  }

  // ---- Before negotiation, and what cannot be read ----

  lemma EarlyRequest(cfg: Config, h: Home, t: Turn, f: Frame, io: Io, c: Call)
    requires Commands(cfg, h, t, f, c)
    ensures var r := Dispatch(cfg, t, f, io);
      && (c.Malformed? ==> Refuses(t, f, r, "invalid_argument"))
      && (!c.Malformed? && !c.Hello? && !t.s.negotiated ==> Refuses(t, f, r, "invalid_state"))
      && (c.Unknown? && t.s.negotiated ==> Refuses(t, f, r, "unsupported"))
  {
    hide Commands, Refuse, Refuses, Said, Paired, Dispatch, ErrorText;
    CommandDispatch(cfg, h, t, f, io, c);
    DeliveredRefusal(cfg, t, f, "invalid_argument");
    DeliveredRefusal(cfg, t, f, "invalid_state");
    DeliveredRefusal(cfg, t, f, "unsupported");
  }

  // ---- Formatted replies ----

  /** The reply of a formatter that did not fail. */
  function Body(text: Text, limit: nat): seq<byte>
    requires text.Text?
  {
    if 21 + |text.tail| > limit then ErrorText("response_too_large") else ResultText(text.tail)
  }

  lemma AnswerSaid(cfg: Config, t: Turn, id: uint32, text: Text)
    requires Roomy(t, id)
    ensures var r := Answer(cfg, t, id, text);
      if text.NoText? || 21 + |text.tail| > 1024 then r.s.result.IoError?
      else
        var body := Body(text, t.s.decoder.limit);
        ValidFrame(Frame(RESPONSE, id, body)) && r == Said(t, id, body)
  {
    hide Finish, Refuse, ErrorText, ResultText, Wire;
    FinishEnds(cfg, t, IoError);
    RefuseSends(cfg, t, id, "response_too_large");
  }

  /** A formatted reply from `u`, as dispatch() leaves it. */
  lemma DeliveredText(cfg: Config, t: Turn, f: Frame, u: Turn, text: Text)
    requires Follows(t, u) && Roomy(u, f.request)
    ensures var r := Paired(t, f, TakeTurn(ResetDecoder(Answer(cfg, u, f.request, text))));
      Formats(t, f, r, text, u.s.decoder.limit) && (r.s.result.Running? ==> Alone(u, r))
  {
    hide Answer, ErrorText, ResultText, Said, Replies, Alone;
    AnswerSaid(cfg, u, f.request, text);
    if text.Text? && 21 + |text.tail| <= 1024 {
      hide Paired;
      Delivered(t, f, u, Body(text, u.s.decoder.limit));
    }
  }

  lemma DiagnosticsRequest(cfg: Config, h: Home, t: Turn, f: Frame, io: Io, c: Call)
    requires Commands(cfg, h, t, f, c) && c.Diagnostics? && t.s.negotiated
    ensures var r := Dispatch(cfg, t, f, io);
      if io.answers.memory then Formats(t, f, r, io.answers.text, t.s.decoder.limit) && (r.s.result.Running? ==> Alone(t, r))
      else Refuses(t, f, r, "unsupported")
  {
    hide Commands, Refuse, Refuses, Answer, Said, Paired, Formats, Dispatch, ErrorText;
    CommandDispatch(cfg, h, t, f, io, c);
    DeliveredRefusal(cfg, t, f, "unsupported");
    DeliveredText(cfg, t, f, Noted(t, f.request), io.answers.text);
  }

  /** hello: once, with an offer of 512 to 65536 bytes; the payload limit is the smaller of the offer and 4096. */
  lemma HelloRequest(cfg: Config, h: Home, t: Turn, f: Frame, io: Io, c: Call)
    requires Commands(cfg, h, t, f, c) && c.Hello?
    ensures var r := Dispatch(cfg, t, f, io); var limit := if c.offer < 4096 then c.offer else 4096;
      if t.s.negotiated then Refuses(t, f, r, "invalid_state")
      else if c.offer < 512 || c.offer > 65536 then r.s.result.IoError? && r.log.frames == t.log.frames
      else
        && Formats(t, f, r, io.answers.text, limit)
        && (r.s.result.Running? ==> r.s.negotiated && r.s.decoder.limit == limit && r.ch == t.ch && r.s.owned == t.s.owned)
  {
    hide Commands, Refuse, Refuses, Answer, Finish, Said, Formats, Dispatch, ErrorText;
    CommandDispatch(cfg, h, t, f, io, c);
    var n := Noted(t, f.request);
    DeliveredRefusal(cfg, t, f, "invalid_state");
    var (d, ok) := Negotiated(Reset(t.s.decoder), c.offer);
    if ok {
      DeliveredText(cfg, t, f, n.(s := n.s.(decoder := d, negotiated := true)), io.answers.text);
      hide Paired;
    } else {
      FinishEnds(cfg, n.(s := n.s.(decoder := d)), IoError);
      FinishFrames(cfg, n.(s := n.s.(decoder := d)), IoError);
    }
  }

  lemma FinishFrames(cfg: Config, t: Turn, r: Result)
    ensures Finish(cfg, t, r).log.frames == t.log.frames
  {
    hide Up.Disconnect;
  }

  // ---- Serial commands ----

  /** A serial command in a negotiated session. */
  predicate SerialAsked(cfg: Config, h: Home, t: Turn, f: Frame, c: Call) {
    Commands(cfg, h, t, f, c) && c.Serial? && t.s.negotiated
  }

  lemma SerialDispatch(cfg: Config, h: Home, t: Turn, f: Frame, io: Io, c: Call)
    requires SerialAsked(cfg, h, t, f, c)
    ensures var n := Noted(t, f.request);
      && Roomy(n, f.request) && c.Serial?
      && Dispatch(cfg, t, f, io) == Paired(t, f, TakeTurn(ResetDecoder(DispatchSerial(cfg, n, f.request, c, io.answers))))
  {
    hide Commands, DispatchSerial;
    CommandDispatch(cfg, h, t, f, io, c);
  }

  lemma SerialRefused(cfg: Config, h: Home, t: Turn, f: Frame, io: Io, c: Call)
    requires SerialAsked(cfg, h, t, f, c)
    ensures var r := Dispatch(cfg, t, f, io);
      && c.Serial?
      && (c.channel != 1 ==> Refuses(t, f, r, "wrong_target"))
      && (c.channel == 1 && !c.op.Open? && !t.s.owned ==> Refuses(t, f, r, "invalid_state"))
      && (c.channel == 1 && c.op.Control? && t.s.owned ==> Refuses(t, f, r, "unsupported"))
  {
    hide SerialAsked, Refuse, Refuses, Said, Paired, Dispatch, ErrorText, DispatchOpen, DispatchConfigure, Succeed, Answer;
    SerialDispatch(cfg, h, t, f, io, c);
    DeliveredRefusal(cfg, t, f, "wrong_target");
    DeliveredRefusal(cfg, t, f, "invalid_state");
    DeliveredRefusal(cfg, t, f, "unsupported");
  }

  /** The word for a backend's answer. */
  function Word(b: BackendResult): string {
    if b.Unsupported? then "unsupported" else if b.InvalidArgument? then "invalid_argument" else if b.Busy? then "busy" else "io_error"
  }

  const OK_TEXT: seq<byte> := Ascii("{\"ok\":true,\"result\":{}}")

  lemma SucceedSaid(cfg: Config, t: Turn, id: uint32)
    requires Roomy(t, id)
    ensures ValidFrame(Frame(RESPONSE, id, OK_TEXT)) && Succeed(cfg, t, id) == Said(t, id, OK_TEXT)
  {
    hide Queue, Wire;
    QueueSends(cfg, t, id, OK_TEXT);
  }

  /** The first thing in the way of serial.open. */
  function OpenRefusal(cfg: Config, t: Turn, c: Call, a: Answers): string
    requires c.Serial?
  {
    var last := t.up.last;
    if t.s.owned then "invalid_state"
    else if cfg.service && last.id != 0 && (last.state.Accepted? || last.state.Verified? || last.state.Committing?) then "busy"
    else if cfg.uart && c.configured && !c.complete then "invalid_argument"
    else if t.ch.owner != 0 then "busy"
    else if c.configured && !a.configured.Ok? then Word(a.configured)
    else if !a.prepared.Ok? then Word(a.prepared)
    else if t.s.owner == 0 then "io_error" else ""
  }

  lemma OpenSaid(cfg: Config, t: Turn, id: uint32, c: Call, a: Answers)
    requires Roomy(t, id) && c.Serial?
    ensures var code := OpenRefusal(cfg, t, c, a);
      && |code| <= 30
      && (code != "" ==> DispatchOpen(cfg, t, id, c, a) == Refuse(cfg, t, id, code))
      && (code == "" ==>
            DispatchOpen(cfg, t, id, c, a) ==
              Succeed(cfg, t.(ch := Channel(t.s.owner, [], [], 0, 0), events := t.events + [Opened(t.s.owner)], s := t.s.(owned := true),
                              log := t.log.(delivered := [], produced := [], inMark := |t.log.decoded|, outMark := |t.log.frames|)), id))
  {
    hide Refuse, Succeed;
  }

  /** serial.open: refused for the first thing in the way; otherwise this session owns an empty channel. */
  lemma OpenRequest(cfg: Config, h: Home, t: Turn, f: Frame, io: Io, c: Call)
    requires SerialAsked(cfg, h, t, f, c) && c.Serial? && c.channel == 1 && c.op.Open?
    ensures var r := Dispatch(cfg, t, f, io); var code := OpenRefusal(cfg, t, c, io.answers);
      if code != "" then Refuses(t, f, r, code)
      else
        && Replies(t, f, r, OK_TEXT) && r.s.owned && r.ch == Channel(t.s.owner, [], [], 0, 0)
        && r.events == t.events + [Opened(t.s.owner)]
  {
    hide SerialAsked, Refuse, Refuses, Replies, Succeed, Said, Paired, Dispatch, DispatchOpen, ErrorText, OpenRefusal;
    SerialDispatch(cfg, h, t, f, io, c);
    var n := Noted(t, f.request);
    OpenSaid(cfg, n, f.request, c, io.answers);
    SameRefusal(cfg, t, f.request, c, io.answers);
    if OpenRefusal(cfg, t, c, io.answers) != "" {
      DeliveredRefusal(cfg, t, f, OpenRefusal(cfg, t, c, io.answers));
    } else {
      var u := n.(ch := Channel(t.s.owner, [], [], 0, 0), events := t.events + [Opened(t.s.owner)], s := n.s.(owned := true),
                  log := n.log.(delivered := [], produced := [], inMark := |n.log.decoded|, outMark := |n.log.frames|));
      SucceedSaid(cfg, u, f.request);
      Delivered(t, f, u, OK_TEXT);
    }
  }

  lemma SameRefusal(cfg: Config, t: Turn, id: uint32, c: Call, a: Answers)
    requires c.Serial?
    ensures OpenRefusal(cfg, Noted(t, id), c, a) == OpenRefusal(cfg, t, c, a)
  {
  }

  /** serial.close by the owner: the stream is cleared, the backend shut, the channel free. */
  lemma CloseRequest(cfg: Config, h: Home, t: Turn, f: Frame, io: Io, c: Call)
    requires SerialAsked(cfg, h, t, f, c) && c.Serial? && c.channel == 1 && c.op.Close? && t.s.owned
    ensures var r := Dispatch(cfg, t, f, io);
      && Replies(t, f, r, OK_TEXT) && !r.s.owned && r.events == t.events + [Shut]
      && r.ch == t.ch.(owner := 0, toBackend := [], toPeer := [])
  {
    hide SerialAsked, Succeed, Replies, Said, Paired, Dispatch;
    OwnsChannel(cfg, h, t, f, c);
    SerialDispatch(cfg, h, t, f, io, c);
    var u := Released(Noted(t, f.request));
    var v := u.(s := u.s.(owned := false));
    SucceedSaid(cfg, v, f.request);
    Delivered(t, f, v, OK_TEXT);
  }

  lemma OwnsChannel(cfg: Config, h: Home, t: Turn, f: Frame, c: Call)
    requires SerialAsked(cfg, h, t, f, c) && t.s.owned
    ensures t.ch.owner == t.s.owner != 0
  {
    hide WireInv, DecodeInv, FlowInv, EventInv, DetachInv, OffsetInv, ReplyIds, AskedIds, HomeInv, Paid, Asked, CurrentFrame, JsonTokens.DocumentTokens;
  }

  /** serial.configure by the owner: only an idle stream is reconfigured. */
  lemma ConfigureRequest(cfg: Config, h: Home, t: Turn, f: Frame, io: Io, c: Call)
    requires SerialAsked(cfg, h, t, f, c) && c.Serial? && c.channel == 1 && c.op.Configure? && t.s.owned
    ensures var r, a := Dispatch(cfg, t, f, io), io.answers;
      if cfg.uart && !c.complete then Refuses(t, f, r, "invalid_argument")
      else if t.ch.toBackend != [] || t.ch.toPeer != [] then Refuses(t, f, r, "busy")
      else if !a.configured.Ok? then Refuses(t, f, r, Word(a.configured))
      else Formats(t, f, r, a.text, t.s.decoder.limit) && (r.s.result.Running? ==> Alone(t, r))
  {
    hide SerialAsked, Refuse, Refuses, Answer, Said, Paired, Formats, Dispatch, ErrorText;
    OwnsChannel(cfg, h, t, f, c);
    SerialDispatch(cfg, h, t, f, io, c);
    DeliveredText(cfg, t, f, Noted(t, f.request), io.answers.text);
    DeliveredRefusal(cfg, t, f, "invalid_argument");
    DeliveredRefusal(cfg, t, f, "busy");
    DeliveredRefusal(cfg, t, f, Word(io.answers.configured));
  }

  lemma StatusRequest(cfg: Config, h: Home, t: Turn, f: Frame, io: Io, c: Call)
    requires SerialAsked(cfg, h, t, f, c) && c.Serial? && c.channel == 1 && c.op.Status? && t.s.owned
    ensures var r := Dispatch(cfg, t, f, io);
      Formats(t, f, r, io.answers.text, t.s.decoder.limit) && (r.s.result.Running? ==> Alone(t, r))
  {
    hide SerialAsked, Answer, Paired, Formats, Dispatch;
    SerialDispatch(cfg, h, t, f, io, c);
    DeliveredText(cfg, t, f, Noted(t, f.request), io.answers.text);
  }

  // ---- Frames that are no requests ----

  /** A response or an event from the peer, and a serial frame the session may not have, end the session. */
  lemma UninvitedFrames(cfg: Config, t: Turn, f: Frame, io: Io)
    requires t.s.result.Running?
    ensures f.kind == RESPONSE || f.kind == EVENT ==> Dispatch(cfg, t, f, io).s.result.ProtocolError?
    ensures var ok := t.s.negotiated && t.s.owned && |f.payload| > 4 && f.payload[..4] == [0, 0, 0, 1];
      if ok then CheckSerial(cfg, t, f) == t else CheckSerial(cfg, t, f).s.result.ProtocolError?
  {
    hide Finish, GetBe32;
    FinishEnds(cfg, t, ProtocolError);
    if |f.payload| > 4 {
      One(f.payload);
    }
  }

  lemma One(p: seq<byte>)
    requires |p| > 4
    ensures GetBe32(p, 0) == 1 <==> p[..4] == [0, 0, 0, 1]
  {
    assert p[..4] == [p[0], p[1], p[2], p[3]];
  }
}
