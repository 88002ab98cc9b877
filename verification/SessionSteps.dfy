/** What answering and ending leave alone, call by call. */
module SessionSteps {
  import opened Bytes
  import opened Protocol
  import opened Session
  import UploadText
  import Up = Upload

  /** The session's owner and clock, whether it is closing, and its history of frames, exchanges and times;
      it may end, but not by a timeout. */
  predicate Quietly(t: Turn, u: Turn) {
    && u.s.owner == t.s.owner && u.s.clock == t.s.clock && u.s.closing == t.s.closing
    && u.log.decoded == t.log.decoded && u.log.dispatched == t.log.dispatched && u.log.exchanges == t.log.exchanges
    && u.log.times == t.log.times && (u.s.result.Timeout? ==> t.s.result.Timeout?)
  }

  /** In addition, the upload record is left alone, or the session ended and let go of it. */
  predicate Leaves(cfg: Config, t: Turn, u: Turn) {
    && Quietly(t, u)
    && (|| (u.up == t.up && u.s.result == t.s.result && u.s.uploadReleased == t.s.uploadReleased)
        || (!u.s.result.Running? && u.s.uploadReleased && u.up == LetGo(cfg, t)))
  }

  /** The upload record once this session is gone. */
  function LetGo(cfg: Config, t: Turn): Up.Upload {
    if cfg.service && !t.s.uploadReleased then Up.Disconnect(t.up, t.s.owner) else t.up
  }

  lemma FinishLeaves(cfg: Config, t: Turn, r: Result)
    requires !r.Timeout? && !r.Running?
    ensures Leaves(cfg, t, Finish(cfg, t, r))
  {
    hide Up.Disconnect;
  }

  lemma QueueLeaves(cfg: Config, t: Turn, f: Frame)
    ensures Leaves(cfg, t, Queue(cfg, t, f))
  {
    hide Finish, Encode, Up.Disconnect;
    FinishLeaves(cfg, t, IoError);
  }

  lemma RefuseLeaves(cfg: Config, t: Turn, id: uint32, code: string)
    ensures Leaves(cfg, t, Refuse(cfg, t, id, code))
  {
    hide Finish, Queue, Leaves, ErrorText;
    FinishLeaves(cfg, t, IoError);
    QueueLeaves(cfg, t, Frame(RESPONSE, id, ErrorText(code)));
  }

  lemma AnswerLeaves(cfg: Config, t: Turn, id: uint32, text: Text)
    ensures Leaves(cfg, t, Answer(cfg, t, id, text))
  {
    hide Finish, Queue, Refuse, Leaves, ResultText;
    FinishLeaves(cfg, t, IoError);
    RefuseLeaves(cfg, t, id, "response_too_large");
    if text.Text? {
      QueueLeaves(cfg, t, Frame(RESPONSE, id, ResultText(text.tail)));
    }
  }

  lemma SucceedLeaves(cfg: Config, t: Turn, id: uint32)
    ensures Leaves(cfg, t, Succeed(cfg, t, id))
  {
    hide Queue, Leaves;
    QueueLeaves(cfg, t, Frame(RESPONSE, id, Ascii("{\"ok\":true,\"result\":{}}")));
  }

  lemma SerialLeaves(cfg: Config, t: Turn, id: uint32, c: Call, a: Answers)
    requires c.Serial?
    ensures Leaves(cfg, t, DispatchSerial(cfg, t, id, c, a))
  {
    hide Refuse, Answer, Succeed, DispatchOpen, DispatchConfigure, Released, Up.Disconnect;
    forall code { RefuseLeaves(cfg, t, id, code); }
    AnswerLeaves(cfg, t, id, a.text);
    OpenLeaves(cfg, t, id, c, a);
    ConfigureLeaves(cfg, t, id, c, a);
    var u := Released(t);
    ReleasedLeaves(t);
    SucceedLeaves(cfg, u.(s := u.s.(owned := false)), id);
  }

  lemma ReleasedLeaves(t: Turn)
    ensures Released(t).s == t.s && Released(t).log == t.log && Released(t).up == t.up
  {
  }

  lemma OpenLeaves(cfg: Config, t: Turn, id: uint32, c: Call, a: Answers)
    requires c.Serial?
    ensures Leaves(cfg, t, DispatchOpen(cfg, t, id, c, a))
  {
    hide Refuse, Succeed, Up.BlocksConsole, Up.Disconnect;
    forall code { RefuseLeaves(cfg, t, id, code); }
    var (u, r) := Acquire(t, c.configured, a);
    SucceedLeaves(cfg, u, id);
    RefuseLeaves(cfg, u, id, BackendError(r));
  }

  lemma ConfigureLeaves(cfg: Config, t: Turn, id: uint32, c: Call, a: Answers)
    requires c.Serial?
    ensures Leaves(cfg, t, DispatchConfigure(cfg, t, id, c, a))
  {
    hide Refuse, Answer, Leaves;
    forall code { RefuseLeaves(cfg, t, id, code); }
    AnswerLeaves(cfg, t, id, a.text);
  }

  lemma HelloLeaves(cfg: Config, t: Turn, id: uint32, offer: uint32, a: Answers)
    ensures Leaves(cfg, t, DispatchHello(cfg, t, id, offer, a))
  {
    hide Refuse, Answer, Finish, Negotiated, Up.Disconnect;
    RefuseLeaves(cfg, t, id, "invalid_state");
    var d := Negotiated(Reset(t.s.decoder), offer).0;
    FinishLeaves(cfg, t.(s := t.s.(decoder := d)), IoError);
    AnswerLeaves(cfg, t.(s := t.s.(decoder := d, negotiated := true)), id, a.text);
  }

  lemma CommandLeaves(cfg: Config, t: Turn, id: uint32, c: Call, a: Answers)
    ensures Leaves(cfg, t, DispatchCommand(cfg, t, id, c, a))
  {
    hide Refuse, Answer, DispatchHello, DispatchSerial, Leaves;
    RefuseLeaves(cfg, t, id, "unsupported");
    AnswerLeaves(cfg, t, id, a.text);
    match c
    case Hello(offer) => HelloLeaves(cfg, t, id, offer, a);
    case Serial(_, _, _, _) => SerialLeaves(cfg, t, id, c, a);
    case _ =>
  }

  lemma UploadQuietly(cfg: Config, t: Turn, id: uint32, r: (Up.Upload, Up.Error))
    ensures Quietly(t, UploadReply(cfg, t, id, r))
  {
    hide Refuse, Answer, Up.Disconnect, UploadText.ErrorName, UploadText.RecordTail;
    var u := t.(up := r.0);
    RefuseLeaves(cfg, u, id, UploadText.ErrorName(r.1));
    AnswerLeaves(cfg, u, id, Text(UploadText.RecordTail(r.0.last)));
  }

  lemma FlashQuietly(cfg: Config, t: Turn, id: uint32, c: Call, a: Answers)
    requires c.Flash?
    ensures Quietly(t, DispatchFlash(cfg, t, id, c, a))
  {
    hide Refuse, UploadReply, Quietly, FlashCall, Up.Disconnect;
    forall code { RefuseLeaves(cfg, t, id, code); }
    UploadQuietly(cfg, t, id, FlashCall(cfg, t, c, a));
  }

  lemma UploadFrameQuietly(cfg: Config, t: Turn, id: uint32, payload: seq<byte>)
    ensures Quietly(t, DispatchUploadFrame(cfg, t, id, payload))
  {
    hide UploadReply, Quietly, Up.Chunk, GetBe32;
    forall r { UploadQuietly(cfg, t, id, r); }
  }

  /** A readable request leaves the session open, its frame taken from the decoder, and only a flash method
      touches the upload record. */
  lemma CallQuietly(cfg: Config, t: Turn, id: uint32, c: Call, io: Io)
    ensures var u := DispatchCall(cfg, t, id, c, io);
      && Quietly(t, u) && u.s.decoder.status.Incomplete? && u.s.decoder.bytes == []
      && (!cfg.service || !c.Flash? ==> Leaves(cfg, t, u))
  {
    hide Refuse, DispatchFlash, DispatchCommand, Up.Disconnect;
    forall code { RefuseLeaves(cfg, t, id, code); }
    CommandLeaves(cfg, t, id, c, io.answers);
    if c.Flash? {
      FlashQuietly(cfg, t, id, c, io.answers);
    }
  }

  /** An unreadable one is answered, and the session starts closing. */
  lemma NotJsonCloses(cfg: Config, t: Turn, id: uint32, now: uint32)
    ensures var u := DispatchNotJson(cfg, t, id, now);
      && u.s.closing && u.s.decoder.status.Incomplete? && u.s.decoder.bytes == []
      && u.s.clock == t.s.clock.(closingAt := now) && u.log.times == t.log.times.(closed := now)
      && (u.s.result.Timeout? ==> t.s.result.Timeout?) && u.s.owner == t.s.owner && u.log.decoded == t.log.decoded
      && u.log.dispatched == t.log.dispatched && u.log.exchanges == t.log.exchanges
      && (u.up == t.up || u.up == Up.Disconnect(t.up, t.s.owner) || u.up == Up.Disconnect(Up.Disconnect(t.up, t.s.owner), t.s.owner))
  {
    hide Refuse, Up.Disconnect;
    RefuseLeaves(cfg, t, id, "invalid_argument");
  }
}
