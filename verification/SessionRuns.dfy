/** Any number of sessions sharing one channel and one upload service, over whole runs. */
module SessionRuns {
  import opened Bytes
  import opened Protocol
  import opened Session
  import opened SessionInv
  import Up = Upload

  datatype Entry = Entry(s: Session, log: Log)

  /** `exchanges` is what all sessions were asked and answered, in order. */
  datatype World = World(entries: map<uint32, Entry>, ch: Channel, up: Up.Upload, events: seq<Event>, exchanges: seq<Exchange>)

  /** What Upload::poll() finds: the clock, the arm input, and the replacement's and runtime's answers. */
  datatype Service = Service(now: uint32, armed: bool, replacing: bool, published: uint32, returned: uint32,
                             accepted: bool, report: Up.Report)

  datatype Action =
    | Create(token: uint32, sound: bool, now: uint32)
    | PollCall(token: uint32, io: Io)
    | CloseCall(token: uint32)
    | Destroy(token: uint32)
    | UploadPoll(service: Service)

  function TurnOf(w: World, token: uint32): Turn
    requires token in w.entries
  {
    Turn(w.entries[token].s, w.ch, w.up, w.entries[token].log, w.events)
  }

  function Put(w: World, token: uint32, t: Turn): World {
    World(w.entries[token := Entry(t.s, t.log)], t.ch, t.up, t.events,
          w.exchanges + t.log.exchanges[Min(Known(w, token), |t.log.exchanges|)..])
  }

  function Known(w: World, token: uint32): nat {
    if token in w.entries then |w.entries[token].log.exchanges| else 0
  }

  function Removed(w: World, token: uint32): World {
    w.(entries := map k | k in w.entries && k != token :: w.entries[k])
  }

  function ServicePolled(u: Up.Upload, e: Service): Up.Upload {
    match Up.PollOpening(u, e.now, e.armed, e.replacing, e.published, e.returned)
    case Done(v) => v
    case Request(v) => if e.accepted then Up.PollClosing(Up.Cleared(v), e.report) else Up.Fail(v, Up.IoError)
    case Poll(v) => Up.PollClosing(v, e.report)
  }

  predicate Enabled(cfg: Config, w: World, a: Action) {
    match a
    case Create(token, _, _) => token !in w.entries
    case PollCall(_, _) | CloseCall(_) | Destroy(_) => a.token in w.entries
    case UploadPoll(_) => cfg.service
  }

  function Next(cfg: Config, w: World, a: Action): World {
    match a
    case Create(token, sound, now) => w.(entries := w.entries[token := Entry(NewSession(token, sound, now), NewLog(now))])
    case PollCall(token, io) => if token in w.entries then Put(w, token, Poll(cfg, TurnOf(w, token), io)) else w
    case CloseCall(token) => if token in w.entries then Put(w, token, CloseSession(cfg, TurnOf(w, token))) else w
    case Destroy(token) =>
      if token in w.entries then Removed(Put(w, token, CloseSession(cfg, TurnOf(w, token))), token) else w
    case UploadPoll(e) => w.(up := ServicePolled(w.up, e))
  }

  const START := World(map[], Channel(0, [], [], 0, 0), Up.Fresh(), [], [])

  function Exec(cfg: Config, actions: seq<Action>): World {
    if actions == [] then START else Next(cfg, Exec(cfg, actions[..|actions| - 1]), actions[|actions| - 1])
  }

  predicate Legal(cfg: Config, actions: seq<Action>) {
    actions == [] ||
    (var n := |actions| - 1; Legal(cfg, actions[..n]) && Enabled(cfg, Exec(cfg, actions[..n]), actions[n]))
  }

  // ---- The invariant ----

  predicate EntryInv(cfg: Config, w: World, token: uint32)
    requires token in w.entries
  {
    w.entries[token].s.owner == token && Kept(cfg, Home(token, w.ch), TurnOf(w, token))
  }

  predicate WorldInv(cfg: Config, w: World) {
    && (forall token :: token in w.entries ==> EntryInv(cfg, w, token))
    && (w.ch.owner != 0 ==> w.ch.owner in w.entries)
    && (Up.BlocksConsole(w.up) ==> w.ch.owner == 0 && cfg.service)
    && EventInv(w.ch.owner, w.events)
  }

  /** Another session's turn keeps this session's invariant. */
  lemma OtherKeeps(cfg: Config, h: Home, t: Turn, token: uint32, s: Session, log: Log, was: Turn)
    requires was == Turn(s, h.ch, was.up, log, was.events) && s.owner == token && token != h.owner
    requires Kept(cfg, Home(token, h.ch), was) && Kept(cfg, h, t)
    ensures Kept(cfg, Home(token, t.ch), Turn(s, t.ch, t.up, log, t.events))
  {
    hide WireInv, DecodeInv, OffsetInv, EventInv, DetachInv, ReplyIds, Up.BlocksConsole, SerialData, Unread;
  }

  /** A session's own turn, seen from the channel it leaves. */
  lemma Rehomed(cfg: Config, h: Home, t: Turn)
    requires Kept(cfg, h, t)
    ensures Kept(cfg, Home(h.owner, t.ch), t) && t.s.owner == h.owner
    ensures EventInv(t.ch.owner, t.events) && (Up.BlocksConsole(t.up) ==> t.ch.owner == 0 && cfg.service)
    ensures t.ch.owner != 0 && t.ch.owner != h.owner ==> t.ch == h.ch
  {
    hide WireInv, DecodeInv, OffsetInv, EventInv, DetachInv, ReplyIds, Up.BlocksConsole, FlowInv;
  }

  lemma PutKeeps(cfg: Config, w: World, token: uint32, t: Turn)
    requires WorldInv(cfg, w) && token in w.entries && Kept(cfg, Home(token, w.ch), t)
    ensures WorldInv(cfg, Put(w, token, t))
  {
    hide Kept, EventInv, Up.BlocksConsole;
    var h := Home(token, w.ch);
    var w' := Put(w, token, t);
    Rehomed(cfg, h, t);
    forall k | k in w'.entries ensures EntryInv(cfg, w', k) {
      if k != token {
        assert EntryInv(cfg, w, k);
        OtherKeeps(cfg, h, t, k, w.entries[k].s, w.entries[k].log, TurnOf(w, k));
      }
    }
  }

  lemma CloseKeeps(cfg: Config, h: Home, t: Turn)
    requires Kept(cfg, h, t)
    ensures Kept(cfg, h, CloseSession(cfg, t)) && !CloseSession(cfg, t).s.owned
  {
    hide TurnInv, Finish, Paid;
    var r := if t.s.result.Running? then Closed else t.s.result;
    FinishReplied(cfg, h, t, r);
    FinishKeeps(cfg, h, t, r);
  }

  lemma RemoveKeeps(cfg: Config, w: World, token: uint32)
    requires WorldInv(cfg, w) && token in w.entries && !w.entries[token].s.owned
    ensures WorldInv(cfg, Removed(w, token))
  {
    hide WireInv, DecodeInv, OffsetInv, EventInv, DetachInv, ReplyIds, Up.BlocksConsole, FlowInv;
    assert EntryInv(cfg, w, token);
    hide TurnInv;
    var w' := Removed(w, token);
    forall k | k in w'.entries ensures EntryInv(cfg, w', k) {
      assert EntryInv(cfg, w, k);
      assert TurnOf(w, k) == TurnOf(w', k);
    }
  }

  lemma NewKeeps(cfg: Config, w: World, token: uint32, sound: bool, now: uint32)
    requires WorldInv(cfg, w) && token !in w.entries
    ensures WorldInv(cfg, Next(cfg, w, Create(token, sound, now)))
  {
    hide Kept, EventInv, Up.BlocksConsole;
    var w' := Next(cfg, w, Create(token, sound, now));
    NewKept(cfg, w, token, sound, now);
    forall k | k in w'.entries ensures EntryInv(cfg, w', k) {
      if k != token {
        assert EntryInv(cfg, w, k);
        assert TurnOf(w, k) == TurnOf(w', k);
      }
    }
  }

  lemma NewKept(cfg: Config, w: World, token: uint32, sound: bool, now: uint32)
    requires EventInv(w.ch.owner, w.events) && (w.ch.owner == 0 || w.ch.owner != token)
    requires Up.BlocksConsole(w.up) ==> w.ch.owner == 0 && cfg.service
    ensures Kept(cfg, Home(token, w.ch), Turn(NewSession(token, sound, now), w.ch, w.up, NewLog(now), w.events))
  {
    hide EventInv, Up.BlocksConsole;
  }

  lemma ServiceBlocks(u: Up.Upload, e: Service)
    ensures Up.BlocksConsole(ServicePolled(u, e)) ==> Up.BlocksConsole(u)
  {
  }

  lemma UploadKeeps(cfg: Config, w: World, up: Up.Upload)
    requires WorldInv(cfg, w) && (Up.BlocksConsole(up) ==> Up.BlocksConsole(w.up))
    ensures WorldInv(cfg, w.(up := up))
  {
    hide WireInv, DecodeInv, OffsetInv, EventInv, DetachInv, ReplyIds, Up.BlocksConsole, FlowInv;
    var w' := w.(up := up);
    forall k | k in w'.entries ensures EntryInv(cfg, w', k) {
      assert EntryInv(cfg, w, k);
    }
  }

  lemma StepKeeps(cfg: Config, w: World, a: Action)
    requires WorldInv(cfg, w) && Enabled(cfg, w, a)
    ensures WorldInv(cfg, Next(cfg, w, a))
  {
    hide WorldInv, Kept, Poll, CloseSession, ServicePolled, NewSession;
    match a
    case Create(token, sound, now) => NewKeeps(cfg, w, token, sound, now);
    case PollCall(token, io) =>
      EntryKept(cfg, w, token);
      PollKeeps(cfg, Home(token, w.ch), TurnOf(w, token), io);
      PutKeeps(cfg, w, token, Poll(cfg, TurnOf(w, token), io));
    case CloseCall(token) =>
      EntryKept(cfg, w, token);
      CloseKeeps(cfg, Home(token, w.ch), TurnOf(w, token));
      PutKeeps(cfg, w, token, CloseSession(cfg, TurnOf(w, token)));
    case Destroy(token) =>
      EntryKept(cfg, w, token);
      CloseKeeps(cfg, Home(token, w.ch), TurnOf(w, token));
      PutKeeps(cfg, w, token, CloseSession(cfg, TurnOf(w, token)));
      RemoveKeeps(cfg, Put(w, token, CloseSession(cfg, TurnOf(w, token))), token);
    case UploadPoll(e) =>
      ServiceBlocks(w.up, e);
      UploadKeeps(cfg, w, ServicePolled(w.up, e));
  }

  lemma EntryKept(cfg: Config, w: World, token: uint32)
    requires WorldInv(cfg, w) && token in w.entries
    ensures Kept(cfg, Home(token, w.ch), TurnOf(w, token))
  {
    hide Kept;
    assert EntryInv(cfg, w, token);
  }

  lemma {:induction false} RunKeeps(cfg: Config, actions: seq<Action>)
    requires Legal(cfg, actions)
    ensures WorldInv(cfg, Exec(cfg, actions))
  {
    hide WorldInv, Enabled, Next;
    if actions != [] {
      var n := |actions| - 1;
      RunKeeps(cfg, actions[..n]);
      StepKeeps(cfg, Exec(cfg, actions[..n]), actions[n]);
    } else {
      StartKept(cfg);
    }
  }

  lemma StartKept(cfg: Config)
    ensures WorldInv(cfg, START)
  {
  }

  // ---- What every run guarantees ----

  /** What the transport took is always a prefix of whole frames. While the session runs, what the
      transport delivered is whole decoded frames and an unfinished one, and every decoded request but
      the one that waits has exactly one response, with its ID, in request order. */
  lemma RepliesInOrder(cfg: Config, actions: seq<Action>, token: uint32)
    requires Legal(cfg, actions) && token in Exec(cfg, actions).entries
    ensures var e := Exec(cfg, actions).entries[token];
      && AllValid(e.log.frames) && e.log.sent <= WireAll(e.log.frames) && AllValid(e.log.decoded)
      && (e.s.result.Running? ==>
            && WireAll(e.log.frames) == e.log.sent + e.s.output
            && WireAll(e.log.decoded) + Partial(e.s.decoder) == e.log.taken
            && AskedIds(e.log.decoded) == ReplyIds(e.log.frames) + Waiting(e.s.decoder))
  {
    hide WireAll, ValidFrame, AskedIds, ReplyIds, Waiting, ValidDecoder, CurrentFrame, FlowInv, OwnInv, EventInv, Legal, Exec, WorldInv;
    RunKeeps(cfg, actions);
    EntryKept(cfg, Exec(cfg, actions), token);
  }

  /** While a session owns the channel no byte is lost, duplicated or reordered in either direction. */
  lemma BytesConserved(cfg: Config, actions: seq<Action>, token: uint32)
    requires Legal(cfg, actions) && token in Exec(cfg, actions).entries && Exec(cfg, actions).entries[token].s.owned
    ensures var w := Exec(cfg, actions); var e := w.entries[token];
      && e.log.inMark <= |e.log.decoded| && e.log.outMark <= |e.log.frames|
      && SerialData(e.log.decoded[e.log.inMark..]) == e.log.delivered + w.ch.toBackend + Unread(e.s.decoder, e.s.dataOffset)
      && e.log.produced == SerialData(e.log.frames[e.log.outMark..]) + w.ch.toPeer
      && |w.ch.toBackend| <= STREAM_CAPACITY && |w.ch.toPeer| <= STREAM_CAPACITY
  {
    hide WireInv, DecodeInv, OwnInv, EventInv, Legal, Exec, WorldInv, SerialData, Unread, OffsetInv;
    RunKeeps(cfg, actions);
    EntryKept(cfg, Exec(cfg, actions), token);
  }

  /** The channel's owner is nonzero exactly when one session is marked as owning it, that session runs,
      and no upload is staged. The backend is opened and shut in turn, and every session that ran and
      ended has disconnected its upload exactly once. */
  lemma Ownership(cfg: Config, actions: seq<Action>)
    requires Legal(cfg, actions)
    ensures var w := Exec(cfg, actions);
      && (w.ch.owner != 0 ==> w.ch.owner in w.entries && w.entries[w.ch.owner].s.owned)
      && (forall k :: k in w.entries && w.entries[k].s.owned ==> w.ch.owner == k != 0 && w.entries[k].s.result.Running?)
      && (Up.BlocksConsole(w.up) ==> w.ch.owner == 0)
      && Alternates(w.events) && OwnerAfter(w.events) == w.ch.owner
      && (forall k :: k in w.entries ==> Ended(cfg, w.entries[k]))
  {
    hide WireInv, DecodeInv, Legal, Exec, FlowInv, OffsetInv, Alternates, OwnerAfter, Up.BlocksConsole, Asked, Paid;
    RunKeeps(cfg, actions);
    var w := Exec(cfg, actions);
    forall k | k in w.entries
      ensures (w.entries[k].s.owned <==> w.ch.owner == k != 0) && (w.entries[k].s.owned ==> w.entries[k].s.result.Running?)
      ensures Ended(cfg, w.entries[k])
    {
      assert EntryInv(cfg, w, k);
    }
  }

  predicate Ended(cfg: Config, e: Entry) {
    && e.log.disconnects <= 1
    && (cfg.service && !e.s.result.Running? ==>
          e.log.disconnects == 1 || (e.s.result.IoError? && e.log.taken == [] && e.log.sent == []))
    && (!e.s.result.Running? ==> !e.s.owned)
  }
}
