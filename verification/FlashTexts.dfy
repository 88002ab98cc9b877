/** Flash requests as text: what a peer prints is what the service is asked. */
module FlashTexts {
  import opened Bytes
  import opened JsonPrint
  import opened FlashRequests
  import Json
  import JsonTokens
  import JsonDocument
  import JsonNumber
  import Protocol
  import UploadText
  import SessionInv
  import UploadWire
  import Up = Upload
  import Image = StatefulImage
  import S = Session

  // ---- A record's members, before they are printed ----

  function Valued(ms: seq<Member>, key: seq<byte>): Option<Value> {
    if ms == [] then None else if ms[0].key == key then Some(ms[0].value) else Valued(ms[1..], key)
  }

  function NumberIn(ms: seq<Member>, key: string): Option<uint32> {
    match Valued(ms, Ascii(key))
    case Some(Count(n)) => if 0 < n < WORD_SPAN then Some(n) else None
    case _ => None
  }

  function WordIn(ms: seq<Member>, key: string, room: nat): Option<seq<byte>> {
    match Valued(ms, Ascii(key))
    case Some(Words(s)) => if |s| <= room then Some(s) else None
    case _ => None
  }

  function KeysIn(ms: seq<Member>): set<seq<byte>> {
    set m | m in ms :: m.key
  }

  function MembersIn(ms: seq<Member>): Members {
    Members(KeysIn(ms), WordIn(ms, "op", 32), NumberIn(ms, "target_id"), NumberIn(ms, "upload_id"), NumberIn(ms, "size"),
            WordIn(ms, "board_id", 32), WordIn(ms, "format", 32), WordIn(ms, "sha256", 64))
  }

  // ---- Looking printed members up ----

  lemma {:induction false} ValuedAt(ms: seq<Member>, i: nat)
    requires i < |ms| && AllSound(ms)
    ensures Valued(ms, ms[i].key) == Some(ms[i].value)
    decreases |ms|
  {
    hide Plain, Sound;
    if i > 0 {
      assert ms[0].key != ms[i].key;
      RestSound(ms);
      ValuedAt(ms[1..], i - 1);
    }
  }

  lemma {:induction false} ValuedNone(ms: seq<Member>, key: seq<byte>)
    requires forall i :: 0 <= i < |ms| ==> ms[i].key != key
    ensures Valued(ms, key) == None
    decreases |ms|
  {
    if ms != [] {
      ValuedNone(ms[1..], key);
    }
  }

  /** Printed members have these keys and no others. */
  lemma {:induction false} PrintedKeys(b: seq<byte>, p: nat, ms: seq<Member>)
    requires AllSound(ms) && Stands(b, p, PrintAll(ms))
    ensures Keys(b, KidsOf(ms, p)) == KeysIn(ms)
    decreases |ms|
  {
    hide Plain, Sound, Json.Skip, Json.IsString, Json.KeyText, Json.IsValue, Tree, PrintOne, PrintAll, KidsOf, Print, Stands;
    if ms == [] {
      NoKids(p);
    } else {
      var one, rest := PrintOne(ms[0]), ms[1..];
      FirstSound(ms);
      RestSound(ms);
      PrintCons(ms);
      KidsCons(ms, p);
      if rest != [] {
        StandsParts(b, p, one + [Json.COMMA], PrintAll(rest));
        StandsParts(b, p, one, [Json.COMMA]);
        PrintedKeys(b, p + |one| + 1, rest);
      } else {
        NoKids(p + |one| + 1);
      }
      MemberIs(b, p, ms[0]);
      assert ms == [ms[0]] + rest;
      assert KeysIn(ms) == {ms[0].key} + KeysIn(rest);
    }
  }

  lemma {:induction false} MemberMissing(b: seq<byte>, kids: Json.Kids, key: seq<byte>)
    requires key !in Keys(b, kids)
    ensures JsonTokens.MemberWith(b, kids, key) == None
    decreases kids
  {
    hide Json.KeyText;
    if kids.Kid? {
      MemberMissing(b, kids.rest, key);
    }
  }

  lemma PrintedMember(b: seq<byte>, p: nat, ms: seq<Member>, key: string)
    requires AllSound(ms) && Stands(b, p, PrintAll(ms))
    ensures NumberUnder(b, KidsOf(ms, p), key) == NumberIn(ms, key)
    ensures forall room: nat :: WordUnder(b, KidsOf(ms, p), key, room) == WordIn(ms, key, room)
  {
    hide Plain, Sound, Stands, PrintAll, KidsOf, Ascii, JsonTokens.MemberWith, Json.KeyText, Decimals, JsonDocument.Decimal, Keys, Valued;
    var name := Ascii(key);
    if i :| 0 <= i < |ms| && ms[i].key == name {
      ValuedAt(ms, i);
      MemberFound(b, p, ms, i);
      var at, v := Place(ms, i, p), ms[i].value;
      StandsThere(b, at, Print(v));
      if v.Count? {
        UploadText.DecimalsRead(v.n);
      } else if v.Words? {
        assert Sound(v);
        WordsPlain(v);
        KeyReads(b, at, v.s);
      }
    } else {
      ValuedNone(ms, name);
      PrintedKeys(b, p, ms);
      MemberMissing(b, KidsOf(ms, p), name);
    }
  }

  lemma WordsPlain(v: Value)
    requires Sound(v) && v.Words?
    ensures Plain(v.s)
  {
  }

  lemma StandsThere(b: seq<byte>, p: nat, part: seq<byte>)
    requires Stands(b, p, part)
    ensures p + |part| <= |b| && b[p..p + |part|] == part
  {
  }

  lemma RecordParts(ms: seq<Member>)
    requires Sound(Record(ms))
    ensures var b := Print(Record(ms)); AllSound(ms) && Stands(b, 1, PrintAll(ms)) && Tree(Record(ms), 0) == Json.Group(true, 0, |b|, KidsOf(ms, 1))
  {
    hide PrintAll, KidsOf, AllSound;
    var b := Print(Record(ms));
    assert b[1..1 + |PrintAll(ms)|] == PrintAll(ms);
  }

  /** Within the parser's limits. */
  predicate Printable(ms: seq<Member>) {
    Sound(Record(ms)) && Shallow(Record(ms), 0) && TokenCount(Record(ms)) <= 96 && |Print(Record(ms))| <= 4096
  }

  /** Any printed record, its members in any order: the parser and the reader give back what its members ask for. */
  lemma AskedAsPrinted(ms: seq<Member>, site: Site)
    requires Printable(ms)
    ensures FlashOf(Print(Record(ms)), site) == Asked(MembersIn(ms), site)
  {
    hide Sound, Shallow, TokenCount, Print, Tree, Json.Parse, NumberUnder, WordUnder, Keys, KidsOf, Asked, NumberIn, WordIn, KeysIn, Stands, PrintAll;
    var b := Print(Record(ms));
    PrintParses(Record(ms));
    RecordParts(ms);
    PrintedKeys(b, 1, ms);
    PrintedMember(b, 1, ms, "op");
    PrintedMember(b, 1, ms, "target_id");
    PrintedMember(b, 1, ms, "upload_id");
    PrintedMember(b, 1, ms, "size");
    PrintedMember(b, 1, ms, "board_id");
    PrintedMember(b, 1, ms, "format");
    PrintedMember(b, 1, ms, "sha256");
  }

  // ---- On the wire ----

  /** The session reads flash requests as dispatch_upload() does. */
  ghost predicate Understands(cfg: S.Config, site: Site) {
    forall b :: FlashOf(b, site).Some? ==> cfg.read(b, JsonTokens.DocumentTokens(b)) == FlashOf(b, site).value
  }

  lemma FlashIsDocument(b: seq<byte>, site: Site)
    requires FlashOf(b, site).Some?
    ensures JsonTokens.DocumentTokens(b) != [] && FlashOf(b, site).value.Flash?
  {
    hide Json.Parse, MembersOf, VerbOf;
  }

  /** A printed record that asks for a flash method reaches the dispatcher as that call. */
  lemma PrintedRequest(cfg: S.Config, h: SessionInv.Home, t: S.Turn, f: Protocol.Frame, ms: seq<Member>, site: Site)
    requires SessionInv.Due(cfg, h, t, f) && f.kind == Protocol.REQUEST && cfg.service && Up.StageInv(t.up)
    requires Understands(cfg, site) && Printable(ms) && f.payload == Print(Record(ms)) && Asked(MembersIn(ms), site).Some?
    ensures UploadWire.Asking(cfg, h, t, f, Asked(MembersIn(ms), site).value)
  {
    hide Printable, SessionInv.Due, FlashOf, Asked, MembersIn, Print, JsonTokens.DocumentTokens;
    AskedAsPrinted(ms, site);
    FlashIsDocument(f.payload, site);
  }

  /** A record with the six members of a begin request for this device, in any order. */
  predicate Begins(ms: seq<Member>, site: Site, size: uint32, digest: Image.Digest) {
    && KeysIn(ms) == Required(S.FlashBegin) && Valued(ms, Ascii("op")) == Some(Words(Ascii("flash.begin")))
    && Valued(ms, Ascii("target_id")) == Some(Count(2)) && Valued(ms, Ascii("size")) == Some(Count(size)) && size != 0
    && Valued(ms, Ascii("board_id")) == Some(Words(site.board)) && Valued(ms, Ascii("format")) == Some(Words(site.format))
    && 1 <= |site.board| <= 32 && 1 <= |site.format| <= 32 && Valued(ms, Ascii("sha256")) == Some(Words(UploadText.Hex(digest)))
  }

  lemma BeginAsks(ms: seq<Member>, site: Site, size: uint32, digest: Image.Digest)
    requires Begins(ms, site, size, digest)
    ensures Asked(MembersIn(ms), site) == Some(S.Flash(S.FlashBegin, true, 2, true, 0, size, digest))
  {
    hide KeysIn, Valued, Required, HexText, DigestOf, UploadText.Hex;
    DigestReads(digest);
    assert |Ascii("flash.begin")| == 11;
  }

  /** A begin request from its text to the record: authority, exclusion, sizes, and exactly this size and digest. */
  lemma BeginOnWire(cfg: S.Config, h: SessionInv.Home, t: S.Turn, f: Protocol.Frame, io: S.Io, ms: seq<Member>, site: Site,
                    size: uint32, digest: Image.Digest)
    requires SessionInv.Due(cfg, h, t, f) && f.kind == Protocol.REQUEST && cfg.service && Up.StageInv(t.up)
    requires Understands(cfg, site) && Printable(ms) && f.payload == Print(Record(ms)) && Begins(ms, site, size, digest)
    requires t.s.negotiated
    ensures var r, u, a, max := S.Dispatch(cfg, t, f, io), t.up, io.answers, cfg.contract.maximum;
      if t.ch.owner != 0 then UploadWire.Refused(t, f, r, "busy")
      else if !a.armed then UploadWire.Refused(t, f, r, "unauthorized")
      else if (u.last.id != 0 && (u.last.state.Accepted? || u.last.state.Verified? || u.last.state.Committing?)) || a.replacing then
        UploadWire.Refused(t, f, r, "busy")
      else if size > 4096 || size > max then UploadWire.Refused(t, f, r, "insufficient_storage")
      else if t.s.owner == 0 || size < 260 || max != 4096 then UploadWire.Refused(t, f, r, "invalid_argument")
      else if u.nextId == 0 then UploadWire.Refused(t, f, r, "io_error")
      else
        && UploadWire.Reported(t, f, r, r.up) && r.up.owner == t.s.owner && r.up.stagedAt == u.now
        && r.up.last == Up.Status(u.nextId, size, 0, digest, Up.Accepted, Up.NoError, false)
  {
    hide Printable, SessionInv.Due, Understands, Asked, MembersIn, Print, Begins, S.Dispatch, UploadWire.Refused, UploadWire.Reported,
      UploadWire.Asking;
    var c := S.Flash(S.FlashBegin, true, 2, true, 0, size, digest);
    BeginAsks(ms, site, size, digest);
    PrintedRequest(cfg, h, t, f, ms, site);
    if t.ch.owner != 0 {
      UploadWire.FlashRefused(cfg, h, t, f, io, c);
    } else {
      UploadWire.BeginRequest(cfg, h, t, f, io, c);
    }
  }

  function MethodName(v: S.Verb): string {
    match v
    case FlashBegin => "flash.begin" case FlashStatus => "flash.status" case FlashFinish => "flash.finish"
    case FlashCommit => "flash.commit" case FlashAbort => "flash.abort"
  }

  /** A record with the three members of any other flash request, in any order. */
  predicate Names(ms: seq<Member>, v: S.Verb, id: uint32) {
    && KeysIn(ms) == {Ascii("op"), Ascii("target_id"), Ascii("upload_id")} && Valued(ms, Ascii("op")) == Some(Words(Ascii(MethodName(v))))
    && Valued(ms, Ascii("target_id")) == Some(Count(2)) && Valued(ms, Ascii("upload_id")) == Some(Count(id)) && id != 0
  }

  lemma NameAsks(ms: seq<Member>, v: S.Verb, id: uint32, site: Site)
    requires Names(ms, v, id) && !v.FlashBegin?
    ensures Asked(MembersIn(ms), site) == Some(S.Flash(v, true, 2, false, id, 0, NO_DIGEST))
  {
    hide KeysIn, Valued, HexText, DigestOf;
    VerbNamed(v);
  }

  lemma VerbNamed(v: S.Verb)
    ensures VerbOf(Ascii(MethodName(v))) == Some(v) && |Ascii(MethodName(v))| <= 32
  {
    hide Ascii;
    assert METHODS[0] == "flash.begin" && METHODS[1] == "flash.status" && METHODS[2] == "flash.finish" && METHODS[3] == "flash.commit"
      && METHODS[4] == "flash.abort";
    MethodsDiffer();
  }

  lemma MethodsDiffer()
    ensures forall i, j :: 0 <= i < j < 5 ==> Ascii(METHODS[i]) != Ascii(METHODS[j])
  {
    forall i, j | 0 <= i < j < 5 ensures Ascii(METHODS[i]) != Ascii(METHODS[j]) {
      var x, y := Ascii(METHODS[i]), Ascii(METHODS[j]);
      assert |x| == |METHODS[i]| && |y| == |METHODS[j]|;
      assert x[6] == METHODS[i][6] as int && y[6] == METHODS[j][6] as int;
    }
  }

  /** Every other flash request from its text to the call whose answer UploadWire's tables give. */
  lemma NamedOnWire(cfg: S.Config, h: SessionInv.Home, t: S.Turn, f: Protocol.Frame, ms: seq<Member>, site: Site, v: S.Verb, id: uint32)
    requires SessionInv.Due(cfg, h, t, f) && f.kind == Protocol.REQUEST && cfg.service && Up.StageInv(t.up)
    requires Understands(cfg, site) && Printable(ms) && f.payload == Print(Record(ms)) && !v.FlashBegin? && Names(ms, v, id)
    requires t.s.negotiated && (v.FlashCommit? ==> t.ch.owner == 0)
    ensures UploadWire.Reaches(cfg, h, t, f, S.Flash(v, true, 2, false, id, 0, NO_DIGEST))
  {
    hide Printable, SessionInv.Due, Understands, Asked, MembersIn, Print, Names, UploadWire.Asking;
    NameAsks(ms, v, id, site);
    PrintedRequest(cfg, h, t, f, ms, site);
  }
}
