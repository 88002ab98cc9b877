/** The firmware's own replies, read back by the firmware's own parser. */
module ReplyText {
  import opened Bytes
  import opened JsonPrint
  import opened UploadText
  import JsonText
  import Json
  import JsonTokens
  import JsonDocument
  import Session
  import Up = Upload
  import Image = StatefulImage

  // ---- Members by key ----

  predicate Within(b: seq<byte>, n: Json.Node) {
    n.start <= n.end <= |b|
  }

  /** Under this key stands a number. */
  predicate NumberUnder(b: seq<byte>, kids: Json.Kids, key: string, value: nat) {
    var found := JsonTokens.MemberWith(b, kids, Ascii(key));
    && found.Some? && found.value.Leaf? && found.value.kind == Json.Numeral && Within(b, found.value)
    && JsonDocument.Decimal(b[found.value.start..found.value.end]) == value
  }

  /** Under this key stands a string with this text. */
  predicate WordsUnder(b: seq<byte>, kids: Json.Kids, key: string, text: seq<byte>) {
    var found := JsonTokens.MemberWith(b, kids, Ascii(key));
    && found.Some? && found.value.Leaf? && found.value.kind == Json.String && Json.KeyText(b, found.value.start) == text
  }

  predicate TruthUnder(b: seq<byte>, kids: Json.Kids, key: string, value: bool) {
    var found := JsonTokens.MemberWith(b, kids, Ascii(key));
    && found.Some? && found.value.Leaf? && found.value.kind == Json.Boolean && Within(b, found.value)
    && b[found.value.start..found.value.end] == Json.LiteralText(if value then 0x74 else 0x66)
  }

  /** One printed member, looked up. */
  lemma LooksUp(b: seq<byte>, p: nat, ms: seq<Member>, i: nat, key: string)
    requires i < |ms| && AllSound(ms) && Stands(b, p, PrintAll(ms)) && ms[i].key == Ascii(key)
    ensures var kids, v := KidsOf(ms, p), ms[i].value;
      && (v.Count? ==> NumberUnder(b, kids, key, v.n))
      && (v.Words? ==> WordsUnder(b, kids, key, v.s))
      && (v.Truth? ==> TruthUnder(b, kids, key, v.b))
      && (v.Record? ==>
            var found := JsonTokens.MemberWith(b, kids, Ascii(key));
            && found.Some? && found.value.Group? && found.value.obj
            && exists q :: found.value.kids == KidsOf(v.members, q) && Stands(b, q, PrintAll(v.members)))
  {
    hide Plain, Stands, PrintAll, KidsOf, Ascii, JsonTokens.MemberWith, Json.KeyText, Decimals, JsonDocument.Decimal;
    MemberFound(b, p, ms, i);
    var at, v := Place(ms, i, p), ms[i].value;
    StandsSpan(b, at, Print(v));
    if v.Count? {
      DecimalsRead(v.n);
    } else if v.Words? {
      assert Sound(v);
      KeyReads(b, at, v.s);
    } else if v.Record? {
      StandsParts(b, at, [0x7b] + PrintAll(v.members), [0x7d]);
      StandsParts(b, at, [0x7b], PrintAll(v.members));
    }
  }

  lemma StandsSpan(b: seq<byte>, p: nat, part: seq<byte>)
    requires Stands(b, p, part)
    ensures p + |part| <= |b| && b[p..p + |part|] == part
  {
  }

  // ---- Upload replies ----

  lemma PlainWord(s: string)
    requires Lower(s)
    ensures Plain(Ascii(s))
  {
  }

  lemma {:induction false} PlainHex(b: seq<byte>)
    ensures forall i :: 0 <= i < |Hex(b)| ==> 0x20 <= Hex(b)[i] < 0x7f && Hex(b)[i] != 0x22 && Hex(b)[i] != 0x5c
    decreases |b|
  {
    if b != [] {
      PlainHex(b[1..]);
    }
  }

  const KEYS: seq<string> := ["upload_id", "state", "size", "received", "sha256", "slot_touched", "error"]

  lemma KeysDiffer(i: nat, j: nat)
    requires j < i < 7
    ensures Ascii(KEYS[j]) != Ascii(KEYS[i])
  {
    var a, b := Ascii(KEYS[j]), Ascii(KEYS[i]);
    assert |a| == |KEYS[j]| && |b| == |KEYS[i]|;
    assert a[0] == KEYS[j][0] as int && b[0] == KEYS[i][0] as int && a[1] == KEYS[j][1] as int && b[1] == KEYS[i][1] as int;
  }

  lemma KeysPlain(i: nat)
    requires i < 7
    ensures Plain(Ascii(KEYS[i]))
  {
    PlainWord(KEYS[i]);
  }

  predicate Lower(s: string) {
    |s| <= 64 && forall i :: 0 <= i < |s| ==> s[i] == '_' || 'a' <= s[i] <= 'z' || '0' <= s[i] <= '9'
  }

  lemma StateLower(s: Up.Stage)
    ensures Lower(StateName(s))
  {
  }

  predicate Refusal(e: Up.Error) {
    e.Unsupported? || e.InvalidArgument? || e.WrongTarget? || e.InvalidState? || e.Busy? || e.Unauthorized? || e.WrongOwner? ||
    e.WrongOffset?
  }

  lemma RefusalLower(e: Up.Error)
    requires Refusal(e)
    ensures Lower(ErrorName(e))
  {
  }

  predicate ImageFault(e: Up.Error) {
    e.Incomplete? || e.DigestMismatch? || e.InvalidImage? || e.InsufficientStorage?
  }

  lemma ImageFaultLower(e: Up.Error)
    requires ImageFault(e)
    ensures Lower(ErrorName(e))
  {
  }

  lemma FailureLower(e: Up.Error)
    requires !Refusal(e) && !ImageFault(e)
    ensures Lower(ErrorName(e))
  {
  }

  lemma ErrorLower(e: Up.Error)
    ensures Lower(ErrorName(e))
  {
    if Refusal(e) {
      RefusalLower(e);
    } else if ImageFault(e) {
      ImageFaultLower(e);
    } else {
      FailureLower(e);
    }
  }

  lemma NamesPlain(r: Up.Status)
    ensures Plain(Ascii(StateName(r.state))) && Plain(Ascii(ErrorName(r.error))) && Plain(Hex(r.digest))
  {
    hide StateName, ErrorName, Hex;
    StateLower(r.state);
    ErrorLower(r.error);
    PlainWord(StateName(r.state));
    PlainWord(ErrorName(r.error));
    PlainHex(r.digest);
  }

  lemma RecordSound(r: Up.Status)
    ensures AllSound(RecordValue(r).members) && Sound(RecordValue(r))
  {
    hide Plain, Ascii, Hex, Decimals;
    NamesPlain(r);
    var ms := RecordValue(r).members;
    forall i | 0 <= i < 7 ensures Plain(ms[i].key) && Sound(ms[i].value) && forall j :: 0 <= j < i ==> ms[j].key != ms[i].key {
      assert ms[i].key == Ascii(KEYS[i]);
      KeysPlain(i);
      forall j | 0 <= j < i ensures ms[j].key != ms[i].key {
        assert ms[j].key == Ascii(KEYS[j]);
        KeysDiffer(i, j);
      }
    }
  }

  lemma PairSound(a: Member, b: Member)
    requires Plain(a.key) && Plain(b.key) && a.key != b.key && Sound(a.value) && Sound(b.value)
    ensures Sound(Record([a, b])) && AllSound([a, b])
  {
    hide Plain;
  }

  lemma PairTokens(a: Member, b: Member)
    ensures TokenCount(Record([a, b])) == 3 + TokenCount(a.value) + TokenCount(b.value)
  {
    hide TokenCount;
    assert [a, b][1..] == [b] && [b][1..] == [];
    RecordTokens([a, b]);
    assert TokensOf([b]) == 1 + TokenCount(b.value) + TokensOf([]);
  }

  lemma RecordTokens(ms: seq<Member>)
    ensures TokenCount(Record(ms)) == 1 + TokensOf(ms)
  {
  }

  /** Members of plain values count two tokens each. */
  lemma {:induction false} FlatTokens(ms: seq<Member>)
    requires forall i :: 0 <= i < |ms| ==> !ms[i].value.Record?
    ensures TokensOf(ms) == 2 * |ms|
    decreases |ms|
  {
    if ms != [] {
      FlatTokens(ms[1..]);
    }
  }

  lemma ReplySound(r: Up.Status)
    ensures Sound(ReplyValue(r)) && AllSound(ReplyValue(r).members) && Shallow(ReplyValue(r), 0) && TokenCount(ReplyValue(r)) <= 96
  {
    hide Plain, Ascii, RecordValue, Sound, AllSound, TokenCount, TokensOf;
    RecordSound(r);
    PlainWord("ok");
    PlainWord("result");
    assert |Ascii("ok")| != |Ascii("result")|;
    var ok, result := Member(Ascii("ok"), Truth(true)), Member(Ascii("result"), RecordValue(r));
    assert Sound(ok.value) by { TruthSound(true); }
    PairSound(ok, result);
    PairTokens(ok, result);
    LeafTokens();
    FlatRecord(r);
  }

  lemma TruthSound(b: bool)
    ensures Sound(Truth(b))
  {
  }

  lemma LeafTokens()
    ensures TokenCount(Truth(true)) == 1 == TokenCount(Truth(false))
  {
  }

  lemma FlatRecord(r: Up.Status)
    ensures TokenCount(RecordValue(r)) == 15 && Shallow(RecordValue(r), 1)
  {
    hide Ascii, Hex, TokensOf;
    FlatTokens(RecordValue(r).members);
  }

  /** Every field of the record, by its key. */
  predicate Tells(b: seq<byte>, kids: Json.Kids, r: Up.Status) {
    && NumberUnder(b, kids, "upload_id", r.id) && WordsUnder(b, kids, "state", Ascii(StateName(r.state)))
    && NumberUnder(b, kids, "size", r.size) && NumberUnder(b, kids, "received", r.received)
    && WordsUnder(b, kids, "sha256", Hex(r.digest)) && TruthUnder(b, kids, "slot_touched", r.touched)
    && WordsUnder(b, kids, "error", Ascii(ErrorName(r.error)))
  }

  lemma RecordTells(b: seq<byte>, q: nat, r: Up.Status)
    requires Stands(b, q, PrintAll(RecordValue(r).members))
    ensures Tells(b, KidsOf(RecordValue(r).members, q), r)
  {
    hide NumberUnder, WordsUnder, TruthUnder, Ascii, Stands, PrintAll, KidsOf, AllSound, Hex;
    RecordSound(r);
    var ms := RecordValue(r).members;
    LooksUp(b, q, ms, 0, "upload_id");
    LooksUp(b, q, ms, 1, "state");
    LooksUp(b, q, ms, 2, "size");
    LooksUp(b, q, ms, 3, "received");
    LooksUp(b, q, ms, 4, "sha256");
    LooksUp(b, q, ms, 5, "slot_touched");
    LooksUp(b, q, ms, 6, "error");
  }

  /** An upload reply is a document the parser accepts: ok is true, and result holds every field of the
      record under its own key. */
  lemma UploadReplyReads(r: Up.Status)
    ensures var b := Session.ResultText(RecordTail(r));
      && Json.Parse(b).Some?
      && var root := Json.Parse(b).value.node;
         && root.Group? && root.obj && TruthUnder(b, root.kids, "ok", true)
         && var found := JsonTokens.MemberWith(b, root.kids, Ascii("result"));
            found.Some? && found.value.Group? && found.value.obj && Tells(b, found.value.kids, r)
  {
    hide NumberUnder, WordsUnder, TruthUnder, Tells, Ascii, Stands, PrintAll, KidsOf, AllSound, RecordValue, RecordTail, Json.Parse,
      JsonTokens.MemberWith, Print;
    var b := Session.ResultText(RecordTail(r));
    ReplyPrints(r);
    ReplySound(r);
    TailFits(r);
    var v := ReplyValue(r);
    PrintParses(v);
    assert Stands(b, 1, PrintAll(v.members)) by { MembersStand(v.members); }
    LooksUp(b, 1, v.members, 0, "ok");
    LooksUp(b, 1, v.members, 1, "result");
    var q :| JsonTokens.MemberWith(b, KidsOf(v.members, 1), Ascii("result")).value.kids == KidsOf(RecordValue(r).members, q) &&
             Stands(b, q, PrintAll(RecordValue(r).members));
    RecordTells(b, q, r);
  }

  lemma MembersStand(ms: seq<Member>)
    ensures Stands(Print(Record(ms)), 1, PrintAll(ms))
  {
    hide PrintAll;
  }

  // ---- Errors ----

  function CodeValue(code: string): (v: Value)
    ensures v.Record?
  {
    Record([Member(Ascii("code"), Words(Ascii(code))), Member(Ascii("message"), Words(Ascii(code)))])
  }

  function ErrorValue(code: string): (v: Value)
    ensures v.Record?
  {
    Record([Member(Ascii("ok"), Truth(false)), Member(Ascii("error"), CodeValue(code))])
  }

  function KeyBytes(key: string): seq<byte> {
    InQuotes(Ascii(key)) + [0x3a]
  }

  lemma KeyIs(key: string)
    ensures KeyBytes(key) == Ascii("\"" + key + "\":")
  {
    AsciiKey(key);
  }

  lemma FalsePrints()
    ensures PrintOne(Member(Ascii("ok"), Truth(false))) == Ascii("\"ok\":false")
  {
    KeyIs("ok");
    assert "\"" + "ok" + "\":" == "\"ok\":";
    assert Ascii("false") == [0x66, 0x61, 0x6c, 0x73, 0x65];
    AsciiJoin("\"ok\":", "false");
    assert "\"ok\":" + "false" == "\"ok\":false";
  }

  lemma OpeningIs()
    ensures Ascii("{\"ok\":false,\"error\":{\"code\":\"") ==
      [0x7b] + PrintOne(Member(Ascii("ok"), Truth(false))) + [0x2c] + KeyBytes("error") + [0x7b] + KeyBytes("code") + [0x22]
  {
    hide PrintOne, KeyBytes;
    FalsePrints();
    KeyIs("error");
    KeyIs("code");
    var a, b, c, d := "{", "\"ok\":false", ",", "\"error\":";
    var e, f := "\"code\":", "\"";
    assert "\"" + "error" + "\":" == d && "\"" + "code" + "\":" == e;
    assert "{\"ok\":false,\"error\":{\"code\":\"" == a + b + c + d + "{" + e + f;
    assert Ascii("{") == [0x7b] && Ascii(",") == [0x2c] && Ascii("\"") == [0x22];
    hide Ascii;
    AsciiJoin(a, b);
    AsciiJoin(a + b, c);
    AsciiJoin(a + b + c, d);
    AsciiJoin(a + b + c + d, "{");
    AsciiJoin(a + b + c + d + "{", e);
    AsciiJoin(a + b + c + d + "{" + e, f);
  }

  lemma MiddleIs()
    ensures Ascii("\",\"message\":\"") == [0x22] + [0x2c] + KeyBytes("message") + [0x22]
  {
    hide KeyBytes;
    KeyIs("message");
    var a := "\"message\":";
    assert "\"" + "message" + "\":" == a;
    assert "\",\"message\":\"" == "\"," + a + "\"";
    assert Ascii("\",") == [0x22] + [0x2c] && Ascii("\"") == [0x22];
    hide Ascii;
    AsciiJoin("\",", a);
    AsciiJoin("\"," + a, "\"");
  }

  lemma ErrorParts(code: string)
    ensures Session.ErrorText(code) ==
      Ascii("{\"ok\":false,\"error\":{\"code\":\"") + Ascii(code) + Ascii("\",\"message\":\"") + Ascii(code) + [0x22, 0x7d, 0x7d]
  {
    var a, b, c := "{\"ok\":false,\"error\":{\"code\":\"", "\",\"message\":\"", "\"}}";
    assert Ascii(c) == [0x22, 0x7d, 0x7d];
    hide Ascii;
    AsciiJoin(a, code);
    AsciiJoin(a + code, b);
    AsciiJoin(a + code + b, code);
    AsciiJoin(a + code + b + code, c);
  }

  lemma ErrorGroups(ok: seq<byte>, e: seq<byte>, k: seq<byte>, m: seq<byte>, c: seq<byte>)
    ensures ([0x7b] + ok + [0x2c] + e + [0x7b] + k + [0x22]) + c + ([0x22] + [0x2c] + m + [0x22]) + c + [0x22, 0x7d, 0x7d] ==
      [0x7b] + (ok + [0x2c] + (e + ([0x7b] + (k + ([0x22] + c + [0x22]) + [0x2c] + (m + ([0x22] + c + [0x22]))) + [0x7d]))) + [0x7d]
  {
  }

  /** An error reply is that value, printed. */
  lemma ErrorPrints(code: string)
    ensures Session.ErrorText(code) == Print(ErrorValue(code))
  {
    hide PrintAll, PrintOne, Ascii, Session.ErrorText, KeyBytes;
    ErrorParts(code);
    OpeningIs();
    MiddleIs();
    var first, second := Member(Ascii("code"), Words(Ascii(code))), Member(Ascii("message"), Words(Ascii(code)));
    MemberParts("code", Words(Ascii(code)));
    MemberParts("message", Words(Ascii(code)));
    MemberParts("error", CodeValue(code));
    PrintTwo(first, second);
    PrintTwo(Member(Ascii("ok"), Truth(false)), Member(Ascii("error"), CodeValue(code)));
    ErrorGroups(PrintOne(Member(Ascii("ok"), Truth(false))), KeyBytes("error"), KeyBytes("code"), KeyBytes("message"), Ascii(code));
  }

  lemma MemberParts(key: string, v: Value)
    ensures PrintOne(Member(Ascii(key), v)) == KeyBytes(key) + Print(v)
  {
    hide Print;
  }

  lemma ErrorSound(code: string)
    requires Lower(code) && |code| <= 30
    ensures Sound(ErrorValue(code)) && Shallow(ErrorValue(code), 0) && TokenCount(ErrorValue(code)) <= 96
    ensures AllSound(CodeValue(code).members)
  {
    hide Plain, Ascii, Sound, AllSound, TokenCount, TokensOf, Lower;
    PlainWord(code);
    assert Lower("ok") && Lower("error") && Lower("code") && Lower("message") by { WordsLower(); }
    PlainWord("ok");
    PlainWord("error");
    PlainWord("code");
    PlainWord("message");
    assert |Ascii("ok")| == 2 && |Ascii("error")| == 5 && |Ascii("code")| == 4 && |Ascii("message")| == 7;
    var a, b := Member(Ascii("code"), Words(Ascii(code))), Member(Ascii("message"), Words(Ascii(code)));
    WordsSound(Ascii(code));
    PairSound(a, b);
    PairTokens(a, b);
    TruthSound(false);
    LeafTokens();
    WordsTokens(Ascii(code));
    PairSound(Member(Ascii("ok"), Truth(false)), Member(Ascii("error"), CodeValue(code)));
    PairTokens(Member(Ascii("ok"), Truth(false)), Member(Ascii("error"), CodeValue(code)));
    hide Shallow;
    PairShallow(a, b, 1);
    PairShallow(Member(Ascii("ok"), Truth(false)), Member(Ascii("error"), CodeValue(code)), 0);
  }

  lemma PairShallow(a: Member, b: Member, d: nat)
    requires d < 8 && (!a.value.Record? || Shallow(a.value, d + 1)) && (!b.value.Record? || Shallow(b.value, d + 1))
    ensures Shallow(Record([a, b]), d)
  {
  }

  lemma WordsLower()
    ensures Lower("ok") && Lower("error") && Lower("code") && Lower("message")
  {
  }

  lemma WordsSound(s: seq<byte>)
    requires Plain(s)
    ensures Sound(Words(s))
  {
  }

  lemma WordsTokens(s: seq<byte>)
    ensures TokenCount(Words(s)) == 1
  {
  }

  /** An error reply is a document the parser accepts: ok is false, and error holds the code twice. */
  lemma ErrorReplyReads(code: string)
    requires Lower(code) && |code| <= 30
    ensures var b := Session.ErrorText(code);
      && Json.Parse(b).Some?
      && var root := Json.Parse(b).value.node;
         && root.Group? && root.obj && TruthUnder(b, root.kids, "ok", false)
         && var found := JsonTokens.MemberWith(b, root.kids, Ascii("error"));
            && found.Some? && found.value.Group? && found.value.obj
            && WordsUnder(b, found.value.kids, "code", Ascii(code)) && WordsUnder(b, found.value.kids, "message", Ascii(code))
  {
    hide WordsUnder, TruthUnder, Ascii, Stands, PrintAll, KidsOf, AllSound, Json.Parse, JsonTokens.MemberWith, Print, Sound, Session.ErrorText,
      Lower;
    var b := Session.ErrorText(code);
    ErrorPrints(code);
    ErrorSound(code);
    ErrorSize(code);
    var v := ErrorValue(code);
    PrintParses(v);
    SoundMembers(v);
    assert Stands(b, 1, PrintAll(v.members)) by { MembersStand(v.members); }
    LooksUp(b, 1, v.members, 0, "ok");
    LooksUp(b, 1, v.members, 1, "error");
    var q :| JsonTokens.MemberWith(b, KidsOf(v.members, 1), Ascii("error")).value.kids == KidsOf(CodeValue(code).members, q) &&
             Stands(b, q, PrintAll(CodeValue(code).members));
    LooksUp(b, q, CodeValue(code).members, 0, "code");
    LooksUp(b, q, CodeValue(code).members, 1, "message");
  }

  lemma SoundMembers(v: Value)
    requires Sound(v) && v.Record?
    ensures AllSound(v.members)
  {
    hide AllSound;
  }

  lemma ErrorSize(code: string)
    requires |code| <= 30
    ensures |Session.ErrorText(code)| < 128
  {
  }
}
