/** The text of an upload reply: the whole record, formatted. */
module UploadText {
  import opened Bytes
  import Up = Upload
  import Image = StatefulImage
  import JsonNumber
  import JsonDocument
  import opened JsonPrint

  function HexDigit(n: nat): byte
    requires n < 16
  {
    if n < 10 then 0x30 + n else 0x61 + (n - 10)
  }

  function Hex(b: seq<byte>): (s: seq<byte>)
    ensures |s| == 2 * |b|
  {
    if b == [] then [] else [HexDigit(b[0] / 16), HexDigit(b[0] % 16)] + Hex(b[1..])
  }

  function ErrorName(e: Up.Error): string {
    match e
    case NoError => "none" case Unsupported => "unsupported" case InvalidArgument => "invalid_argument"
    case WrongTarget => "wrong_target" case InvalidState => "invalid_state" case Busy => "busy"
    case Unauthorized => "unauthorized" case WrongOwner => "wrong_owner" case WrongOffset => "wrong_offset"
    case Incomplete => "incomplete" case DigestMismatch => "digest_mismatch" case InvalidImage => "invalid_image"
    case InsufficientStorage => "insufficient_storage" case IoError => "io_error" case Disconnected => "disconnected"
    case ParkTimeout => "park_timeout" case InstallFailed => "install_failed"
  }

  function StateName(s: Up.Stage): string {
    match s
    case Accepted => "accepted" case Verified => "verified" case Committing => "committing" case Installed => "installed"
    case BootConfirmed => "boot_confirmed" case Aborted => "aborted" case Failed => "failed"
  }

  /** How every successful reply with a result begins. */
  const HEAD: string := "{\"ok\":true,\"result\":{"

  /** The record as a value: every field under its own key. */
  function RecordValue(r: Up.Status): (v: Value)
    ensures v.Record?
  {
    Record([Member(Ascii("upload_id"), Count(r.id)), Member(Ascii("state"), Words(Ascii(StateName(r.state)))),
            Member(Ascii("size"), Count(r.size)), Member(Ascii("received"), Count(r.received)),
            Member(Ascii("sha256"), Words(Hex(r.digest))), Member(Ascii("slot_touched"), Truth(r.touched)),
            Member(Ascii("error"), Words(Ascii(ErrorName(r.error))))])
  }

  /** What follows the head in an upload reply: the rest of the record, and the end of the reply. */
  function RecordTail(r: Up.Status): seq<byte> {
    Print(RecordValue(r))[1..] + [0x7d]
  }

  // ---- What the text says ----

  /** The parser's own reading of the digits gives the number back. */
  lemma {:induction false} DecimalsRead(n: nat)
    ensures JsonDocument.Decimal(Decimals(n)) == n
    decreases n
  {
    if n < 10 {
      assert Decimals(n)[..0] == [];
    } else {
      DecimalsRead(n / 10);
      JsonDocument.DecimalSnoc(Decimals(n / 10), 0x30 + n % 10);
    }
  }

  function Nibble(b: byte): int {
    if 0x30 <= b <= 0x39 then b - 0x30 else if 0x61 <= b <= 0x66 then b - 0x61 + 10 else 16
  }

  /** Reading the hex text as flash.begin does gives the digest back. */
  lemma {:induction false} HexReads(b: seq<byte>, i: nat)
    requires i < |b|
    ensures Nibble(Hex(b)[2 * i]) * 16 + Nibble(Hex(b)[2 * i + 1]) == b[i]
    ensures Nibble(Hex(b)[2 * i]) < 16 && Nibble(Hex(b)[2 * i + 1]) < 16
  {
    if i > 0 {
      HexReads(b[1..], i - 1);
    }
  }

  lemma {:induction false} DecimalsSize(n: nat, digits: nat)
    requires digits > 0 && n < Power(digits)
    ensures |Decimals(n)| <= digits
    decreases digits
  {
    if n >= 10 {
      TenthBelow(n, Power(digits - 1));
      DecimalsSize(n / 10, digits - 1);
    }
  }

  lemma TenthBelow(n: nat, p: nat)
    requires n < 10 * p
    ensures n / 10 < p
  {
  }

  function Power(digits: nat): nat {
    if digits == 0 then 1 else 10 * Power(digits - 1)
  }

  lemma NumberFits(n: uint32)
    ensures |Decimals(n)| <= 10
  {
    hide Decimals;
    assert Power(10) == 10000000000 by {
      assert Power(2) == 100;
      assert Power(4) == 10000;
      assert Power(6) == 1000000;
      assert Power(8) == 100000000;
    }
    DecimalsSize(n, 10);
  }

  /** The room one member may need, with its comma. */
  function Allowance(i: nat): nat {
    if i == 4 then 84 else 42
  }

  lemma MemberFits(r: Up.Status, i: nat)
    requires i < 7
    ensures |PrintOne(RecordValue(r).members[i])| < Allowance(i)
  {
    hide Decimals, Hex;
    NumberFits(r.id);
    NumberFits(r.size);
    NumberFits(r.received);
    assert |StateName(r.state)| <= 14 && |ErrorName(r.error)| <= 20;
  }

  /** Every upload reply fits the smallest payload limit a peer may offer. */
  lemma TailFits(r: Up.Status)
    ensures |HEAD| + |RecordTail(r)| <= 400
  {
    hide PrintAll, PrintOne, Decimals, Hex;
    var ms := RecordValue(r).members;
    var left, k := 0, 7;
    assert ms[7..] == [];
    assert PrintAll([]) == [] by { PrintNone(); }
    while k > 0
      invariant k <= 7 && |PrintAll(ms[k..])| <= left
      invariant left == 42 * (7 - k) + if k <= 4 then 42 else 0
    {
      k := k - 1;
      MemberFits(r, k);
      PrintCons(ms[k..]);
      assert ms[k..][1..] == ms[k + 1..];
      left := left + Allowance(k);
    }
    assert ms[0..] == ms;
  }

  // ---- The reply is JSON ----

  function ReplyValue(r: Up.Status): Value {
    Record([Member(Ascii("ok"), Truth(true)), Member(Ascii("result"), RecordValue(r))])
  }

  lemma PrintTwo(a: Member, b: Member)
    ensures PrintAll([a, b]) == PrintOne(a) + [0x2c] + PrintOne(b)
  {
    hide PrintOne;
    assert [a, b][1..] == [b];
  }

  lemma AsciiJoin(a: string, b: string)
    ensures Ascii(a + b) == Ascii(a) + Ascii(b)
  {
  }

  lemma AsciiKey(key: string)
    ensures Ascii("\"" + key + "\":") == InQuotes(Ascii(key)) + [0x3a]
  {
    assert Ascii("\"" + key + "\":") == [0x22] + Ascii(key) + [0x22, 0x3a];
  }

  lemma OkPrints()
    ensures PrintOne(Member(Ascii("ok"), Truth(true))) == Ascii("\"ok\":") + Ascii("true")
  {
    AsciiKey("ok");
    assert "\"" + "ok" + "\":" == "\"ok\":";
    assert Ascii("true") == [0x74, 0x72, 0x75, 0x65];
  }

  lemma HeadIs()
    ensures HEAD == "{" + "\"ok\":" + "true" + "," + ("\"" + "result" + "\":") + "{"
  {
  }

  lemma Braces()
    ensures Ascii("{") == [0x7b] && Ascii(",") == [0x2c]
  {
  }

  lemma HeadParts()
    ensures Ascii(HEAD) == [0x7b] + PrintOne(Member(Ascii("ok"), Truth(true))) + [0x2c] + (InQuotes(Ascii("result")) + [0x3a]) + [0x7b]
  {
    hide PrintOne, InQuotes, Ascii;
    OkPrints();
    AsciiKey("result");
    var a, b, c, d, e := "{", "\"ok\":", "true", ",", "\"" + "result" + "\":";
    HeadIs();
    Braces();
    AsciiJoin(a, b);
    AsciiJoin(a + b, c);
    AsciiJoin(a + b + c, d);
    AsciiJoin(a + b + c + d, e);
    AsciiJoin(a + b + c + d + e, "{");
    AsciiGroups(Ascii(b), Ascii(c));
  }

  lemma AsciiGroups(b: seq<byte>, c: seq<byte>)
    ensures [0x7b] + b + c == [0x7b] + (b + c)
  {
  }

  lemma Regrouped(a: seq<byte>, b: seq<byte>, inner: seq<byte>)
    requires inner != [] && inner[0] == 0x7b
    ensures [0x7b] + a + [0x2c] + b + [0x7b] + (inner[1..] + [0x7d]) == [0x7b] + (a + [0x2c] + (b + inner)) + [0x7d]
  {
    assert inner == [0x7b] + inner[1..];
  }

  /** The whole reply is that value, printed. */
  lemma ReplyPrints(r: Up.Status)
    ensures Ascii(HEAD) + RecordTail(r) == Print(ReplyValue(r))
  {
    hide RecordValue, PrintAll, PrintOne, Ascii;
    var v := RecordValue(r);
    var ok, key := PrintOne(Member(Ascii("ok"), Truth(true))), InQuotes(Ascii("result")) + [0x3a];
    HeadParts();
    RecordOpens(r);
    PrintTwo(Member(Ascii("ok"), Truth(true)), Member(Ascii("result"), v));
    assert PrintOne(Member(Ascii("result"), v)) == key + Print(v) by { PrintParts(Member(Ascii("result"), v)); }
    hide Print;
    Regrouped(ok, key, Print(v));
    PrintRecord(ReplyValue(r).members);
  }

  lemma PrintParts(m: Member)
    ensures PrintOne(m) == InQuotes(m.key) + [0x3a] + Print(m.value)
  {
  }

  lemma PrintRecord(ms: seq<Member>)
    ensures Print(Record(ms)) == [0x7b] + PrintAll(ms) + [0x7d]
  {
  }

  lemma RecordOpens(r: Up.Status)
    ensures Print(RecordValue(r))[0] == 0x7b
  {
    hide PrintAll;
  }
}
