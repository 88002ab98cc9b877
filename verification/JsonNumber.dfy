/** JSON numbers (RFC 8259 section 6): the scanner and the grammar it accepts. */
module JsonNumber {
  import opened Bytes

  const MINUS: byte := 0x2d
  const PLUS: byte := 0x2b
  const POINT: byte := 0x2e
  const ZERO: byte := 0x30

  predicate Digit(b: byte) {
    0x30 <= b <= 0x39
  }

  predicate Digits(s: seq<byte>) {
    forall i :: 0 <= i < |s| ==> Digit(s[i])
  }

  predicate Exponent(b: byte) {
    b == 0x65 || b == 0x45
  }

  // ---- The grammar ----

  /** number = [ minus ] int [ frac ] [ exp ] */
  datatype Number = Number(minus: seq<byte>, whole: seq<byte>, frac: seq<byte>, power: seq<byte>)

  predicate IsWhole(s: seq<byte>) {
    s != [] && Digits(s) && (s[0] == ZERO ==> |s| == 1)
  }

  predicate IsFraction(s: seq<byte>) {
    s == [] || (|s| > 1 && s[0] == POINT && Digits(s[1..]))
  }

  function Unsigned(s: seq<byte>): seq<byte> {
    if s != [] && (s[0] == PLUS || s[0] == MINUS) then s[1..] else s
  }

  predicate IsPower(s: seq<byte>) {
    s == [] || (Exponent(s[0]) && Unsigned(s[1..]) != [] && Digits(Unsigned(s[1..])))
  }

  predicate ValidNumber(n: Number) {
    (n.minus == [] || n.minus == [MINUS]) && IsWhole(n.whole) && IsFraction(n.frac) && IsPower(n.power)
  }

  function Written(n: Number): seq<byte> {
    n.minus + (n.whole + (n.frac + n.power))
  }

  // ---- The scanner ----

  function DigitsEnd(b: seq<byte>, p: nat): (e: nat)
    requires p <= |b|
    ensures p <= e <= |b| && (forall i :: p <= i < e ==> Digit(b[i])) && (e < |b| ==> !Digit(b[e]))
    decreases |b| - p
  {
    if p < |b| && Digit(b[p]) then DigitsEnd(b, p + 1) else p
  }

  function WholeEnd(b: seq<byte>, p: nat): (r: Option<nat>)
    requires p <= |b|
    ensures r.Some? ==> p < r.value <= |b|
  {
    if p == |b| || !Digit(b[p]) then None
    else if b[p] == ZERO then Some(p + 1)
    else Some(DigitsEnd(b, p))
  }

  function FractionEnd(b: seq<byte>, p: nat): (r: Option<nat>)
    requires p <= |b|
    ensures r.Some? ==> p <= r.value <= |b|
  {
    if p < |b| && b[p] == POINT then
      var e := DigitsEnd(b, p + 1);
      if e == p + 1 then None else Some(e)
    else Some(p)
  }

  function PowerEnd(b: seq<byte>, p: nat): (r: Option<nat>)
    requires p <= |b|
    ensures r.Some? ==> p <= r.value <= |b|
  {
    if p < |b| && Exponent(b[p]) then
      var first := if p + 1 < |b| && (b[p + 1] == PLUS || b[p + 1] == MINUS) then p + 2 else p + 1;
      var e := DigitsEnd(b, first);
      if e == first then None else Some(e)
    else Some(p)
  }

  /** The end of the number that starts at p. */
  function NumberEnd(b: seq<byte>, p: nat): (r: Option<nat>)
    requires p < |b|
    ensures r.Some? ==> p < r.value <= |b|
  {
    match WholeEnd(b, if b[p] == MINUS then p + 1 else p)
    case None => None
    case Some(w) => match FractionEnd(b, w) case None => None case Some(f) => PowerEnd(b, f)
  }

  /** The scanned text, taken apart. */
  function PartsOf(b: seq<byte>, p: nat): Number
    requires p < |b| && NumberEnd(b, p).Some?
  {
    var start := if b[p] == MINUS then p + 1 else p;
    var w := WholeEnd(b, start).value;
    var f := FractionEnd(b, w).value;
    Number(b[p..start], b[start..w], b[w..f], b[f..PowerEnd(b, f).value])
  }

  lemma WholeSound(b: seq<byte>, p: nat)
    requires p <= |b| && WholeEnd(b, p).Some?
    ensures IsWhole(b[p..WholeEnd(b, p).value])
  {
  }

  lemma FractionSound(b: seq<byte>, p: nat)
    requires p <= |b| && FractionEnd(b, p).Some?
    ensures IsFraction(b[p..FractionEnd(b, p).value])
  {
  }

  lemma PowerSound(b: seq<byte>, p: nat)
    requires p <= |b| && PowerEnd(b, p).Some?
    ensures IsPower(b[p..PowerEnd(b, p).value])
  {
    var e := PowerEnd(b, p).value;
    if e != p {
      var s := b[p..e];
      assert s[0] == b[p] && s[1] == b[p + 1];
      assert s[1..] == b[p + 1..e];
    }
  }

  /** Whatever the scanner accepts is a number. */
  lemma NumberSound(b: seq<byte>, p: nat)
    requires p < |b| && NumberEnd(b, p).Some?
    ensures ValidNumber(PartsOf(b, p)) && Written(PartsOf(b, p)) == b[p..NumberEnd(b, p).value]
  {
    hide WholeEnd, FractionEnd, PowerEnd, IsWhole, IsFraction, IsPower;
    var start := if b[p] == MINUS then p + 1 else p;
    var w := WholeEnd(b, start).value;
    var f := FractionEnd(b, w).value;
    WholeSound(b, start);
    FractionSound(b, w);
    PowerSound(b, f);
    var e := PowerEnd(b, f).value;
    Joins(b, w, f, e);
    Joins(b, start, w, e);
    Joins(b, p, start, e);
  }

  lemma Joins(b: seq<byte>, lo: nat, mid: nat, hi: nat)
    requires lo <= mid <= hi <= |b|
    ensures b[lo..hi] == b[lo..mid] + b[mid..hi]
  {
  }

  lemma Parts(b: seq<byte>, lo: nat, hi: nat, x: seq<byte>, y: seq<byte>)
    requires lo <= hi <= |b| && b[lo..hi] == x + y
    ensures lo + |x| <= hi && b[lo..lo + |x|] == x && b[lo + |x|..hi] == y
  {
    var s := b[lo..hi];
    assert |s| == |x| + |y|;
    assert b[lo..lo + |x|] == s[..|x|] && b[lo + |x|..hi] == s[|x|..];
  }

  // ---- Completeness ----

  /** What may follow a number: nothing that could continue it. */
  predicate Stops(b: seq<byte>, e: nat) {
    e >= |b| || !(Digit(b[e]) || b[e] == POINT || Exponent(b[e]))
  }

  lemma {:induction false} DigitsRun(b: seq<byte>, p: nat, e: nat)
    requires p <= e <= |b| && (forall i :: p <= i < e ==> Digit(b[i])) && (e < |b| ==> !Digit(b[e]))
    ensures DigitsEnd(b, p) == e
    decreases e - p
  {
    if p < e {
      DigitsRun(b, p + 1, e);
    }
  }

  lemma WholeRead(b: seq<byte>, p: nat, e: nat)
    requires p <= e <= |b| && IsWhole(b[p..e]) && (e < |b| ==> !Digit(b[e]))
    ensures WholeEnd(b, p) == Some(e)
  {
    var s := b[p..e];
    assert forall i :: p <= i < e ==> b[i] == s[i - p];
    DigitsRun(b, p, e);
  }

  lemma FractionRead(b: seq<byte>, p: nat, e: nat)
    requires p <= e <= |b| && IsFraction(b[p..e]) && (e < |b| ==> !Digit(b[e]) && b[e] != POINT)
    ensures FractionEnd(b, p) == Some(e)
  {
    var s := b[p..e];
    if s != [] {
      assert forall i :: p + 1 <= i < e ==> b[i] == s[1..][i - p - 1];
      DigitsRun(b, p + 1, e);
    }
  }

  lemma PowerRead(b: seq<byte>, p: nat, e: nat)
    requires p <= e <= |b| && IsPower(b[p..e]) && Stops(b, e)
    ensures PowerEnd(b, p) == Some(e)
  {
    var s := b[p..e];
    if s != [] {
      var t := s[1..];
      assert t[0] == b[p + 1];
      var first := if b[p + 1] == PLUS || b[p + 1] == MINUS then p + 2 else p + 1;
      assert Unsigned(t) == b[first..e];
      assert forall i :: first <= i < e ==> b[i] == b[first..e][i - first];
      DigitsRun(b, first, e);
    }
  }

  lemma FractionStart(s: seq<byte>)
    requires IsFraction(s) && s != []
    ensures s[0] == POINT
  {
  }

  lemma PowerStart(s: seq<byte>)
    requires IsPower(s) && s != []
    ensures Exponent(s[0])
  {
  }

  lemma WholeStart(s: seq<byte>)
    requires IsWhole(s)
    ensures s != [] && Digit(s[0])
  {
  }

  lemma Slices(b: seq<byte>, p: nat, e: nat, n: Number)
    requires p <= e <= |b| && b[p..e] == Written(n)
    ensures var start := p + |n.minus|; var w := start + |n.whole|; var f := w + |n.frac|;
      && f <= e && b[start..w] == n.whole && b[w..f] == n.frac && b[f..e] == n.power
      && (n.minus != [] ==> b[p] == n.minus[0]) && (n.whole != [] ==> b[start] == n.whole[0])
      && (n.frac != [] ==> b[w] == n.frac[0]) && (n.power != [] ==> b[f] == n.power[0])
  {
    var start := p + |n.minus|;
    var w := start + |n.whole|;
    var f := w + |n.frac|;
    Parts(b, p, e, n.minus, n.whole + (n.frac + n.power));
    Parts(b, start, e, n.whole, n.frac + n.power);
    Parts(b, w, e, n.frac, n.power);
    hide Written;
    assert n.minus != [] ==> b[p] == b[p..start][0];
    assert n.whole != [] ==> b[start] == b[start..w][0];
    assert n.frac != [] ==> b[w] == b[w..f][0];
    assert n.power != [] ==> b[f] == b[f..e][0];
  }

  /** Every number that nothing continues is scanned to its end. */
  lemma NumberComplete(b: seq<byte>, p: nat, e: nat, n: Number)
    requires p <= e <= |b| && ValidNumber(n) && b[p..e] == Written(n) && Stops(b, e)
    ensures p < e && NumberEnd(b, p) == Some(e)
  {
    hide WholeEnd, FractionEnd, PowerEnd, IsWhole, IsFraction, IsPower, Written;
    var start := p + |n.minus|;
    var w := start + |n.whole|;
    var f := w + |n.frac|;
    Slices(b, p, e, n);
    WholeStart(n.whole);
    if n.frac != [] {
      FractionStart(n.frac);
    }
    if n.power != [] {
      PowerStart(n.power);
    }
    WholeRead(b, start, w);
    FractionRead(b, w, f);
    PowerRead(b, f, e);
  }

  // ---- The scanner's loop ----

  method ScanDigits(b: seq<byte>, p: nat) returns (e: nat)
    requires p <= |b|
    ensures e == DigitsEnd(b, p)
  {
    e := p;
    while e < |b| && Digit(b[e])
      invariant p <= e <= |b| && DigitsEnd(b, p) == DigitsEnd(b, e)
    {
      e := e + 1;
    }
  }

  method ScanWhole(b: seq<byte>, p: nat) returns (r: Option<nat>)
    requires p <= |b|
    ensures r == WholeEnd(b, p)
  {
    if p == |b| || !Digit(b[p]) {
      return None;
    }
    if b[p] == ZERO {
      return Some(p + 1);
    }
    var e := ScanDigits(b, p);
    return Some(e);
  }

  method ScanFraction(b: seq<byte>, p: nat) returns (r: Option<nat>)
    requires p <= |b|
    ensures r == FractionEnd(b, p)
  {
    if p == |b| || b[p] != POINT {
      return Some(p);
    }
    var e := ScanDigits(b, p + 1);
    return if e == p + 1 then None else Some(e);
  }

  method ScanPower(b: seq<byte>, p: nat) returns (r: Option<nat>)
    requires p <= |b|
    ensures r == PowerEnd(b, p)
  {
    if p == |b| || !Exponent(b[p]) {
      return Some(p);
    }
    var first := p + 1;
    if first < |b| && (b[first] == PLUS || b[first] == MINUS) {
      first := first + 1;
    }
    var e := ScanDigits(b, first);
    return if e == first then None else Some(e);
  }

  method ScanNumber(b: seq<byte>, p: nat) returns (r: Option<nat>)
    requires p < |b|
    ensures r == NumberEnd(b, p)
  {
    hide WholeEnd, FractionEnd, PowerEnd;
    r := ScanWhole(b, if b[p] == MINUS then p + 1 else p);
    if r.None? {
      return;
    }
    r := ScanFraction(b, r.value);
    if r.None? {
      return;
    }
    r := ScanPower(b, r.value);
  }
}
