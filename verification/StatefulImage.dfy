/**
 The FMS2 capsule: the resident's validator, the RAM image a generation starts
 from, and the host-side packer whose output the validator must accept.
 SHA-256 is a parameter here; only its 32-byte result length is used.
 */
module StatefulImage {
  import opened Bytes

  const SLOT_ADDRESS: uint32 := 0x1020_0000
  const CODE_OFFSET := 256
  const CODE_ADDRESS: uint32 := 0x1020_0100
  const MAXIMUM_CAPSULE := 4096
  const HEADER_BYTES := 128
  const BOARD_TAG: uint32 := 0x4f4e_414e
  const SRAM_START: uint32 := 0x2000_0000
  const SRAM_END: uint32 := 0x2004_0000
  const MAX_POINTER := 0xffff_ffff
  const MAGIC: seq<byte> := [0x46, 0x4d, 0x53, 0x32] // "FMS2"

  type Digest = s: seq<byte> | |s| == 32 witness seq(32, _ => 0)
  type Hash = seq<byte> -> Digest

  datatype Contract = Contract(api: uint32, state: uint32, capacity: uint32, maximum: uint32)

  datatype Error =
    | Ok | InvalidContract | ShortHeader | BadMagic | UnsupportedVersion
    | BadHeaderSize | WrongBoard | WrongApi | WrongCodeAddress | BadCodeSize
    | BadEntry | BadDataLayout | BadStateLayout | BadImageSize
    | NonzeroReserved | HeaderHashMismatch | PayloadHashMismatch
    | WrongArena | OverlappingStorage | ActiveGeneration | BadGeneration

  datatype Info = Info(total: uint32, code: uint32, setup: uint32, loop: uint32,
                       load: uint32, data: uint32, bss: uint32)

  const NO_INFO := Info(0, 0, 0, 0, 0, 0, 0)

  datatype Result = Result(error: Error, info: Info)

  function Failed(e: Error): Result {
    Result(e, NO_INFO)
  }

  predicate ValidContract(c: Contract) {
    && 0x1000_0000 <= c.api < SLOT_ADDRESS && c.api % 4 == 0
    && SRAM_START <= c.state < SRAM_END && c.state % 4 == 0
    && c.capacity > 0 && c.capacity % 4 == 0 && c.capacity <= SRAM_END - c.state
    && CODE_OFFSET + 4 <= c.maximum <= MAXIMUM_CAPSULE
  }

  /** A Thumb entry whose first halfword lies inside the code. */
  predicate Entry(address: uint32, bytes: uint32) {
    var instruction := address - address % 2;
    && address % 2 == 1 && instruction >= CODE_ADDRESS
    && instruction - CODE_ADDRESS < bytes && bytes - (instruction - CODE_ADDRESS) >= 2
  }

  /** First failing check wins, in the validator's order. A null image is the empty sequence. */
  function Validate(sha: Hash, image: seq<byte>, c: Contract): Result {
    if !ValidContract(c) then Failed(InvalidContract)
    else if |image| < CODE_OFFSET then Failed(ShortHeader)
    else if |image| > c.maximum then Failed(BadImageSize)
    else if image[..4] != MAGIC then Failed(BadMagic)
    else if GetLe16(image, 4) != 2 then Failed(UnsupportedVersion)
    else if GetLe16(image, 6) != HEADER_BYTES then Failed(BadHeaderSize)
    else if GetLe32(image, 8) != BOARD_TAG then Failed(WrongBoard)
    else if GetLe32(image, 12) != c.api then Failed(WrongApi)
    else if GetLe32(image, 16) != CODE_ADDRESS then Failed(WrongCodeAddress)
    else
      var code := GetLe32(image, 20);
      if code == 0 || code % 4 != 0 || code > c.maximum - CODE_OFFSET then Failed(BadCodeSize)
      else
        var setup, loop := GetLe32(image, 24), GetLe32(image, 28);
        if !Entry(setup, code) || !Entry(loop, code) then Failed(BadEntry)
        else ValidateLayout(sha, image, c, code, setup, loop)
  }

  function ValidateLayout(sha: Hash, image: seq<byte>, c: Contract,
                          code: uint32, setup: uint32, loop: uint32): Result
    requires ValidContract(c) && CODE_OFFSET <= |image| <= c.maximum
    requires code <= c.maximum - CODE_OFFSET
  {
    var data, bss := GetLe32(image, 36), GetLe32(image, 44);
    if GetLe32(image, 32) != c.state || data % 4 != 0 || bss % 4 != 0 ||
       data > c.capacity || bss > c.capacity - data ||
       GetLe32(image, 40) != c.state + data then Failed(BadStateLayout)
    else
      var load := CODE_OFFSET + code;
      if GetLe32(image, 48) != load || data > c.maximum - load then Failed(BadDataLayout)
      else
        var total := load + data;
        if GetLe32(image, 52) != total || |image| != total then Failed(BadImageSize)
        else if GetLe32(image, 56) != 0 || GetLe32(image, 60) != 0 ||
                (exists i :: HEADER_BYTES <= i < CODE_OFFSET && image[i] != 0) then Failed(NonzeroReserved)
        else if sha(image[..96]) != image[96..128] then Failed(HeaderHashMismatch)
        else if sha(image[CODE_OFFSET..]) != image[64..96] then Failed(PayloadHashMismatch)
        else Result(Ok, Info(total, code, setup, loop, load, data, bss))
  }

  // The host packer.

  datatype Symbol = Symbol(address: uint32, globalFunction: bool, inText: bool)
  datatype Load = Load(virtual: uint32, physical: uint32, bytes: seq<byte>)

  /** What the packer reads from a linked ELF. `wellLinked` stands for the allowed-section,
      relocation and undefined-symbol checks. */
  datatype Module = Module(
    wellLinked: bool,
    textAddress: uint32, code: seq<byte>,
    dataAddress: uint32, data: seq<byte>,
    bssAddress: uint32, bss: nat,
    loads: seq<Load>,
    setup: Symbol, loop: Symbol)

  function Thumb(address: uint32): uint32 {
    if address % 2 == 0 then address + 1 else address
  }

  predicate EntrySymbol(s: Symbol, codeBytes: nat) {
    var instruction := Thumb(s.address) - 1;
    s.globalFunction && s.inText && CODE_ADDRESS <= instruction <= CODE_ADDRESS + codeBytes - 2
  }

  function ExpectedLoads(m: Module, c: Contract): seq<Load>
    requires CODE_ADDRESS + |m.code| < WORD_SPAN
  {
    [Load(CODE_ADDRESS, CODE_ADDRESS, m.code)] +
    if m.data == [] then [] else [Load(c.state, CODE_ADDRESS + |m.code|, m.data)]
  }

  predicate Packable(m: Module, c: Contract) {
    && m.wellLinked
    && m.textAddress == CODE_ADDRESS && m.code != [] && |m.code| % 4 == 0
    && m.dataAddress == c.state && m.bssAddress == c.state + |m.data|
    && |m.data| % 4 == 0 && m.bss % 4 == 0
    && |m.data| + m.bss <= c.capacity
    && CODE_OFFSET + |m.code| + |m.data| <= c.maximum <= MAXIMUM_CAPSULE
    && m.loads == ExpectedLoads(m, c)
    && EntrySymbol(m.setup, |m.code|) && EntrySymbol(m.loop, |m.code|)
  }

  function HeaderWords(m: Module, c: Contract): (ws: seq<uint32>)
    requires ValidContract(c) && Packable(m, c)
    ensures |ws| == 16
  {
    [0x3253_4d46, 2 + HEADER_BYTES * 0x1_0000, BOARD_TAG, c.api, CODE_ADDRESS, |m.code|,
     Thumb(m.setup.address), Thumb(m.loop.address),
     c.state, |m.data|, c.state + |m.data|, m.bss,
     CODE_OFFSET + |m.code|, CODE_OFFSET + |m.code| + |m.data|, 0, 0]
  }

  /** Metadata and the payload hash: what the header hash covers. */
  function SignedHeader(sha: Hash, m: Module, c: Contract): (h: seq<byte>)
    requires ValidContract(c) && Packable(m, c)
    ensures |h| == 96
  {
    Words(HeaderWords(m, c)) + sha(m.code + m.data)
  }

  function Capsule(sha: Hash, m: Module, c: Contract): seq<byte>
    requires ValidContract(c) && Packable(m, c)
  {
    var h := SignedHeader(sha, m, c);
    h + sha(h) + Fill(HEADER_BYTES, 0) + (m.code + m.data)
  }

  function ModuleInfo(m: Module, c: Contract): Info
    requires ValidContract(c) && Packable(m, c)
  {
    Info(CODE_OFFSET + |m.code| + |m.data|, |m.code|, Thumb(m.setup.address), Thumb(m.loop.address),
         CODE_OFFSET + |m.code|, |m.data|, m.bss)
  }

  lemma MagicWord(b: seq<byte>)
    requires 8 <= |b|
    ensures GetLe32(b, 0) == 0x3253_4d46 <==> b[..4] == MAGIC
  {
    Le32Inverse(b, 0);
    var s := b[..4];
    assert b[0] == s[0] && b[1] == s[1] && b[2] == s[2] && b[3] == s[3];
    assert Le32(0x3253_4d46) == MAGIC;
  }

  lemma VersionWord(b: seq<byte>)
    requires 8 <= |b|
    ensures GetLe32(b, 4) == 2 + HEADER_BYTES * 0x1_0000 <==> GetLe16(b, 4) == 2 && GetLe16(b, 6) == HEADER_BYTES
  {
    assert GetLe32(b, 4) == GetLe16(b, 4) + 0x1_0000 * GetLe16(b, 6);
  }

  predicate HeaderIs(image: seq<byte>, ws: seq<uint32>) {
    4 * |ws| <= |image| && forall i :: 0 <= i < |ws| ==> GetLe32(image, 4 * i) == ws[i]
  }

  /** The declarative form of acceptance: the header words describe `m`, the rest is its hashes,
      zeros and payload. */
  predicate Describes(sha: Hash, image: seq<byte>, m: Module, c: Contract)
    requires ValidContract(c) && Packable(m, c)
  {
    && |image| == CODE_OFFSET + |m.code| + |m.data|
    && HeaderIs(image, HeaderWords(m, c))
    && sha(image[..96]) == image[96..128]
    && (forall i :: HEADER_BYTES <= i < CODE_OFFSET ==> image[i] == 0)
    && image[CODE_OFFSET..] == m.code + m.data
    && image[64..96] == sha(m.code + m.data)
  }

  lemma DescribedFields(image: seq<byte>, ws: seq<uint32>)
    requires |ws| == 16 && HeaderIs(image, ws)
    ensures GetLe32(image, 0) == ws[0] && GetLe32(image, 4) == ws[1] && GetLe32(image, 8) == ws[2]
    ensures GetLe32(image, 12) == ws[3] && GetLe32(image, 16) == ws[4] && GetLe32(image, 20) == ws[5]
    ensures GetLe32(image, 24) == ws[6] && GetLe32(image, 28) == ws[7] && GetLe32(image, 32) == ws[8]
    ensures GetLe32(image, 36) == ws[9] && GetLe32(image, 40) == ws[10] && GetLe32(image, 44) == ws[11]
    ensures GetLe32(image, 48) == ws[12] && GetLe32(image, 52) == ws[13] && GetLe32(image, 56) == ws[14]
    ensures GetLe32(image, 60) == ws[15]
  {
    assert GetLe32(image, 4 * 0) == ws[0] && GetLe32(image, 4 * 1) == ws[1] && GetLe32(image, 4 * 2) == ws[2];
    assert GetLe32(image, 4 * 3) == ws[3] && GetLe32(image, 4 * 4) == ws[4] && GetLe32(image, 4 * 5) == ws[5];
    assert GetLe32(image, 4 * 6) == ws[6] && GetLe32(image, 4 * 7) == ws[7] && GetLe32(image, 4 * 8) == ws[8];
    assert GetLe32(image, 4 * 9) == ws[9] && GetLe32(image, 4 * 10) == ws[10] && GetLe32(image, 4 * 11) == ws[11];
    assert GetLe32(image, 4 * 12) == ws[12] && GetLe32(image, 4 * 13) == ws[13] && GetLe32(image, 4 * 14) == ws[14];
    assert GetLe32(image, 4 * 15) == ws[15];
  }

  lemma DescribedLayout(sha: Hash, image: seq<byte>, m: Module, c: Contract)
    requires ValidContract(c) && Packable(m, c) && Describes(sha, image, m, c)
    ensures ValidateLayout(sha, image, c, |m.code|, Thumb(m.setup.address), Thumb(m.loop.address)) ==
            Result(Ok, ModuleInfo(m, c))
  {
    hide Join;
    DescribedFields(image, HeaderWords(m, c));
  }

  lemma EntryOfSymbol(s: Symbol, codeBytes: uint32)
    requires EntrySymbol(s, codeBytes)
    ensures Entry(Thumb(s.address), codeBytes)
  {
  }

  lemma DescribedIsAccepted(sha: Hash, image: seq<byte>, m: Module, c: Contract)
    requires ValidContract(c) && Packable(m, c) && Describes(sha, image, m, c)
    ensures |m.code| > 0 && |m.code| % 4 == 0 && CODE_OFFSET + |m.code| <= |image| <= c.maximum
    ensures Validate(sha, image, c) == Result(Ok, ModuleInfo(m, c))
  {
    DescribedLayout(sha, image, m, c);
    EntryOfSymbol(m.setup, |m.code|);
    EntryOfSymbol(m.loop, |m.code|);
    hide Join, ValidateLayout, Entry, EntrySymbol, Thumb, Packable;
    DescribedFields(image, HeaderWords(m, c));
    MagicWord(image);
    VersionWord(image);
  }

  lemma PackedIsDescribed(sha: Hash, m: Module, c: Contract)
    requires ValidContract(c) && Packable(m, c)
    ensures Describes(sha, Capsule(sha, m, c), m, c)
  {
    var image, ws, h := Capsule(sha, m, c), HeaderWords(m, c), SignedHeader(sha, m, c);
    var rest := sha(m.code + m.data) + sha(h) + Fill(HEADER_BYTES, 0) + (m.code + m.data);
    assert image == Words(ws) + rest;
    forall i | 0 <= i < |ws| ensures GetLe32(image, 4 * i) == ws[i] {
      WordsAt(ws, i, rest);
    }
    assert image[..96] == h && image[96..128] == sha(h);
    assert image[64..96] == h[64..] == sha(m.code + m.data);
  }

  /** Everything the packer emits is accepted, with the ELF's own extents and entries. */
  lemma PackedIsAccepted(sha: Hash, m: Module, c: Contract)
    requires ValidContract(c) && Packable(m, c)
    ensures Validate(sha, Capsule(sha, m, c), c) == Result(Ok, ModuleInfo(m, c))
  {
    PackedIsDescribed(sha, m, c);
    DescribedIsAccepted(sha, Capsule(sha, m, c), m, c);
  }

  /** The module an accepted capsule describes. */
  function Unpack(image: seq<byte>, info: Info, c: Contract): Module
    requires info.load + info.data == |image| && CODE_OFFSET <= info.load && CODE_ADDRESS + info.load < WORD_SPAN
    requires info.load == CODE_OFFSET + info.code && c.state + info.data < WORD_SPAN
  {
    var code, data := image[CODE_OFFSET..info.load], image[info.load..];
    var m := Module(true, CODE_ADDRESS, code, c.state, data, c.state + |data|, info.bss, [],
                    Symbol(info.setup, true, true), Symbol(info.loop, true, true));
    m.(loads := ExpectedLoads(m, c))
  }

  lemma AcceptedShape(sha: Hash, image: seq<byte>, c: Contract)
    requires Validate(sha, image, c).error == Ok
    ensures ValidContract(c)
    ensures var info := Validate(sha, image, c).info;
      && |image| == info.total == info.load + info.data <= c.maximum
      && info.load == CODE_OFFSET + info.code && info.data + info.bss <= c.capacity
      && Entry(info.setup, info.code) && Entry(info.loop, info.code)
      && GetLe32(image, 52) == |image|
      && Packable(Unpack(image, info, c), c)
  {
    hide Join;
  }

  lemma AcceptedHeader(sha: Hash, image: seq<byte>, c: Contract)
    requires Validate(sha, image, c).error == Ok
    ensures ValidContract(c) && CODE_OFFSET <= |image|
    ensures var info := Validate(sha, image, c).info;
      && |image| == info.load + info.data <= c.maximum && info.load == CODE_OFFSET + info.code
      && Packable(Unpack(image, info, c), c)
      && HeaderIs(image, HeaderWords(Unpack(image, info, c), c))
    ensures sha(image[..96]) == image[96..128] && sha(image[CODE_OFFSET..]) == image[64..96]
    ensures forall i :: HEADER_BYTES <= i < CODE_OFFSET ==> image[i] == 0
  {
    hide Join;
    AcceptedShape(sha, image, c);
    MagicWord(image);
    VersionWord(image);
  }

  lemma AcceptedIsDescribed(sha: Hash, image: seq<byte>, c: Contract)
    requires Validate(sha, image, c).error == Ok
    ensures ValidContract(c)
    ensures var info := Validate(sha, image, c).info;
      && |image| == info.load + info.data <= c.maximum && info.load == CODE_OFFSET + info.code
      && Packable(Unpack(image, info, c), c)
      && Describes(sha, image, Unpack(image, info, c), c)
  {
    hide Join;
    AcceptedShape(sha, image, c);
    AcceptedHeader(sha, image, c);
    hide Validate;
    var m := Unpack(image, Validate(sha, image, c).info, c);
    assert m.code + m.data == image[CODE_OFFSET..];
  }

  lemma DescribedIsPacked(sha: Hash, image: seq<byte>, m: Module, c: Contract)
    requires ValidContract(c) && Packable(m, c) && Describes(sha, image, m, c)
    ensures Capsule(sha, m, c) == image
  {
    hide Join;
    WordsFrom(HeaderWords(m, c), image);
    assert image[..96] == image[..64] + image[64..96] == SignedHeader(sha, m, c);
    assert image[HEADER_BYTES..CODE_OFFSET] == Fill(HEADER_BYTES, 0);
    assert image == image[..96] + image[96..128] + image[128..256] + image[256..];
  }

  /** The validator accepts exactly the packer's output. */
  lemma AcceptedIffPacked(sha: Hash, image: seq<byte>, c: Contract)
    requires ValidContract(c)
    ensures Validate(sha, image, c).error == Ok <==>
            exists m :: Packable(m, c) && Capsule(sha, m, c) == image
  {
    hide Join;
    if Validate(sha, image, c).error == Ok {
      AcceptedIsDescribed(sha, image, c);
      DescribedIsPacked(sha, image, Unpack(image, Validate(sha, image, c).info, c), c);
    }
    forall m | Packable(m, c) && Capsule(sha, m, c) == image ensures Validate(sha, image, c).error == Ok {
      PackedIsAccepted(sha, m, c);
    }
  }

  // Starting a generation.

  datatype Arena = Arena(address: nat, bytes: nat, mapped: uint32)

  predicate Overlapping(source: nat, size: nat, destination: nat, bytes: nat) {
    || source > MAX_POINTER - size || destination > MAX_POINTER - bytes
    || (if source <= destination then destination - source < size else source - destination < bytes)
  }

  /** With both spans nonempty and inside the address space, the pointer test is exact. */
  lemma OverlappingIff(source: nat, size: nat, destination: nat, bytes: nat)
    requires size > 0 && bytes > 0
    requires source + size <= MAX_POINTER && destination + bytes <= MAX_POINTER
    ensures Overlapping(source, size, destination, bytes) <==>
            exists a :: InSpan(a, source, size) && InSpan(a, destination, bytes)
  {
    var top := if source <= destination then destination else source;
    assert Overlapping(source, size, destination, bytes) ==>
        InSpan(top, source, size) && InSpan(top, destination, bytes);
  }

  predicate InSpan(a: nat, start: nat, bytes: nat) {
    start <= a < start + bytes
  }

  /** The initialized data followed by zeros, up to the end of the arena. */
  function InitialRam(image: seq<byte>, info: Info, capacity: nat): seq<byte>
    requires info.load + info.data <= |image|
  {
    image[info.load..info.load + info.data] + Fill(if info.data <= capacity then capacity - info.data else 0, 0)
  }

  /** The outcome of Generation::begin; every failure precedes the first write. */
  function BeginResult(sha: Hash, active: bool, last: uint32, image: seq<byte>, source: nat,
                       c: Contract, arena: Arena, generation: uint32): Result {
    if active then Failed(ActiveGeneration)
    else if generation == 0 || generation <= last then Failed(BadGeneration)
    else
      var checked := Validate(sha, image, c);
      if checked.error != Ok then checked
      else if arena.address == 0 || arena.bytes != c.capacity || arena.mapped != c.state then Failed(WrongArena)
      else if Overlapping(source, |image|, arena.address, arena.bytes) then Failed(OverlappingStorage)
      else checked
  }

  /** The exact capsule span of a mapped slot, or the reason there is none. */
  function SlotSpan(slot: seq<byte>, c: Contract): (r: (Error, nat))
    ensures r.0 == Ok ==> CODE_OFFSET <= r.1 <= |slot| && r.1 <= c.maximum && r.1 == GetLe32(slot, 52)
    ensures r.0 != Ok ==> r.1 == 0
  {
    if |slot| < CODE_OFFSET then (ShortHeader, 0)
    else
      var bytes := GetLe32(slot, 52);
      if bytes < CODE_OFFSET || bytes > |slot| || bytes > c.maximum || bytes > MAXIMUM_CAPSULE
      then (BadImageSize, 0) else (Ok, bytes)
  }

  lemma StartedShape(sha: Hash, active: bool, last: uint32, slot: seq<byte>, source: nat, c: Contract, arena: Arena)
    ensures var r := StartResult(sha, active, last, slot, source, c, arena);
      r.error == Ok ==>
      && !active && last < WORD_SPAN - 1 && WiredArena(arena, c)
      && r.info.load + r.info.data == r.info.total <= |slot| && r.info.total <= MAXIMUM_CAPSULE
      && r.info.data <= arena.bytes
      && Validate(sha, slot[..r.info.total], c) == r
  {
    hide Join, ValidateLayout;
    var (e, bytes) := SlotSpan(slot, c);
    if e == Ok && Validate(sha, slot[..bytes], c).error == Ok {
      AcceptedShape(sha, slot[..bytes], c);
    }
  }

  /** start_from_slot: which image would run, or the error. */
  function StartResult(sha: Hash, active: bool, last: uint32, slot: seq<byte>, source: nat,
                       c: Contract, arena: Arena): Result {
    var (e, bytes) := SlotSpan(slot, c);
    if e != Ok then Failed(e)
    else if last == WORD_SPAN - 1 then Failed(BadGeneration)
    else BeginResult(sha, active, last, slot[..bytes], source, c, arena, last + 1)
  }

  function Padded(image: seq<byte>): seq<byte>
    requires |image| <= MAXIMUM_CAPSULE
  {
    image + Fill(MAXIMUM_CAPSULE - |image|, 255)
  }

  predicate WiredArena(arena: Arena, c: Contract) {
    arena.address != 0 && arena.bytes == c.capacity && arena.mapped == c.state
  }

  lemma PaddedSpan(sha: Hash, image: seq<byte>, c: Contract)
    requires Validate(sha, image, c).error == Ok
    ensures |image| <= c.maximum <= MAXIMUM_CAPSULE
    ensures SlotSpan(Padded(image), c) == (Ok, |image|) && Padded(image)[..|image|] == image
  {
    hide Join, Validate;
    AcceptedShape(sha, image, c);
    assert GetLe32(Padded(image), 52) == GetLe32(image, 52);
  }

  /** Packing preserves meaning: a packed module, padded to a sector and started on a wired,
      disjoint arena, runs with the ELF's entries on the ELF's data followed by zeros. */
  lemma PackedModuleStarts(sha: Hash, m: Module, c: Contract, source: nat, arena: Arena, last: uint32)
    requires ValidContract(c) && Packable(m, c) && last < WORD_SPAN - 1
    requires WiredArena(arena, c)
    requires !Overlapping(source, |Capsule(sha, m, c)|, arena.address, arena.bytes)
    ensures |Capsule(sha, m, c)| <= MAXIMUM_CAPSULE
    ensures var slot := Padded(Capsule(sha, m, c));
      var r := StartResult(sha, false, last, slot, source, c, arena);
      && r == Result(Ok, ModuleInfo(m, c))
      && r.info.setup == Thumb(m.setup.address) && r.info.loop == Thumb(m.loop.address)
      && InitialRam(slot, r.info, arena.bytes) == m.data + Fill(arena.bytes - |m.data|, 0)
  {
    hide Join, Validate;
    var image := Capsule(sha, m, c);
    PackedIsAccepted(sha, m, c);
    PaddedSpan(sha, image, c);
    var info := ModuleInfo(m, c);
    var slot := Padded(image);
    assert slot[info.load..info.load + info.data] == image[info.load..] == m.data;
  }
}
