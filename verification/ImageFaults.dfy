/** Which error a bad capsule is refused with: that of the first thing wrong with it, in header order. */
module ImageFaults {
  import opened Bytes
  import opened StatefulImage

  /** A header word. */
  function Field(image: seq<byte>, at: nat): int
    requires at + 4 <= |image|
  {
    var b0: int, b1: int, b2: int, b3: int := image[at], image[at + 1], image[at + 2], image[at + 3];
    b0 + 0x100 * b1 + 0x1_0000 * b2 + 0x100_0000 * b3
  }

  /** The first two bytes of an instruction at this odd address lie in code of this size. */
  predicate Runs(address: int, code: int) {
    address % 2 == 1 && 0x1020_0100 <= address - 1 && address + 1 <= 0x1020_0100 + code
  }

  predicate SoundContract(c: Contract) {
    && 0x1000_0000 <= c.api < 0x1020_0000 && c.api % 4 == 0 && 0x2000_0000 <= c.state && c.state % 4 == 0
    && 0 < c.capacity && c.capacity % 4 == 0 && c.state + c.capacity <= 0x2004_0000 && 260 <= c.maximum <= 4096
  }

  const FAULTS: seq<Error> :=
    [InvalidContract, ShortHeader, BadImageSize, BadMagic, UnsupportedVersion, BadHeaderSize, WrongBoard, WrongApi, WrongCodeAddress,
     BadCodeSize, BadEntry, BadStateLayout, BadDataLayout, BadImageSize, NonzeroReserved, HeaderHashMismatch, PayloadHashMismatch]

  /** What must hold not to be refused with the k-th of these. */
  predicate Passes(sha: Hash, image: seq<byte>, c: Contract, k: nat) {
    match k
    case 0 => SoundContract(c)
    case 1 => |image| >= 256
    case 2 => |image| <= c.maximum
    case _ => |image| >= 256 && HeaderPasses(sha, image, c, k)
  }

  predicate HeaderPasses(sha: Hash, image: seq<byte>, c: Contract, k: nat)
    requires |image| >= 256
  {
    var code, data, bss := Field(image, 20), Field(image, 36), Field(image, 44);
    match k
    case 3 => image[0] == 'F' as int && image[1] == 'M' as int && image[2] == 'S' as int && image[3] == '2' as int
    case 4 => image[4] == 2 && image[5] == 0
    case 5 => image[6] == 128 && image[7] == 0
    case 6 => Field(image, 8) == 0x4f4e_414e
    case 7 => Field(image, 12) == c.api
    case 8 => Field(image, 16) == 0x1020_0100
    case 9 => code != 0 && code % 4 == 0 && 256 + code <= c.maximum
    case 10 => Runs(Field(image, 24), code) && Runs(Field(image, 28), code)
    case 11 =>
      && Field(image, 32) == c.state && data % 4 == 0 && bss % 4 == 0 && data + bss <= c.capacity
      && Field(image, 40) == c.state + data
    case 12 => Field(image, 48) == 256 + code && 256 + code + data <= c.maximum
    case 13 => Field(image, 52) == |image| && |image| == 256 + code + data
    case 14 => (forall i :: 56 <= i < 64 ==> image[i] == 0) && (forall i :: 128 <= i < 256 ==> image[i] == 0)
    case 15 => sha(image[..96]) == image[96..128]
    case _ => sha(image[256..]) == image[64..96]
  }

  /** The first of the checks from the k-th on that fails. */
  function FirstFault(sha: Hash, image: seq<byte>, c: Contract, k: nat): Error
    decreases 17 - k
  {
    if k >= 17 then Ok else if !Passes(sha, image, c, k) then FAULTS[k] else FirstFault(sha, image, c, k + 1)
  }

  lemma FieldIs(image: seq<byte>, at: nat)
    requires at + 4 <= |image|
    ensures GetLe32(image, at) == Field(image, at)
  {
  }

  lemma ZeroField(image: seq<byte>, at: nat)
    requires at + 4 <= |image|
    ensures Field(image, at) == 0 <==> image[at] == image[at + 1] == image[at + 2] == image[at + 3] == 0
  {
  }

  lemma HalfIs(image: seq<byte>, at: nat, low: byte)
    requires at + 2 <= |image|
    ensures GetLe16(image, at) == low <==> image[at] == low && image[at + 1] == 0
  {
  }

  lemma MagicIs(image: seq<byte>)
    requires |image| >= 256
    ensures image[..4] == MAGIC <==> image[0] == 'F' as int && image[1] == 'M' as int && image[2] == 'S' as int && image[3] == '2' as int
  {
    assert image[..4] == [image[0], image[1], image[2], image[3]];
  }

  lemma EntryIs(address: uint32, code: uint32)
    ensures Entry(address, code) <==> Runs(address, code)
  {
  }

  lemma ContractIs(c: Contract)
    ensures ValidContract(c) <==> SoundContract(c)
  {
  }

  lemma Unfold(sha: Hash, image: seq<byte>, c: Contract, k: nat)
    requires k < 17
    ensures FirstFault(sha, image, c, k) == if !Passes(sha, image, c, k) then FAULTS[k] else FirstFault(sha, image, c, k + 1)
  {
    hide Passes;
  }

  lemma HashFaults(sha: Hash, image: seq<byte>, c: Contract)
    requires |image| >= 256
    ensures FirstFault(sha, image, c, 15) ==
      if sha(image[..96]) != image[96..128] then HeaderHashMismatch else if sha(image[256..]) != image[64..96] then PayloadHashMismatch else Ok
  {
    hide FirstFault;
    Unfold(sha, image, c, 15);
    Unfold(sha, image, c, 16);
    assert FirstFault(sha, image, c, 17) == Ok by { NoMore(sha, image, c); }
  }

  lemma NoMore(sha: Hash, image: seq<byte>, c: Contract)
    ensures FirstFault(sha, image, c, 17) == Ok
  {
  }

  /** The layout half of the checks. */
  lemma LayoutFaults(sha: Hash, image: seq<byte>, c: Contract)
    requires ValidContract(c) && 256 <= |image| <= c.maximum && HeaderPasses(sha, image, c, 9)
    ensures GetLe32(image, 20) <= c.maximum - 256
    ensures ValidateLayout(sha, image, c, GetLe32(image, 20), GetLe32(image, 24), GetLe32(image, 28)).error == FirstFault(sha, image, c, 11)
  {
    hide GetLe32, Field, FirstFault;
    FieldIs(image, 20);
    FieldIs(image, 32);
    FieldIs(image, 36);
    FieldIs(image, 40);
    FieldIs(image, 44);
    FieldIs(image, 48);
    FieldIs(image, 52);
    FieldIs(image, 56);
    FieldIs(image, 60);
    ZeroField(image, 56);
    ZeroField(image, 60);
    Unfold(sha, image, c, 11);
    Unfold(sha, image, c, 12);
    Unfold(sha, image, c, 13);
    Unfold(sha, image, c, 14);
    HashFaults(sha, image, c);
    assert (exists i :: 128 <= i < 256 && image[i] != 0) <==> !(forall i :: 128 <= i < 256 ==> image[i] == 0);
  }

  /** The fields that identify the capsule and its place. */
  lemma TagFaults(sha: Hash, image: seq<byte>, c: Contract)
    requires |image| >= 256
    ensures FirstFault(sha, image, c, 3) ==
      if image[..4] != MAGIC then BadMagic
      else if GetLe16(image, 4) != 2 then UnsupportedVersion
      else if GetLe16(image, 6) != 128 then BadHeaderSize
      else if GetLe32(image, 8) != 0x4f4e_414e then WrongBoard
      else if GetLe32(image, 12) != c.api then WrongApi
      else if GetLe32(image, 16) != 0x1020_0100 then WrongCodeAddress
      else FirstFault(sha, image, c, 9)
  {
    hide GetLe32, GetLe16, Field, FirstFault;
    MagicIs(image);
    HalfIs(image, 4, 2);
    HalfIs(image, 6, 128);
    FieldIs(image, 8);
    FieldIs(image, 12);
    FieldIs(image, 16);
    Unfold(sha, image, c, 3);
    Unfold(sha, image, c, 4);
    Unfold(sha, image, c, 5);
    Unfold(sha, image, c, 6);
    Unfold(sha, image, c, 7);
    Unfold(sha, image, c, 8);
  }

  /** validate_image() refuses an image with the first thing wrong with it, and accepts it when nothing is. */
  lemma ValidateFaults(sha: Hash, image: seq<byte>, c: Contract)
    ensures Validate(sha, image, c).error == FirstFault(sha, image, c, 0)
  {
    hide GetLe32, GetLe16, Field, FirstFault, ValidateLayout, Entry, Runs, ValidContract, SoundContract;
    ContractIs(c);
    Unfold(sha, image, c, 0);
    Unfold(sha, image, c, 1);
    Unfold(sha, image, c, 2);
    if |image| >= 256 {
      TagFaults(sha, image, c);
      FieldIs(image, 20);
      FieldIs(image, 24);
      FieldIs(image, 28);
      EntryIs(GetLe32(image, 24), GetLe32(image, 20));
      EntryIs(GetLe32(image, 28), GetLe32(image, 20));
      Unfold(sha, image, c, 9);
      Unfold(sha, image, c, 10);
      if ValidContract(c) && |image| <= c.maximum && HeaderPasses(sha, image, c, 9) {
        LayoutFaults(sha, image, c);
      }
    }
  }
}
