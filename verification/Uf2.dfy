/** The composite UF2 image: the resident's blocks renumbered, and sixteen more that fill the first managed sector. */
module Uf2 {
  import opened Bytes
  import opened StatefulImage

  const BLOCK := 512
  const PAYLOAD := 256
  const SECTOR_BLOCKS := 16
  const MAGIC_FIRST: uint32 := 0x0a32_4655
  const MAGIC_SECOND: uint32 := 0x9e5d_5157
  const MAGIC_LAST: uint32 := 0x0ab1_6f30
  const FAMILY: uint32 := 0xe48b_ff56
  const FLAGS: uint32 := 0x2000

  type Block = b: seq<byte> | |b| == BLOCK witness Fill(BLOCK, 0)

  function Target(b: Block): uint32 {
    GetLe32(b, 12)
  }

  predicate Covers(b: Block, a: nat) {
    Target(b) <= a < Target(b) + PAYLOAD
  }

  /** What flash holds at an address after loading these blocks in order. */
  function ByteAt(blocks: seq<Block>, a: nat): Option<byte> {
    if blocks == [] then None
    else
      var b := blocks[|blocks| - 1];
      if Covers(b, a) then Some(b[32 + (a - Target(b))]) else ByteAt(blocks[..|blocks| - 1], a)
  }

  function Renumbered(b: Block, number: uint32, total: uint32): Block {
    b[..20] + Le32(number) + Le32(total) + b[28..]
  }

  /** One block of the sector, at an offset. */
  function SectorBlock(sector: seq<byte>, k: nat, number: uint32, total: uint32): Block
    requires |sector| == MAXIMUM_CAPSULE && k < SECTOR_BLOCKS
  {
    Words([MAGIC_FIRST, MAGIC_SECOND, FLAGS, SLOT_ADDRESS + k * PAYLOAD, PAYLOAD, number, total, FAMILY]) +
    sector[k * PAYLOAD..(k + 1) * PAYLOAD] + Fill(220, 0) + Le32(MAGIC_LAST)
  }

  function ResidentBlocks(blocks: seq<Block>, total: uint32): seq<Block>
    requires |blocks| <= total
  {
    seq<Block>(|blocks|, i requires 0 <= i < |blocks| => Renumbered(blocks[i], i, total))
  }

  function SectorBlocks(sector: seq<byte>, count: nat, first: nat, total: uint32): (r: seq<Block>)
    requires |sector| == MAXIMUM_CAPSULE && count <= SECTOR_BLOCKS && first + count <= total
    ensures |r| == count
  {
    seq<Block>(count, k requires 0 <= k < count => SectorBlock(sector, k, first + k, total))
  }

  /** compose(): the whole image. */
  function Composed(resident: seq<Block>, capsule: seq<byte>): seq<Block>
    requires |capsule| <= MAXIMUM_CAPSULE && |resident| + SECTOR_BLOCKS < WORD_SPAN
  {
    var total := |resident| + SECTOR_BLOCKS;
    ResidentBlocks(resident, total) + SectorBlocks(Padded(capsule), SECTOR_BLOCKS, |resident|, total)
  }

  lemma RenumberedSame(b: Block, number: uint32, total: uint32)
    ensures Target(Renumbered(b, number, total)) == Target(b) && Renumbered(b, number, total)[32..288] == b[32..288]
    ensures GetLe32(Renumbered(b, number, total), 20) == number && GetLe32(Renumbered(b, number, total), 24) == total
  {
    hide Join;
    var r := Renumbered(b, number, total);
    assert r[20..24] == Le32(number) && r[24..28] == Le32(total);
    GetLe32Inverse(r, 20, number);
    GetLe32Inverse(r, 24, total);
    assert forall i :: 0 <= i < 20 || 28 <= i < BLOCK ==> r[i] == b[i];
    assert r[32..288] == b[32..288];
  }

  lemma SectorBlockShape(sector: seq<byte>, k: nat, number: uint32, total: uint32)
    requires |sector| == MAXIMUM_CAPSULE && k < SECTOR_BLOCKS
    ensures var b := SectorBlock(sector, k, number, total);
      Target(b) == SLOT_ADDRESS + k * PAYLOAD && b[32..288] == sector[k * PAYLOAD..(k + 1) * PAYLOAD]
  {
    hide Join, Words;
    var ws := [MAGIC_FIRST, MAGIC_SECOND, FLAGS, SLOT_ADDRESS + k * PAYLOAD, PAYLOAD, number, total, FAMILY];
    var rest := sector[k * PAYLOAD..(k + 1) * PAYLOAD] + Fill(220, 0) + Le32(MAGIC_LAST);
    WordsAt(ws, 3, rest);
    var b := SectorBlock(sector, k, number, total);
    assert b == Words(ws) + rest;
  }

  lemma Snoc(blocks: seq<Block>, b: Block, a: nat)
    ensures ByteAt(blocks + [b], a) == if Covers(b, a) then Some(b[32 + (a - Target(b))]) else ByteAt(blocks, a)
  {
    hide Target;
    assert (blocks + [b])[..|blocks|] == blocks;
  }

  /** Renumbering changes nothing that is loaded. */
  lemma {:induction false} ResidentKept(blocks: seq<Block>, n: nat, total: uint32, a: nat)
    requires n <= |blocks| <= total
    ensures ByteAt(ResidentBlocks(blocks, total)[..n], a) == ByteAt(blocks[..n], a)
    decreases n
  {
    hide Target, Renumbered;
    if n > 0 {
      var m := n - 1;
      ResidentKept(blocks, m, total, a);
      var r := Renumbered(blocks[m], m, total);
      RenumberedSame(blocks[m], m, total);
      assert ResidentBlocks(blocks, total)[..n] == ResidentBlocks(blocks, total)[..m] + [r] && blocks[..n] == blocks[..m] + [blocks[m]];
      Snoc(ResidentBlocks(blocks, total)[..m], r, a);
      Snoc(blocks[..m], blocks[m], a);
      if Covers(blocks[m], a) {
        var i := a - Target(blocks[m]);
        assert r[32 + i] == r[32..288][i] && blocks[m][32 + i] == blocks[m][32..288][i];
      }
    }
  }

  lemma {:induction false} SectorLoaded(base: seq<Block>, sector: seq<byte>, count: nat, total: uint32, a: nat)
    requires |sector| == MAXIMUM_CAPSULE && count <= SECTOR_BLOCKS && |base| + count <= total
    ensures ByteAt(base + SectorBlocks(sector, count, |base|, total), a) ==
      if SLOT_ADDRESS <= a < SLOT_ADDRESS + count * PAYLOAD then Some(sector[a - SLOT_ADDRESS]) else ByteAt(base, a)
    decreases count
  {
    hide Target, SectorBlock;
    var all := SectorBlocks(sector, count, |base|, total);
    if count == 0 {
      assert base + all == base;
    } else {
      var k := count - 1;
      SectorLoaded(base, sector, k, total, a);
      var init := SectorBlocks(sector, k, |base|, total);
      var b := SectorBlock(sector, k, |base| + k, total);
      SectorBlockShape(sector, k, |base| + k, total);
      assert all == init + [b];
      assert base + all == base + init + [b];
      Snoc(base + init, b, a);
      if Covers(b, a) {
        var i := a - Target(b);
        assert b[32 + i] == b[32..288][i] == sector[k * PAYLOAD + i];
      }
    }
  }

  /** Loading the composite leaves the first managed sector exactly the capsule padded with erased bytes,
      and every other address exactly as the resident image leaves it. */
  lemma CompositeLoads(resident: seq<Block>, capsule: seq<byte>, a: nat)
    requires |capsule| <= MAXIMUM_CAPSULE && |resident| + SECTOR_BLOCKS < WORD_SPAN
    ensures ByteAt(Composed(resident, capsule), a) ==
      if SLOT_ADDRESS <= a < SLOT_ADDRESS + MAXIMUM_CAPSULE then Some(Padded(capsule)[a - SLOT_ADDRESS])
      else ByteAt(resident, a)
  {
    hide ByteAt, SectorBlocks, ResidentBlocks, Padded;
    var total := |resident| + SECTOR_BLOCKS;
    ResidentSize(resident, total);
    ResidentKept(resident, |resident|, total, a);
    assert resident[..|resident|] == resident;
    var base := ResidentBlocks(resident, total);
    assert base[..|resident|] == base;
    PaddedSize(capsule);
    SectorLoaded(base, Padded(capsule), SECTOR_BLOCKS, total, a);
  }

  lemma ResidentSize(blocks: seq<Block>, total: uint32)
    requires |blocks| <= total
    ensures |ResidentBlocks(blocks, total)| == |blocks|
  {
  }

  lemma PaddedSize(capsule: seq<byte>)
    requires |capsule| <= MAXIMUM_CAPSULE
    ensures |Padded(capsule)| == MAXIMUM_CAPSULE
  {
  }

  /** compose() as it runs: renumber in place, then append. */
  method Compose(resident: seq<Block>, capsule: seq<byte>) returns (blocks: seq<Block>)
    requires |capsule| <= MAXIMUM_CAPSULE && |resident| + SECTOR_BLOCKS < WORD_SPAN
    ensures blocks == Composed(resident, capsule)
  {
    hide Renumbered, SectorBlock, Padded;
    var sector := capsule + Fill(MAXIMUM_CAPSULE - |capsule|, 255);
    assert sector == Padded(capsule) by { PaddedIs(capsule); }
    var n := |resident|;
    var total := n + SECTOR_BLOCKS;
    blocks := resident;
    for i := 0 to n
      invariant |blocks| == n && blocks[..i] == ResidentBlocks(resident, total)[..i] && blocks[i..] == resident[i..]
    {
      assert blocks[i] == blocks[i..][0] == resident[i];
      blocks := blocks[i := Renumbered(blocks[i], i, total)];
    }
    assert blocks == ResidentBlocks(resident, total) by { assert blocks[..n] == blocks; }
    ghost var base := blocks;
    for k := 0 to SECTOR_BLOCKS
      invariant |blocks| == n + k && blocks == base + SectorBlocks(sector, k, n, total)
    {
      blocks := blocks + [SectorBlock(sector, k, |blocks|, total)];
    }
  }

  lemma PaddedIs(capsule: seq<byte>)
    requires |capsule| <= MAXIMUM_CAPSULE
    ensures Padded(capsule) == capsule + Fill(MAXIMUM_CAPSULE - |capsule|, 255)
  {
  }
}
