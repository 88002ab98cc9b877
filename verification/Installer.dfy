/** Writing the managed sector page by page, and starting a generation in its arena, as core 0 does it. */
module Installer {
  import opened Bytes
  import opened StatefulImage
  import opened TwoCore

  const PAGE := 256

  /** The flash driver. A sound one does what it is asked; any other may answer and write anything. */
  class FlashPort {
    var sector: Sector
    const sound: bool

    constructor (sound: bool)
      ensures this.sound == sound
    {
      this.sound := sound;
      sector := Fill(MAXIMUM_CAPSULE, 255);
    }

    method Begin() returns (ok: bool)
      ensures sound ==> ok
    {
      ok := *;
      if sound {
        ok := true;
      }
    }

    method Erase() returns (ok: bool)
      modifies this
      ensures sound ==> ok && sector == Fill(MAXIMUM_CAPSULE, 255)
    {
      ok, sector := *, *;
      if sound {
        ok, sector := true, Fill(MAXIMUM_CAPSULE, 255);
      }
    }

    method Program(at: nat, page: seq<byte>) returns (ok: bool)
      requires at + PAGE <= MAXIMUM_CAPSULE && |page| == PAGE
      modifies this
      ensures sound ==> ok && sector == old(sector)[..at] + page + old(sector)[at + PAGE..]
    {
      var was := sector;
      ok, sector := *, *;
      if sound {
        ok, sector := true, was[..at] + page + was[at + PAGE..];
      }
    }

    method End()
      modifies this
      ensures sound ==> sector == old(sector)
    {
      var was := sector;
      sector := *;
      if sound {
        sector := was;
      }
    }

    method SlotData() returns (present: bool)
      ensures sound ==> present
    {
      present := *;
      if sound {
        present := true;
      }
    }
  }

  datatype InstallResult = Installed | BeginFailed | EraseFailed | ProgramFailed | ReadbackFailed

  /** The sector after the first `at` bytes of a padded image have been programmed onto erased flash. */
  function PartlyWritten(image: seq<byte>, at: nat): Sector
    requires |image| <= MAXIMUM_CAPSULE && at <= MAXIMUM_CAPSULE
  {
    Padded(image)[..at] + Fill(MAXIMUM_CAPSULE - at, 255)
  }

  function PageOf(image: seq<byte>, at: nat): seq<byte>
    requires at <= |image|
  {
    var count := Min(PAGE, |image| - at);
    image[at..at + count] + Fill(PAGE - count, 255)
  }

  lemma PageIsPadded(image: seq<byte>, at: nat)
    requires at < |image| <= MAXIMUM_CAPSULE && at + PAGE <= MAXIMUM_CAPSULE
    ensures PageOf(image, at) == Padded(image)[at..at + PAGE]
  {
    var p := Padded(image);
    assert forall i :: at <= i < at + PAGE ==> p[i] == if i < |image| then image[i] else 255;
  }

  lemma PageAdded(image: seq<byte>, at: nat)
    requires at < |image| <= MAXIMUM_CAPSULE && at + PAGE <= MAXIMUM_CAPSULE
    ensures var s := PartlyWritten(image, at);
      s[..at] + PageOf(image, at) + s[at + PAGE..] == PartlyWritten(image, at + PAGE)
  {
    PageIsPadded(image, at);
    var p, s := Padded(image), PartlyWritten(image, at);
    assert s[..at] == p[..at];
    assert p[..at] + p[at..at + PAGE] == p[..at + PAGE];
    assert s[at + PAGE..] == Fill(MAXIMUM_CAPSULE - at - PAGE, 255);
  }

  lemma AllWritten(image: seq<byte>, at: nat)
    requires |image| <= at <= MAXIMUM_CAPSULE
    ensures PartlyWritten(image, at) == Padded(image)
  {
    var p := Padded(image);
    assert p[at..] == Fill(MAXIMUM_CAPSULE - at, 255);
    assert p == p[..at] + p[at..];
  }

  /** The page loop: on sound flash it leaves exactly the padded image. */
  method ProgramPages(flash: FlashPort, image: seq<byte>) returns (ok: bool)
    requires |image| <= MAXIMUM_CAPSULE
    modifies flash
    ensures flash.sound && old(flash.sector) == Fill(MAXIMUM_CAPSULE, 255) ==> ok && flash.sector == Padded(image)
  {
    hide PageOf, Padded;
    var at := 0;
    ghost var clean := flash.sound && flash.sector == Fill(MAXIMUM_CAPSULE, 255);
    assert clean ==> flash.sector == PartlyWritten(image, 0) by { NoneWritten(image); }
    while at < |image|
      invariant at % PAGE == 0 && at <= MAXIMUM_CAPSULE
      invariant clean ==> flash.sector == PartlyWritten(image, at)
    {
      var count := Min(PAGE, |image| - at);
      var page := image[at..at + count] + Fill(PAGE - count, 255);
      PageIs(image, at, page);
      PageAdded(image, at);
      var written := flash.Program(at, page);
      if !written {
        return false;
      }
      at := at + PAGE;
    }
    AllWritten(image, at);
    return true;
  }

  lemma NoneWritten(image: seq<byte>)
    requires |image| <= MAXIMUM_CAPSULE
    ensures PartlyWritten(image, 0) == Fill(MAXIMUM_CAPSULE, 255)
  {
    assert Padded(image)[..0] == [];
  }

  lemma PageIs(image: seq<byte>, at: nat, page: seq<byte>)
    requires at <= |image| && page == image[at..at + Min(PAGE, |image| - at)] + Fill(PAGE - Min(PAGE, |image| - at), 255)
    ensures page == PageOf(image, at)
  {
  }

  /** The readback: the snapshot, still valid, and nothing but erased bytes after it. */
  method Verify(sha: Hash, contract: Contract, sector: Sector, image: seq<byte>) returns (ok: bool)
    requires |image| <= MAXIMUM_CAPSULE
    ensures ok <==> sector == Padded(image) && Validate(sha, image, contract).error == Ok
  {
    hide Validate;
    var n := |image|;
    if sector[..n] != image || Validate(sha, sector[..n], contract).error != Ok {
      assert Padded(image)[..n] == image;
      return false;
    }
    for at := n to MAXIMUM_CAPSULE
      invariant forall i :: n <= i < at ==> sector[i] == 255
    {
      if sector[at] != 255 {
        assert Padded(image)[at] == 255;
        return false;
      }
    }
    assert sector == sector[..n] + sector[n..] && sector[n..] == Fill(MAXIMUM_CAPSULE - n, 255);
    return true;
  }

  /** install(): on sound flash a valid capsule is always installed; whatever the flash does, a reported
      success means the sector is exactly the padded capsule; and nothing is touched unless begin() agreed. */
  method Install(sha: Hash, contract: Contract, flash: FlashPort, image: seq<byte>) returns (r: InstallResult, touched: bool)
    requires |image| <= MAXIMUM_CAPSULE
    modifies flash
    ensures r.Installed? ==> flash.sector == Padded(image) && Validate(sha, image, contract).error == Ok
    ensures flash.sound && Validate(sha, image, contract).error == Ok ==> r.Installed?
    ensures touched <==> !r.BeginFailed?
    ensures !touched ==> flash.sector == old(flash.sector)
  {
    hide Validate, Padded;
    var begun := flash.Begin();
    if !begun {
      return BeginFailed, false;
    }
    r := Installed;
    var erased := flash.Erase();
    if !erased {
      r := EraseFailed;
    } else {
      var written := ProgramPages(flash, image);
      if !written {
        r := ProgramFailed;
      }
    }
    flash.End();
    if !r.Installed? {
      return r, true;
    }
    var present := flash.SlotData();
    if !present {
      return ReadbackFailed, true;
    }
    var same := Verify(sha, contract, flash.sector, image);
    return if same then Installed else ReadbackFailed, true;
  }

  /** Generation: one arena, cleared and filled for each start. */
  class Generation {
    const arena: Arena
    const ram: array<byte>
    var active: bool
    var last: uint32

    ghost predicate Valid()
      reads this
    {
      ram.Length == arena.bytes
    }

    constructor (arena: Arena)
      ensures Valid() && fresh(ram) && this.arena == arena && !active && last == 0
    {
      this.arena := arena;
      ram := new byte[arena.bytes];
      active, last := false, 0;
    }

    /** begin(): every failure precedes the first write; success leaves the data followed by zeros. */
    method Begin(sha: Hash, image: seq<byte>, source: nat, contract: Contract, generation: uint32) returns (r: Result)
      requires Valid()
      modifies this, ram
      ensures Valid() && r == BeginResult(sha, old(active), old(last), image, source, contract, arena, generation)
      ensures r.error != Ok ==> active == old(active) && last == old(last) && ram[..] == old(ram[..])
      ensures r.error == Ok ==> active && last == generation > old(last) && r.info.load + r.info.data <= |image|
      ensures r.error == Ok ==> ram[..] == InitialRam(image, r.info, arena.bytes)
    {
      hide Validate, Overlapping;
      if active {
        return StatefulImage.Failed(ActiveGeneration);
      }
      if generation == 0 || generation <= last {
        return StatefulImage.Failed(BadGeneration);
      }
      var checked := Validate(sha, image, contract);
      if checked.error != Ok {
        return checked;
      }
      if arena.address == 0 || arena.bytes != contract.capacity || arena.mapped != contract.state {
        return StatefulImage.Failed(WrongArena);
      }
      if Overlapping(source, |image|, arena.address, arena.bytes) {
        return StatefulImage.Failed(OverlappingStorage);
      }
      AcceptedShape(sha, image, contract);
      var info := checked.info;
      forall i | 0 <= i < ram.Length {
        ram[i] := 0;
      }
      forall i | 0 <= i < info.data {
        ram[i] := image[info.load + i];
      }
      assert ram[..] == image[info.load..info.load + info.data] + Fill(arena.bytes - info.data, 0);
      last, active := generation, true;
      return checked;
    }

    method Stop()
      modifies this`active
      ensures !active
    {
      active := false;
    }

    /** stop_quiescent() and then start_from_slot(), as a replacement does: the previous generation is
        gone either way, and a failed start leaves its bytes but nothing active. */
    method Restart(sha: Hash, slot: seq<byte>, source: nat, contract: Contract) returns (r: Result)
      requires Valid()
      modifies this, ram
      ensures Valid() && r == StartResult(sha, false, old(last), slot, source, contract, arena)
      ensures r.error != Ok ==> !active && last == old(last) && ram[..] == old(ram[..])
      ensures r.error == Ok ==>
        var image := slot[..SlotSpan(slot, contract).1];
        && active && last == old(last) + 1 && r.info.load + r.info.data <= |image|
        && ram[..] == InitialRam(image, r.info, arena.bytes)
    {
      hide Validate, Overlapping, GetLe32;
      Stop();
      if |slot| < CODE_OFFSET {
        return StatefulImage.Failed(ShortHeader);
      }
      var bytes := GetLe32(slot, 52);
      if bytes < CODE_OFFSET || bytes > |slot| || bytes > contract.maximum || bytes > MAXIMUM_CAPSULE {
        return StatefulImage.Failed(BadImageSize);
      }
      if last == WORD_SPAN - 1 {
        return StatefulImage.Failed(BadGeneration);
      }
      r := Begin(sha, slot[..bytes], source, contract, last + 1);
    }
  }
}
