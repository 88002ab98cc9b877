/** Upload as the firmware keeps it: one record and one staging buffer, updated in place. */
module UploadService {
  import opened Bytes
  import Image = StatefulImage
  import opened Upload

  class Service {
    const sha: Image.Hash
    const contract: Image.Contract
    const stage: array<byte>
    var last: Status
    var owner: uint32
    var nextId: uint32
    var now: uint32
    var stagedAt: uint32
    var generation: uint32
    var commitPending: bool

    ghost predicate Valid()
      reads this, stage
    {
      stage.Length == STAGE && StageInv(View())
    }

    ghost function View(): Upload
      requires stage.Length == STAGE
      reads this, stage
    {
      Upload(last, stage[..], owner, nextId, now, stagedAt, generation, commitPending)
    }

    constructor (sha: Image.Hash, contract: Image.Contract)
      ensures Valid() && View() == Fresh() && fresh(stage) && this.sha == sha && this.contract == contract
    {
      this.sha, this.contract := sha, contract;
      stage := new byte[STAGE](_ => 0);
      last, owner, nextId, now, stagedAt, generation, commitPending := NO_STATUS, 0, 1, 0, 0, 0, false;
      new;
      assert stage[..] == Fill(STAGE, 0);
    }

    method ClearStage()
      requires stage.Length == STAGE
      modifies stage
      ensures stage[..] == Fill(STAGE, 0)
    {
      forall i | 0 <= i < STAGE {
        stage[i] := 0;
      }
    }

    method CheckFor(peer: uint32, id: uint32, expected: Stage) returns (e: Error)
      requires stage.Length == STAGE
      ensures e == Check(View(), peer, id, expected)
    {
      if id == 0 || id != last.id {
        return WrongTarget;
      }
      if peer == 0 || peer != owner {
        return WrongOwner;
      }
      return if last.state != expected then InvalidState else NoError;
    }

    method FailWith(e: Error)
      requires stage.Length == STAGE
      modifies this, stage
      ensures View() == Fail(old(View()), e)
    {
      ClearStage();
      commitPending, generation := false, 0;
      last := last.(state := Stage.Failed, error := e);
    }

    method BeginUpload(armed: bool, replacing: bool, peer: uint32, size: uint32, digest: Image.Digest) returns (e: Error)
      requires Valid()
      modifies this, stage
      ensures Valid() && (View(), e) == Begin(old(View()), contract, armed, replacing, peer, size, digest)
    {
      if !armed {
        return Unauthorized;
      }
      if (last.id != 0 && Staging(last.state)) || replacing {
        return Busy;
      }
      if size > STAGE || size > contract.maximum {
        return InsufficientStorage;
      }
      if peer == 0 || size < MINIMUM || contract.maximum != STAGE {
        return InvalidArgument;
      }
      if nextId == 0 {
        return IoError;
      }
      ClearStage();
      last := NO_STATUS.(id := nextId, size := size, state := Accepted, digest := digest);
      nextId := if nextId + 1 == WORD_SPAN then 0 else nextId + 1;
      owner, stagedAt, generation := peer, now, 0;
      return NoError;
    }

    method AcceptChunk(peer: uint32, id: uint32, offset: uint32, data: seq<byte>) returns (e: Error)
      requires Valid()
      modifies this, stage
      ensures Valid() && (View(), e) == Chunk(old(View()), peer, id, offset, data)
    {
      e := CheckFor(peer, id, Accepted);
      if e != NoError {
        return;
      }
      if data == [] || |data| > MAX_CHUNK || |data| > last.size - last.received {
        return InvalidArgument;
      }
      if offset != last.received {
        return WrongOffset;
      }
      ghost var was := stage[..];
      forall i | 0 <= i < |data| {
        stage[offset + i] := data[i];
      }
      assert stage[..] == Splice(was, offset, data);
      last := last.(received := last.received + |data|);
      return NoError;
    }

    method FinishUpload(peer: uint32, id: uint32) returns (e: Error)
      requires Valid()
      modifies this, stage
      ensures Valid() && (View(), e) == Finish(old(View()), sha, contract, peer, id)
    {
      hide Image.Validate;
      e := CheckFor(peer, id, Accepted);
      if e != NoError {
        return;
      }
      if last.received != last.size {
        return Incomplete;
      }
      var image := stage[..last.size];
      assert image == Staged(View());
      if sha(image) != last.digest {
        FailWith(DigestMismatch);
        return DigestMismatch;
      }
      if Image.Validate(sha, image, contract).error != Image.Ok {
        FailWith(InvalidImage);
        return InvalidImage;
      }
      last := last.(state := Verified);
      return NoError;
    }

    method CommitUpload(armed: bool, peer: uint32, id: uint32) returns (e: Error)
      requires Valid()
      modifies this
      ensures Valid() && (View(), e) == Commit(old(View()), armed, peer, id)
    {
      e := CheckFor(peer, id, Verified);
      if e != NoError {
        return;
      }
      if !armed {
        return Unauthorized;
      }
      last, commitPending := last.(state := Committing), true;
      return NoError;
    }

    method AbortUpload(peer: uint32, id: uint32) returns (e: Error)
      requires Valid()
      modifies this, stage
      ensures Valid() && (View(), e) == Abort(old(View()), peer, id)
    {
      if id == 0 || id != last.id {
        return WrongTarget;
      }
      if peer == 0 || peer != owner {
        return WrongOwner;
      }
      if !last.state.Accepted? && !last.state.Verified? {
        return InvalidState;
      }
      ClearStage();
      last := last.(state := Aborted);
      return NoError;
    }

    method DisconnectOwner(peer: uint32)
      requires Valid()
      modifies this, stage
      ensures Valid() && View() == Disconnect(old(View()), peer)
    {
      if last.id == 0 || peer != owner {
        return;
      }
      if last.state.Accepted? || last.state.Verified? {
        ClearStage();
        last := last.(state := Aborted, error := Disconnected);
      }
    }

    /** poll() up to its first replacement call; `call` says which, if any. */
    method PollStart(time: uint32, armed: bool, replacing: bool, published: uint32, returned: uint32) returns (call: NextCall)
      requires Valid()
      modifies this, stage
      ensures Valid() && After(View(), call) == PollOpening(old(View()), time, armed, replacing, published, returned)
    {
      now := time;
      if last.id == 0 {
        return NoCall;
      }
      if last.state.Installed? && generation != 0 && published == generation && returned == published {
        last := last.(state := BootConfirmed);
        return NoCall;
      }
      if Staging(last.state) && !replacing && Elapsed(time, stagedAt) >= STAGING_TIMEOUT {
        FailWith(IoError);
        return NoCall;
      }
      if !last.state.Committing? {
        return NoCall;
      }
      if !commitPending {
        return PollCall;
      }
      commitPending := false;
      if !armed {
        FailWith(Unauthorized);
        return NoCall;
      }
      return RequestCall;
    }

    /** poll() once the replacement has reported. */
    method PollEnd(r: Report)
      requires Valid() && last.state.Committing? && !commitPending
      modifies this, stage
      ensures Valid() && View() == PollClosing(old(View()), r)
    {
      last := last.(touched := r.Complete? || (r.Failed? && r.touched));
      match r
      case Idle => FailWith(IoError);
      case Waiting =>
      case Denied => FailWith(Unauthorized);
      case TimedOut => FailWith(ParkTimeout);
      case Failed(_) => FailWith(InstallFailed);
      case Complete(g) =>
        generation := g;
        last := last.(state := Installed);
    }
  }

  datatype NextCall = NoCall | RequestCall | PollCall

  function After(u: Upload, call: NextCall): Opening {
    match call case NoCall => Done(u) case RequestCall => Request(u) case PollCall => Poll(u)
  }
}
