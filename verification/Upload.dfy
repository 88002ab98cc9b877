/** The upload transaction record: staging, verification and commit of one capsule at a time. */
module Upload {
  import opened Bytes
  import Image = StatefulImage

  const STAGE := 4096
  const MINIMUM := 260
  const MAX_CHUNK := 1024
  const STAGING_TIMEOUT := 30000
  const TARGET_ID: uint32 := 2

  datatype Error =
    | NoError | Unsupported | InvalidArgument | WrongTarget | InvalidState | Busy
    | Unauthorized | WrongOwner | WrongOffset | Incomplete | DigestMismatch
    | InvalidImage | InsufficientStorage | IoError | Disconnected | ParkTimeout | InstallFailed

  datatype Stage = Accepted | Verified | Committing | Installed | BootConfirmed | Aborted | Failed

  datatype Status = Status(id: uint32, size: uint32, received: uint32, digest: Image.Digest,
                           state: Stage, error: Error, touched: bool)

  type Buffer = s: seq<byte> | |s| == STAGE witness Fill(STAGE, 0)

  datatype Upload = Upload(last: Status, stage: Buffer, owner: uint32, nextId: uint32, now: uint32,
                           stagedAt: uint32, generation: uint32, commitPending: bool)

  const NO_DIGEST: Image.Digest := Fill(32, 0)
  const NO_STATUS := Status(0, 0, 0, NO_DIGEST, Aborted, NoError, false)

  function Fresh(): Upload {
    Upload(NO_STATUS, Fill(STAGE, 0), 0, 1, 0, 0, 0, false)
  }

  /** An upload in one of these states keeps the console closed. */
  predicate Staging(s: Stage) {
    s.Accepted? || s.Verified? || s.Committing?
  }

  predicate BlocksConsole(u: Upload) {
    u.last.id != 0 && Staging(u.last.state)
  }

  function Check(u: Upload, owner: uint32, id: uint32, expected: Stage): Error {
    if id == 0 || id != u.last.id then WrongTarget
    else if owner == 0 || owner != u.owner then WrongOwner
    else if u.last.state != expected then InvalidState
    else NoError
  }

  function Cleared(u: Upload): Upload {
    u.(stage := Fill(STAGE, 0))
  }

  function Fail(u: Upload, e: Error): Upload {
    Cleared(u).(commitPending := false, generation := 0, last := u.last.(state := Stage.Failed, error := e))
  }

  function Begin(u: Upload, c: Image.Contract, armed: bool, replacing: bool, owner: uint32, size: uint32,
                 digest: Image.Digest): (Upload, Error) {
    if !armed then (u, Unauthorized)
    else if BlocksConsole(u) || replacing then (u, Busy)
    else if size > STAGE || size > c.maximum then (u, InsufficientStorage)
    else if owner == 0 || size < MINIMUM || c.maximum != STAGE then (u, InvalidArgument)
    else if u.nextId == 0 then (u, IoError)
    else
      (Cleared(u).(last := NO_STATUS.(id := u.nextId, size := size, state := Accepted, digest := digest),
                   nextId := if u.nextId + 1 == WORD_SPAN then 0 else u.nextId + 1,
                   owner := owner, stagedAt := u.now, generation := 0),
       NoError)
  }

  /** memcpy into the staging buffer; the bounds hold wherever it is used. */
  function Splice(stage: Buffer, at: nat, data: seq<byte>): Buffer {
    if at + |data| <= STAGE then stage[..at] + data + stage[at + |data|..] else stage
  }

  /** The first `size` staged bytes. */
  function Staged(u: Upload): seq<byte> {
    u.stage[..Min(u.last.size, STAGE)]
  }

  function Chunk(u: Upload, owner: uint32, id: uint32, offset: uint32, data: seq<byte>): (Upload, Error) {
    var e := Check(u, owner, id, Accepted);
    if e != NoError then (u, e)
    else if data == [] || |data| > MAX_CHUNK || |data| > u.last.size - u.last.received then (u, InvalidArgument)
    else if offset != u.last.received then (u, WrongOffset)
    else
      (u.(stage := Splice(u.stage, offset, data),
          last := u.last.(received := u.last.received + |data|)),
       NoError)
  }

  function Finish(u: Upload, sha: Image.Hash, c: Image.Contract, owner: uint32, id: uint32): (Upload, Error) {
    var e := Check(u, owner, id, Accepted);
    if e != NoError then (u, e)
    else if u.last.received != u.last.size then (u, Incomplete)
    else if sha(Staged(u)) != u.last.digest then (Fail(u, DigestMismatch), DigestMismatch)
    else if Image.Validate(sha, Staged(u), c).error != Image.Ok then (Fail(u, InvalidImage), InvalidImage)
    else (u.(last := u.last.(state := Verified)), NoError)
  }

  function Commit(u: Upload, armed: bool, owner: uint32, id: uint32): (Upload, Error) {
    var e := Check(u, owner, id, Verified);
    if e != NoError then (u, e)
    else if !armed then (u, Unauthorized)
    else (u.(last := u.last.(state := Committing), commitPending := true), NoError)
  }

  function Abort(u: Upload, owner: uint32, id: uint32): (Upload, Error) {
    if id == 0 || id != u.last.id then (u, WrongTarget)
    else if owner == 0 || owner != u.owner then (u, WrongOwner)
    else if !u.last.state.Accepted? && !u.last.state.Verified? then (u, InvalidState)
    else (Cleared(u).(last := u.last.(state := Aborted)), NoError)
  }

  function Disconnect(u: Upload, owner: uint32): Upload {
    if u.last.id == 0 || owner != u.owner then u
    else if u.last.state.Accepted? || u.last.state.Verified? then
      Cleared(u).(last := u.last.(state := Aborted, error := Disconnected))
    else u
  }

  // ---- poll(), cut where it calls into the replacement ----

  datatype Opening = Done(u: Upload) | Request(u: Upload) | Poll(u: Upload)

  function Elapsed(now: uint32, since: uint32): uint32 {
    if now >= since then now - since else now - since + WORD_SPAN
  }

  /** poll() up to its first replacement call. */
  function PollOpening(u0: Upload, now: uint32, armed: bool, replacing: bool, published: uint32, returned: uint32): Opening {
    var u := u0.(now := now);
    if u.last.id == 0 then Done(u)
    else if u.last.state.Installed? && u.generation != 0 && published == u.generation && returned == published then
      Done(u.(last := u.last.(state := BootConfirmed)))
    else if BlocksConsole(u) && !replacing && Elapsed(now, u.stagedAt) >= STAGING_TIMEOUT then Done(Fail(u, IoError))
    else if !u.last.state.Committing? then Done(u)
    else if !u.commitPending then Poll(u)
    else if !armed then Done(Fail(u.(commitPending := false), Unauthorized))
    else Request(u.(commitPending := false))
  }

  datatype Report = Idle | Waiting | Denied | TimedOut | Failed(touched: bool) | Complete(generation: uint32)

  /** poll() after the replacement has reported. */
  function PollClosing(u: Upload, r: Report): Upload {
    var t := u.(last := u.last.(touched := r.Complete? || (r.Failed? && r.touched)));
    match r
    case Idle => Fail(t, IoError)
    case Waiting => t
    case Denied => Fail(t, Unauthorized)
    case TimedOut => Fail(t, ParkTimeout)
    case Failed(_) => Fail(t, InstallFailed)
    case Complete(g) => t.(generation := g, last := t.last.(state := Installed))
  }

  // ---- What every operation keeps ----

  predicate StageInv(u: Upload) {
    && u.last.received <= u.last.size <= STAGE && (u.last.id == 0 ==> u.last.state.Aborted?)
    && u.nextId == (if u.last.id + 1 == WORD_SPAN then 0 else u.last.id + 1)
    && (u.commitPending ==> u.last.state.Committing?)
    && (BlocksConsole(u) ==> u.owner != 0)
    && (u.last.state.Verified? || u.last.state.Committing? ==> u.last.received == u.last.size)
  }

  /** The moves one upload may make. */
  predicate Moves(from: Stage, to: Stage) {
    match from
    case Accepted => to.Verified? || to.Aborted? || to.Failed?
    case Verified => to.Committing? || to.Aborted? || to.Failed?
    case Committing => to.Installed? || to.Failed?
    case Installed => to.BootConfirmed?
    case BootConfirmed | Aborted | Failed => false
  }
}
