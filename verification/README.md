# Firmingo: a verified model

Firmingo is firmware for the RP2040. One core runs a resident service (USB
network, sessions, uploads); the other runs a replaceable sketch. This project
models the parts whose guarantees hold over whole executions and proves those
guarantees.

| cluster | modules |
|---|---|
| FMS2 capsules: packing, validation, start in an arena, the initial UF2 image | `StatefulImage`, `ImageFaults`, `Installer`, `Uf2`, `Sha256`, `Sha256Example` |
| Two-core replacement: pause handshake, flash, publication, entry calls | `TwoCore`, `TwoCoreRuns`, `ReplacementPolls`, `ReplacementCalls`, `RequestRace`, `BootRuns` |
| Upload transactions driving the replacement | `Upload`, `UploadRuns`, `UploadPolls`, `UploadService` |
| Cross-core console: byte ring, epoch handshake, application endpoint | `Queue`, `Mailbox`, `Console`, `ConsoleIsolation`, `ConsoleOwner`, `ConsoleOutput`, `ConsoleCalls`, `ConsoleStop`, `ConsoleRings`, `Endpoint` |
| FMGO framing, sessions, channel and stream | `Protocol`, `Framing`, `Session`, `SessionInv`, `SessionSteps`, `SessionRuns`, `SessionJson`, `SessionTimes`, `SessionTurns`, `SessionPolls`, `SessionCommands`, `SessionObject` |
| Uploads over sessions: requests, data frames, replies | `FlashRequests`, `FlashTexts`, `UploadWire`, `UploadText`, `ReplyText`, `SessionUploads`, `SessionEnds` |
| Bounded JSON (RFC 8259, RFC 3629) | `JsonText`, `JsonNumber`, `Json`, `JsonAlphabet`, `JsonTokens`, `JsonShape`, `JsonDocument`, `JsonPrint` |
| DHCP lease server (RFC 2131, RFC 2132) | `DhcpOptions`, `Dhcp`, `DhcpRuns`, `DhcpOffers`, `DhcpRequests`, `DhcpReplies`, `DhcpServer` |

## How the model is built

State machines are functions from a state and one action to the next state; a
run is a finite sequence of actions, and the main results are about the state
after any legal run. Where two cores interleave, every atomic load or store,
every flash call and every write of RAM or entry metadata is one step, and the
steps of the two cores interleave freely. What the outside world decides (flash
and transport answers, packets, clocks, the arm input, the text of the hello,
diagnostics, configure and status responses, how the members of a hello or serial
request read) is a parameter, unconstrained unless a hypothesis below says
otherwise. Error replies, upload replies and the reading of flash requests are
exact.

Limits and sizes are named once in the machines, as in the source. The theorems
about them use numbers (1000, 30000, 4096, ...) and times taken from a log of
events, so that they do not depend on those names or on the fields that hold the
times.

Code that updates objects in place is also given as classes whose methods are
proved equal to those functions on their abstract value: the frame decoder, the
session and its channel, the upload service, the JSON document, the lease server,
the byte rings, the arena and the flash page loop.

SHA-256 is an arbitrary function everywhere except in `Sha256`, which proves the
firmware's own implementation equal to folding the block function over the
FIPS 180-4 padding, and in `Sha256Example`, which works out that standard's example.

## Hypotheses

- Sequentially consistent steps: every atomic has one writer.
- `Core1Pause::request()` is three steps (load, load, store). Exclusion over
  whole runs is proved for runs in which no `request()` starts while core 1 is
  between its second check and its `parked` store for a request that has since
  been released (`TwoCore.Timely`). `RequestRace.RequestSafeIff` proves that this is
  exactly what is needed: without it there is a continuation in which flash opens
  while core 1 is outside the park loop. `BootRuns.RaceFromPowerUp` reaches that
  situation from power-up, with core 1 inside a sketch entry. The upload theorem has
  the same hypothesis, on the polls that start a replacement and on no others.
- Console: fewer than 2^32 epoch bumps between two acknowledgements, and the
  endpoint's generation counter not saturated (`Console.Unsaturated`).
- Sessions: live sessions have distinct tokens, one upload service is shared, and
  calls are serialised.
- DHCP: callbacks are serialised, the clock never goes back, and a run lies
  between one initialisation and the next.

## Results worth reading first

- `TwoCoreRuns.MutualExclusion`, `SetupOnceOnFreshRam`, `GenerationsIncrease`,
  `ReplacementOutcomes`, `ReplacementPolls.PollDecisions`, `ReplacementCalls.ParkedPollCompletes`,
  `RequestRace.RequestSafeIff` and `BootRuns.RaceFromPowerUp`.
- `ConsoleIsolation.OutputIsolated`, `ConsoleOutput.OutputInOrder`, `ConsoleOwner.OwnerBytesInOrder`,
  `ConsoleCalls.PollAlone`, `ConsoleRings.RunsOnRings`.
- `StatefulImage.AcceptedIffPacked`, `BootRuns.FirstSetupFindsModule`, `Uf2.CompositeLoads`.
- `SessionRuns.BytesConserved`, `RepliesInOrder`, `Ownership`, `SessionJson.ClosesOnUnreadable`,
  `SessionTimes.TimeoutIff`, `SessionPolls.QuietPoll`, `SessionTurns.TakeTurns`.
- `UploadRuns.Transactions`, `UploadPolls.StagingPoll`, `ReportedPoll`, `SessionUploads.StagedIsAcknowledged`,
  `SessionEnds.StagedHasSession`, `FlashTexts.BeginOnWire`, `UploadWire.ChunkFrame`, `ReplyText.UploadReplyReads`.
- `Json.ParseIff`, `JsonText.TextIff`, `JsonShape.DocumentShape`, `JsonTokens.RootMember`,
  `JsonDocument.Document.ParseText`, `JsonPrint.PrintParses`.
- `DhcpRuns.LeaseSafety`, `DhcpOffers.OfferReservedIff`, `DhcpRequests.RequestAnswers`,
  `DhcpReplies.RepliesSay`, `DhcpOptions.ParseIff`, `OrderAndPadding`.
- `Mailbox.RingIsFifo`, `Protocol.Fragmentation`, `Protocol.EncodeIff`, `Sha256.Digest`,
  `Sha256Example.AbcDigest`.

Three properties one might expect are false of the code. Each has a run that shows
it and the exact condition under which it holds:

- An unconditional `request()` is not safe: `BootRuns.RaceIsReal`, `RequestRace.RequestSafeIff`.
- What `sketch_read` returns in an epoch need not start with the owner's first byte,
  because `stop()` begins an epoch without a new owner: `ConsoleStop.StopSkips`,
  `ConsoleOwner.OwnerBytesInOrder`.
- An OFFER need not reserve its address for `OFFER_MS`, because answering a DISCOVER
  does not extend a lease that is about to end: `DhcpOffers.ShortOffer`,
  `DhcpOffers.OfferReservedIff`.

## Model

| member | source | states |
|---|---|---|
| TwoCoreRuns.MutualExclusion | experiments/managed_sketch/stateful_runtime.cpp:101-158 | In every timely interleaving, while flash is open or core 0 is anywhere between its parked check and its release (so also while it writes the arena or entry metadata), core 1 is inside the park loop; during boot core 1 is in no sketch entry. |
| TwoCore.PauseStep | experiments/managed_sketch/core1_pause.cpp:12-44 | Every step of either core keeps the handshake invariant: parked exactly when core 1 spins or is about to clear, and a replacement under way only while core 1 spins. |
| RequestRace.RequestSafeIff | experiments/managed_sketch/core1_pause.cpp:12-39 | From every state that satisfies the run invariant, so after every timely run, every continuation with this one request keeps flash closed outside the park loop if and only if core 1 is not between its second check and its store for a released request. |
| RequestRace.RaceToFlash | experiments/managed_sketch/core1_pause.cpp:12-39 | The failing continuation itself, from every invariant state with such a stale attempt: core 0 opens flash while core 1 is out of the park loop, and inside a sketch entry when one was published. |
| BootRuns.RaceFromPowerUp | experiments/managed_sketch/stateful_runtime.cpp:44-158 | From power-up with any packed module in the slot and any valid capsule offered: a timely run (boot, request, denial) ends in a stale attempt with the next request allowed, and that request leads to flash open with core 1 inside a sketch entry. |
| BootRuns.RaceIsReal | experiments/managed_sketch/core1_pause.cpp:12-39 | Whatever the hash function, that happens on a concrete device that boots a minimal module. |
| BootRuns.FirstSetupFindsModule | experiments/managed_sketch/stateful_runtime.cpp:32-71 | A slot holding any padded packed module boots, and core 1's first entry call is that module's own setup at its ELF address, with the arena its ELF data followed by zeros. |
| TwoCoreRuns.SetupOnceOnFreshRam | experiments/managed_sketch/stateful_runtime.cpp:20-71 | Over any run setup is called at most once per generation and before its first loop; at setup the whole arena equals that capsule's data followed by zeros; every call uses that capsule's own entry. |
| TwoCoreRuns.GenerationsIncrease | experiments/managed_sketch/stateful_runtime.cpp:20-30 | A newly published generation number exceeds every number published earlier in the run, so none is reused. |
| TwoCoreRuns.ReplacementOutcomes | experiments/managed_sketch/stateful_runtime.cpp:78-158 | Denied and timed-out replacements leave slot, core-0 RAM writes and published generation as at the request; complete means the sector is exactly the captured capsule padded with 0xff and running; something is published exactly when the latest boot or replacement past the stop succeeded; revalidation never fails. |
| ReplacementPolls.PollDecisions | experiments/managed_sketch/stateful_runtime.cpp:132-158 | Over every timely run each poll() of a replacement that returned was decided by what it saw: unarmed means denied; armed and parked means the flash result; not parked means waiting below 1000 ms since the request and timed out from then on; these ends are the outcomes, in order, and a replacement under way holds the image request() was given. |
| ReplacementPolls.WaitChangesNothing | experiments/managed_sketch/stateful_runtime.cpp:138-143 | An armed poll() that does not find core 1 parked changes nothing while less than 1000 ms have passed since the request, and begins to cancel as timed out otherwise. |
| ReplacementCalls.ParkedPollCompletes | experiments/managed_sketch/stateful_runtime.cpp:132-158 | After every timely run, an armed poll() that finds core 1 parked on flash that does what it is asked runs to complete: the sector is exactly the requested image padded with 0xff and it is published as the next generation. |
| ReplacementCalls.RequestAlone | experiments/managed_sketch/stateful_runtime.cpp:78-93 | After every timely run and boot, with no replacement active and a generation number left, an armed request() of a valid image of at most 4096 bytes is taken exactly when core 1 is not still parked, then holds that image and time; refused, it leaves nothing behind. |
| ReplacementCalls.AskedWell | experiments/managed_sketch/stateful_runtime.cpp:78-83 | Over every timely run, a replacement that waits for core 1 was requested after boot, with the arm input on, with an image of at most 4096 bytes, and a generation number is left for it. |
| ReplacementCalls.SoundWork | experiments/managed_sketch/stateful_runtime.cpp:101-158 | Installing and starting a valid capsule on sound flash leaves exactly it in the sector, running as the next generation on its data followed by zeros. |
| TwoCoreRuns.LoopReturnedMeansCameBack | experiments/managed_sketch/stateful_runtime.cpp:58-76 | Over every run loop_returned() holds only of a generation whose loop entry was called and then came back. |
| TwoCoreRuns.InvRun | experiments/managed_sketch/stateful_runtime.cpp:20-158 | The pause, runtime, call and outcome invariants hold after every timely run. |
| TwoCore.RuntimeStep | experiments/managed_sketch/stateful_runtime.cpp:20-71 | Every step keeps the link between published generation, entry metadata, arena and the capsule of the latest generation. |
| TwoCore.ReadBackSpan | experiments/managed_sketch/stateful_runtime.cpp:121-129 | A sector that reads back as the snapshot with an erased tail is exactly the padded snapshot, and start_from_slot finds that span in it. |
| Installer.Install | experiments/managed_sketch/stateful_runtime.cpp:101-130 | A reported success means the sector is exactly the padded valid capsule, whatever the flash does; on flash that does what it is asked a valid capsule is always installed; nothing is touched unless begin agreed. |
| Installer.ProgramPages | experiments/managed_sketch/stateful_runtime.cpp:108-117 | The 256-byte page loop on erased, sound flash leaves exactly the padded image. |
| Installer.Verify | experiments/managed_sketch/stateful_runtime.cpp:121-129 | The readback succeeds if and only if the sector is the padded image and the image is valid. |
| Installer.Generation.Begin | experiments/managed_sketch/stateful_image.cpp:91-116 | Returns the specified result; a failure changes nothing; success leaves the arena as the data followed by zeros and advances the generation. |
| Installer.Generation.Restart | experiments/managed_sketch/stateful_runtime.cpp:20-56 | Stopping and starting from a slot gives the specified result; afterwards the old generation is inactive in every case, a failure keeps its number and bytes, success advances the number by one on fresh RAM. |
| StatefulImage.AcceptedIffPacked | experiments/managed_sketch/stateful_image.cpp:53-89 | validate_image accepts an image if and only if it is the capsule of some linked module the packer accepts for that contract. |
| ImageFaults.ValidateFaults | experiments/managed_sketch/stateful_image.cpp:53-89 | An image is refused with the error of the first of seventeen conditions, in header order, that fails for it, and accepted when none does. |
| StatefulImage.PackedIsAccepted | experiments/managed_sketch/build_stateful_proof.py:184-231 | Every capsule the packer emits validates, and reads back as that module's sizes and entries. |
| StatefulImage.PackedModuleStarts | experiments/managed_sketch/stateful_runtime.cpp:20-48 | A packed module, padded to a sector and started on a wired, disjoint arena, is accepted, leaves RAM as the ELF's data followed by zeros and yields the ELF's setup and loop entries. |
| StatefulImage.AcceptedShape | experiments/managed_sketch/stateful_image.cpp:53-89 | An accepted image has the exact extents its header declares, within the contract, with both entries inside its code. |
| StatefulImage.OverlappingIff | experiments/managed_sketch/stateful_image.cpp:100-106 | The pointer comparison rejects exactly the pairs of spans that share an address. |
| StatefulImage.PaddedSpan | experiments/managed_sketch/stateful_runtime.cpp:32-42 | The slot reader recovers the exact capsule span from a padded sector. |
| StatefulImage.StartedShape | experiments/managed_sketch/stateful_runtime.cpp:20-42 | A successful start used a wired arena, an unexhausted generation counter and an image that validates on its own exact span. |
| StatefulImage.EntryOfSymbol | experiments/managed_sketch/stateful_image.cpp:36-41 | The packer's bounds on an entry symbol imply the validator's test on its Thumb address. |
| Uf2.CompositeLoads | experiments/managed_sketch/compose_stateful_initial.py:34-44 | Loading the composite leaves the first managed sector exactly the padded capsule and every other address as the resident image leaves it. |
| Uf2.Compose | experiments/managed_sketch/compose_stateful_initial.py:34-44 | The renumbering and appending loops build exactly that composite. |
| Uf2.RenumberedSame | experiments/managed_sketch/compose_stateful_initial.py:36-36 | Renumbering a block changes neither its target address nor its payload. |
| Sha256.Digest | experiments/managed_sketch/image.cpp:75-99 | For every message below 2^61 bytes the whole-block loop and the one-or-two-block tail equal folding the block function over the padded message. |
| Sha256.CompressBlock | experiments/managed_sketch/image.cpp:35-63 | The schedule and the round loop on eight variables in place compute the block function. |
| Sha256.ExpandWords | experiments/managed_sketch/image.cpp:36-48 | The two schedule loops fill the array with the message schedule. |
| Sha256.FillTail | experiments/managed_sketch/image.cpp:84-90 | The tail buffer is the rest of the message with its padding. |
| Sha256Example.AbcDigest | experiments/managed_sketch/image.cpp:35-99 | The digest of "abc" is the one FIPS 180-4 gives: constants, word functions, schedule, rounds, padding and output are the standard's. |
| Sha256.PadSplit | experiments/managed_sketch/image.cpp:78-90 | The padded message is the whole blocks followed by that tail. |
| Sha256.FoldAppend | experiments/managed_sketch/image.cpp:79-92 | Folding over a concatenation is folding over its parts in turn. |
| UploadRuns.Transactions | experiments/managed_sketch/stateful_upload.cpp:40-147 | Over every timely run IDs count up without reuse, each follows accepted, verified, committing, installed, boot_confirmed or leaves to failed or aborted, each asks for at most one replacement; installed means the slot holds exactly the in-order chunks, of the declared size and digest, and the running generation was started from them; boot_confirmed means that generation is the published one and a call of its loop entry came back. |
| UploadRuns.InvStep | experiments/managed_sketch/stateful_upload.cpp:113-147 | Every session call, every part of poll and every device step keeps the record, the staged content and the replacement in agreement. |
| UploadRuns.CallMove | experiments/managed_sketch/stateful_upload.cpp:40-112 | A session call makes at most one allowed move or starts the next ID, and never disturbs a commit under way or an installed record. |
| UploadRuns.CallContent | experiments/managed_sketch/stateful_upload.cpp:60-85 | The staging buffer holds the accepted chunks in order, and a verified record's chunks have the declared size and digest. |
| UploadRuns.ClosingMove | experiments/managed_sketch/stateful_upload.cpp:135-146 | Only a complete report installs, only a waiting one keeps the commit open. |
| UploadPolls.StagingPoll | experiments/managed_sketch/stateful_upload.cpp:113-126 | After every timely run, a poll() of a staged transaction fails it, with io_error and an emptied stage, if and only if 30000 ms have passed since the clock at its begin; otherwise only the clock moves. |
| UploadPolls.CommitPoll | experiments/managed_sketch/stateful_upload.cpp:121-134 | A queued commit past that time fails with io_error, unarmed with unauthorized, and in neither case is a replacement asked for; otherwise it is asked for once, with exactly the accepted chunks. |
| UploadPolls.RequestedPoll | experiments/managed_sketch/stateful_upload.cpp:129-135 | A replacement that did not take the request fails the commit with io_error; one that did is polled at the same time, with the stage emptied. |
| UploadPolls.ReportedPoll | experiments/managed_sketch/stateful_upload.cpp:135-146 | The record follows the replacement's report, and the report follows this poll's own arm input, core 1's answer and the time since the request. |
| UploadPolls.SettledPoll | experiments/managed_sketch/stateful_upload.cpp:113-127 | An installed capsule is confirmed by exactly the polls that find its generation published and its loop returned; otherwise only the clock moves. |
| UploadPolls.UnauthorizedMeansUnarmed | experiments/managed_sketch/stateful_upload.cpp:128-142 | No poll ends a transaction as unauthorized while the arm input is on. |
| UploadService.Service.BeginUpload | experiments/managed_sketch/stateful_upload.cpp:40-59 | In place, exactly the specified begin, keeping the record invariant. |
| UploadService.Service.AcceptChunk | experiments/managed_sketch/stateful_upload.cpp:60-71 | In place, exactly the specified chunk: the data lands at its offset in the buffer. |
| UploadService.Service.FinishUpload | experiments/managed_sketch/stateful_upload.cpp:72-85 | In place, exactly the specified finish. |
| UploadService.Service.CommitUpload | experiments/managed_sketch/stateful_upload.cpp:86-94 | In place, exactly the specified commit. |
| UploadService.Service.AbortUpload | experiments/managed_sketch/stateful_upload.cpp:95-102 | In place, exactly the specified abort. |
| UploadService.Service.DisconnectOwner | experiments/managed_sketch/stateful_upload.cpp:107-112 | In place, exactly the specified disconnect. |
| UploadService.Service.PollStart | experiments/managed_sketch/stateful_upload.cpp:113-134 | In place, poll up to its first replacement call, and which call that is. |
| UploadService.Service.PollEnd | experiments/managed_sketch/stateful_upload.cpp:135-146 | In place, poll after the replacement's report. |
| Mailbox.RingIsFifo | experiments/managed_sketch/mailbox.h:28-52 | For every producer and consumer interleaving and any number of bytes, what was popped is a prefix of what was pushed, at most one ring behind. |
| Mailbox.StepRefines | experiments/managed_sketch/mailbox.h:28-52 | Each atomic step of the ring is a step of an unbounded FIFO: nothing, an append, a take or a return of cells. |
| Mailbox.RunRefines | experiments/managed_sketch/mailbox.h:28-52 | The refinement holds at every point of every run, also past 2^32 bytes. |
| Mailbox.Occupancy | experiments/managed_sketch/mailbox.h:15-26 | size() and free_space() are exact for the side that may call them. |
| Mailbox.SpscByteRing.Size | experiments/managed_sketch/mailbox.h:15-20 | The number of bytes held, also when the indexes have wrapped. |
| Mailbox.SpscByteRing.FreeSpace | experiments/managed_sketch/mailbox.h:21-26 | The room left, also when the indexes have wrapped. |
| Mailbox.SpscByteRing.Push | experiments/managed_sketch/mailbox.h:28-39 | Appends the longest prefix that fits. |
| Mailbox.SpscByteRing.Pop | experiments/managed_sketch/mailbox.h:41-52 | Removes and returns the oldest bytes, up to the count asked for. |
| ConsoleIsolation.OutputIsolated | experiments/managed_sketch/console.h:34-118 | Every byte the host received in an opening was accepted by a sketch_write after core 1 acknowledged an epoch begun for that very opening. |
| ConsoleIsolation.OutputOfThisEpoch | experiments/managed_sketch/console.h:86-118 | Every byte core 0 is about to write to the host was written in the current, acknowledged epoch, begun for the host that is connected. |
| ConsoleOutput.OutputInOrder | experiments/managed_sketch/console.h:43-118 | In every epoch the host receives a prefix of the bytes sketch_write stored in that epoch, and never bytes of an earlier epoch after those of a later one; while that epoch's host is connected nothing of it is dropped. |
| ConsoleCalls.PollAlone | experiments/managed_sketch/console.h:86-118 | After every run, poll() that nothing interrupts is one step: it notices a new owner and begins its epoch, or waits for the acknowledgement, or opens the stream, and moves as many bytes each way as fit, in order. |
| ConsoleCalls.StopAlone | experiments/managed_sketch/console.h:120-125 | stop() is one step: both directions off and a new epoch for the same owner, with the sketch's unsent bytes dropped when there is a buffer to drop them into. |
| ConsoleCalls.WriteAlone | experiments/managed_sketch/console.h:43-53 | sketch_write() is one step: with output on, the prefix that fits is queued; otherwise nothing. |
| ConsoleCalls.ReadAlone | experiments/managed_sketch/console.h:60-72 | sketch_read() is one step: with input on, it returns the oldest forwarded byte, if any. |
| ConsoleCalls.BoundaryAlone | experiments/managed_sketch/console.h:34-41 | sketch_boundary() is one step: a new epoch is acknowledged and what was forwarded before is dropped. |
| ConsoleCalls.WriteReachesHost | experiments/managed_sketch/console.h:43-118 | In an open epoch, what sketch_write() accepts is in the host's buffer after the next poll(), behind what was queued and as far as there is room. |
| ConsoleIsolation.InputIsolated | experiments/managed_sketch/console.h:60-118 | Within every epoch sketch_read returns a prefix of the bytes core 0 forwarded in that epoch, and all of those were sent by the owner the epoch was begun for. |
| ConsoleOwner.OwnerBytesInOrder | experiments/managed_sketch/console.h:60-125 | In every epoch sketch_read returns a prefix of what that epoch's owner sent after the first k bytes, where k counts that owner's bytes forwarded in earlier epochs; k is 0 exactly when there are none, and positive for a connected owner only in an epoch begun by stop(); in every other epoch the result is a prefix of all the owner sent. |
| ConsoleStop.StopSkips | experiments/managed_sketch/console.h:120-125 | A legal run with stop() in it: the owner sent two bytes, and in the epoch that stop() began sketch_read returned the second one only. |
| ConsoleRings.RunsOnRings | experiments/managed_sketch/mailbox.h:28-52 | Every console run is, in each direction, a legal run of the interleaved byte ring with the same stream, with the same pushes and pops in progress, and a pop in progress is about to hand over exactly the bytes the console takes. |
| ConsoleRings.ToMoves | experiments/managed_sketch/console.h:60-118 | Every console step does to the ring towards the sketch nothing, a head load, a tail store of the prefix that fits, a tail load, or a head store. |
| ConsoleRings.FromMoves | experiments/managed_sketch/console.h:34-118 | The same for the ring from the sketch. |
| ConsoleIsolation.PollNeverFails | experiments/managed_sketch/console.h:111-117 | poll() never returns false for a short write or a short push. |
| ConsoleIsolation.InvRun | experiments/managed_sketch/console.h:34-125 | The control, endpoint and ring-content invariants hold after every run. |
| Endpoint.Ring.Push | src/core/application.h:61-70 | The two-segment copy appends the prefix that fits to the ring's contents. |
| Endpoint.Ring.Pop | src/core/application.h:71-80 | The two-segment copy removes and returns the oldest bytes. |
| Protocol.Fragmentation | src/core/protocol.cpp:14-47 | Every fragmentation of the concatenated encodings of valid frames yields exactly those frames, in order, and leaves a fresh decoder. |
| Protocol.ConsumeSound | src/core/protocol.cpp:32-47 | Whatever arrives, the frames taken and the unfinished one re-encode to the bytes consumed. |
| Protocol.ConsumeSplit | src/core/protocol.cpp:36-47 | Cutting the input anywhere changes nothing. |
| Protocol.BadHeader | src/core/protocol.cpp:40-45 | An unacceptable header stops the stream at byte 16 with no payload, whatever follows, with the error its fields call for. |
| Framing.HeaderVerdict | src/core/protocol.cpp:14-44 | Byte by byte what a header means: malformed for a wrong magic, nonzero reserved bytes, a type outside 1 to 5, or a request ID that is not zero exactly for types 3 and 5; then the version; then the size. |
| Framing.WireLayout | src/core/protocol.cpp:18-26 | Where every field of an encoded frame stands, in network order. |
| Protocol.FeedValid | src/core/protocol.cpp:32-47 | feed takes no more than the frame needs, makes progress while incomplete, and collects exactly what it took. |
| Protocol.EncodeIff | src/core/protocol.cpp:14-47 | encode refuses exactly the frames that no byte string within the capacity decodes to, and what it writes decodes to that frame alone and leaves a fresh decoder. |
| Protocol.EncodeInto | src/core/protocol.cpp:18-26 | In place, header fields one by one and the payload: the buffer then holds exactly the encoding, which decodes back to the frame; nothing else is touched, and nothing at all on refusal. |
| Protocol.FrameDecoder.Feed | src/core/protocol.cpp:36-47 | In place, exactly the specified feed. |
| Protocol.FrameDecoder.Negotiate | src/core/protocol.cpp:28-31 | In place, exactly the specified negotiation. |
| Protocol.FrameDecoder.StartOver | src/core/protocol.cpp:27-27 | In place, discards the frame or error and keeps the limit. |
| SessionRuns.BytesConserved | src/core/session.cpp:514-535 | While a session owns the channel, the data of the serial frames it decoded is what the backend accepted, then the pending buffer, then the unread rest of the current frame; what was read from the backend is the data of the serial frames queued, then the pending buffer. |
| SessionRuns.RepliesInOrder | src/core/session.cpp:237-575 | What the transport took is always a prefix of whole frames; while the session is running, what came in is whole decoded frames and an unfinished one, and every decoded control or upload frame but the one waiting has exactly one response, with its ID, in order. |
| SessionRuns.Ownership | src/core/session.cpp:28-92 | The channel's owner is nonzero exactly when one session is marked owning it, that session is running, and no upload is accepted, verified or committing; the backend is opened and shut in turn; every session that ended has disconnected its upload exactly once. |
| SessionRuns.RunKeeps | src/core/session.cpp:536-575 | The per-session invariant holds for every session after every run of creates, polls, closes, destructions and upload polls. |
| SessionJson.ClosesOnUnreadable | src/core/session.cpp:255-262 | Over every run, a running session is closing exactly when it has handled a request that is not an acceptable JSON document by the grammar and limits, and every request it handled before its last one was acceptable. |
| SessionJson.DispatchReads | src/core/session.cpp:255-263 | Dispatching a frame starts closing exactly when it is a request the parser refuses. |
| SessionTimes.TimeoutIff | src/core/session.cpp:536-542 | After every run, a poll of a connected session that is not closing ends in a timeout if and only if 5000 ms have passed since its start without hello, 30000 ms since bytes last moved, or 5000 ms since the first byte of an unfinished frame. |
| SessionTimes.ClosingEnds | src/core/session.cpp:539-549 | A closing session ends with a protocol error once its last frame is out or 1000 ms after the unreadable request, and until then goes on sending that frame. |
| SessionTimes.ProgressMeansMoved | src/core/session.cpp:528-535 | A stream poll counts as progress exactly when bytes moved, until a 64-bit byte counter is about to saturate. |
| SessionTurns.TakeTurns | src/core/session.cpp:559-574 | After every run, with a command waiting and nothing queued, the poll of an owning session sends all the backend has for the peer if it is data's turn; otherwise, or with nothing to send, it serves the command, after which it is data's turn. |
| SessionPolls.PumpStays | src/core/stream.cpp:28-71 | A pump with a backend that takes no more than it is offered and gives no more than 256 bytes keeps the session running; the backend gets exactly the bytes it takes, and all it offers goes out as one frame as soon as nothing is queued. |
| SessionPolls.PumpEnds | src/core/stream.cpp:28-71 | With any other backend the session ends with an I/O error and the channel is cleared, shut and free. |
| SessionPolls.ArrivedIs | src/core/session.cpp:543-558 | The transport's part of a poll moves exactly the accepted bytes out and exactly the delivered bytes into the decoder, and does nothing else. |
| SessionPolls.BadHeaderEnds | src/core/session.cpp:559-560 | After every run, a poll that completes an unacceptable header ends the session with a protocol error. |
| SessionPolls.QuietPoll | src/core/session.cpp:536-575 | After every run, a timely poll with nothing to serve leaves the session running and serves nothing; it pumps exactly when the session owns the channel. |
| SessionPolls.CommandServed | src/core/session.cpp:561-574 | A command of a session without the channel is dispatched by the first poll that finds nothing queued; a response or event ends the session. |
| SessionPolls.SerialServed | src/core/session.cpp:238-242 | A serial frame of the owner with data for channel 1 is pumped to the backend; any other serial frame ends the session. |
| SessionPolls.Created | src/core/session.cpp:74-82 | A new session runs exactly when it has a token and a sound identity, starts with nothing decoded, queued or owned, and no other session, channel or upload is affected. |
| SessionPolls.RunningTokens | src/core/session.cpp:74-82 | Over every run no running session has the token zero, which stands for no owner. |
| SessionPolls.CommitFollows | experiments/managed_sketch/stateful_upload.cpp:121-146 | One poll of the service with a queued commit in time: unauthorized when unarmed, io_error when the replacement refuses, and otherwise what its report says, with the stage given up. |
| SessionCommands.HelloRequest | src/core/session.cpp:268-309 | hello is accepted once, for offers of 512 to 65536; the payload limit becomes the smaller of the offer and 4096. |
| SessionCommands.OpenRequest | src/core/session.cpp:469-482 | serial.open is refused with the code of the first thing in its way; otherwise this session owns an empty channel and the backend is opened. |
| SessionCommands.CloseRequest | src/core/session.cpp:483-484 | serial.close by the owner clears the stream, shuts the backend and frees the channel. |
| SessionCommands.ConfigureRequest | src/core/session.cpp:485-499 | Only an idle stream is reconfigured, and only with a complete configuration on a UART. |
| SessionCommands.StatusRequest | src/core/session.cpp:501-512 | serial.status by the owner is answered and changes nothing else; a reply over the peer's limit becomes response_too_large. |
| SessionCommands.SerialRefused | src/core/session.cpp:468-500 | Another channel is wrong_target, a session that does not own the channel invalid_state, serial.control unsupported. |
| SessionCommands.EarlyRequest | src/core/session.cpp:264-266 | A request whose members are unreadable is invalid_argument, anything but hello before hello invalid_state, an unknown method unsupported. |
| SessionCommands.DiagnosticsRequest | src/core/session.cpp:310-312 | Diagnostics are answered exactly when there is memory information, and change nothing. |
| SessionCommands.UninvitedFrames | src/core/session.cpp:238-243 | A response or event from the peer ends the session, and so does a serial frame unless the session is negotiated, owns the channel, and the frame carries data for channel 1. |
| SessionUploads.StagedIsAcknowledged | src/core/session.cpp:244-254 | Over every run of any number of sessions, until a commit takes it, what is staged is exactly the data of the data frames acknowledged since the acknowledged begin, in that order. |
| SessionEnds.StagedHasSession | src/core/session.cpp:85-92 | Over every run, an upload that is accepted or verified belongs to a session that is running and not closing, so it does not outlive it. |
| SessionEnds.EndingUploads | experiments/managed_sketch/stateful_upload.cpp:107-112 | However a session ends, the upload it staged is aborted as disconnected with the stage empty, and any other record is left as it was. |
| SessionEnds.OthersUploadsSafe | src/core/session_upload.cpp:26-91 | After every run, no poll or close of another session changes a staged upload, whatever that session sends. |
| UploadWire.ChunkFrame | src/core/session.cpp:244-254 | A data frame whose payload is upload ID, offset and data, each in its place, is refused with the first applicable of five codes, or else the stage has exactly that data after what was received, and the reply is that record. |
| UploadWire.OtherFrame | src/core/session.cpp:244-254 | Every other data frame is refused: before hello, without a service, with no data or more than 1024 bytes. |
| UploadWire.FlashRefused | src/core/session_upload.cpp:71-76 | Flash requests that do not reach the service are refused with invalid_argument, invalid_state, wrong_target or busy, in that order of precedence, and change nothing. |
| UploadWire.BeginRequest | src/core/session_upload.cpp:77-88 | flash.begin is refused with the first applicable code, or else a fresh transaction with the next ID, the requested size and digest and this session as owner begins on an emptied stage. |
| UploadWire.StatusRequest | src/core/session_upload.cpp:81-88 | flash.status reports the whole record for its ID, and wrong_target for any other. |
| UploadWire.FinishRequest | src/core/session_upload.cpp:82-88 | flash.finish by the owner verifies exactly a complete stage with the declared digest that validates; a wrong digest or image fails the transaction. |
| UploadWire.CommitRequest | src/core/session_upload.cpp:83-88 | flash.commit by the owner queues exactly a verified transaction, with the arm input on. |
| UploadWire.AbortRequest | src/core/session_upload.cpp:84-88 | flash.abort by the owner ends exactly a staged transaction and empties the stage. |
| FlashRequests.ReadFlash | src/core/session_upload.cpp:26-70 | The reader over the token array gives exactly the call that the root object's members ask for: a method among five, exactly the required members, numbers from 1 to 2^32 - 1, texts within their buffers, 64 lower-case hex digits. |
| FlashRequests.Fields | src/core/session_upload.cpp:34-45 | The scan finds the set of known fields that the root object has, and any other key. |
| FlashRequests.MaskIff | src/core/session_upload.cpp:35-54 | The bits found equal the required mask exactly when the object's keys are the required ones. |
| FlashRequests.Unhex | src/core/session_upload.cpp:64-69 | The nibble loop gives the digest, and nothing exactly when some character is no lower-case hex digit. |
| FlashRequests.DigestIff | src/core/session_upload.cpp:7-14 | The hash text that a request must carry for a digest is the one text that replies print for it. |
| FlashTexts.AskedAsPrinted | src/core/session_upload.cpp:26-70 | Any printed record, its members in any order, is parsed and read as the call its members ask for. |
| FlashTexts.PrintedRequest | src/core/session_upload.cpp:26-91 | A frame with such a record reaches the dispatcher as that call. |
| FlashTexts.BeginOnWire | src/core/session_upload.cpp:26-91 | From the text of a begin request with its six members in any order to the record: refused with the first applicable code, or else exactly this size and digest, the next ID and this session as owner. |
| FlashTexts.NamedOnWire | src/core/session_upload.cpp:26-91 | The same for the four other methods, up to the tables above. |
| ReplyText.UploadReplyReads | src/core/session_upload.cpp:7-24 | Every upload reply is a document the firmware's own parser accepts, with ok true and every field of the record under its own key, and no other value there. |
| ReplyText.ErrorReplyReads | src/core/session.cpp:98-103 | Every error reply is such a document, with ok false and the code as code and message. |
| UploadText.ReplyPrints | src/core/session_upload.cpp:15-21 | The formatted reply is the printed record. |
| UploadText.TailFits | src/core/session_upload.cpp:22-24 | Every upload reply fits in 400 bytes, so no peer's limit refuses it. |
| SessionInv.PollKeeps | src/core/session.cpp:536-575 | One poll, whatever the world answers, keeps the session's invariant and answers what it dispatched. |
| SessionInv.DispatchKeeps | src/core/session.cpp:237-513 | Every branch of dispatch answers the waiting request exactly once or ends the session. |
| SessionInv.FlashKeeps | src/core/session_upload.cpp:26-91 | Every branch of dispatch_upload answers once and never stages an upload while the channel is owned. |
| SessionInv.UploadReplyKeeps | src/core/session_upload.cpp:7-24 | An upload reply is one response, an error text or the formatted record. |
| SessionInv.OpenKeeps | src/core/session.cpp:469-484 | serial.open acquires only a free channel with no staged upload, and answers once. |
| SessionInv.OkMeansOwned | src/core/session.cpp:469-484 | serial.open answers ok exactly when it made this session the owner of an empty channel, and serial.close exactly when it gave the channel up. |
| SessionInv.PumpKeeps | src/core/stream.cpp:28-71 | One pump in each direction conserves bytes for every pattern of partial reads and writes. |
| SessionInv.ReadSplits | src/core/session.cpp:514-520 | read() hands over the next bytes of the current serial frame and keeps exactly the rest. |
| SessionInv.FinishKeeps | src/core/session.cpp:85-92 | Every way of ending releases the channel if owned, disconnects the upload at most once and stops all output. |
| SessionInv.ReceiveKeeps | src/core/session.cpp:550-558 | Received bytes are the decoded frames and the unfinished one. |
| SessionInv.FlushKeeps | src/core/session.cpp:543-548 | A partial write moves a prefix of the queued frame to the transport. |
| SessionObject.PeerSession.PollOnce | src/core/session.cpp:536-575 | The session object's poll, field by field, is the specified poll that the run theorems are about. |
| SessionObject.PeerSession.DispatchRequestFrame | src/core/session.cpp:255-513 | In place, exactly the specified dispatch of a control frame, by the JSON document object and its token array. |
| SessionObject.PeerSession.DispatchFlashCall | src/core/session_upload.cpp:71-90 | In place, exactly the specified upload method, calling the upload service object. |
| SessionObject.PeerSession.DispatchChunk | src/core/session.cpp:244-254 | In place, exactly the specified upload frame. |
| SessionObject.PeerSession.AcquireChannel | src/core/session.cpp:28-42 | In place, exactly the specified acquisition. |
| SessionObject.PeerSession.PumpStream | src/core/session.cpp:528-535 | In place, exactly the specified pump over the channel object. |
| SessionObject.PeerSession.WriteData | src/core/session.cpp:521-527 | In place, exactly the specified write: at most one serial frame. |
| SessionObject.PeerSession.CloseNow | src/core/session.cpp:85-91 | In place, exactly the specified close: a session that already ended keeps its result. |
| SessionObject.PeerSession.FinishWith | src/core/session.cpp:85-92 | In place, exactly the specified ending. |
| SessionObject.PeerSession.QueueFrame | src/core/session.cpp:93-97 | In place, exactly the specified queueing. |
| SessionObject.SharedChannel.Release | src/core/session.cpp:50-54 | Clears the stream and shuts the backend only for its owner. |
| JsonAlphabet.Structure | src/core/json.cpp:77-131 | The structural characters, whitespace, literal names and limits are the ones RFC 8259 and the code name. |
| JsonAlphabet.Numbers | src/core/json.cpp:98-150 | So are the characters of numbers. |
| JsonAlphabet.ShortEscapes | src/core/json.cpp:36-40 | The two-character escapes are exactly the eight of RFC 8259 section 7, for the characters it gives. |
| JsonAlphabet.UnicodeEscapes | src/core/json.cpp:5-19 | A \u escape is four hex digits of either case, with their value. |
| JsonAlphabet.SurrogatePairs | src/core/json.cpp:41-48 | A pair of escapes stands for the character whose bits they carry, ten each, above the basic plane. |
| JsonAlphabet.Utf8Table | src/core/json.cpp:65-70 | The length, lead byte and bits of every encoded character are those of RFC 3629 section 3. |
| JsonText.TextIff | src/core/json.cpp:22-76 | A quoted run of proper spellings (raw UTF-8, short escapes, \u escapes, surrogate pairs) is accepted exactly when its characters encode within the limit, and decodes to their UTF-8 bytes whatever the spelling. |
| JsonText.TextSound | src/core/json.cpp:22-76 | Nothing else is accepted. |
| JsonText.SpellsRead | src/core/json.cpp:27-64 | Every spelling of a character, wherever it stands, is read as that character and no further. |
| JsonText.ReadSpells | src/core/json.cpp:27-64 | Whatever is read is a spelling of the character returned. |
| JsonText.SameCharacters | src/core/json.cpp:20-76 | Two strings decode to the same bytes exactly when they spell the same characters. |
| JsonText.Redecoded | src/core/json.cpp:161-165 | Decoding an accepted string again from its own slice gives the same result. |
| JsonText.Utf8Parts | src/core/json.cpp:51-70 | Encoding and the multi-byte decoder are inverse on every scalar value. |
| JsonText.ReadText | src/core/json.cpp:22-76 | The loop decodes exactly the specified text into the buffer, terminated, within its capacity. |
| JsonText.NextChar | src/core/json.cpp:27-64 | The branches of the loop read exactly the specified character. |
| JsonText.ReadHex4 | src/core/json.cpp:11-19 | Four hex digits of either case. |
| JsonNumber.NumberSound | src/core/json.cpp:132-150 | Whatever the scanner accepts is a number of the RFC 8259 grammar. |
| JsonNumber.NumberComplete | src/core/json.cpp:132-150 | Every number of that grammar that nothing continues is scanned to its end. |
| JsonNumber.ScanNumber | src/core/json.cpp:132-150 | The scanner's loops compute that end. |
| Json.ParseIff | src/core/json.cpp:99-160 | parse accepts exactly the RFC 8259 documents within the size, depth, token and string limits whose objects repeat no decoded key, and finds their one tree. |
| Json.ValueSound | src/core/json.cpp:99-153 | A parsed value is grammatical, repeats no key, keeps the depth limit and uses exactly its tokens. |
| Json.ValueComplete | src/core/json.cpp:99-153 | Every such value within the limits is parsed to its own tree. |
| JsonShape.DocumentShape | src/core/json.cpp:81-160 | The token array of every accepted document has at most 96 tokens; the first is the root and spans the array; a later token lies inside an earlier one's subtree, with its parent, subtree and text, or after all of it; a key is followed by its value, and whatever else belongs directly to an object follows its key. |
| JsonShape.ValueNests | src/core/json.cpp:99-153 | The same nesting for the tokens of any value at any place. |
| JsonShape.ValueKeyed | src/core/json.cpp:113-131 | The same pairing of keys and values. |
| JsonTokens.RootMember | src/core/json.cpp:166-173 | find's result is the value of the one root member with the decoded key, right after its key token and with its whole subtree, and nothing exactly when no member has that key. |
| JsonTokens.FoundIsMember | src/core/json.cpp:166-173 | A member is found exactly when it exists, at the place of its own subtree. |
| JsonTokens.SeenKey | src/core/json.cpp:87-95 | In an accepted object a decoded key occurs at most once. |
| JsonDocument.Document.ParseText | src/core/json.cpp:154-160 | Succeeds exactly when the specified parse does, with the token array the preorder of the tree and every token a nonempty slice of the text; a failure leaves no tokens. |
| JsonDocument.Document.Value | src/core/json.cpp:99-153 | Appends exactly the preorder tokens of the value it parsed, with parent, next and key set. |
| JsonDocument.Document.Quoted | src/core/json.cpp:81-97 | Appends one string token and refuses a key that repeats a decoded key of its object. |
| JsonDocument.Document.Find | src/core/json.cpp:166-173 | In every state parse can leave, scanning the tokens finds what walking the root's members finds, and -1 for an empty document, another root or a missing key. |
| JsonDocument.Document.StringAt | src/core/json.cpp:161-165 | Decodes a string token's own slice into the buffer; any other token and any index past the end fail. |
| JsonDocument.Document.Uint32 | src/core/json.cpp:174-184 | Succeeds exactly for the index of a number token that is a plain run of digits below 2^32, with its value. |
| JsonPrint.PrintParses | src/core/json.cpp:154-160 | Every value of numbers, truth values, plain strings and objects without repeated keys, printed, is accepted within the limits and parsed to its own tree. |
| JsonPrint.MemberFound | src/core/json.cpp:166-173 | Looking a printed member up by its key finds its own value at its own place. |
| DhcpRuns.LeaseSafety | src/ports/arduino_pico/local_dhcp.c:113-229 | Over every run, once an OFFER or ACK gives an address none gives it to another client before its promise ends, unless the holder released or declined it; the promise is a whole lease after an ACK, and after an OFFER either OFFER_MS or the end of the lease an earlier, unreturned ACK gave the same client; a declined address goes to nobody for a minute; no client holds two live slots. |
| DhcpRuns.AnsweredLegal | src/ports/arduino_pico/local_dhcp.c:133-169 | Every grant goes to the slot's own client or to a free slot of a client that holds none, never shortens what that client had, and leaves a bound lease alone when it is an offer; every release and decline is by the holder. |
| DhcpOffers.OfferReservedIff | src/ports/arduino_pico/local_dhcp.c:133-229 | After an OFFER, in every continuation the address goes to no other client for OFFER_MS (unless given back), if and only if the offered client did not already hold a lease ending within OFFER_MS. |
| DhcpOffers.ShortOffer | src/ports/arduino_pico/local_dhcp.c:217-229 | A run in which that fails: DISCOVER, REQUEST, and a DISCOVER one millisecond before the lease ends. |
| DhcpOffers.Crowd | src/ports/arduino_pico/local_dhcp.c:134-147 | Once a slot is free, some sequence of DISCOVERs from clients the server does not know brings it to one of them. |
| Dhcp.GrantsAreReplies | src/ports/arduino_pico/local_dhcp.c:175-229 | A sent reply names an address exactly when a grant of that slot to the asking client is recorded, as an offer or a binding; unsent replies grant nothing. |
| Dhcp.ReplyParses | src/ports/arduino_pico/local_dhcp.c:175-205 | Every reply has 300 to 548 bytes and parses back to its own type, this server and the client's identifier. |
| DhcpReplies.RepliesSay | src/ports/arduino_pico/local_dhcp.c:175-229 | Every reply sent carries, each exactly once, its type, this server, the mask unless refused, the client's identifier if it sent one and, exactly when an address is granted, a lease of 600 s, renewal at 300 s and rebinding at 525 s; the fixed fields echo the request; it goes to the client's own address unless refused or zero, else to broadcast; a binding is kept in the table for exactly the lease time the reply states. |
| Dhcp.ItemsMean | src/ports/arduino_pico/local_dhcp.c:190-202 | The options of a reply carry no router, DNS or route option. |
| Dhcp.ReplyAddresses | src/ports/arduino_pico/local_dhcp.c:175-189 | A granting reply names its slot's address and echoes the transaction and hardware address. |
| Dhcp.Decide | src/ports/arduino_pico/local_dhcp.c:141-173 | A granted slot is the client's own, or a free one offered to a client without one. |
| Dhcp.RequestMeans | src/ports/arduino_pico/local_dhcp.c:148-159 | A REQUEST is acknowledged exactly when it asks for the address its client holds; a consistent one for anything else is refused, except that a client with no record and no server identifier asking for a pool address is met with silence. |
| DhcpRequests.Improper | src/ports/arduino_pico/local_dhcp.c:119-129 | A datagram that is not an unrelayed Ethernet BOOTP request of 244 to 548 bytes from port 68 and an individual hardware address, with readable options, for this server or any, changes nothing and is not answered. |
| DhcpRequests.SameClientIff | src/ports/arduino_pico/local_dhcp.c:92-95 | Two messages are from the same client exactly when both carry the same identifier, or neither carries one and the hardware addresses agree. |
| DhcpRequests.DiscoverOffers | src/ports/arduino_pico/local_dhcp.c:134-147 | A DISCOVER is offered its client's own slot, else the first vacant one, for 30 s or as long as it is already bound, and is ignored exactly when there is neither; every other slot only loses what had expired. |
| DhcpRequests.RequestAnswers | src/ports/arduino_pico/local_dhcp.c:148-159 | A coherent REQUEST for the address its client holds is acknowledged and bound for 600 s; any other is refused or, for a client without a slot naming no server, ignored; nothing else changes. |
| DhcpRequests.ReleaseFrees | src/ports/arduino_pico/local_dhcp.c:160-163 | A RELEASE frees exactly the slot its client holds and names, to this server. |
| DhcpRequests.DeclineQuarantines | src/ports/arduino_pico/local_dhcp.c:164-169 | A DECLINE of the held address sets that slot aside for 60 s, and any other DECLINE does nothing. |
| DhcpRequests.OthersHear | src/ports/arduino_pico/local_dhcp.c:170-173 | INFORM from this network is answered without an address; everything else is ignored. |
| DhcpRequests.OneSlotAlways | src/ports/arduino_pico/local_dhcp.c:134-147 | After every run no client holds two slots. |
| Dhcp.Init | src/ports/arduino_pico/local_dhcp.c:237-246 | A network is served if and only if its mask is /24, its server address is neither the network nor the broadcast address, and no pool address equals it; then every slot is free. |
| Dhcp.OwnedIn | src/ports/arduino_pico/local_dhcp.c:134-140 | A slot this client holds, and none exactly when it holds none. |
| Dhcp.FreeIn | src/ports/arduino_pico/local_dhcp.c:134-140 | The first free slot, and none exactly when there is none. |
| DhcpOptions.ParseIff | src/ports/arduino_pico/local_dhcp.c:54-87 | Of an END-terminated stream, exactly those with a message type, no overload, well-sized and unrepeated recognised options are accepted, and the fields are what they carry. |
| DhcpOptions.ParseTerminated | src/ports/arduino_pico/local_dhcp.c:54-87 | Nothing but an in-bounds, END-terminated stream is accepted. |
| DhcpOptions.OrderAndPadding | src/ports/arduino_pico/local_dhcp.c:54-87 | Streams with the same options, whatever their order and padding, read alike. |
| DhcpOptions.ParseOptions | src/ports/arduino_pico/local_dhcp.c:54-87 | The loop computes exactly that reading. |
| DhcpOptions.ReadField | src/ports/arduino_pico/local_dhcp.c:63-83 | The switch accepts exactly a well-sized, unrepeated field and stores it. |
| DhcpOptions.SplitWire | src/ports/arduino_pico/local_dhcp.c:102-105 | Splitting undoes writing, whatever follows END. |
| DhcpServer.LeaseServer.Receive | src/ports/arduino_pico/local_dhcp.c:113-235 | In place, exactly the specified handling: the new lease table and the reply sent. |
| DhcpServer.Scan | src/ports/arduino_pico/local_dhcp.c:134-140 | One pass expires leases and finds the client's slot and the first free one. |
| DhcpServer.Choose | src/ports/arduino_pico/local_dhcp.c:143-173 | The branches by message type make exactly the specified decision. |
| DhcpServer.Build | src/ports/arduino_pico/local_dhcp.c:175-205 | The buffer holds exactly the specified reply. |

## Left out

- FMS1 path (stage, switch, install, its uploader): a simpler parallel of the FMS2 machine that would repeat its lemmas.
- TCP server, TCP echo and UART ports: mostly the contracts of lwIP and the Arduino core; only their calling rules appear, as hypotheses.
- JSON text of the hello, diagnostics, configure and status responses, and the counters in them: any text the environment supplies. Error, success and upload replies are exact.
- request() and serial_configuration() in session.cpp: how the members of a hello or serial request read as a call is an arbitrary function of text and tokens, so the run theorems hold for every such reading. Parsing itself, and the reading of flash requests, are the proved ones; FlashTexts.Understands says that a configuration uses them.
- Host tools, packaging, provenance and ELF table parsing: a linked module enters as its sections, LOAD segments and entry symbols.
- Collision resistance of SHA-256, timing, interrupts and memory-model effects below the stated step granularity.
- Runtime, Replacement, Core1Pause and SketchConsole are given as interleaved steps rather than as classes: the guarantees are about interleavings, which a sequential method cannot express.
- SharedChannel and PeerSession keep the unsent part of each buffer as a sequence; offset and size inside the fixed array, and peak counters, are not modelled. The decoder in a session is a value; its in-place form is FrameDecoder.
- Init: creating and binding the socket, and their errors, are not modelled.
- Received: counters (received, replies, ignored, send_errors) are not modelled; a datagram's copy from the network buffer is one flag.
- Console counters and sketch_available()/sketch_write_available() are not modelled: they change no byte.
- Document::boolean() and child(): easy members, used only by request().
- StreamResult::timeout in Stream::poll: the channel constructs its stream with the idle timeout disabled.
