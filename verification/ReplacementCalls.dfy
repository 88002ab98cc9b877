/**
 Replacement calls that nothing interrupts, on flash that does what it is asked:
 request() succeeds unless core 1 is still parked, and a poll() that finds core 1
 parked installs and starts the captured capsule.
 */
module ReplacementCalls {
  import opened Bytes
  import opened StatefulImage
  import opened TwoCore
  import opened TwoCoreRuns
  import opened ReplacementPolls
  import Installer
  import Boot = BootRuns

  // ---- Sound flash ----

  /** The sector after one page has been programmed. */
  function WithPage(slot: Sector, at: nat, staged: seq<byte>): Sector {
    if at <= |staged| && at + Installer.PAGE <= MAXIMUM_CAPSULE then
      slot[..at] + Installer.PageOf(staged, at) + slot[at + Installer.PAGE..]
    else slot
  }

  function SoundPort(d: Device, staged: seq<byte>, w: Work): Port {
    Port(true, true,
         match w
         case FlashErase => Fill(MAXIMUM_CAPSULE, 255)
         case FlashProgram(at) => WithPage(d.slot, at, staged)
         case _ => d.slot)
  }

  function Rank(w: Work): nat {
    match w
    case Revalidate => 14 case StopPublished => 13 case StopReturned => 12 case StopGeneration => 11
    case FlashBegin => 10 case FlashErase => 9 case FlashProgram(_) => 8 case FlashEnd(_) => 7 case Readback => 6
    case Start(_) => 5 case ClearArena(_) => 5 case CopyData(_) => 4 case SetImage(_) => 3 case ResetReturned => 2
    case Publish => 1 case Finish(_) => 0
  }

  function Remaining(w: Work, n: nat): nat {
    match w case FlashProgram(at) => Max(0, n - at) case Start(_) => 1 case _ => 0
  }

  lemma WorkEnds(cfg: Config, d: Device, staged: seq<byte>, w: Work, port: Port)
    requires !w.Finish?
    ensures var w' := WorkNext(cfg, d, staged, w, port).1;
      Rank(w') < Rank(w) || (Rank(w') == Rank(w) && Remaining(w', |staged|) < Remaining(w, |staged|))
  {
    hide Accepted, ReadsBack, Started, InitialRam;
  }

  /** The work from here to its end on sound flash. */
  function Worked(cfg: Config, d: Device, staged: seq<byte>, w: Work): (r: (Device, Work))
    ensures r.1.Finish?
    decreases Rank(w), Remaining(w, |staged|)
  {
    if w.Finish? then (d, w)
    else
      WorkEnds(cfg, d, staged, w, SoundPort(d, staged, w));
      var (d', w') := WorkNext(cfg, d, staged, w, SoundPort(d, staged, w));
      Worked(cfg, d', staged, w')
  }

  lemma Unfold(cfg: Config, d: Device, staged: seq<byte>, w: Work)
    requires !w.Finish?
    ensures var (d', w') := WorkNext(cfg, d, staged, w, SoundPort(d, staged, w));
      Worked(cfg, d, staged, w) == Worked(cfg, d', staged, w')
  {
    hide WorkNext;
    WorkEnds(cfg, d, staged, w, SoundPort(d, staged, w));
  }

  lemma Finished(cfg: Config, d: Device, staged: seq<byte>, w: Work)
    requires w.Finish?
    ensures Worked(cfg, d, staged, w) == (d, w)
  {
  }

  // ---- The work on sound flash ----

  lemma StopsWork(cfg: Config, d: Device, staged: seq<byte>)
    requires Accepted(cfg, staged)
    ensures Worked(cfg, d, staged, Revalidate) ==
      Worked(cfg, d.(published := 0, returned := 0, active := false, image := NO_INFO), staged, FlashBegin)
  {
    hide Worked, Accepted;
    Unfold(cfg, d, staged, Revalidate);
    Unfold(cfg, d, staged, StopPublished);
    var d1 := d.(published := 0);
    Unfold(cfg, d1, staged, StopReturned);
    Unfold(cfg, d1.(returned := 0), staged, StopGeneration);
  }

  lemma {:induction false} ProgramsWork(cfg: Config, d: Device, staged: seq<byte>, at: nat)
    requires at < |staged| <= MAXIMUM_CAPSULE && at % 256 == 0 && d.slot == Installer.PartlyWritten(staged, at)
    ensures Worked(cfg, d, staged, FlashProgram(at)) ==
      Worked(cfg, d.(slot := Padded(staged)), staged, FlashEnd(true))
    decreases |staged| - at
  {
    hide Worked, Padded, Installer.PageOf, Installer.PartlyWritten;
    Unfold(cfg, d, staged, FlashProgram(at));
    Installer.PageAdded(staged, at);
    var d' := d.(slot := Installer.PartlyWritten(staged, at + 256));
    if at + 256 < |staged| {
      ProgramsWork(cfg, d', staged, at + 256);
    } else {
      Installer.AllWritten(staged, at + 256);
    }
  }

  lemma FlashesWork(cfg: Config, d: Device, staged: seq<byte>)
    requires Accepted(cfg, staged) && |staged| <= MAXIMUM_CAPSULE
    ensures Worked(cfg, d, staged, FlashBegin) ==
      Worked(cfg, d.(slot := Padded(staged), flashOpen := false), staged, Start(MAXIMUM_CAPSULE))
  {
    AcceptedNonempty(cfg, staged);
    hide Worked, Accepted;
    Unfold(cfg, d, staged, FlashBegin);
    var d1 := d.(flashOpen := true);
    Unfold(cfg, d1, staged, FlashErase);
    Installer.NoneWritten(staged);
    ProgramsWork(cfg, d1.(slot := Fill(MAXIMUM_CAPSULE, 255)), staged, 0);
    var d2 := d1.(slot := Padded(staged));
    Unfold(cfg, d2, staged, FlashEnd(true));
    var d3 := d2.(flashOpen := false);
    assert d3 == d.(slot := Padded(staged), flashOpen := false);
    assert Padded(staged)[..|staged|] == staged;
    Unfold(cfg, d3, staged, Readback);
  }

  /** What the device is after this capsule was started as the next generation. */
  function Launched(cfg: Config, d: Device, staged: seq<byte>, info: Layout): Device
    requires d.last < WORD_SPAN - 1
  {
    d.(published := d.last + 1, returned := 0, active := true, last := d.last + 1, image := info,
       ram := InitialRam(d.slot, info, cfg.arena.bytes), images := d.images + [staged], writes := d.writes + 2)
  }

  lemma PublishesWork(cfg: Config, d: Device, staged: seq<byte>, info: Layout)
    ensures Worked(cfg, d, staged, SetImage(info)) == (d.(image := info, returned := 0, published := d.last), Finish(Complete))
  {
    hide Worked, Started, InitialRam;
    Unfold(cfg, d, staged, SetImage(info));
    var d1 := d.(image := info);
    Unfold(cfg, d1, staged, ResetReturned);
    var d2 := d1.(returned := 0);
    Unfold(cfg, d2, staged, Publish);
    Finished(cfg, d2.(published := d.last), staged, Finish(Complete));
  }

  lemma StartsWork(cfg: Config, d: Device, staged: seq<byte>, info: Layout)
    requires Started(cfg, d, MAXIMUM_CAPSULE, true) == Result(Ok, info) && d.slot[..info.total] == staged
    requires d.last < WORD_SPAN - 1
    ensures Worked(cfg, d, staged, Start(MAXIMUM_CAPSULE)) == (Launched(cfg, d, staged, info), Finish(Complete))
  {
    hide Worked, Started, InitialRam, Wrap32;
    assert Wrap32(d.last + 1) == d.last + 1 by { SmallWrap(d.last + 1); }
    Unfold(cfg, d, staged, Start(MAXIMUM_CAPSULE));
    Unfold(cfg, d, staged, ClearArena(info));
    var d1 := d.(ram := Fill(cfg.arena.bytes, 0), writes := d.writes + 1);
    Unfold(cfg, d1, staged, CopyData(info));
    PublishesWork(cfg, d1.(ram := InitialRam(d.slot, info, cfg.arena.bytes), writes := d.writes + 2, last := d.last + 1,
                           active := true, images := d.images + [staged]), staged, info);
  }

  lemma SmallWrap(x: uint32)
    ensures Wrap32(x) == x
  {
  }

  /** The arena is wired and apart from this capsule's place in flash. */
  predicate Fits(cfg: Config, staged: seq<byte>) {
    && |staged| <= MAXIMUM_CAPSULE && WiredArena(cfg.arena, cfg.contract)
    && !Overlapping(cfg.slotPointer, |staged|, cfg.arena.address, cfg.arena.bytes)
  }

  lemma PaddedStarts(cfg: Config, d: Device, staged: seq<byte>)
    requires Accepted(cfg, staged) && Fits(cfg, staged) && d.slot == Padded(staged) && !d.active && d.last < WORD_SPAN - 1
    ensures Started(cfg, d, MAXIMUM_CAPSULE, true) == Validate(cfg.sha, staged, cfg.contract)
    ensures Validate(cfg.sha, staged, cfg.contract).info.total == |staged| && d.slot[..|staged|] == staged
  {
    hide Validate, Overlapping;
    PaddedSpan(cfg.sha, staged, cfg.contract);
    AcceptedShape(cfg.sha, staged, cfg.contract);
    assert d.slot[..MAXIMUM_CAPSULE] == d.slot;
  }

  /** Installing and starting a valid capsule on sound flash leaves exactly that capsule in the sector and
      running as the next generation, on its data followed by zeros. */
  lemma SoundWork(cfg: Config, d: Device, staged: seq<byte>)
    requires Accepted(cfg, staged) && Fits(cfg, staged) && d.last < WORD_SPAN - 1
    ensures var (t, w) := Worked(cfg, d, staged, Revalidate);
      && w == Finish(Complete) && t.slot == Padded(staged) && !t.flashOpen
      && t.published == t.last == d.last + 1 && t.returned == 0 && t.active && t.images == d.images + [staged]
      && var info := Validate(cfg.sha, staged, cfg.contract).info;
         t.image == info && t.ram == InitialRam(t.slot, info, cfg.arena.bytes)
  {
    hide Worked, Accepted, Fits, Validate, InitialRam, Started;
    StopsWork(cfg, d, staged);
    var d1 := d.(published := 0, returned := 0, active := false, image := NO_INFO);
    assert |staged| <= MAXIMUM_CAPSULE by { FitsSize(cfg, staged); }
    FlashesWork(cfg, d1, staged);
    var d2 := d1.(slot := Padded(staged), flashOpen := false);
    PaddedStarts(cfg, d2, staged);
    var info := Validate(cfg.sha, staged, cfg.contract).info;
    assert Validate(cfg.sha, staged, cfg.contract) == Result(Ok, info) by { AcceptedMeans(cfg, staged); }
    AcceptedShape(cfg.sha, staged, cfg.contract);
    StartsWork(cfg, d2, staged, info);
  }

  lemma FitsSize(cfg: Config, staged: seq<byte>)
    requires Fits(cfg, staged)
    ensures |staged| <= MAXIMUM_CAPSULE
  {
  }

  lemma AcceptedMeans(cfg: Config, staged: seq<byte>)
    requires Accepted(cfg, staged)
    ensures Validate(cfg.sha, staged, cfg.contract).error == Ok
  {
    hide Validate;
  }

  // ---- Whole calls ----

  /** Core 0 alone, from inside a replacement to the end of its work. */
  lemma {:induction false} RunsWork(cfg: Config, s: State, before: seq<Action>, t: State) returns (actions: seq<Action>, u: State)
    requires TimelyRun(cfg, s, before) && Exec(cfg, s, before) == t && t.c0.Replacing?
    ensures TimelyRun(cfg, s, actions) && Exec(cfg, s, actions) == u
    ensures var (d, w) := Worked(cfg, t.dev, t.pending.staged, t.c0.work);
      u == t.(dev := d, c0 := Replacing(w), polls := u.polls)
    decreases Rank(t.c0.work), Remaining(t.c0.work, |t.pending.staged|)
  {
    hide TimelyRun, Exec, Worked, WorkNext;
    var w, staged := t.c0.work, t.pending.staged;
    if w.Finish? {
      Finished(cfg, t.dev, staged, w);
      actions, u := before, t;
    } else {
      var port := SoundPort(t.dev, staged, w);
      actions, u := Boot.PushTimely(cfg, s, before, t, Core0Step(port));
      Unfold(cfg, t.dev, staged, w);
      WorkEnds(cfg, t.dev, staged, w, port);
      actions, u := RunsWork(cfg, s, actions, u);
    }
  }

  /** After every timely run, an armed poll() that finds core 1 parked on sound flash completes: the sector
      holds exactly the image request() was given, padded, and it runs as the next generation. */
  lemma ParkedPollCompletes(cfg: Config, s: State, before: seq<Action>, now: uint32) returns (actions: seq<Action>)
    requires Initial(cfg, s) && TimelyRun(cfg, s, before)
    requires var t := Exec(cfg, s, before); t.c0.Idle? && t.pending.bytes > 0 && t.parked && Fits(cfg, t.pending.staged)
    ensures TimelyRun(cfg, s, actions)
    ensures var t, u := Exec(cfg, s, before), Exec(cfg, s, actions);
      && u.c0.Idle? && u.pending.bytes == 0 && !u.requested && u.outcomes == t.outcomes + [Complete]
      && |t.polls.asked.image| <= MAXIMUM_CAPSULE && u.dev.slot == Padded(t.polls.asked.image)
      && u.dev.published == u.dev.last == t.dev.last + 1 && u.dev.images == t.dev.images + [t.polls.asked.image]
  {
    hide TimelyRun, Exec, Worked, Accepted, Fits, Padded, Validate, InitialRam, Inv, Initial, VisitInv;
    var t := Exec(cfg, s, before);
    PendingImage(cfg, s, before);
    AskedWell(cfg, s, before);
    FitsSize(cfg, t.pending.staged);
    var image, d0 := t.pending.staged, t.dev;
    ghost var start := t;
    actions, t := Boot.PushTimely(cfg, s, before, t, PollCall(true, now));
    actions, t := Boot.PushTimely(cfg, s, actions, t, Core0Step(SoundPort(d0, image, Revalidate)));
    SoundWork(cfg, d0, image);
    actions, t := RunsWork(cfg, s, actions, t);
    actions, t := Boot.PushTimely(cfg, s, actions, t, Core0Step(SoundPort(d0, image, Revalidate)));
  }

  /** What is true of a request() that was let in, until core 1 is found parked for it. */
  predicate WellAsked(s: State) {
    Requesting(s.c0) || (s.pending.bytes > 0 && !s.c0.Replacing?) ==>
      s.bootAttempted && s.polls.asked.armed && |s.polls.asked.image| <= 4096 && s.dev.last < 0xffff_ffff
  }

  lemma WellAskedStep(cfg: Config, s: State, a: Action)
    requires Enabled(cfg, s, a) && PauseInv(cfg, s) && WellAsked(s)
    ensures WellAsked(Next(cfg, s, a))
  {
    hide Core1Next, WorkNext, Accepted;
    if a.Core1Step? {
      Core1Frame(s);
    }
  }

  /** Over every timely run: a replacement that waits for core 1 was requested after boot, with the arm input on,
      with an image that fits the sector, and a generation number is left for it. */
  lemma {:induction false} AskedWell(cfg: Config, s: State, actions: seq<Action>)
    requires Initial(cfg, s) && TimelyRun(cfg, s, actions)
    ensures WellAsked(Exec(cfg, s, actions))
  {
    hide Inv, Enabled, Timely, Next, PauseInv;
    if actions != [] {
      hide WellAsked, Initial;
      var n := |actions| - 1;
      AskedWell(cfg, s, actions[..n]);
      InitialInv(cfg, s);
      InvRun(cfg, s, actions[..n]);
      InvPause(cfg, Exec(cfg, s, actions[..n]));
      WellAskedStep(cfg, Exec(cfg, s, actions[..n]), actions[n]);
    }
  }

  lemma PendingImage(cfg: Config, s: State, actions: seq<Action>)
    requires Initial(cfg, s) && TimelyRun(cfg, s, actions) && Exec(cfg, s, actions).pending.bytes > 0
    ensures var t := Exec(cfg, s, actions);
      t.pending.staged == t.polls.asked.image && Accepted(cfg, t.pending.staged)
  {
    hide TimelyRun, Exec, Accepted, Inv, AllFair, Endings, Replacements, WorkVisit, Initial;
    VisitRun(cfg, s, actions);
    InitialInv(cfg, s);
    InvRun(cfg, s, actions);
    InvPause(cfg, Exec(cfg, s, actions));
  }

  /** request() that nothing interrupts, after every timely run: it is taken exactly when core 1 is not
      still parked, and then holds the image and the time it was given; refused, it leaves nothing. */
  lemma RequestAlone(cfg: Config, s: State, before: seq<Action>, image: seq<byte>, now: uint32) returns (actions: seq<Action>)
    requires Initial(cfg, s) && TimelyRun(cfg, s, before)
    requires var t := Exec(cfg, s, before);
      && t.c0.Idle? && t.pending.bytes == 0 && t.bootAttempted && t.dev.last < 0xffff_ffff && !StaleAttempt(t)
      && |image| <= 4096 && Accepted(cfg, image)
    ensures TimelyRun(cfg, s, actions)
    ensures var t, u := Exec(cfg, s, before), Exec(cfg, s, actions);
      && u.c0.Idle? && u.dev == t.dev && u.outcomes == t.outcomes && u.parked == t.parked && u.c1 == t.c1
      && (u.requested <==> !t.parked)
      && (if t.parked then u.pending.bytes == 0 && u.pending.staged == [] && u.base == t.base
          else u.pending == Pending(image, |image|, now) && u.base == Base(image, t.dev.slot, t.dev.published, t.dev.writes))
  {
    hide TimelyRun, Exec, Accepted, Inv, Initial;
    InitialInv(cfg, s);
    InvRun(cfg, s, before);
    var t := Exec(cfg, s, before);
    InvPause(cfg, t);
    var parked, port := t.parked, SoundPort(t.dev, image, Revalidate);
    actions, t := Boot.PushTimely(cfg, s, before, t, RequestCall(image, true, now));
    actions, t := Boot.PushTimely(cfg, s, actions, t, Core0Step(port));
    actions, t := Boot.PushTimely(cfg, s, actions, t, Core0Step(port));
    if !parked {
      actions, t := Boot.PushTimely(cfg, s, actions, t, Core0Step(port));
    }
  }
}
