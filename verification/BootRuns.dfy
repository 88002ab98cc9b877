/**
 Runs from power-up. A slot that holds a packed module boots it: core 1's first
 setup call finds the linked data at the linked entry. From there a denied
 request can leave a stale park attempt, so the race that request() must avoid is
 a real one.
 */
module BootRuns {
  import opened Bytes
  import opened StatefulImage
  import opened TwoCore
  import opened TwoCoreRuns
  import opened RequestRace

  /** The slot holds this packed module, and the arena is wired and apart from it. */
  predicate Flashed(cfg: Config, s: State, m: Module) {
    && ValidContract(cfg.contract) && Packable(m, cfg.contract) && Initial(cfg, s)
    && |Capsule(cfg.sha, m, cfg.contract)| <= MAXIMUM_CAPSULE
    && s.dev.slot == Padded(Capsule(cfg.sha, m, cfg.contract))
    && WiredArena(cfg.arena, cfg.contract)
    && !Overlapping(cfg.slotPointer, |Capsule(cfg.sha, m, cfg.contract)|, cfg.arena.address, cfg.arena.bytes)
  }

  lemma PushTimely(cfg: Config, s: State, before: seq<Action>, t: State, a: Action) returns (actions: seq<Action>, u: State)
    requires TimelyRun(cfg, s, before) && Exec(cfg, s, before) == t && Enabled(cfg, t, a) && Timely(t, a)
    ensures actions == before + [a] && u == Next(cfg, t, a) && TimelyRun(cfg, s, actions) && Exec(cfg, s, actions) == u
  {
    hide Enabled, Next;
    actions, u := before + [a], Next(cfg, t, a);
    assert actions[..|before|] == before;
  }

  lemma Unmoved(cfg: Config, s: State)
    ensures TimelyRun(cfg, s, []) && Exec(cfg, s, []) == s
  {
  }

  /** What starting this slot does, in the two-core machine's terms. */
  lemma SlotStarts(cfg: Config, s: State, m: Module)
    requires Flashed(cfg, s, m)
    ensures var info := ModuleInfo(m, cfg.contract);
      && Started(cfg, s.dev, MAXIMUM_CAPSULE, true) == Result(Ok, info)
      && info.load + info.data == info.total <= MAXIMUM_CAPSULE && info.data <= cfg.arena.bytes
      && InitialRam(s.dev.slot, info, cfg.arena.bytes) == m.data + Fill(cfg.arena.bytes - |m.data|, 0)
      && s.dev.slot[..info.total] == Capsule(cfg.sha, m, cfg.contract)
  {
    hide Validate, Capsule, StartResult, InitialRam, Overlapping;
    PackedModuleStarts(cfg.sha, m, cfg.contract, cfg.slotPointer, cfg.arena, 0);
    CapsuleSize(cfg.sha, m, cfg.contract);
    var slot := s.dev.slot;
    assert slot[..MAXIMUM_CAPSULE] == slot;
    var capsule := Capsule(cfg.sha, m, cfg.contract);
    assert Padded(capsule)[..|capsule|] == capsule;
  }

  lemma CapsuleSize(sha: Hash, m: Module, c: Contract)
    requires ValidContract(c) && Packable(m, c)
    ensures |Capsule(sha, m, c)| == ModuleInfo(m, c).total
  {
    hide SignedHeader;
  }

  /** Booted: one generation, published, from this capsule, its RAM fresh; core 1 not yet there. */
  predicate JustBooted(cfg: Config, t: State, m: Module)
    requires ValidContract(cfg.contract) && Packable(m, cfg.contract) && |m.data| <= cfg.arena.bytes
  {
    && t.c0 == Idle && t.c1 == CheckOnce && t.bootAttempted && !t.requested && !t.parked && t.pending.bytes == 0
    && t.outcomes == [Booted] && t.dev.last == t.dev.published == 1 && t.observed == 0 && t.calls == []
    && t.dev.images == [Capsule(cfg.sha, m, cfg.contract)] && t.dev.image == ModuleInfo(m, cfg.contract)
    && t.dev.ram == m.data + Fill(cfg.arena.bytes - |m.data|, 0)
  }

  lemma WorkStepOf(cfg: Config, s: State, before: seq<Action>, t: State) returns (actions: seq<Action>, u: State)
    requires TimelyRun(cfg, s, before) && Exec(cfg, s, before) == t && t.c0.Booting? && !t.c0.work.Finish?
    ensures TimelyRun(cfg, s, actions) && Exec(cfg, s, actions) == u
    ensures var (d, w) := WorkNext(cfg, t.dev, t.pending.staged, t.c0.work, ANY); u == t.(dev := d, c0 := Booting(w))
  {
    hide WorkNext;
    actions, u := PushTimely(cfg, s, before, t, Core0Step(ANY));
  }

  lemma BootStarts(cfg: Config, s: State, m: Module) returns (actions: seq<Action>, t: State)
    requires Flashed(cfg, s, m)
    ensures TimelyRun(cfg, s, actions) && Exec(cfg, s, actions) == t
    ensures ModuleInfo(m, cfg.contract).load + ModuleInfo(m, cfg.contract).data == ModuleInfo(m, cfg.contract).total <= MAXIMUM_CAPSULE
    ensures t == s.(bootAttempted := true, c0 := Booting(ClearArena(ModuleInfo(m, cfg.contract))))
  {
    hide Started, TimelyRun, Exec, Capsule, InitialRam, Overlapping;
    Unmoved(cfg, s);
    SlotStarts(cfg, s, m);
    actions, t := PushTimely(cfg, s, [], s, BootCall(MAXIMUM_CAPSULE));
    actions, t := WorkStepOf(cfg, s, actions, t);
  }

  /** Booting a slot that holds a packed module succeeds. */
  lemma Boots(cfg: Config, s: State, m: Module) returns (actions: seq<Action>, t: State)
    requires Flashed(cfg, s, m)
    ensures TimelyRun(cfg, s, actions) && Exec(cfg, s, actions) == t
    ensures |m.data| <= cfg.arena.bytes && JustBooted(cfg, t, m)
  {
    hide Started, TimelyRun, Exec, Capsule, InitialRam, Overlapping, ModuleInfo;
    SlotStarts(cfg, s, m);
    DataFits(m, cfg.contract);
    actions, t := BootStarts(cfg, s, m);
    actions, t := WorkStepOf(cfg, s, actions, t);
    actions, t := WorkStepOf(cfg, s, actions, t);
    FirstLast();
    assert [] + [Capsule(cfg.sha, m, cfg.contract)] == [Capsule(cfg.sha, m, cfg.contract)];
    actions, t := WorkStepOf(cfg, s, actions, t);
    actions, t := WorkStepOf(cfg, s, actions, t);
    actions, t := WorkStepOf(cfg, s, actions, t);
    actions, t := PushTimely(cfg, s, actions, t, Core0Step(ANY));
  }

  lemma FirstLast()
    ensures Wrap32(1) == 1
  {
  }

  lemma DataFits(m: Module, c: Contract)
    requires ValidContract(c) && Packable(m, c)
    ensures ModuleInfo(m, c).data == |m.data| && |m.data| <= c.capacity
  {
  }

  /** From power-up: core 1's first entry call is the module's own setup, on its data followed by zeros. */
  lemma FirstSetupFindsModule(cfg: Config, s: State, m: Module) returns (actions: seq<Action>)
    requires Flashed(cfg, s, m)
    ensures TimelyRun(cfg, s, actions) && |m.data| <= cfg.arena.bytes
    ensures var t := Exec(cfg, s, actions);
      t.outcomes == [Booted] && t.calls == [Setup(1, Thumb(m.setup.address), m.data + Fill(cfg.arena.bytes - |m.data|, 0))]
  {
    hide TimelyRun, Exec, Capsule, Core0Next;
    var t;
    actions, t := Boots(cfg, s, m);
    actions, t := PushTimely(cfg, s, actions, t, Core1Step);
    actions, t := PushTimely(cfg, s, actions, t, Core1Step);
    actions, t := PushTimely(cfg, s, actions, t, Core1Step);
  }

  // ---- The stale attempt ----

  lemma MakesRequest(cfg: Config, s: State, before: seq<Action>, t: State, image: seq<byte>, now: uint32)
    returns (actions: seq<Action>, u: State)
    requires TimelyRun(cfg, s, before) && Exec(cfg, s, before) == t && t.c0.Idle? && t.c1 == CheckOnce
    requires !t.requested && !t.parked && Enabled(cfg, t, RequestCall(image, true, now))
    ensures TimelyRun(cfg, s, actions) && Exec(cfg, s, actions) == u
    ensures u.c0.Idle? && u.c1 == SetParked && u.requested && !u.parked && u.pending.bytes == |image| && u.dev == t.dev
    ensures u.bootAttempted == t.bootAttempted
  {
    hide TimelyRun, Exec, Accepted, WorkNext;
    actions, u := PushTimely(cfg, s, before, t, RequestCall(image, true, now));
    actions, u := PushTimely(cfg, s, actions, u, Core0Step(ANY));
    actions, u := PushTimely(cfg, s, actions, u, Core0Step(ANY));
    actions, u := PushTimely(cfg, s, actions, u, Core0Step(ANY));
    actions, u := PushTimely(cfg, s, actions, u, Core1Step);
    actions, u := PushTimely(cfg, s, actions, u, Core1Step);
  }

  /** A request that is denied while core 1 is between its second check and its store. */
  lemma GoesStale(cfg: Config, s: State, before: seq<Action>, t: State, image: seq<byte>, now: uint32)
    returns (actions: seq<Action>, u: State)
    requires TimelyRun(cfg, s, before) && Exec(cfg, s, before) == t && t.c0.Idle? && t.c1 == CheckOnce
    requires !t.requested && !t.parked && Enabled(cfg, t, RequestCall(image, true, now))
    ensures TimelyRun(cfg, s, actions) && Exec(cfg, s, actions) == u
    ensures StaleAttempt(u) && Enabled(cfg, u, RequestCall(image, true, now)) && u.dev == t.dev
  {
    hide TimelyRun, Exec, Accepted, WorkNext;
    AcceptedNonempty(cfg, image);
    actions, u := MakesRequest(cfg, s, before, t, image, now);
    actions, u := PushTimely(cfg, s, actions, u, PollCall(false, now));
    actions, u := PushTimely(cfg, s, actions, u, Core0Step(ANY));
  }

  lemma {:induction false} TimelyLegal(cfg: Config, s: State, actions: seq<Action>)
    requires TimelyRun(cfg, s, actions)
    ensures Legal(cfg, s, actions)
    decreases |actions|
  {
    hide Enabled, Next;
    if actions != [] {
      TimelyLegal(cfg, s, actions[..|actions| - 1]);
    }
  }

  lemma {:induction false} Continued(cfg: Config, s: State, a: seq<Action>, b: seq<Action>)
    requires Legal(cfg, s, a) && Legal(cfg, Exec(cfg, s, a), b)
    ensures Legal(cfg, s, a + b) && Exec(cfg, s, a + b) == Exec(cfg, Exec(cfg, s, a), b)
    decreases |b|
  {
    hide Enabled, Next;
    if b == [] {
      assert a + b == a;
    } else {
      var n := |b| - 1;
      Continued(cfg, s, a, b[..n]);
      assert (a + b)[..|a + b| - 1] == a + b[..n];
    }
  }

  /** From power-up, with any packed module booted and any packed module offered for replacement, there is a
      run in which core 0 opens flash while core 1 is inside a sketch entry. Up to its second request it
      respects the timing hypothesis, so only that request breaks it. */
  lemma RaceFromPowerUp(cfg: Config, s: State, m: Module, image: seq<byte>, now: uint32)
    returns (timely: seq<Action>, race: seq<Action>)
    requires Flashed(cfg, s, m) && |image| <= MAXIMUM_CAPSULE && Accepted(cfg, image)
    ensures TimelyRun(cfg, s, timely) && StaleAttempt(Exec(cfg, s, timely))
    ensures race != [] && race[0] == RequestCall(image, true, now) && Enabled(cfg, Exec(cfg, s, timely), race[0])
    ensures Legal(cfg, s, timely + race)
    ensures var t := Exec(cfg, s, timely + race); t.dev.flashOpen && InEntry(t.c1)
  {
    hide TimelyRun, Legal, Exec, Accepted, Inv, Capsule, Enabled;
    var t;
    timely, t := Boots(cfg, s, m);
    BootedEnables(cfg, t, m, image, now);
    timely, t := GoesStale(cfg, s, timely, t, image, now);
    InitialInv(cfg, s);
    InvRun(cfg, s, timely);
    race := RaceToFlash(cfg, t, image, now);
    TimelyLegal(cfg, s, timely);
    Continued(cfg, s, timely, race);
  }

  lemma BootedEnables(cfg: Config, t: State, m: Module, image: seq<byte>, now: uint32)
    requires ValidContract(cfg.contract) && Packable(m, cfg.contract) && |m.data| <= cfg.arena.bytes && JustBooted(cfg, t, m)
    requires |image| <= MAXIMUM_CAPSULE && Accepted(cfg, image)
    ensures Enabled(cfg, t, RequestCall(image, true, now))
  {
    hide Accepted, Capsule;
  }

  // ---- An instance ----

  const CONTRACT := Contract(0x1000_0000, SRAM_START, 4, 4096)
  const CODE: seq<byte> := [0x70, 0x47, 0x70, 0x47]
  const ENTRY := Symbol(CODE_ADDRESS, true, true)

  /** A minimal module: two returns, four bytes of zeroed RAM. */
  const MINIMAL := Module(true, CODE_ADDRESS, CODE, SRAM_START, [], SRAM_START, 4,
                          [Load(CODE_ADDRESS, CODE_ADDRESS, CODE)], ENTRY, ENTRY)

  function Bench(sha: Hash): Config {
    Config(sha, CONTRACT, Arena(SRAM_START, 4, SRAM_START), SLOT_ADDRESS)
  }

  lemma MinimalPacks()
    ensures ValidContract(CONTRACT) && Packable(MINIMAL, CONTRACT)
  {
    var loads := [Load(CODE_ADDRESS, CODE_ADDRESS, CODE)];
    assert loads + [] == loads;
  }

  function PowerUp(slot: Sector): State {
    State(false, false, 0, false, Device(0, 0, false, 0, NO_INFO, Fill(4, 0), slot, false, [], 0), Pending([], 0, 0),
          Idle, CheckOnce, [], [], [], Base([], slot, 0, 0), Polls(Asked([], false, 0), Visit(0, false, false, false, false), []))
  }

  /** Whatever the hash function, that race happens on a device that boots the minimal module. */
  lemma RaceIsReal(sha: Hash) returns (s: State, timely: seq<Action>, race: seq<Action>)
    ensures var cfg := Bench(sha);
      && Initial(cfg, s) && TimelyRun(cfg, s, timely) && StaleAttempt(Exec(cfg, s, timely)) && Legal(cfg, s, timely + race)
      && race != [] && race[0].RequestCall? && Enabled(cfg, Exec(cfg, s, timely), race[0])
      && Exec(cfg, s, timely + race).dev.flashOpen && InEntry(Exec(cfg, s, timely + race).c1)
  {
    hide TimelyRun, Legal, Exec, Capsule, Enabled, Validate, Packable, ModuleInfo;
    var cfg := Bench(sha);
    MinimalPacks();
    PackedIsAccepted(sha, MINIMAL, CONTRACT);
    CapsuleSize(sha, MINIMAL, CONTRACT);
    MinimalSize();
    var capsule := Capsule(sha, MINIMAL, CONTRACT);
    s := PowerUp(Padded(capsule));
    timely, race := RaceFromPowerUp(cfg, s, MINIMAL, capsule, 0);
  }

  lemma MinimalSize()
    requires ValidContract(CONTRACT) && Packable(MINIMAL, CONTRACT)
    ensures ModuleInfo(MINIMAL, CONTRACT).total == 260
  {
  }
}
