/** Every process starts its own program, on a stack that holds nothing of an earlier one. */
module KernelPrograms {
  import opened Common
  import opened QueueSpec
  import opened KernelSpec
  import opened KernelInvariant
  import opened KernelTick
  import opened KernelRuns
  import opened KernelContext
  import opened KernelCalls

  ghost predicate Blank(mem: seq<Word>, t: int) {
    |mem| == MEM_WORDS && 0 <= t < N_STACKS && forall a | Base(t) <= a < Base(t + 1) :: mem[a] == 0
  }

  // All free stacks are cleared.
  ghost predicate Clean(s: KState) {
    |s.queues| == N_QUEUES
    && forall i | 0 <= i < |s.queues[FREE_STACKS]| :: Blank(s.mem, s.queues[FREE_STACKS][i].data)
  }

  // Stack t is that of a process which has not run yet.
  ghost predicate Fresh(mem: seq<Word>, t: nat, entry: Word, link: Link) {
    && |mem| == MEM_WORDS && t < N_STACKS
    && forall a | Base(t) <= a < Base(t + 1) :: mem[a] == NewWord(a - Base(t) - FIRST, entry, link)
  }

  lemma LoadedIsFresh(mem: seq<Word>, mem': seq<Word>, t: nat, entry: Word, link: Link)
    requires Loaded(mem, mem', t, entry, link) && Blank(mem, t)
    ensures Fresh(mem', t, entry, link)
  {}

  lemma BlankStays(mem: seq<Word>, mem': seq<Word>, t: nat)
    requires Blank(mem, t) && |mem'| == MEM_WORDS && StackWords(mem', t) == StackWords(mem, t)
    ensures Blank(mem', t)
  {
    forall a | Base(t) <= a < Base(t + 1)
      ensures mem'[a] == 0
    {
      assert StackWords(mem', t)[a - Base(t)] == StackWords(mem, t)[a - Base(t)];
    }
  }

  lemma FreshStays(mem: seq<Word>, mem': seq<Word>, t: nat, entry: Word, link: Link)
    requires Fresh(mem, t, entry, link) && |mem'| == MEM_WORDS && StackWords(mem', t) == StackWords(mem, t)
    ensures Fresh(mem', t, entry, link)
  {
    forall a | Base(t) <= a < Base(t + 1)
      ensures mem'[a] == mem[a]
    {
      assert StackWords(mem', t)[a - Base(t)] == StackWords(mem, t)[a - Base(t)];
    }
  }

  // Free stacks stay clean.

  // The current process owns none of the free stacks.
  lemma NotOwned(s: KState, i: nat)
    requires Inv(s) && InCpu(s) && i < |s.queues[FREE_STACKS]|
    ensures s.queues[FREE_STACKS][i].data != s.pcbs[s.current].stack
  {
    assert SoundParts(s.queues, s.pcbs, s.active, {s.current});
  }

  // Writing the stack of the current process.
  lemma OwnWritesKeepClean(s: KState, r: KState)
    requires Inv(s) && InCpu(s) && Clean(s) && Within(s.mem, r.mem, s.pcbs[s.current].stack)
    requires |r.queues| == N_QUEUES && r.queues[FREE_STACKS] == s.queues[FREE_STACKS]
    ensures Clean(r)
  {
    forall i | 0 <= i < |s.queues[FREE_STACKS]|
      ensures Blank(r.mem, s.queues[FREE_STACKS][i].data)
    {
      NotOwned(s, i);
      WithinKeepsOthers(s.mem, r.mem, s.pcbs[s.current].stack, s.queues[FREE_STACKS][i].data);
      BlankStays(s.mem, r.mem, s.queues[FREE_STACKS][i].data);
    }
  }

  lemma ClockKeepsFree(s: KState)
    requires Inv(s)
    ensures ClockIsr(s).Ok? && ClockIsr(s).value.mem == s.mem
    ensures ClockIsr(s).value.queues[FREE_STACKS] == s.queues[FREE_STACKS]
  {
    assert SoundParts(s.queues, s.pcbs, s.active, {s.current});
    assert PcbOk(s.pcbs[s.current]);
    ClockKeeps(s, s.current);
    var s1, pre, dispatched := ClockForm(s);
    if dispatched {
      var l := DispatchHandsOver(pre);
    }
  }

  lemma TickKeepsFree(s: KState, e: Event, s': KState, link: Link)
    requires Inv(s) && Next(s, e, s', link) && InCpu(s) && UserOk(s, e) && e.Tick?
    ensures |s'.queues| == N_QUEUES && s'.queues[FREE_STACKS] == s.queues[FREE_STACKS]
    ensures Within(s.mem, s'.mem, s.pcbs[s.current].stack)
  {
    assert Leads(s, e, s', link);
    SavedKeepsInv(s, e);
    StepIs(s, e, link);
    SavedStack(s, e);
    ClockKeepsFree(Saved(s, e));
  }

  lemma ExitKeepsClean(s: KState, r: KState, t: nat)
    requires Inv(s) && InCpu(s) && Clean(s) && t == s.pcbs[s.current].stack && Within(s.mem, r.mem, t)
    requires |r.queues| == N_QUEUES && r.queues[FREE_STACKS] == s.queues[FREE_STACKS] + [Item(0, t)]
    requires forall a | Base(t) <= a < Base(t + 1) :: r.mem[a] == 0
    ensures Clean(r)
  {
    OwnWritesKeepClean(s, s.(mem := r.mem));
  }

  lemma JoinKeepsClean(s: KState, e: Event, r: KState, entry: Word, prio: Byte, link: Link)
    requires Inv(s) && InCpu(s) && UserOk(s, e) && Clean(s)
    requires s.queues[FREE_PCBS] != [] && s.queues[FREE_STACKS] != [] && Joined(s, e, r, entry, prio, link)
    ensures Clean(r) && Fresh(r.mem, s.queues[FREE_STACKS][0].data, entry, link)
  {
    var free := s.queues[FREE_STACKS];
    LoadedIsFresh(s.mem, r.mem, free[0].data, entry, link);
    forall i | 0 <= i < |r.queues[FREE_STACKS]|
      ensures Blank(r.mem, r.queues[FREE_STACKS][i].data)
    {
      assert r.queues[FREE_STACKS][i] == free[i + 1];
      NotOwned(s, i + 1);
      FreeStacksDiffer(s, 0, i + 1);
      BlankStays(s.mem, r.mem, free[i + 1].data);
    }
  }

  lemma FreeStacksDiffer(s: KState, i: nat, j: nat)
    requires Inv(s) && i < j < |s.queues[FREE_STACKS]|
    ensures s.queues[FREE_STACKS][i].data != s.queues[FREE_STACKS][j].data
  {
    assert SoundParts(s.queues, s.pcbs, s.active, {s.current});
  }

  lemma CallKeepsClean(s: KState, e: Event, s': KState, link: Link)
    requires Inv(s) && Next(s, e, s', link) && InCpu(s) && UserOk(s, e) && e.Syscall? && Clean(s)
    ensures Clean(s')
  {
    var c := CallCode(s, e);
    if c == 1 && s.queues[FREE_STACKS] != [] {
      SpawnCall(s, e, s', link);
      JoinKeepsClean(s, e, s', SavedWord(s, e, 19), SavedWord(s, e, 20) % 0x100, link);
    } else if c == 1 {
      SpawnCallRefused(s, e, s', link);
      OwnWritesKeepClean(s, s');
    } else if c == 2 {
      var l := SleepCall(s, e, s', link);
      OwnWritesKeepClean(s, s');
    } else if c == 0 || c >= 13 {
      var l := ExitCall(s, e, s', link);
      ExitKeepsClean(s, s', s.pcbs[s.current].stack);
    } else {
      ReturningCall(s, e, s', link);
      OwnWritesKeepClean(s, s');
    }
  }

  lemma StepKeepsClean(s: KState, e: Event, s': KState, link: Link)
    requires Inv(s) && Next(s, e, s', link) && Clean(s)
    ensures Clean(s')
  {
    assert Leads(s, e, s', link);
    if e.Tick? {
      TickKeepsFree(s, e, s', link);
      OwnWritesKeepClean(s, s');
    } else {
      CallKeepsClean(s, e, s', link);
    }
  }

  // _init.

  // The processes that _init has created: the n-th has PCB, stack and PID in that order.
  datatype Program = Program(entry: Word, prio: Byte)

  ghost predicate Launched(s: KState, programs: seq<Program>, link: Link) {
    && Shaped(s) && |programs| < N_STACKS
    && (forall i | 0 <= i < |programs| ::
          Fresh(s.mem, i, programs[i].entry, link) && LaunchedPcb(s.pcbs[i], i, programs[i].prio))
    && (forall t | |programs| <= t < N_STACKS :: Blank(s.mem, t))
  }

  ghost predicate LaunchedPcb(pcb: Pcb, i: nat, prio: Byte) {
    pcb.stack == i && pcb.context == Base(i) + FIRST && pcb.pid == i + 1 && pcb.ppid == 0 && pcb.prio == prio
  }

  lemma StartedLoads(s: KState, n: nat, entry: Word, prio: Byte, link: Link)
    requires Stage(s, n) && n + 1 < N_STACKS && prio < N_PRIOS
    ensures s.queues[FREE_PCBS] != [] && s.queues[FREE_STACKS] != []
    ensures var r := Started(s, entry, prio, link);
      && Within(s.mem, r.mem, n) && Loaded(s.mem, r.mem, n, entry, link)
      && Stage(r, n + 1) && LaunchedPcb(r.pcbs[n], n, prio) && r.pcbs == s.pcbs[n := r.pcbs[n]]
  {
    StageNext(s, n, entry, prio, link);
    InitialStackLoads(s.mem, n, entry, link);
  }

  // The other stacks while stack n is loaded.
  lemma OthersLaunched(s: KState, programs: seq<Program>, mem: seq<Word>, link: Link)
    requires Launched(s, programs, link) && Within(s.mem, mem, |programs|)
    ensures forall i | 0 <= i < |programs| :: Fresh(mem, i, programs[i].entry, link)
    ensures forall t | |programs| < t < N_STACKS :: Blank(mem, t)
  {
    var n := |programs|;
    forall i | 0 <= i < n
      ensures Fresh(mem, i, programs[i].entry, link)
    {
      WithinKeepsOthers(s.mem, mem, n, i);
      FreshStays(s.mem, mem, i, programs[i].entry, link);
    }
    forall t | n < t < N_STACKS
      ensures Blank(mem, t)
    {
      WithinKeepsOthers(s.mem, mem, n, t);
      BlankStays(s.mem, mem, t);
    }
  }

  lemma LaunchNext(s: KState, programs: seq<Program>, p: Program, link: Link)
    requires Stage(s, |programs|) && Launched(s, programs, link) && |programs| + 1 < N_STACKS && p.prio < N_PRIOS
    ensures s.queues[FREE_PCBS] != [] && s.queues[FREE_STACKS] != []
    ensures var r := Started(s, p.entry, p.prio, link);
      Stage(r, |programs| + 1) && Launched(r, programs + [p], link)
  {
    var n := |programs|;
    StartedLoads(s, n, p.entry, p.prio, link);
    var r := Started(s, p.entry, p.prio, link);
    LoadedIsFresh(s.mem, r.mem, n, p.entry, link);
    OthersLaunched(s, programs, r.mem, link);
    assert forall i | 0 <= i < n :: (programs + [p])[i] == programs[i];
  }

  lemma BootedLaunched(link: Link)
    ensures Stage(Booted(), 0) && Launched(Booted(), [], link)
  {}

  // The programs of _init in the order of their creation.
  function InitPrograms(programs: Programs): seq<Program> {
    [Program(programs.init, PRIO_SYSTEM), Program(programs.idle, PRIO_USER_LOW),
     Program(programs.hello, PRIO_USER_HIGH), Program(programs.shell, PRIO_USER_STD)]
  }

  lemma ThreeLaunched(programs: Programs, link: Link)
    ensures Stage(ThreeStarted(programs, link), 3)
    ensures Launched(ThreeStarted(programs, link), InitPrograms(programs)[..3], link)
  {
    var all := InitPrograms(programs);
    BootedLaunched(link);
    LaunchNext(Booted(), [], all[0], link);
    var s1 := Started(Booted(), programs.init, PRIO_SYSTEM, link);
    assert [] + [all[0]] == all[..1] && all[..1] + [all[1]] == all[..2] && all[..2] + [all[2]] == all[..3];
    LaunchNext(s1, all[..1], all[1], link);
    LaunchNext(Started(s1, programs.idle, PRIO_USER_LOW, link), all[..2], all[2], link);
  }

  lemma DispatchedLaunched(s: KState, programs: seq<Program>, link: Link)
    requires Launched(s, programs, link) && FirstReady(s.queues, 0) < N_PRIOS
    ensures Launched(Dispatched(s), programs, link)
  {}

  // The state from which _init creates its last process.
  lemma BeforeShell(programs: Programs, link: Link) returns (s: KState)
    ensures Sound(s, {0}) && Stage(s, 3) && InitReady(s, [], []) && s.current == 0 && CurrentOk(s.pcbs[0])
    ensures Init(programs, link) == Start(s, programs.shell, PRIO_USER_STD, link)
    ensures Launched(s, InitPrograms(programs)[..3], link)
  {
    ThreeStartedRuns(programs, link);
    ThreeStartedQueues(programs, link);
    ThreeLaunched(programs, link);
    FirstDispatch(ThreeStarted(programs, link));
    DispatchedLaunched(ThreeStarted(programs, link), InitPrograms(programs)[..3], link);
    s := Dispatched(ThreeStarted(programs, link));
  }

  lemma LastLaunched(s: KState, programs: Programs, link: Link)
    requires Sound(s, {0}) && Stage(s, 3) && InitReady(s, [], []) && s.current == 0 && CurrentOk(s.pcbs[0])
    requires Launched(s, InitPrograms(programs)[..3], link)
    ensures var r := Started(s, programs.shell, PRIO_USER_STD, link);
      && Start(s, programs.shell, PRIO_USER_STD, link) == Ok(r) && Inv(r) && Stage(r, 4)
      && InitReady(r, [], [Item(0, 3)]) && r.current == 0 && Launched(r, InitPrograms(programs), link)
  {
    var all := InitPrograms(programs);
    LastStart(s, programs, link);
    LaunchNext(s, all[..3], all[3], link);
    assert all[..3] + [all[3]] == all;
  }

  lemma LaunchedClean(s: KState, programs: seq<Program>, link: Link)
    requires Stage(s, |programs|) && Launched(s, programs, link)
    ensures Clean(s)
  {
    var n := |programs|;
    forall i | 0 <= i < |s.queues[FREE_STACKS]|
      ensures Blank(s.mem, s.queues[FREE_STACKS][i].data)
    {
      assert s.queues[FREE_STACKS][i] == Booted().queues[FREE_STACKS][n..][i] == Item(0, n + i);
    }
  }

  // _init starts its four programs, each at its own entry point, on a stack of its own.
  lemma InitLaunches(programs: Programs, link: Link) returns (s: KState)
    ensures Init(programs, link) == Ok(s) && Inv(s) && Clean(s) && Launched(s, InitPrograms(programs), link)
    ensures forall i | 0 <= i < 4 :: s.pcbs[i].state == if i == 0 then Running else Ready
  {
    var d := BeforeShell(programs, link);
    LastLaunched(d, programs, link);
    s := Started(d, programs.shell, PRIO_USER_STD, link);
    LaunchedClean(s, InitPrograms(programs), link);
    PlacesAfterInit(s);
  }

  lemma PlacesAfterInit(s: KState)
    requires Inv(s) && s.current == 0 && InitReady(s, [], [Item(0, 3)])
    ensures forall i | 0 <= i < 4 :: s.pcbs[i].state == if i == 0 then Running else Ready
  {
    assert SoundParts(s.queues, s.pcbs, s.active, {0});
    assert s.queues[READY + 1][0].data == 2 && s.queues[READY + 2][0].data == 3;
    assert Houses(READY + 1, s.queues[READY + 1], s.pcbs, {0}) && Houses(READY + 2, s.queues[READY + 2], s.pcbs, {0});
  }

  // Over whole runs.

  lemma {:induction false} RunKeepsClean(ss: seq<KState>, es: seq<Event>, link: Link, k: nat)
    requires Run(ss, es, link) && Inv(ss[0]) && Clean(ss[0]) && k < |ss|
    ensures Inv(ss[k]) && Clean(ss[k])
  {
    RunKeepsInv(ss, es, link, k);
    if k > 0 {
      RunKeepsClean(ss, es, link, k - 1);
      StepKeepsClean(ss[k - 1], es[k - 1], ss[k], link);
    }
  }

  // A process with a fresh stack still has it when it gets the CPU for the first time.
  lemma FreshUntilRun(ss: seq<KState>, es: seq<Event>, link: Link, p: nat, t: nat, entry: Word, j: nat, k: nat)
    requires Run(ss, es, link) && j <= k < |ss| && Inv(ss[j]) && p < N_PCBS && Live(ss[j].pcbs[p])
    requires t == ss[j].pcbs[p].stack && ss[j].pcbs[p].context == Base(t) + FIRST && Fresh(ss[j].mem, t, entry, link)
    requires forall i | j <= i < k :: ss[i].current != p
    ensures |ss[k].pcbs| == N_PCBS && ss[k].pcbs[p].stack == t && ss[k].pcbs[p].context == Base(t) + FIRST
    ensures Fresh(ss[k].mem, t, entry, link)
  {
    RunFrom(ss, es, link, j);
    OutOfCpuKeepsContext(ss[j..], es[j..], link, p, k - j);
    FreshStays(ss[j].mem, ss[k].mem, t, entry, link);
  }

  // Whatever ran before on its stack: from the state of _init on, a spawned process finds the
  // entry point that its parent asked for, and zeros in all registers and words that have no
  // initial value, when it is first dispatched.
  lemma SpawnedRunsProgram(programs: Programs, ss: seq<KState>, es: seq<Event>, link: Link, j: nat, k: nat, child: nat)
    requires Run(ss, es, link) && Init(programs, link) == Ok(ss[0]) && j < k < |ss| && child < N_PCBS
    requires InCpu(ss[j]) && UserOk(ss[j], es[j]) && es[j].Syscall? && CallCode(ss[j], es[j]) == 1
    requires Shaped(ss[j + 1]) && !Live(ss[j].pcbs[child]) && Live(ss[j + 1].pcbs[child])
    requires forall i | j < i < k :: ss[i].current != child
    ensures es[j].context + 20 < Base(ss[j].pcbs[ss[j].current].stack + 1) && Shaped(ss[k])
    ensures var pcb := ss[k].pcbs[child];
      && 0 <= pcb.stack < N_STACKS && pcb.context == Base(pcb.stack) + FIRST
      && Fresh(ss[k].mem, pcb.stack, SavedWord(ss[j], es[j], 19), link)
  {
    var first := InitLaunches(programs, link);
    RunKeepsClean(ss, es, link, j);
    SpawnLoads(ss[j], es[j], ss[j + 1], link, child);
    RunKeepsInv(ss, es, link, j + 1);
    RunKeepsInv(ss, es, link, k);
    var t := ss[j + 1].pcbs[child].stack;
    FreshUntilRun(ss, es, link, child, t, SavedWord(ss[j], es[j], 19), j + 1, k);
  }

  // The PCB that a call takes into use.
  lemma SpawnLoads(s: KState, e: Event, s': KState, link: Link, child: nat)
    requires Inv(s) && Clean(s) && Next(s, e, s', link) && InCpu(s) && UserOk(s, e) && e.Syscall?
    requires CallCode(s, e) == 1 && child < N_PCBS && Shaped(s') && !Live(s.pcbs[child]) && Live(s'.pcbs[child])
    ensures e.context + 20 < Base(s.pcbs[s.current].stack + 1)
    ensures var pcb := s'.pcbs[child];
      && 0 <= pcb.stack < N_STACKS && pcb.context == Base(pcb.stack) + FIRST && s'.current != child
      && Fresh(s'.mem, pcb.stack, SavedWord(s, e, 19), link)
  {
    if s.queues[FREE_STACKS] == [] {
      SpawnCallRefused(s, e, s', link);
      assert false;
    }
    SpawnCall(s, e, s', link);
    JoinKeepsClean(s, e, s', SavedWord(s, e, 19), SavedWord(s, e, 20) % 0x100, link);
  }
}
