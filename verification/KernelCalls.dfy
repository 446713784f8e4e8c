/** What each system call does to the machine, in terms of the words of the caller's stack. */
module KernelCalls {
  import opened Common
  import opened QueueSpec
  import opened KernelSpec
  import opened KernelInvariant
  import opened KernelTick
  import opened KernelRuns
  import opened KernelContext

  // The word at this offset from the saved context, in the stack that the caller left.
  function SavedWord(s: KState, e: Event, offset: nat): Word
    requires InCpu(s) && UserOk(s, e) && e.context + offset < Base(s.pcbs[s.current].stack + 1)
  {
    e.image[e.context - Base(s.pcbs[s.current].stack) + offset]
  }

  // The code of the call is in the place of eax, the thirteenth word of context_t.
  function CallCode(s: KState, e: Event): Word
    requires InCpu(s) && UserOk(s, e)
  {
    SavedWord(s, e, 12)
  }

  // From ready levels and processes as they are when the CPU is given away, to the state
  // after it: the first process of the first level that is not empty has the CPU.
  ghost predicate HandsOver(queues: seq<seq<Item>>, pcbs: seq<Pcb>, r: KState, l: nat) {
    && |queues| == N_QUEUES && |pcbs| == N_PCBS && l < N_PRIOS
    && (forall q | READY <= q < READY + l :: queues[q] == []) && queues[READY + l] != []
    && r.current == queues[READY + l][0].data && 0 <= r.current < N_PCBS
    && r.queues == queues[READY + l := queues[READY + l][1..]]
    && r.pcbs == pcbs[r.current := pcbs[r.current].(state := Running, quantum := 10)]
  }

  lemma DispatchedHandsOver(s: KState, l: nat)
    requires Shaped(s) && l == FirstReady(s.queues, 0) < N_PRIOS
    requires s.pcbs[s.queues[READY + l][0].data].defaultQuantum == 10
    ensures HandsOver(s.queues, s.pcbs, Dispatched(s), l)
    ensures var r := Dispatched(s); r == s.(queues := r.queues, pcbs := r.pcbs, current := r.current)
  {}

  lemma DispatchHandsOver(s: KState) returns (l: nat)
    requires Sound(s, {}) && IdleOk(s.pcbs[IDLE])
    ensures Dispatch(s).Ok?
    ensures var r := Dispatch(s).value;
      HandsOver(s.queues, s.pcbs, r, l) && s.pcbs[r.current].state == Ready
      && r == s.(queues := r.queues, pcbs := r.pcbs, current := r.current)
  {
    IdleCanRun(s);
    DispatchIs(s);
    l := FirstReady(s.queues, 0);
    FirstIsReady(s, l);
    DispatchedHandsOver(s, l);
  }

  lemma SavedStack(s: KState, e: Event)
    requires InCpu(s) && UserOk(s, e)
    ensures var t, r := s.pcbs[s.current].stack, Saved(s, e);
      && r == s.(mem := r.mem, pcbs := s.pcbs[s.current := s.pcbs[s.current].(context := e.context)])
      && StackWords(r.mem, t) == e.image && Within(s.mem, r.mem, t)
      && forall a | Base(t) <= a < Base(t + 1) :: r.mem[a] == e.image[a - Base(t)]
  {
    var t := s.pcbs[s.current].stack;
    WithStackWithin(s.mem, t, e.image);
  }

  lemma CodeIs(s: KState, e: Event)
    requires InCpu(s) && UserOk(s, e)
    ensures InCpu(Saved(s, e))
    ensures SyscallCode(Saved(s, e)) == if CallCode(s, e) >= 13 then 0 else CallCode(s, e)
  {
    SavedStack(s, e);
  }

  // The handler that runs on the saved state.
  lemma HandlerIs(s: KState, e: Event, s': KState, link: Link)
    requires Inv(s) && Next(s, e, s', link) && InCpu(s) && UserOk(s, e) && e.Syscall?
    ensures var c, s0 := CallCode(s, e), Saved(s, e);
      && s.current != IDLE && Inv(s0) && InCpu(s0)
      && (c == 0 || c >= 13 ==> SysExit(s0, s.current) == Ok(s'))
      && (c == 1 || c == 2 ==> e.context + 21 <= Base(s.pcbs[s.current].stack + 1))
      && (c == 1 ==> SysSpawnp(s0, s.current, link) == Ok(s'))
      && (c == 2 ==> SysSleep(s0, s.current) == Ok(s'))
      && (3 <= c < 13 ==> SetRet(s0, s.current, e.result) == s')
  {
    assert Leads(s, e, s', link);
    SavedKeepsInv(s, e);
    StepIs(s, e, link);
    CodeIs(s, e);
  }

  // A call ends its process if and only if its code is 0 or none that is defined: its stack,
  // cleared, and its PCB go back, and the CPU to the next process.
  lemma ExitCall(s: KState, e: Event, s': KState, link: Link) returns (l: nat)
    requires Inv(s) && Next(s, e, s', link) && InCpu(s) && UserOk(s, e) && e.Syscall?
    requires CallCode(s, e) == 0 || CallCode(s, e) >= 13
    ensures var p, t := s.current, s.pcbs[s.current].stack;
      && HandsOver(s.queues[FREE_STACKS := s.queues[FREE_STACKS] + [Item(0, t)]]
                           [FREE_PCBS := s.queues[FREE_PCBS] + [Item(0, p)]],
                   s.pcbs[p := ZERO_PCB], s', l)
      && s'.current != p && s'.active == s.active - 1 && s'.time == s.time && s'.nextPid == s.nextPid
      && Within(s.mem, s'.mem, t) && forall a | Base(t) <= a < Base(t + 1) :: s'.mem[a] == 0
  {
    HandlerIs(s, e, s', link);
    SavedStack(s, e);
    l := ExitHandsOver(Saved(s, e));
    assert s.pcbs[s.current := Saved(s, e).pcbs[s.current]][s.current := ZERO_PCB] == s.pcbs[s.current := ZERO_PCB];
  }

  // What is given back, by words and queues.
  lemma ReleasedIs(s: KState)
    requires Inv(s) && InCpu(s)
    ensures var p, t, r := s.current, s.pcbs[s.current].stack, Released(s, s.current);
      && r.queues == s.queues[FREE_STACKS := s.queues[FREE_STACKS] + [Item(0, t)]]
                             [FREE_PCBS := s.queues[FREE_PCBS] + [Item(0, p)]]
      && r.pcbs == s.pcbs[p := ZERO_PCB] && r.time == s.time && r.nextPid == s.nextPid
      && Within(s.mem, r.mem, t) && forall a | Base(t) <= a < Base(t + 1) :: r.mem[a] == 0
  {
    WithStackWithin(s.mem, s.pcbs[s.current].stack, Zeros(STACK_LWORDS));
  }

  lemma ReleasedActive(s: KState)
    requires Inv(s) && InCpu(s)
    ensures Released(s, s.current).active == s.active - 1
  {
    assert SoundParts(s.queues, s.pcbs, s.active, {s.current});
  }

  lemma ExitHandsOver(s: KState) returns (l: nat)
    requires Inv(s) && InCpu(s) && s.current != IDLE
    ensures SysExit(s, s.current).Ok?
    ensures var p, t, r := s.current, s.pcbs[s.current].stack, SysExit(s, s.current).value;
      && HandsOver(s.queues[FREE_STACKS := s.queues[FREE_STACKS] + [Item(0, t)]]
                           [FREE_PCBS := s.queues[FREE_PCBS] + [Item(0, p)]],
                   s.pcbs[p := ZERO_PCB], r, l)
      && r.current != p && r.active == s.active - 1 && r.time == s.time && r.nextPid == s.nextPid
      && Within(s.mem, r.mem, t) && forall a | Base(t) <= a < Base(t + 1) :: r.mem[a] == 0
  {
    ExitForm(s);
    ReleasedActive(s);
    ReleasedIs(s);
    l := DispatchHandsOver(Released(s, s.current));
  }

  // Codes 3 to 12 return a result in eax; nothing else changes but the context pointer.

  ghost predicate Answered(s: KState, e: Event, r: KState, w: Word)
    requires InCpu(s) && UserOk(s, e)
  {
    var p, t := s.current, s.pcbs[s.current].stack;
    && r == s.(mem := r.mem, pcbs := s.pcbs[p := s.pcbs[p].(context := e.context)])
    && Within(s.mem, r.mem, t) && StackWords(r.mem, t) == e.image[e.context - Base(t) + 12 := w]
  }

  lemma ReturningCall(s: KState, e: Event, s': KState, link: Link)
    requires Inv(s) && Next(s, e, s', link) && InCpu(s) && UserOk(s, e) && e.Syscall?
    requires 3 <= CallCode(s, e) < 13
    ensures Answered(s, e, s', e.result)
  {
    HandlerIs(s, e, s', link);
    ResultStored(s, e, e.result);
  }

  lemma ResultStored(s: KState, e: Event, w: Word)
    requires InCpu(s) && UserOk(s, e) && InCpu(Saved(s, e))
    ensures Answered(s, e, SetRet(Saved(s, e), s.current, w), w)
  {
    SavedStack(s, e);
  }

  // Code 1 without a free stack: the result is -1.
  lemma SpawnCallRefused(s: KState, e: Event, s': KState, link: Link)
    requires Inv(s) && Next(s, e, s', link) && InCpu(s) && UserOk(s, e) && e.Syscall?
    requires CallCode(s, e) == 1 && s.queues[FREE_STACKS] == []
    ensures Answered(s, e, s', 0xFFFF_FFFF)
  {
    HandlerIs(s, e, s', link);
    SpawnFails(Saved(s, e), link);
    ResultStored(s, e, 0xFFFF_FFFF);
  }

  // Code 2 gives the CPU away: at once to the end of the caller's level if the first argument
  // is 0, otherwise until that many ticks from now.

  ghost predicate Rested(s: KState, pcb: Pcb, n: Word, r: KState, l: nat)
    requires InCpu(s)
  {
    var p, end := s.current, Wrap(s.time + n);
    && r == s.(mem := r.mem, pcbs := r.pcbs, queues := r.queues, current := r.current)
    && if n == 0 then
         && pcb.prio < N_PRIOS
         && HandsOver(s.queues[READY + pcb.prio := s.queues[READY + pcb.prio] + [Item(0, p)]],
                      s.pcbs[p := pcb.(state := Ready)], r, l)
       else
         && HandsOver(s.queues[SLEEPING := Enqueue(ByTime, s.queues[SLEEPING], Item(end, p))],
                      s.pcbs[p := pcb.(state := Sleeping, wakeup := end)], r, l)
         && r.current != p
  }

  lemma SleepCall(s: KState, e: Event, s': KState, link: Link) returns (l: nat)
    requires Inv(s) && Next(s, e, s', link) && InCpu(s) && UserOk(s, e) && e.Syscall?
    requires CallCode(s, e) == 2
    ensures e.context + 19 < Base(s.pcbs[s.current].stack + 1)
    ensures var p, t := s.current, s.pcbs[s.current].stack;
      && Rested(s, s.pcbs[p].(context := e.context), SavedWord(s, e, 19), s', l)
      && Within(s.mem, s'.mem, t) && StackWords(s'.mem, t) == e.image
  {
    HandlerIs(s, e, s', link);
    ArgumentIs(s, e, 1);
    l := SleepRests(Saved(s, e));
    RestedFromSaved(s, e, SavedWord(s, e, 19), s', l);
    SavedStack(s, e);
  }

  // The arguments of a call are the words behind the one above the saved context.
  lemma ArgumentIs(s: KState, e: Event, n: nat)
    requires InCpu(s) && UserOk(s, e) && e.context + CONTEXT_WORDS + n < Base(s.pcbs[s.current].stack + 1)
    ensures Arg(Saved(s, e), s.current, n) == SavedWord(s, e, 18 + n)
  {
    SavedStack(s, e);
  }

  lemma SleepRests(s: KState) returns (l: nat)
    requires Inv(s) && InCpu(s) && s.current != IDLE
    requires s.pcbs[s.current].context + CONTEXT_WORDS + 1 < MEM_WORDS
    ensures SysSleep(s, s.current).Ok?
    ensures var r := SysSleep(s, s.current).value;
      Rested(s, s.pcbs[s.current], Arg(s, s.current, 1), r, l) && r.mem == s.mem
  {
    var pre := SleepForm(s);
    l := DispatchHandsOver(pre);
  }

  lemma RestedFromSaved(s: KState, e: Event, n: Word, r: KState, l: nat)
    requires InCpu(s) && UserOk(s, e) && InCpu(Saved(s, e))
    requires Rested(Saved(s, e), Saved(s, e).pcbs[s.current], n, r, l)
    ensures Rested(s, s.pcbs[s.current].(context := e.context), n, r, l)
  {
    var p, pcb := s.current, Saved(s, e).pcbs[s.current];
    var ready, asleep := pcb.(state := Ready), pcb.(state := Sleeping, wakeup := Wrap(s.time + n));
    assert s.pcbs[p := pcb][p := ready] == s.pcbs[p := ready];
    assert s.pcbs[p := pcb][p := asleep] == s.pcbs[p := asleep];
  }

  // A new process.

  // The words of a new stack from its first context on: the stack and data segments, the entry
  // point in the code segment, the flags, and above them the exit routine as return address;
  // all others are 0.
  function NewWord(k: int, entry: Word, link: Link): Word {
    if k == 0 then 0x20
    else if 1 <= k <= 4 then 0x18
    else if k == 15 then entry
    else if k == 16 then 0x10
    else if k == 17 then link.eflags
    else if k == 18 then link.defaultExit
    else 0
  }

  // The first context and two words above it end the stack.
  const FIRST := STACK_LWORDS - 20

  predicate Written(k: int) { 0 <= k <= 4 || 15 <= k <= 19 }

  // Stack t has been loaded for a new process.
  ghost predicate Loaded(mem: seq<Word>, mem': seq<Word>, t: nat, entry: Word, link: Link) {
    && |mem| == |mem'| == MEM_WORDS && t < N_STACKS
    && forall a | Base(t) <= a < Base(t + 1) ::
         var k := a - Base(t) - FIRST;
         mem'[a] == if Written(k) then NewWord(k, entry, link) else mem[a]
  }

  lemma InitialStackLoads(mem: seq<Word>, t: nat, entry: Word, link: Link)
    requires |mem| == MEM_WORDS && t < N_STACKS
    ensures Within(mem, InitialStack(mem, t, entry, link), t)
    ensures Loaded(mem, InitialStack(mem, t, entry, link), t, entry, link)
  {}

  function SignedPid(pid: Half): int { if pid < 0x8000 then pid else pid - 0x1_0000 }

  // With a PCB and a stack free, creation takes the first of each.
  lemma CreationLoads(s: KState, entry: Word, prio: Byte, link: Link)
    requires Shaped(s) && s.queues[FREE_PCBS] != [] && s.queues[FREE_STACKS] != []
    ensures CreateProcess(s, entry, prio, link).Ok?
    ensures var (r, p) := CreateProcess(s, entry, prio, link).value; var t := s.queues[FREE_STACKS][0].data;
      && p == s.queues[FREE_PCBS][0].data
      && r == s.(queues := s.queues[FREE_PCBS := s.queues[FREE_PCBS][1..]][FREE_STACKS := s.queues[FREE_STACKS][1..]],
                 pcbs := s.pcbs[p := Pcb(Base(t) + FIRST, t, 0, SignedPid(s.nextPid), 0, prio, Ready, 0, 10)],
                 mem := r.mem, active := Wrap(s.active + 1), nextPid := (s.nextPid + 1) % 0x1_0000)
      && Within(s.mem, r.mem, t) && Loaded(s.mem, r.mem, t, entry, link)
  {
    var p, t := s.queues[FREE_PCBS][0].data, s.queues[FREE_STACKS][0].data;
    InitialStackLoads(s.mem, t, entry, link);
    assert s.pcbs[p := s.pcbs[p].(state := New)][p := ZERO_PCB][p := NewPcb(t, s.nextPid, prio)]
      == s.pcbs[p := NewPcb(t, s.nextPid, prio)];
  }

  // Code 1 with a stack free: a new process, the only one that is created, is ready at the end
  // of its level, and its PID is the caller's result.

  function LevelOf(prio: int): nat { if 0 <= prio < 4 then prio else 3 }

  // The PID, sign-extended to a word.
  function PidWord(pid: Half): Word { if pid < 0x8000 then pid else pid + 0xFFFF_0000 }

  // The caller's stack has the result, stack t is the new one, and all others are as before.
  ghost predicate JoinedMemory(s: KState, e: Event, mem: seq<Word>, t: nat, entry: Word, link: Link)
    requires InCpu(s) && UserOk(s, e)
  {
    var own := s.pcbs[s.current].stack;
    && Loaded(s.mem, mem, t, entry, link)
    && StackWords(mem, own) == e.image[e.context - Base(own) + 12 := PidWord(s.nextPid)]
    && forall u | 0 <= u < N_STACKS && u != t && u != own :: StackWords(mem, u) == StackWords(s.mem, u)
  }

  // The child is in the first free PCB, with the first free stack, and ready.
  ghost predicate JoinedQueues(s: KState, context: int, r: KState, prio: Byte)
    requires InCpu(s) && s.queues[FREE_PCBS] != [] && s.queues[FREE_STACKS] != []
  {
    var p, own := s.current, s.pcbs[s.current].stack;
    var child, t, level := s.queues[FREE_PCBS][0].data, s.queues[FREE_STACKS][0].data, READY + LevelOf(prio);
    && child != p && t != own && s.pcbs[child].state == Free && r.current == p && r.time == s.time
    && r.active == s.active + 1 && r.nextPid == (s.nextPid + 1) % 0x1_0000
    && r.queues == s.queues[FREE_PCBS := s.queues[FREE_PCBS][1..]][FREE_STACKS := s.queues[FREE_STACKS][1..]]
                           [level := s.queues[level] + [Item(0, child)]]
    && r.pcbs == s.pcbs[p := s.pcbs[p].(context := context)]
                       [child := Pcb(Base(t) + FIRST, t, 0, SignedPid(s.nextPid), s.pcbs[p].pid, LevelOf(prio),
                                     Ready, 0, 10)]
  }

  ghost predicate Joined(s: KState, e: Event, r: KState, entry: Word, prio: Byte, link: Link)
    requires InCpu(s) && UserOk(s, e) && s.queues[FREE_PCBS] != [] && s.queues[FREE_STACKS] != []
  {
    JoinedQueues(s, e.context, r, prio) && JoinedMemory(s, e, r.mem, s.queues[FREE_STACKS][0].data, entry, link)
  }

  // The same, as the kernel builds it.
  ghost predicate SpawnedParts(s: KState, r: KState, entry: Word, prio: Byte, link: Link)
    requires InCpu(s) && s.queues[FREE_PCBS] != [] && s.queues[FREE_STACKS] != []
  {
    var p := s.current;
    var child, t, level := s.queues[FREE_PCBS][0].data, s.queues[FREE_STACKS][0].data, READY + LevelOf(prio);
    && r.current == p && r.time == s.time && r.nextPid == (s.nextPid + 1) % 0x1_0000
    && r.active == Wrap(s.active + 1)
    && r.queues == s.queues[FREE_PCBS := s.queues[FREE_PCBS][1..]][FREE_STACKS := s.queues[FREE_STACKS][1..]]
                           [level := s.queues[level] + [Item(0, child)]]
    && r.pcbs == s.pcbs[child := Pcb(Base(t) + FIRST, t, 0, SignedPid(s.nextPid), s.pcbs[p].pid, LevelOf(prio),
                                     Ready, 0, 10)]
    && r.mem == InitialStack(s.mem, t, entry, link)[s.pcbs[p].context + 12 := PidWord(s.nextPid)]
  }

  lemma SpawnedIs(s: KState, entry: Word, prio: Byte, link: Link)
    requires InCpu(s) && s.queues[FREE_STACKS] != [] && s.queues[FREE_PCBS] != []
    requires s.queues[FREE_PCBS][0].data != s.current
    ensures SpawnedParts(s, Spawned(s, entry, prio, link), entry, prio, link)
  {}

  lemma SpawnCall(s: KState, e: Event, s': KState, link: Link)
    requires Inv(s) && Next(s, e, s', link) && InCpu(s) && UserOk(s, e) && e.Syscall?
    requires CallCode(s, e) == 1 && s.queues[FREE_STACKS] != []
    ensures e.context + 20 < Base(s.pcbs[s.current].stack + 1) && s.queues[FREE_PCBS] != []
    ensures Joined(s, e, s', SavedWord(s, e, 19), SavedWord(s, e, 20) % 0x100, link)
  {
    HandlerIs(s, e, s', link);
    ArgumentIs(s, e, 1);
    ArgumentIs(s, e, 2);
    SpawnSucceeds(Saved(s, e), link);
    SpawnedJoins(s, e, SavedWord(s, e, 19), SavedWord(s, e, 20) % 0x100, link);
  }

  // The first free PCB and the first free stack.
  lemma FirstFree(s: KState)
    requires Inv(s) && InCpu(s) && s.queues[FREE_STACKS] != [] && s.queues[FREE_PCBS] != []
    ensures var child, t := s.queues[FREE_PCBS][0].data, s.queues[FREE_STACKS][0].data;
      && child != s.current && s.pcbs[child].state == Free && t != s.pcbs[s.current].stack
    ensures Wrap(s.active + 1) == s.active + 1
  {
    assert SoundParts(s.queues, s.pcbs, s.active, {s.current});
    assert Houses(FREE_PCBS, s.queues[FREE_PCBS], s.pcbs, {s.current});
  }

  lemma PartsJoin(s: KState, s0: KState, context: int, r: KState, entry: Word, prio: Byte, link: Link)
    requires InCpu(s) && InCpu(s0)
    requires s0 == s.(mem := s0.mem, pcbs := s.pcbs[s.current := s.pcbs[s.current].(context := context)])
    requires s.queues[FREE_STACKS] != [] && s.queues[FREE_PCBS] != [] && Wrap(s.active + 1) == s.active + 1
    requires var child, t := s.queues[FREE_PCBS][0].data, s.queues[FREE_STACKS][0].data;
      child != s.current && s.pcbs[child].state == Free && t != s.pcbs[s.current].stack
    requires SpawnedParts(s0, r, entry, prio, link)
    ensures JoinedQueues(s, context, r, prio)
  {}

  lemma SpawnedJoins(s: KState, e: Event, entry: Word, prio: Byte, link: Link)
    requires Inv(s) && InCpu(s) && UserOk(s, e) && InCpu(Saved(s, e))
    requires s.queues[FREE_STACKS] != [] && s.queues[FREE_PCBS] != [] && s.queues[FREE_PCBS][0].data != s.current
    ensures Joined(s, e, Spawned(Saved(s, e), entry, prio, link), entry, prio, link)
  {
    var s0 := Saved(s, e);
    var r := Spawned(s0, entry, prio, link);
    SpawnedIs(s0, entry, prio, link);
    FirstFree(s);
    PartsJoin(s, s0, e.context, r, entry, prio, link);
    SpawnedMemory(s, e, s.queues[FREE_STACKS][0].data, entry, link, r.mem);
  }

  // The two stacks that a spawn writes.
  lemma SpawnedMemory(s: KState, e: Event, t: nat, entry: Word, link: Link, mem: seq<Word>)
    requires InCpu(s) && UserOk(s, e) && t < N_STACKS && t != s.pcbs[s.current].stack
    requires mem == InitialStack(Saved(s, e).mem, t, entry, link)[e.context + 12 := PidWord(s.nextPid)]
    ensures JoinedMemory(s, e, mem, t, entry, link)
  {
    var own, before := s.pcbs[s.current].stack, Saved(s, e).mem;
    var loaded := InitialStack(before, t, entry, link);
    SavedStack(s, e);
    InitialStackLoads(before, t, entry, link);
    WithinKeepsOthers(before, loaded, t, own);
    assert Within(loaded, mem, own);
    forall u | 0 <= u < N_STACKS && u != t && u != own
      ensures StackWords(mem, u) == StackWords(s.mem, u)
    {
      WithinKeepsOthers(s.mem, before, own, u);
      WithinKeepsOthers(before, loaded, t, u);
      WithinKeepsOthers(loaded, mem, own, u);
    }
  }

  // The clock interrupt: sleepers whose time has come are woken, and then a tick of the
  // quantum is used up; at its end the current process goes behind them.

  ghost predicate Ticked(s: KState, w: KState, s': KState, l: nat)
    requires Shaped(w) && 0 <= s.current < N_PCBS && |s.pcbs| == N_PCBS
  {
    var p, pcb := s.current, w.pcbs[s.current];
    && s' == w.(pcbs := s'.pcbs, queues := s'.queues, current := s'.current)
    && if s.pcbs[p].quantum > 1 then
         s'.current == p && s'.queues == w.queues && s'.pcbs == w.pcbs[p := pcb.(quantum := s.pcbs[p].quantum - 1)]
       else
         && pcb.prio < N_PRIOS
         && HandsOver(w.queues[READY + pcb.prio := w.queues[READY + pcb.prio] + [Item(0, p)]],
                      w.pcbs[p := pcb.(quantum := 0, state := Ready)], s', l)
  }

  // From the state s in which the clock interrupt finds the kernel.
  ghost predicate PassedParts(s: KState, w: KState, r: KState, l: nat) {
    && Woken(s.(time := Wrap(s.time + 1)), w) && 0 <= s.current < N_PCBS && |s.pcbs| == N_PCBS
    && w.pcbs[s.current] == s.pcbs[s.current] && Ticked(s, w, r, l)
  }

  ghost predicate Passed(s: KState, w: KState, r: KState, l: nat) {
    forall x {:trigger PassedParts(s, w, x, l)} | x == r :: PassedParts(s, w, x, l)
  }

  // The state that the interrupt finds, with this memory.
  function Interrupted(s: KState, e: Event, mem: seq<Word>): KState
    requires InCpu(s)
  {
    s.(mem := mem, pcbs := s.pcbs[s.current := s.pcbs[s.current].(context := e.context)])
  }

  lemma TickCall(s: KState, e: Event, s': KState, link: Link) returns (w: KState, l: nat)
    requires Inv(s) && Next(s, e, s', link) && InCpu(s) && UserOk(s, e) && e.Tick?
    ensures Passed(Interrupted(s, e, s'.mem), w, s', l)
    ensures var t := s.pcbs[s.current].stack; Within(s.mem, s'.mem, t) && StackWords(s'.mem, t) == e.image
  {
    assert Leads(s, e, s', link);
    SavedKeepsInv(s, e);
    StepIs(s, e, link);
    SavedStack(s, e);
    w, l := ClockTicks(Saved(s, e));
  }

  lemma ClockTicks(s: KState) returns (w: KState, l: nat)
    requires Inv(s)
    ensures ClockIsr(s).Ok? && ClockIsr(s).value.mem == s.mem && Passed(s, w, ClockIsr(s).value, l)
  {
    var pre, dispatched;
    w, pre, dispatched := ClockForm(s);
    WokenKeeps(s, w);
    l := 0;
    if dispatched {
      l := DispatchHandsOver(pre);
    }
    ChargedPasses(s, w, pre, dispatched, ClockIsr(s).value, l);
  }

  lemma WokenKeeps(s: KState, w: KState)
    requires Inv(s) && Woken(s.(time := Wrap(s.time + 1)), w)
    ensures w.current == s.current != NULL && w.mem == s.mem && 0 < s.pcbs[s.current].quantum
    ensures s.pcbs[s.current].prio < N_PRIOS
  {}

  lemma ChargedPasses(s: KState, w: KState, pre: KState, dispatched: bool, r: KState, l: nat)
    requires Shaped(s) && Woken(s.(time := Wrap(s.time + 1)), w) && w.current == s.current != NULL
    requires w.pcbs[s.current] == s.pcbs[s.current] && w.mem == s.mem
    requires s.pcbs[s.current].prio < N_PRIOS && 0 < s.pcbs[s.current].quantum
    requires dispatched <==> s.pcbs[s.current].quantum == 1
    requires pre == if dispatched then Scheduled(Charge(w), w.current) else Charge(w)
    requires if dispatched
             then HandsOver(pre.queues, pre.pcbs, r, l)
                  && r == pre.(queues := r.queues, pcbs := r.pcbs, current := r.current)
             else r == pre
    ensures Passed(s, w, r, l) && r.mem == s.mem
  {
    ChargedIs(w, pre, dispatched);
    assert Ticked(s, w, r, l);
  }

  lemma ChargedIs(w: KState, pre: KState, dispatched: bool)
    requires Shaped(w) && w.current != NULL && w.pcbs[w.current].prio < N_PRIOS && 0 < w.pcbs[w.current].quantum
    requires dispatched <==> w.pcbs[w.current].quantum == 1
    requires pre == if dispatched then Scheduled(Charge(w), w.current) else Charge(w)
    ensures var p, pcb := w.current, w.pcbs[w.current];
      if dispatched then
        pre == w.(pcbs := w.pcbs[p := pcb.(quantum := 0, state := Ready)],
                  queues := w.queues[READY + pcb.prio := w.queues[READY + pcb.prio] + [Item(0, p)]])
      else pre == w.(pcbs := w.pcbs[p := pcb.(quantum := pcb.quantum - 1)])
  {}
}
