/** The process kernel as functions from state to state: scheduler.c, process.c, stack.c,
    clock.c, syscall.c and the process creation of system.c. */
module KernelSpec {
  import opened Common
  import opened QueueSpec

  const STACK_LWORDS := 1024
  const MEM_WORDS := N_STACKS * STACK_LWORDS
  const QUANTUM_DEFAULT := 10
  const N_SYSCALLS := 13
  const SYS_EXIT := 0
  const SYS_SPAWNP := 1
  const SYS_SLEEP := 2

  const PRIO_SYSTEM := 0
  const PRIO_USER_HIGH := 1
  const PRIO_USER_STD := 2
  const PRIO_USER_LOW := 3
  const N_PRIOS := 4
  const PID_INIT := 1

  // The queues in the order in which the modules allocate them.
  const FREE_QUEUES := 0
  const FREE_PCBS := 1
  const FREE_STACKS := 2
  const READY := 3
  const SLEEPING := 7

  // Word offsets in the context save area, and its size.
  const SS := 0
  const GS := 1
  const FS := 2
  const ES := 3
  const DS := 4
  const EAX := 12
  const EIP := 15
  const CS := 16
  const EFLAGS := 17
  const CONTEXT_WORDS := 18

  const GDT_CODE := 0x10
  const GDT_DATA := 0x18
  const GDT_STACK := 0x20

  datatype State = Free | New | Ready | Running | Sleeping | Blocked

  // Contexts are word addresses within the stacks, stacks are indices into _stacks.
  datatype Pcb = Pcb(context: int, stack: int, wakeup: Word, pid: int, ppid: int,
                     prio: Byte, state: State, quantum: Byte, defaultQuantum: Byte)

  const ZERO_PCB := Pcb(NULL, NULL, 0, 0, 0, 0, Free, 0, 0)

  // What the linker and the processor headers fix: the address of __default_exit__ and
  // the initial EFLAGS.
  datatype Link = Link(defaultExit: Word, eflags: Word)

  datatype KState = KState(queues: seq<seq<Item>>, pcbs: seq<Pcb>, mem: seq<Word>,
                           current: int, time: Word, active: Word, nextPid: Half)

  predicate IsPcbQueue(q: int) {
    q == FREE_PCBS || READY <= q <= SLEEPING
  }

  // The queue of sleepers is the only one with a comparison function.
  function CompareOf(q: int): Compare {
    if q == SLEEPING then ByTime else NoCompare
  }

  ghost predicate PcbItems(items: seq<Item>) {
    forall i | 0 <= i < |items| :: 0 <= items[i].data < N_PCBS
  }

  ghost predicate StackItems(items: seq<Item>) {
    forall i | 0 <= i < |items| :: 0 <= items[i].data < N_STACKS
  }

  // Array sizes, and pointers that point into the arrays.
  ghost predicate Shaped(s: KState) {
    && |s.queues| == N_QUEUES && |s.pcbs| == N_PCBS && |s.mem| == MEM_WORDS
    && (s.current == NULL || 0 <= s.current < N_PCBS)
    && (forall q | 0 <= q < N_QUEUES && IsPcbQueue(q) :: PcbItems(s.queues[q]))
    && StackItems(s.queues[FREE_STACKS])
    && (forall p | 0 <= p < N_PCBS :: s.pcbs[p].stack == NULL || 0 <= s.pcbs[p].stack < N_STACKS)
  }

  // Queues of the kernel state.

  function Insert(s: KState, q: nat, data: int, key: Word): (r: Outcome<KState>)
    requires Shaped(s) && q < N_QUEUES
    requires IsPcbQueue(q) ==> 0 <= data < N_PCBS
    requires q == FREE_STACKS ==> 0 <= data < N_STACKS
    ensures r.Ok? ==> Shaped(r.value)
  {
    if Total(s.queues) >= N_QNODES then Panic
    else Ok(s.(queues := s.queues[q := Enqueue(CompareOf(q), s.queues[q], Item(key, data))]))
  }

  function Remove(s: KState, q: nat): (r: (KState, int))
    requires Shaped(s) && q < N_QUEUES
    ensures Shaped(r.0)
    ensures IsPcbQueue(q) ==> r.1 == NULL || 0 <= r.1 < N_PCBS
    ensures q == FREE_STACKS ==> r.1 == NULL || 0 <= r.1 < N_STACKS
  {
    if s.queues[q] == [] then (s, NULL)
    else (s.(queues := s.queues[q := s.queues[q][1..]]), s.queues[q][0].data)
  }

  function SetPcb(s: KState, p: nat, pcb: Pcb): (r: KState)
    requires Shaped(s) && p < N_PCBS && (pcb.stack == NULL || 0 <= pcb.stack < N_STACKS)
    ensures Shaped(r)
  {
    s.(pcbs := s.pcbs[p := pcb])
  }

  // process.c

  function PcbAlloc(s: KState): (r: (KState, int))
    requires Shaped(s)
    ensures Shaped(r.0) && (r.1 == NULL || 0 <= r.1 < N_PCBS)
  {
    var (s1, p) := Remove(s, FREE_PCBS);
    var s2 := if p == NULL then s1 else SetPcb(s1, p, s1.pcbs[p].(state := New));
    (s2.(active := Wrap(s2.active + 1)), p)
  }

  function PcbDealloc(s: KState, p: int): (r: Outcome<KState>)
    requires Shaped(s) && (p == NULL || 0 <= p < N_PCBS)
    ensures r.Ok? ==> Shaped(r.value)
  {
    if p == NULL then Ok(s)
    else
      var s1 :- Insert(SetPcb(s, p, ZERO_PCB), FREE_PCBS, p, 0);
      Ok(s1.(active := Wrap(s1.active - 1)))
  }

  // stack.c: stack t occupies the words from Base(t) on.

  function Base(t: int): int { t * STACK_LWORDS }

  function StackWords(mem: seq<Word>, t: nat): seq<Word>
    requires |mem| == MEM_WORDS && t < N_STACKS
  {
    mem[Base(t)..Base(t + 1)]
  }

  function WithStack(mem: seq<Word>, t: nat, image: seq<Word>): (r: seq<Word>)
    requires |mem| == MEM_WORDS && t < N_STACKS && |image| == STACK_LWORDS
    ensures |r| == MEM_WORDS
  {
    mem[..Base(t)] + image + mem[Base(t + 1)..]
  }

  function Zeros(n: nat): (r: seq<Word>)
    ensures |r| == n && forall i | 0 <= i < n :: r[i] == 0
  {
    seq(n, i => 0)
  }

  function StackAlloc(s: KState): (r: (KState, int))
    requires Shaped(s)
    ensures Shaped(r.0) && (r.1 == NULL || 0 <= r.1 < N_STACKS)
  {
    Remove(s, FREE_STACKS)
  }

  function StackDealloc(s: KState, t: int): (r: Outcome<KState>)
    requires Shaped(s) && (t == NULL || 0 <= t < N_STACKS)
    ensures r.Ok? ==> Shaped(r.value)
  {
    if t == NULL then Ok(s)
    else Insert(s.(mem := WithStack(s.mem, t, Zeros(STACK_LWORDS))), FREE_STACKS, t, 0)
  }

  // system.c: the two words above the first context are a return address into
  // __default_exit__ and the last word of the stack.

  function FirstContext(t: int): int { Base(t + 1) - 2 - CONTEXT_WORDS }

  function InitialStack(mem: seq<Word>, t: nat, entry: Word, link: Link): (r: seq<Word>)
    requires |mem| == MEM_WORDS && t < N_STACKS
    ensures |r| == MEM_WORDS
  {
    var c := FirstContext(t);
    mem[Base(t + 1) - 1 := 0][Base(t + 1) - 2 := link.defaultExit]
       [c + EIP := entry][c + CS := GDT_CODE][c + SS := GDT_STACK][c + DS := GDT_DATA]
       [c + ES := GDT_DATA][c + FS := GDT_DATA][c + GS := GDT_DATA][c + EFLAGS := link.eflags]
  }

  function ToInt16(x: Half): int {
    if x < 0x8000 then x else x - 0x1_0000
  }

  function NewPcb(t: int, pid: Half, prio: Byte): Pcb {
    ZERO_PCB.(stack := t, context := FirstContext(t), prio := prio, pid := ToInt16(pid),
              defaultQuantum := QUANTUM_DEFAULT, state := Ready)
  }

  function Furnish(s: KState, p: nat, t: nat, entry: Word, prio: Byte, link: Link): (r: KState)
    requires Shaped(s) && p < N_PCBS && t < N_STACKS
    ensures Shaped(r)
  {
    SetPcb(s, p, NewPcb(t, s.nextPid, prio))
      .(mem := InitialStack(s.mem, t, entry, link), nextPid := (s.nextPid + 1) % 0x1_0000)
  }

  // The process is not on the free list.
  ghost predicate Allocated(s: KState, p: int)
    requires Shaped(s)
  {
    forall i | 0 <= i < |s.queues[FREE_PCBS]| :: s.queues[FREE_PCBS][i].data != p
  }

  function CreateProcess(s: KState, entry: Word, prio: Byte, link: Link): (r: Outcome<(KState, int)>)
    requires Shaped(s)
    ensures r.Ok? ==> Shaped(r.value.0) && (r.value.1 == NULL || 0 <= r.value.1 < N_PCBS)
    ensures r.Ok? ==> forall p | 0 <= p < N_PCBS && Allocated(s, p) ::
              r.value.1 != p && r.value.0.pcbs[p] == s.pcbs[p]
  {
    var (s1, p) := PcbAlloc(s);
    if p == NULL then Ok((s1, NULL))
    else
      var (s2, t) := StackAlloc(SetPcb(s1, p, ZERO_PCB));
      if t == NULL then
        var s3 :- PcbDealloc(s2, p);
        Ok((s3, NULL))
      else
        Ok((Furnish(s2, p, t, entry, prio, link), p))
  }

  // scheduler.c

  function Schedule(s: KState, p: nat): (r: Outcome<KState>)
    requires Shaped(s) && p < N_PCBS
    ensures r.Ok? ==> Shaped(r.value) && r.value.current == s.current
    ensures r.Ok? ==> r.value.queues[SLEEPING] == s.queues[SLEEPING]
  {
    var prio := if s.pcbs[p].prio >= N_PRIOS then PRIO_USER_LOW else s.pcbs[p].prio;
    Insert(SetPcb(s, p, s.pcbs[p].(prio := prio, state := Ready)), READY + prio, p, 0)
  }

  // The first non-empty ready level from `level` on, or N_PRIOS.
  function FirstReady(queues: seq<seq<Item>>, level: nat): (r: nat)
    requires |queues| == N_QUEUES && level <= N_PRIOS
    ensures level <= r <= N_PRIOS
    ensures forall q | READY + level <= q < READY + r :: queues[q] == []
    ensures r < N_PRIOS ==> queues[READY + r] != []
    decreases N_PRIOS - level
  {
    if level == N_PRIOS || queues[READY + level] != [] then level else FirstReady(queues, level + 1)
  }

  function Dispatch(s: KState): (r: Outcome<KState>)
    requires Shaped(s)
    ensures r.Ok? ==> Shaped(r.value)
  {
    var level := FirstReady(s.queues, 0);
    if level == N_PRIOS then Panic
    else
      var (s1, p) := Remove(s, READY + level);
      var pcb := s1.pcbs[p];
      Ok(SetPcb(s1, p, pcb.(state := Running, quantum := pcb.defaultQuantum)).(current := p))
  }

  // clock.c

  function Wake(s: KState): (r: Outcome<KState>)
    requires Shaped(s)
    ensures r.Ok? ==> Shaped(r.value) && r.value.current == s.current
    decreases |s.queues[SLEEPING]|
  {
    if s.queues[SLEEPING] == [] || s.queues[SLEEPING][0].key > s.time then Ok(s)
    else
      var (s1, p) := Remove(s, SLEEPING);
      var woken := Schedule(s1, p);
      if woken.Panic? then Panic else Wake(woken.value)
  }

  // The current process goes to the end of its level and the CPU to the first in line.
  function Preempt(s: KState): (r: Outcome<KState>)
    requires Shaped(s) && s.current != NULL
    ensures r.Ok? ==> Shaped(r.value)
  {
    var s1 :- Schedule(s, s.current);
    Dispatch(s1)
  }

  // One tick of the current quantum, an 8-bit counter.
  function Charge(s: KState): (r: KState)
    requires Shaped(s) && s.current != NULL
    ensures Shaped(r) && r.current == s.current
  {
    SetPcb(s, s.current, s.pcbs[s.current].(quantum := (s.pcbs[s.current].quantum - 1) % 0x100))
  }

  function Expire(s: KState): (r: Outcome<KState>)
    requires Shaped(s) && s.current != NULL
    ensures r.Ok? ==> Shaped(r.value)
  {
    if Charge(s).pcbs[s.current].quantum < 1 then Preempt(Charge(s)) else Ok(Charge(s))
  }

  // The quantum after the wake-ups, if these did not panic.
  function ExpireAfter(woken: Outcome<KState>): (r: Outcome<KState>)
    requires woken.Ok? ==> Shaped(woken.value) && woken.value.current != NULL
    ensures r.Ok? ==> Shaped(r.value)
  {
    if woken.Panic? then Panic else Expire(woken.value)
  }

  function ClockIsr(s: KState): (r: Outcome<KState>)
    requires Shaped(s) && s.current != NULL
    ensures r.Ok? ==> Shaped(r.value)
  {
    ExpireAfter(Wake(s.(time := Wrap(s.time + 1))))
  }

  // syscall.c

  // The saved context of a process lies in its own stack.
  predicate HasContext(pcb: Pcb) {
    && 0 <= pcb.stack < N_STACKS
    && Base(pcb.stack) <= pcb.context && pcb.context + CONTEXT_WORDS <= Base(pcb.stack + 1)
  }

  // Argument n of a system call, or the word after the context for n == 0.
  function Arg(s: KState, p: nat, n: nat): Word
    requires Shaped(s) && p < N_PCBS && HasContext(s.pcbs[p])
    requires s.pcbs[p].context + CONTEXT_WORDS + n < MEM_WORDS
  {
    s.mem[s.pcbs[p].context + CONTEXT_WORDS + n]
  }

  function SetRet(s: KState, p: nat, w: Word): (r: KState)
    requires Shaped(s) && p < N_PCBS && HasContext(s.pcbs[p])
    ensures Shaped(r)
  {
    s.(mem := s.mem[s.pcbs[p].context + EAX := w])
  }

  function SysExit(s: KState, p: nat): (r: Outcome<KState>)
    requires Shaped(s) && p < N_PCBS
    ensures r.Ok? ==> Shaped(r.value)
  {
    var s1 :- StackDealloc(s, s.pcbs[p].stack);
    var s2 :- PcbDealloc(s1, p);
    if p == s2.current then Dispatch(s2) else Ok(s2)
  }

  function SysSpawnp(s: KState, p: nat, link: Link): (r: Outcome<KState>)
    requires Shaped(s) && p < N_PCBS && HasContext(s.pcbs[p]) && Allocated(s, p)
    requires s.pcbs[p].context + CONTEXT_WORDS + 2 < MEM_WORDS
    ensures r.Ok? ==> Shaped(r.value)
  {
    var (s1, child) :- CreateProcess(s, Arg(s, p, 1), Arg(s, p, 2) % 0x100, link);
    if child == NULL then Ok(SetRet(s1, p, Wrap(-1)))
    else
      var s2 := SetPcb(s1, child, s1.pcbs[child].(ppid := s1.pcbs[p].pid));
      Schedule(SetRet(s2, p, Wrap(s2.pcbs[child].pid)), child)
  }

  // A sleep of length 0 is a yield; otherwise the process joins the sleepers.
  function Park(s: KState, p: nat, sleeptime: Word): (r: Outcome<KState>)
    requires Shaped(s) && p < N_PCBS
    ensures r.Ok? ==> Shaped(r.value)
  {
    if sleeptime == 0 then Schedule(s, p)
    else
      var wakeup := Wrap(s.time + sleeptime);
      Insert(SetPcb(s, p, s.pcbs[p].(wakeup := wakeup, state := Sleeping)), SLEEPING, p, wakeup)
  }

  function SysSleep(s: KState, p: nat): (r: Outcome<KState>)
    requires Shaped(s) && p < N_PCBS && HasContext(s.pcbs[p])
    requires s.pcbs[p].context + CONTEXT_WORDS + 1 < MEM_WORDS
    ensures r.Ok? ==> Shaped(r.value)
  {
    var s1 :- Park(s, p, Arg(s, p, 1));
    Dispatch(s1)
  }

  // The process in the CPU, as the machine sees it: its context lies in its own stack.
  ghost predicate InCpu(s: KState) {
    && Shaped(s) && s.current != NULL && HasContext(s.pcbs[s.current]) && Allocated(s, s.current)
  }

  // The system call that the saved EAX selects; every undefined code is an exit.
  function SyscallCode(s: KState): Word
    requires InCpu(s)
  {
    var which := s.mem[s.pcbs[s.current].context + EAX];
    if which >= N_SYSCALLS then SYS_EXIT else which
  }

  // spawnp and sleep find two argument words, and a return address, above the context.
  ghost predicate HasArgs(s: KState)
    requires InCpu(s)
  {
    SyscallCode(s) == SYS_SPAWNP || SyscallCode(s) == SYS_SLEEP ==>
      s.pcbs[s.current].context + CONTEXT_WORDS + 3 <= Base(s.pcbs[s.current].stack + 1)
  }

  // All other system calls only return a result to their caller.
  function SysIsr(s: KState, result: Word, link: Link): (r: Outcome<KState>)
    requires InCpu(s) && HasArgs(s)
    ensures r.Ok? ==> Shaped(r.value)
  {
    var which := SyscallCode(s);
    if which == SYS_EXIT then SysExit(s, s.current)
    else if which == SYS_SPAWNP then SysSpawnp(s, s.current, link)
    else if which == SYS_SLEEP then SysSleep(s, s.current)
    else Ok(SetRet(s, s.current, result))
  }

  // One entry into the kernel.  Until it, the current process ran and changed its own
  // stack, where the interrupt then saved its context.
  datatype Event = Tick(context: int, image: seq<Word>)
                 | Syscall(context: int, image: seq<Word>, result: Word)

  function Saved(s: KState, e: Event): (r: KState)
    requires InCpu(s) && |e.image| == STACK_LWORDS
    ensures Shaped(r) && r.current == s.current
  {
    s.(mem := WithStack(s.mem, s.pcbs[s.current].stack, e.image),
       pcbs := s.pcbs[s.current := s.pcbs[s.current].(context := e.context)])
  }

  // The idle process is the second one created; it makes no system call.
  const IDLE := 1

  // What is assumed of user processes: they save their context in their own stack, pass
  // arguments there, and the idle process makes no system call.
  ghost predicate UserOk(s: KState, e: Event)
    requires InCpu(s)
  {
    && |e.image| == STACK_LWORDS
    && HasContext(s.pcbs[s.current].(context := e.context))
    && (e.Syscall? ==> s.current != IDLE && HasArgs(Saved(s, e)))
  }

  function Step(s: KState, e: Event, link: Link): (r: Outcome<KState>)
    requires InCpu(s) && UserOk(s, e)
    ensures r.Ok? ==> Shaped(r.value)
  {
    match e
    case Tick(_, _) => ClockIsr(Saved(s, e))
    case Syscall(_, _, result) => SysIsr(Saved(s, e), result, link)
  }

  // The addresses of the four programs that _init starts.
  datatype Programs = Programs(init: Word, idle: Word, hello: Word, shell: Word)

  function FreePcbs(): (r: seq<Pcb>)
    ensures |r| == N_PCBS && forall p | 0 <= p < N_PCBS :: r[p] == ZERO_PCB
  {
    seq(N_PCBS, p => ZERO_PCB)
  }

  // All modules initialised: every PCB and every stack is free.
  function Booted(): (s: KState)
    ensures Shaped(s) && |s.queues[FREE_PCBS]| == N_PCBS && |s.queues[FREE_STACKS]| == N_STACKS
    ensures forall i | 0 <= i < N_PCBS :: s.queues[FREE_PCBS][i] == Item(0, i) && s.pcbs[i] == ZERO_PCB
    ensures forall i | 0 <= i < N_STACKS :: s.queues[FREE_STACKS][i] == Item(0, i)
    ensures forall q | READY <= q < N_QUEUES :: s.queues[q] == []
    ensures s.queues[FREE_QUEUES] == [Item(0, 8), Item(0, 9)]
    ensures s.current == NULL && s.time == 0 && s.active == 0 && s.nextPid == PID_INIT
  {
    KState(seq(N_QUEUES, q =>
             if q == FREE_QUEUES then [Item(0, 8), Item(0, 9)]
             else if q == FREE_PCBS then seq(N_PCBS, i => Item(0, i))
             else if q == FREE_STACKS then seq(N_STACKS, i => Item(0, i))
             else []),
           FreePcbs(), Zeros(MEM_WORDS), NULL, 0, 0, PID_INIT)
  }

  // Creates and schedules one process; _init panics when it cannot.
  function Start(s: KState, entry: Word, prio: Byte, link: Link): (r: Outcome<KState>)
    requires Shaped(s)
    ensures r.Ok? ==> Shaped(r.value)
  {
    var (s1, p) :- CreateProcess(s, entry, prio, link);
    if p == NULL then Panic else Schedule(s1, p)
  }

  // The kernel part of _init: the first process is dispatched before the shell is created.
  function Init(programs: Programs, link: Link): (r: Outcome<KState>)
    ensures r.Ok? ==> Shaped(r.value)
  {
    var s1 :- Start(Booted(), programs.init, PRIO_SYSTEM, link);
    var s2 :- Start(s1, programs.idle, PRIO_USER_LOW, link);
    var s3 :- Start(s2, programs.hello, PRIO_USER_HIGH, link);
    var s4 :- Dispatch(s3);
    Start(s4, programs.shell, PRIO_USER_STD, link)
  }

  // The composition of the larger steps, without their parts.

  lemma ExpireAfterOk(s: KState)
    requires Shaped(s) && s.current != NULL
    ensures ExpireAfter(Ok(s)) == Expire(s)
  {}

  lemma ClockIsrIs(s: KState, w: Outcome<KState>)
    requires Shaped(s) && s.current != NULL && w == Wake(s.(time := Wrap(s.time + 1)))
    requires w.Ok? ==> Shaped(w.value) && w.value.current != NULL
    ensures ClockIsr(s) == ExpireAfter(w)
  {}

  lemma ClockIsrSteps(s: KState, w: Outcome<KState>)
    requires Shaped(s) && s.current != NULL && w == Wake(s.(time := Wrap(s.time + 1)))
    requires w.Ok? ==> Shaped(w.value) && w.value.current != NULL
    ensures w.Ok? ==> ClockIsr(s) == Expire(w.value)
    ensures w.Panic? ==> ClockIsr(s) == Panic
  {
    ClockIsrIs(s, w);
    if w.Ok? {
      ExpireAfterOk(w.value);
    }
  }

  lemma SysSleepSteps(s: KState, p: nat)
    requires Shaped(s) && p < N_PCBS && HasContext(s.pcbs[p])
    requires s.pcbs[p].context + CONTEXT_WORDS + 1 < MEM_WORDS
    ensures var r := Park(s, p, Arg(s, p, 1));
      SysSleep(s, p) == if r.Panic? then Panic else Dispatch(r.value)
  {}

  lemma SysSpawnpSteps(s: KState, p: nat, link: Link)
    requires Shaped(s) && p < N_PCBS && HasContext(s.pcbs[p]) && Allocated(s, p)
    requires s.pcbs[p].context + CONTEXT_WORDS + 2 < MEM_WORDS
    ensures var r := CreateProcess(s, Arg(s, p, 1), Arg(s, p, 2) % 0x100, link);
      SysSpawnp(s, p, link) ==
        if r.Panic? then Panic
        else
          var (s1, child) := r.value;
          if child == NULL then Ok(SetRet(s1, p, Wrap(-1)))
          else
            var s2 := SetPcb(s1, child, s1.pcbs[child].(ppid := s1.pcbs[p].pid));
            Schedule(SetRet(s2, p, Wrap(s2.pcbs[child].pid)), child)
  {}
}
