/** The kernel as it runs: the C functions over their static arrays and queues, each proved to
    perform the step that KernelSpec describes. */
module KernelModule {
  import opened Common
  import opened QueueSpec
  import opened QueueModule
  import opened KernelSpec

  ghost function KernelCompares(): (r: seq<Compare>)
    ensures |r| == N_QUEUES && forall q | 0 <= q < N_QUEUES :: r[q] == CompareOf(q)
  {
    seq(N_QUEUES, q => CompareOf(q))
  }

  class Kernel {
    const qm: Queues
    const pcbs: array<Pcb>       // _pcbs
    const mem: array<Word>       // _stacks
    const ready: array<nat>      // _ready
    const link: Link
    var freePcbs: nat            // _free_pcbs
    var freeStacks: nat          // _free_stacks
    var sleeping: nat            // _sleeping
    var current: int             // _current
    var time: Word               // _system_time
    var active: Word             // _system_active
    var nextPid: Half            // _next_pid

    ghost const Repr: set<object> := {this, qm, qm.nodes, qm.queues, pcbs, mem}

    ghost function Abs(): KState
      reads this, qm, pcbs, mem
    {
      KState(qm.contents, pcbs[..], mem[..], current, time, active, nextPid)
    }

    // Usable data structures: the arrays are separate and pointers stay in range.
    ghost predicate Usable()
      reads Repr
    {
      && qm.Valid() && qm.Lost() == 0 && qm.freeQueues == FREE_QUEUES
      && pcbs.Length == N_PCBS && mem.Length == MEM_WORDS && ready.Length == N_PRIOS
      && ready !in Repr && mem as object != pcbs
      && mem as object !in {qm.nodes, qm.queues} && pcbs as object !in {qm.nodes, qm.queues}
      && Shaped(Abs())
    }

    // The queue handles and comparison functions are those that initialisation assigns.
    ghost predicate Configured()
      reads this, ready, qm, qm.nodes, qm.queues
    {
      && qm.View().Compares() == KernelCompares() && ready.Length == N_PRIOS
      && freePcbs == FREE_PCBS && freeStacks == FREE_STACKS && sleeping == SLEEPING
      && (forall l | 0 <= l < N_PRIOS :: ready[l] == READY + l)
    }

    ghost predicate Valid()
      reads Repr, ready
    {
      Usable() && Configured()
    }

    ghost predicate Compares(queue: nat)
      requires queue < N_QUEUES
      reads qm, qm.nodes, qm.queues
    {
      |qm.View().Compares()| == N_QUEUES && qm.View().Compares()[queue] == CompareOf(queue)
    }

    // Static storage before _init, which is zero.
    constructor (link: Link)
      ensures fresh(Repr) && fresh(ready) && this.link == link
      ensures qm.View() == StaticHeap()
      ensures pcbs[..] == FreePcbs() && mem[..] == Zeros(MEM_WORDS)
      ensures ready.Length == N_PRIOS && active == 0 && ready !in Repr
    {
      qm := new Queues();
      pcbs := new Pcb[N_PCBS](_ => ZERO_PCB);
      mem := new Word[MEM_WORDS](_ => 0);
      ready := new nat[N_PRIOS](_ => 0);
      this.link := link;
      freePcbs, freeStacks, sleeping, current := 0, 0, 0, NULL;
      time, active, nextPid := 0, 0, 0;
    }

    method InsertInto(queue: nat, data: int, key: Word) returns (status: Status)
      requires Usable() && queue < N_QUEUES && Compares(queue)
      requires IsPcbQueue(queue) ==> 0 <= data < N_PCBS
      requires queue == FREE_STACKS ==> 0 <= data < N_STACKS
      modifies qm, qm.nodes, qm.queues
      ensures status.Halted? <==> Insert(old(Abs()), queue, data, key).Panic?
      ensures status.Fine? ==> Usable() && Insert(old(Abs()), queue, data, key) == Ok(Abs())
      ensures qm.View().Compares() == old(qm.View().Compares())
    {
      status := qm.QueueInsert(queue, data, key);
    }

    method RemoveFrom(queue: nat) returns (data: int)
      requires Valid() && queue < N_QUEUES
      modifies qm, qm.nodes, qm.queues
      ensures Valid() && (Abs(), data) == Remove(old(Abs()), queue)
    {
      data := qm.QueueRemove(queue);
    }

    // process.c

    method AllocPcb() returns (pcb: int)
      requires Valid()
      modifies Repr
      ensures Valid() && (Abs(), pcb) == PcbAlloc(old(Abs()))
    {
      pcb := RemoveFrom(freePcbs);
      if pcb != NULL {
        pcbs[pcb] := pcbs[pcb].(state := New);
      }
      active := Wrap(active + 1);
    }

    method DeallocPcb(pcb: int) returns (status: Status)
      requires Usable() && freePcbs == FREE_PCBS && Compares(FREE_PCBS)
      requires pcb == NULL || 0 <= pcb < N_PCBS
      modifies `active, qm, qm.nodes, qm.queues, pcbs
      ensures status.Halted? <==> PcbDealloc(old(Abs()), pcb).Panic?
      ensures status.Fine? ==> Usable() && PcbDealloc(old(Abs()), pcb) == Ok(Abs())
      ensures qm.View().Compares() == old(qm.View().Compares())
    {
      if pcb == NULL {
        return Fine;
      }
      pcbs[pcb] := ZERO_PCB;
      assert Abs() == SetPcb(old(Abs()), pcb, ZERO_PCB);
      :- InsertInto(freePcbs, pcb, 0);
      active := Wrap(active - 1);
      status := Fine;
    }

    // The loop of _pcb_find, which stops one short of the array.
    method FindPcb(pid: int) returns (pcb: int)
      requires Valid()
      ensures pcb == NULL || (0 <= pcb < N_PROCS && pcbs[pcb].state != Free && pcbs[pcb].pid == pid)
      ensures pcb == NULL ==> forall p | 0 <= p < N_PROCS :: pcbs[p].state == Free || pcbs[p].pid != pid
      ensures pcb != NULL ==> forall p | 0 <= p < pcb :: pcbs[p].state == Free || pcbs[p].pid != pid
    {
      for i := 0 to N_PROCS
        invariant forall p | 0 <= p < i :: pcbs[p].state == Free || pcbs[p].pid != pid
      {
        if pcbs[i].state != Free && pcbs[i].pid == pid {
          return i;
        }
      }
      pcb := NULL;
    }

    // stack.c

    method AllocStack() returns (stack: int)
      requires Valid()
      modifies Repr
      ensures Valid() && (Abs(), stack) == StackAlloc(old(Abs()))
    {
      stack := RemoveFrom(freeStacks);
    }

    // _memset over one stack.
    method ClearStack(stack: nat)
      requires mem.Length == MEM_WORDS && stack < N_STACKS
      modifies mem
      ensures mem[..] == WithStack(old(mem[..]), stack, Zeros(STACK_LWORDS))
    {
      var i := 0;
      while i < STACK_LWORDS
        invariant 0 <= i <= STACK_LWORDS
        invariant forall a | 0 <= a < MEM_WORDS ::
                    mem[a] == if Base(stack) <= a < Base(stack) + i then 0 else old(mem[a])
      {
        mem[Base(stack) + i] := 0;
        i := i + 1;
      }
    }

    method DeallocStack(stack: int) returns (status: Status)
      requires Usable() && freeStacks == FREE_STACKS && Compares(FREE_STACKS)
      requires stack == NULL || 0 <= stack < N_STACKS
      modifies qm, qm.nodes, qm.queues, mem
      ensures status.Halted? <==> StackDealloc(old(Abs()), stack).Panic?
      ensures status.Fine? ==> Usable() && StackDealloc(old(Abs()), stack) == Ok(Abs())
      ensures qm.View().Compares() == old(qm.View().Compares())
    {
      if stack == NULL {
        return Fine;
      }
      ClearStack(stack);
      status := InsertInto(freeStacks, stack, 0);
    }

    // system.c

    // The initial stack contents, written downwards through a moving pointer.
    method BuildStack(stack: nat, entry: Word) returns (context: int)
      requires mem.Length == MEM_WORDS && stack < N_STACKS
      modifies mem
      ensures mem[..] == InitialStack(old(mem[..]), stack, entry, link)
      ensures context == FirstContext(stack)
    {
      var ptr := Base(stack) + STACK_LWORDS;
      ptr := ptr - 1;
      mem[ptr] := 0;
      ptr := ptr - 1;
      mem[ptr] := link.defaultExit;
      context := ptr - CONTEXT_WORDS;
      mem[context + EIP] := entry;
      mem[context + CS] := GDT_CODE;
      mem[context + SS] := GDT_STACK;
      mem[context + DS] := GDT_DATA;
      mem[context + ES] := GDT_DATA;
      mem[context + FS] := GDT_DATA;
      mem[context + GS] := GDT_DATA;
      mem[context + EFLAGS] := link.eflags;
    }

    method FurnishProcess(pcb: nat, stack: nat, entry: Word, prio: Byte)
      requires Valid() && pcb < N_PCBS && stack < N_STACKS && pcbs[pcb] == ZERO_PCB
      modifies Repr
      ensures Valid() && Abs() == Furnish(old(Abs()), pcb, stack, entry, prio, link)
    {
      pcbs[pcb] := pcbs[pcb].(stack := stack);
      var context := BuildStack(stack, entry);
      pcbs[pcb] := pcbs[pcb].(context := context);
      pcbs[pcb] := pcbs[pcb].(prio := prio, pid := ToInt16(nextPid));
      nextPid := (nextPid + 1) % 0x1_0000;
      pcbs[pcb] := pcbs[pcb].(defaultQuantum := QUANTUM_DEFAULT, state := Ready);
      assert pcbs[..] == old(pcbs[..])[pcb := NewPcb(stack, old(nextPid), prio)];
      assert Abs() == Furnish(old(Abs()), pcb, stack, entry, prio, link);
    }

    // The call of _memset for a new PCB.
    method ClearPcb(pcb: nat)
      requires Valid() && pcb < N_PCBS
      modifies pcbs
      ensures Valid() && Abs() == SetPcb(old(Abs()), pcb, ZERO_PCB)
    {
      pcbs[pcb] := ZERO_PCB;
      assert Abs() == SetPcb(old(Abs()), pcb, ZERO_PCB);
    }

    // The call of _pcb_dealloc where no stack is left.
    method ReturnPcb(pcb: nat) returns (status: Status)
      requires Valid() && pcb < N_PCBS
      modifies Repr
      ensures status.Halted? <==> PcbDealloc(old(Abs()), pcb).Panic?
      ensures status.Fine? ==> Valid() && PcbDealloc(old(Abs()), pcb) == Ok(Abs())
    {
      status := DeallocPcb(pcb);
    }

    method NewProcess(entry: Word, prio: Byte) returns (status: Status, pcb: int)
      requires Valid()
      modifies Repr
      ensures status.Halted? <==> CreateProcess(old(Abs()), entry, prio, link).Panic?
      ensures status.Fine? ==> Valid() && CreateProcess(old(Abs()), entry, prio, link) == Ok((Abs(), pcb))
    {
      pcb := AllocPcb();
      if pcb == NULL {
        return Fine, NULL;
      }
      ClearPcb(pcb);
      var stack := AllocStack();
      if stack == NULL {
        status := ReturnPcb(pcb);
        return status, NULL;
      }
      FurnishProcess(pcb, stack, entry, prio);
      status := Fine;
    }

    // scheduler.c

    method ScheduleProcess(pcb: nat) returns (status: Status)
      requires Valid() && pcb < N_PCBS
      modifies Repr
      ensures status.Halted? <==> Schedule(old(Abs()), pcb).Panic?
      ensures status.Fine? ==> Valid() && Schedule(old(Abs()), pcb) == Ok(Abs())
    {
      if pcbs[pcb].prio >= N_PRIOS {
        pcbs[pcb] := pcbs[pcb].(prio := PRIO_USER_LOW);
      }
      pcbs[pcb] := pcbs[pcb].(state := Ready);
      assert Abs() == SetPcb(old(Abs()), pcb, pcbs[pcb]);
      status := InsertInto(ready[pcbs[pcb].prio], pcb, 0);
    }

    // The process at the head of this level gets the CPU.
    method RunFirst(level: nat)
      requires Valid() && level < N_PRIOS && level == FirstReady(qm.contents, 0)
      modifies Repr
      ensures Valid() && Dispatch(old(Abs())) == Ok(Abs())
    {
      current := RemoveFrom(ready[level]);
      ghost var s := Abs();
      pcbs[current] := pcbs[current].(state := Running);
      pcbs[current] := pcbs[current].(quantum := pcbs[current].defaultQuantum);
      assert Abs() == SetPcb(s, current, pcbs[current]);
    }

    method DispatchProcess() returns (status: Status)
      requires Valid()
      modifies Repr
      ensures status.Halted? <==> Dispatch(old(Abs())).Panic?
      ensures status.Fine? ==> Valid() && Dispatch(old(Abs())) == Ok(Abs())
    {
      for i := 0 to N_PRIOS
        invariant Valid() && Abs() == old(Abs())
        invariant FirstReady(qm.contents, 0) == FirstReady(qm.contents, i)
      {
        var empty := qm.QueueEmpty(ready[i]);
        if !empty {
          RunFirst(i);
          return Fine;
        }
      }
      status := Halted;
    }

    // clock.c

    method WakeSleepers() returns (status: Status)
      requires Valid()
      modifies Repr
      ensures status.Halted? <==> Wake(old(Abs())).Panic?
      ensures status.Fine? ==> Valid() && Wake(old(Abs())) == Ok(Abs())
    {
      while true
        invariant Valid() && Wake(Abs()) == Wake(old(Abs()))
        decreases |Abs().queues[SLEEPING]|
      {
        var empty := qm.QueueEmpty(sleeping);
        if empty {
          break;
        }
        var key := qm.QueueKpeek(sleeping);
        if key > time {
          break;
        }
        var pcb := RemoveFrom(sleeping);
        :- ScheduleProcess(pcb);
      }
      status := Fine;
    }

    // The end of _clock_isr.
    method ExpireQuantum() returns (status: Status)
      requires Valid() && current != NULL
      modifies Repr
      ensures status.Halted? <==> Expire(old(Abs())).Panic?
      ensures status.Fine? ==> Valid() && Expire(old(Abs())) == Ok(Abs())
    {
      pcbs[current] := pcbs[current].(quantum := (pcbs[current].quantum - 1) % 0x100);
      assert Abs() == Charge(old(Abs()));
      status := Fine;
      if pcbs[current].quantum < 1 {
        status := ScheduleProcess(current);
        if status.Fine? {
          status := DispatchProcess();
        }
      }
    }

    method Clock() returns (status: Status)
      requires Valid() && current != NULL
      modifies Repr
      ensures status.Halted? <==> ClockIsr(old(Abs())).Panic?
      ensures status.Fine? ==> Valid() && ClockIsr(old(Abs())) == Ok(Abs())
    {
      ghost var s := Abs();
      time := Wrap(time + 1);
      assert Abs() == s.(time := Wrap(s.time + 1));
      ClockIsrSteps(s, Wake(Abs()));
      status := WakeSleepers();
      if status.Fine? {
        status := ExpireQuantum();
      }
    }

    // syscall.c

    // RET(pcb->context) = w
    method Return(pcb: nat, w: Word)
      requires Valid() && pcb < N_PCBS && HasContext(pcbs[pcb])
      modifies mem
      ensures Valid() && Abs() == SetRet(old(Abs()), pcb, w)
    {
      mem[pcbs[pcb].context + EAX] := w;
      assert Abs() == SetRet(old(Abs()), pcb, w);
    }

    method Exit(pcb: nat) returns (status: Status)
      requires Valid() && pcb < N_PCBS
      modifies Repr
      ensures status.Halted? <==> SysExit(old(Abs()), pcb).Panic?
      ensures status.Fine? ==> Valid() && SysExit(old(Abs()), pcb) == Ok(Abs())
    {
      var stack := pcbs[pcb].stack;
      :- DeallocStack(stack);
      :- DeallocPcb(pcb);
      if pcb == current {
        :- DispatchProcess();
      }
      status := Fine;
    }

    method Spawnp(pcb: nat) returns (status: Status)
      requires Valid() && pcb < N_PCBS && HasContext(pcbs[pcb]) && Allocated(Abs(), pcb)
      requires pcbs[pcb].context + CONTEXT_WORDS + 2 < MEM_WORDS
      modifies Repr
      ensures status.Halted? <==> SysSpawnp(old(Abs()), pcb, link).Panic?
      ensures status.Fine? ==> Valid() && SysSpawnp(old(Abs()), pcb, link) == Ok(Abs())
    {
      SysSpawnpSteps(Abs(), pcb, link);
      var args := pcbs[pcb].context + CONTEXT_WORDS;
      var child;
      status, child := NewProcess(mem[args + 1], mem[args + 2] % 0x100);
      if status.Halted? {
        return;
      }
      if child == NULL {
        Return(pcb, Wrap(-1));
      } else {
        status := AdmitChild(pcb, child);
      }
    }

    // The end of a spawn that succeeded.
    method AdmitChild(pcb: nat, child: nat) returns (status: Status)
      requires Valid() && pcb < N_PCBS && child < N_PCBS && pcb != child && HasContext(pcbs[pcb])
      modifies Repr
      ensures var s := SetPcb(old(Abs()), child, old(pcbs[child]).(ppid := old(pcbs[pcb]).pid));
              var r := Schedule(SetRet(s, pcb, Wrap(s.pcbs[child].pid)), child);
              && (status.Halted? <==> r.Panic?) && (status.Fine? ==> Valid() && r == Ok(Abs()))
    {
      ghost var s := Abs();
      pcbs[child] := pcbs[child].(ppid := pcbs[pcb].pid);
      assert Abs() == SetPcb(s, child, pcbs[child]);
      Return(pcb, Wrap(pcbs[child].pid));
      status := ScheduleProcess(child);
    }

    method ParkProcess(pcb: nat, sleeptime: Word) returns (status: Status)
      requires Valid() && pcb < N_PCBS
      modifies Repr
      ensures status.Halted? <==> Park(old(Abs()), pcb, sleeptime).Panic?
      ensures status.Fine? ==> Valid() && Park(old(Abs()), pcb, sleeptime) == Ok(Abs())
    {
      if sleeptime == 0 {
        status := ScheduleProcess(pcb);
      } else {
        pcbs[pcb] := pcbs[pcb].(wakeup := Wrap(time + sleeptime));
        pcbs[pcb] := pcbs[pcb].(state := Sleeping);
        assert Abs() == SetPcb(old(Abs()), pcb, pcbs[pcb]);
        status := InsertInto(sleeping, pcb, pcbs[pcb].wakeup);
      }
    }

    method Sleep(pcb: nat) returns (status: Status)
      requires Valid() && pcb < N_PCBS && HasContext(pcbs[pcb])
      requires pcbs[pcb].context + CONTEXT_WORDS + 1 < MEM_WORDS
      modifies Repr
      ensures status.Halted? <==> SysSleep(old(Abs()), pcb).Panic?
      ensures status.Fine? ==> Valid() && SysSleep(old(Abs()), pcb) == Ok(Abs())
    {
      SysSleepSteps(Abs(), pcb);
      status := ParkProcess(pcb, mem[pcbs[pcb].context + CONTEXT_WORDS + 1]);
      if status.Fine? {
        status := DispatchProcess();
      }
    }

    method SyscallIsr(result: Word) returns (status: Status)
      requires Valid() && InCpu(Abs()) && HasArgs(Abs())
      modifies Repr
      ensures status.Halted? <==> SysIsr(old(Abs()), result, link).Panic?
      ensures status.Fine? ==> Valid() && SysIsr(old(Abs()), result, link) == Ok(Abs())
    {
      var which := mem[pcbs[current].context + EAX];
      if which >= N_SYSCALLS {
        which := SYS_EXIT;
      }
      if which == SYS_EXIT {
        status := Exit(current);
      } else if which == SYS_SPAWNP {
        status := Spawnp(current);
      } else if which == SYS_SLEEP {
        status := Sleep(current);
      } else {
        Return(current, result);
        status := Fine;
      }
    }

    // The run of the current process up to an interrupt, and the interrupt itself.
    method Interrupt(e: Event) returns (status: Status)
      requires Valid() && InCpu(Abs()) && UserOk(Abs(), e)
      modifies Repr
      ensures status.Halted? <==> Step(old(Abs()), e, link).Panic?
      ensures status.Fine? ==> Valid() && Step(old(Abs()), e, link) == Ok(Abs())
    {
      Save(e);
      match e
      case Tick(_, _) =>
        status := Clock();
      case Syscall(_, _, result) =>
        status := SyscallIsr(result);
    }

    // What the current process and isr_save leave behind.
    method Save(e: Event)
      requires Valid() && InCpu(Abs()) && UserOk(Abs(), e)
      modifies Repr
      ensures Valid() && Abs() == Saved(old(Abs()), e)
    {
      var stack := pcbs[current].stack;
      for i := 0 to STACK_LWORDS
        invariant forall a | 0 <= a < MEM_WORDS ::
                    mem[a] == if Base(stack) <= a < Base(stack) + i then e.image[a - Base(stack)] else old(mem[a])
        invariant forall p | 0 <= p < N_PCBS :: pcbs[p] == old(pcbs[p])
        invariant qm.Valid() && qm.Lost() == 0 && qm.View().Compares() == KernelCompares()
        invariant qm.contents == old(qm.contents) && qm.freeQueues == FREE_QUEUES
        invariant current == old(current) && time == old(time) && active == old(active) && nextPid == old(nextPid)
        invariant freePcbs == FREE_PCBS && freeStacks == FREE_STACKS && sleeping == SLEEPING
      {
        mem[Base(stack) + i] := e.image[i];
      }
      pcbs[current] := pcbs[current].(context := e.context);
      assert Abs() == Saved(old(Abs()), e);
    }

    // _init

    method PcbModinit() returns (status: Status)
      requires Usable() && qm.contents == BootContents(0, 0, 0) && qm.View().Compares() == NoCompares()
      requires pcbs[..] == FreePcbs()
      modifies `freePcbs, `active, `nextPid, qm, qm.nodes, qm.queues, pcbs
      ensures status.Fine? && Usable()
      ensures qm.contents == BootContents(1, N_PCBS, 0) && qm.View().Compares() == NoCompares()
      ensures pcbs[..] == old(pcbs[..]) && freePcbs == FREE_PCBS
      ensures active == 0 && nextPid == PID_INIT
    {
      var locs := qm.QueueAlloc(1);
      if |locs| != 1 || locs[0] == NULL {
        return Halted;
      }
      freePcbs := locs[0];
      BootQueue(0);
      qm.QueueInit(freePcbs, NoCompare);
      status := FreeAllPcbs();
      nextPid, active := PID_INIT, 0;
    }

    // The loop of _pcb_modinit.
    method FreeAllPcbs() returns (status: Status)
      requires Usable() && freePcbs == FREE_PCBS && qm.contents == BootContents(1, 0, 0)
      requires qm.View().Compares() == NoCompares() && pcbs[..] == FreePcbs()
      modifies `active, qm, qm.nodes, qm.queues, pcbs
      ensures status.Fine? && Usable() && qm.contents == BootContents(1, N_PCBS, 0)
      ensures qm.View().Compares() == NoCompares() && pcbs[..] == old(pcbs[..])
    {
      for i := 0 to N_PCBS
        invariant Usable() && freePcbs == FREE_PCBS && qm.contents == BootContents(1, i, 0)
        invariant qm.View().Compares() == NoCompares() && pcbs[..] == FreePcbs()
      {
        BootFreePcb(i);
        BootZero(i);
        status := DeallocPcb(i);
        assert status.Fine?;
      }
      status := Fine;
    }

    // The loop of _stack_modinit.
    method FreeAllStacks() returns (status: Status)
      requires Usable() && freeStacks == FREE_STACKS && qm.contents == BootContents(2, N_PCBS, 0)
      requires qm.View().Compares() == NoCompares() && mem[..] == Zeros(MEM_WORDS)
      modifies qm, qm.nodes, qm.queues, mem
      ensures status.Fine? && Usable() && qm.contents == BootContents(2, N_PCBS, N_STACKS)
      ensures qm.View().Compares() == NoCompares() && mem[..] == Zeros(MEM_WORDS)
    {
      for i := 0 to N_STACKS
        invariant Usable() && qm.contents == BootContents(2, N_PCBS, i)
        invariant qm.View().Compares() == NoCompares() && mem[..] == Zeros(MEM_WORDS)
      {
        BootFreeStack(i);
        assert WithStack(Zeros(MEM_WORDS), i, Zeros(STACK_LWORDS)) == Zeros(MEM_WORDS);
        status := DeallocStack(i);
        assert status.Fine?;
      }
      status := Fine;
    }

    method StackModinit() returns (status: Status)
      requires Usable() && qm.contents == BootContents(1, N_PCBS, 0) && qm.View().Compares() == NoCompares()
      requires mem[..] == Zeros(MEM_WORDS)
      modifies `freeStacks, qm, qm.nodes, qm.queues, mem
      ensures status.Fine? && Usable()
      ensures qm.contents == BootContents(2, N_PCBS, N_STACKS) && qm.View().Compares() == NoCompares()
      ensures mem[..] == old(mem[..]) && freeStacks == FREE_STACKS
    {
      var locs := qm.QueueAlloc(1);
      if |locs| != 1 || locs[0] == NULL {
        return Halted;
      }
      freeStacks := locs[0];
      BootQueue(1);
      qm.QueueInit(freeStacks, NoCompare);
      status := FreeAllStacks();
    }

    // The loops of _sched_modinit.
    method InitReady(locs: seq<int>)
      requires Usable() && qm.contents == BootContents(6, N_PCBS, N_STACKS)
      requires qm.View().Compares() == NoCompares() && |locs| == N_PRIOS
      requires forall l | 0 <= l < N_PRIOS :: locs[l] == READY + l
      modifies qm, qm.nodes, qm.queues, ready
      ensures Usable() && qm.contents == BootContents(6, N_PCBS, N_STACKS) && qm.View().Compares() == NoCompares()
      ensures forall l | 0 <= l < N_PRIOS :: ready[l] == READY + l
    {
      for i := 0 to N_PRIOS
        invariant forall l | 0 <= l < i :: ready[l] == READY + l
        modifies ready
      {
        ready[i] := locs[i];
      }
      for i := 0 to N_PRIOS
        invariant Usable() && (forall l | 0 <= l < N_PRIOS :: ready[l] == READY + l)
        invariant qm.contents == BootContents(6, N_PCBS, N_STACKS) && qm.View().Compares() == NoCompares()
      {
        assert qm.contents[READY + i := []] == qm.contents;
        assert NoCompares()[READY + i := NoCompare] == NoCompares();
        qm.QueueInit(ready[i], NoCompare);
      }
    }

    method SchedModinit() returns (status: Status)
      requires Usable() && qm.contents == BootContents(2, N_PCBS, N_STACKS)
      requires qm.View().Compares() == NoCompares()
      modifies `current, qm, qm.nodes, qm.queues, ready
      ensures status.Fine? && Usable() && current == NULL
      ensures qm.contents == BootContents(6, N_PCBS, N_STACKS) && qm.View().Compares() == NoCompares()
      ensures forall l | 0 <= l < N_PRIOS :: ready[l] == READY + l
    {
      var locs := qm.QueueAlloc(N_PRIOS);
      BootTake(2, 4);
      if |locs| != N_PRIOS {
        return Halted;
      }
      InitReady(locs);
      current, status := NULL, Fine;
    }

    method SysModinit() returns (status: Status)
      requires Usable() && qm.contents == BootContents(6, N_PCBS, N_STACKS)
      requires qm.View().Compares() == NoCompares()
      modifies `sleeping, qm, qm.nodes, qm.queues
      ensures status.Fine? && Usable() && sleeping == SLEEPING
      ensures qm.contents == BootContents(7, N_PCBS, N_STACKS) && qm.View().Compares() == KernelCompares()
    {
      var locs := qm.QueueAlloc(1);
      BootTake(6, 1);
      if |locs| != 1 || locs[0] == NULL {
        return Halted;
      }
      sleeping := locs[0];
      assert qm.contents[SLEEPING := []] == qm.contents;
      assert NoCompares()[SLEEPING := ByTime] == KernelCompares();
      qm.QueueInit(sleeping, ByTime);
      status := Fine;
    }

    // The module initialisation of _init.
    // The pools, in the order of _init.
    method PoolsModinit() returns (status: Status)
      requires qm.View() == StaticHeap() && current == NULL
      requires pcbs[..] == FreePcbs() && mem[..] == Zeros(MEM_WORDS) && active == 0
      requires ready.Length == N_PRIOS && ready !in Repr && mem as object != pcbs
      requires mem as object !in {qm.nodes, qm.queues} && pcbs as object !in {qm.nodes, qm.queues}
      modifies Repr
      ensures status.Fine? && Usable() && qm.contents == BootContents(2, N_PCBS, N_STACKS)
      ensures qm.View().Compares() == NoCompares()
      ensures pcbs[..] == old(pcbs[..]) && mem[..] == old(mem[..]) && active == 0 && nextPid == PID_INIT
      ensures freePcbs == FREE_PCBS && freeStacks == FREE_STACKS && current == NULL
    {
      status := qm.QueueModinit();
      BootStart();
      status := PcbModinit();
      status := StackModinit();
    }

    method ModinitAll() returns (status: Status)
      requires qm.View() == StaticHeap()
      requires pcbs[..] == FreePcbs() && mem[..] == Zeros(MEM_WORDS) && active == 0
      requires ready.Length == N_PRIOS && ready !in Repr && mem as object != pcbs
      requires mem as object !in {qm.nodes, qm.queues} && pcbs as object !in {qm.nodes, qm.queues}
      modifies Repr, ready
      ensures status.Fine? && Valid() && Abs() == Booted()
    {
      current := NULL;
      status := PoolsModinit();
      status := SchedModinit();
      status := SysModinit();
      time := 0;
      BootEnd();
    }

    // Creates and schedules one of the first processes.
    method StartProcess(entry: Word, prio: Byte) returns (status: Status)
      requires Valid()
      modifies Repr
      ensures status.Halted? <==> Start(old(Abs()), entry, prio, link).Panic?
      ensures status.Fine? ==> Valid() && Start(old(Abs()), entry, prio, link) == Ok(Abs())
    {
      var pcb;
      status, pcb := NewProcess(entry, prio);
      if status.Halted? || pcb == NULL {
        return Halted;
      }
      status := ScheduleProcess(pcb);
    }

    method Boot(programs: Programs) returns (status: Status)
      requires qm.View() == StaticHeap()
      requires pcbs[..] == FreePcbs() && mem[..] == Zeros(MEM_WORDS) && active == 0
      requires ready.Length == N_PRIOS && ready !in Repr && mem as object != pcbs
      requires mem as object !in {qm.nodes, qm.queues} && pcbs as object !in {qm.nodes, qm.queues}
      modifies Repr, ready
      ensures status.Halted? <==> Init(programs, link).Panic?
      ensures status.Fine? ==> Valid() && Init(programs, link) == Ok(Abs())
    {
      status := ModinitAll();
      :- StartProcess(programs.init, PRIO_SYSTEM);
      :- StartProcess(programs.idle, PRIO_USER_LOW);
      :- StartProcess(programs.hello, PRIO_USER_HIGH);
      :- DispatchProcess();
      status := StartProcess(programs.shell, PRIO_USER_STD);
    }
  }

  // While the modules start up: queues 1 to n are allocated, the first np PCBs and the first
  // ns stacks are free.
  ghost function BootContents(n: nat, np: nat, ns: nat): (r: seq<seq<Item>>)
    requires n < N_QUEUES && np <= N_PCBS && ns <= N_STACKS
    ensures |r| == N_QUEUES
    ensures |r[FREE_QUEUES]| == N_QUEUES - 1 - n && |r[FREE_PCBS]| == np && |r[FREE_STACKS]| == ns
    ensures forall i | 0 <= i < N_QUEUES - 1 - n :: r[FREE_QUEUES][i] == Item(0, n + 1 + i)
    ensures forall i | 0 <= i < np :: r[FREE_PCBS][i] == Item(0, i)
    ensures forall i | 0 <= i < ns :: r[FREE_STACKS][i] == Item(0, i)
    ensures forall q | FREE_STACKS < q < N_QUEUES :: r[q] == []
  {
    seq(N_QUEUES, q =>
      if q == FREE_QUEUES then seq(N_QUEUES - 1 - n, i => Item(0, n + 1 + i))
      else if q == FREE_PCBS then seq(np, i => Item(0, i))
      else if q == FREE_STACKS then seq(ns, i => Item(0, i))
      else [])
  }

  lemma BootTotal(n: nat, np: nat, ns: nat)
    requires n < N_QUEUES && np <= N_PCBS && ns <= N_STACKS
    ensures Total(BootContents(n, np, ns)) == N_QUEUES - 1 - n + np + ns
  {
    var c := BootContents(n, np, ns);
    var c1 := c[FREE_QUEUES := []];
    var c2 := c1[FREE_PCBS := []];
    TotalUpdate(c, FREE_QUEUES, []);
    TotalUpdate(c1, FREE_PCBS, []);
    TotalUpdate(c2, FREE_STACKS, []);
    TotalOfEmpty(c2[FREE_STACKS := []]);
  }

  lemma BootStart()
    ensures InitialContents(N_QUEUES) == BootContents(0, 0, 0)
  {
    assert InitialContents(N_QUEUES)[FREE_QUEUES] == BootContents(0, 0, 0)[FREE_QUEUES];
  }

  // Clearing a PCB that is clear already.
  lemma BootZero(p: nat)
    requires p < N_PCBS
    ensures FreePcbs()[p := ZERO_PCB] == FreePcbs()
  {}

  lemma BootEnd()
    ensures BootContents(7, N_PCBS, N_STACKS) == Booted().queues
  {
    var b, c := Booted().queues, BootContents(7, N_PCBS, N_STACKS);
    assert b[FREE_QUEUES] == c[FREE_QUEUES];
    assert b[FREE_PCBS] == c[FREE_PCBS];
    assert b[FREE_STACKS] == c[FREE_STACKS];
  }

  // Taking the next queues once all PCBs and stacks are free.
  lemma BootTake(n: nat, k: nat)
    requires n + k < N_QUEUES
    ensures var c := BootContents(n, N_PCBS, N_STACKS);
      c[FREE_QUEUES := c[FREE_QUEUES][k..]] == BootContents(n + k, N_PCBS, N_STACKS)
  {
    var c := BootContents(n, N_PCBS, N_STACKS);
    assert c[FREE_QUEUES][k..] == BootContents(n + k, N_PCBS, N_STACKS)[FREE_QUEUES];
  }

  // Taking the next queue, for the PCBs or for the stacks, and clearing it.
  lemma BootQueue(n: nat)
    requires n < 2
    ensures var np := if n == 0 then 0 else N_PCBS;
      var c := BootContents(n, np, 0);
      var r := c[FREE_QUEUES := c[FREE_QUEUES][1..]];
      && r == BootContents(n + 1, np, 0) && r[n + 1 := []] == r
      && NoCompares()[n + 1 := NoCompare] == NoCompares()
  {
    var np := if n == 0 then 0 else N_PCBS;
    var c := BootContents(n, np, 0);
    assert c[FREE_QUEUES][1..] == BootContents(n + 1, np, 0)[FREE_QUEUES];
  }

  // Freeing the next PCB.
  lemma BootFreePcb(np: nat)
    requires np < N_PCBS
    ensures var c := BootContents(1, np, 0);
      && Total(c) < N_QNODES
      && c[FREE_PCBS := Enqueue(NoCompare, c[FREE_PCBS], Item(0, np))] == BootContents(1, np + 1, 0)
  {
    BootTotal(1, np, 0);
    var c := BootContents(1, np, 0);
    EnqueueAppends(c[FREE_PCBS], Item(0, np));
    assert c[FREE_PCBS] + [Item(0, np)] == BootContents(1, np + 1, 0)[FREE_PCBS];
  }

  // Freeing the next stack.
  lemma BootFreeStack(ns: nat)
    requires ns < N_STACKS
    ensures var c := BootContents(2, N_PCBS, ns);
      && Total(c) < N_QNODES
      && c[FREE_STACKS := Enqueue(NoCompare, c[FREE_STACKS], Item(0, ns))] == BootContents(2, N_PCBS, ns + 1)
  {
    BootTotal(2, N_PCBS, ns);
    var c := BootContents(2, N_PCBS, ns);
    EnqueueAppends(c[FREE_STACKS], Item(0, ns));
    assert c[FREE_STACKS] + [Item(0, ns)] == BootContents(2, N_PCBS, ns + 1)[FREE_STACKS];
  }
}
