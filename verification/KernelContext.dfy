/** Saved contexts and stacks of processes that are not in the CPU, and exact counting. */
module KernelContext {
  import opened Common
  import opened QueueSpec
  import opened QueueModule
  import opened KernelSpec
  import opened KernelInvariant
  import opened KernelTick
  import opened KernelRuns

  // The process is still there with its context pointer, its stack, and every word of it.
  ghost predicate Keeps(a: KState, b: KState, p: nat) {
    && Shaped(a) && Shaped(b) && p < N_PCBS && 0 <= a.pcbs[p].stack < N_STACKS
    && Live(b.pcbs[p]) && b.pcbs[p].context == a.pcbs[p].context && b.pcbs[p].stack == a.pcbs[p].stack
    && StackWords(b.mem, a.pcbs[p].stack) == StackWords(a.mem, a.pcbs[p].stack)
  }

  // Only words of stack t differ.
  ghost predicate Within(mem: seq<Word>, mem': seq<Word>, t: nat) {
    && |mem| == |mem'| == MEM_WORDS && t < N_STACKS
    && forall a | 0 <= a < MEM_WORDS && !(Base(t) <= a < Base(t + 1)) :: mem'[a] == mem[a]
  }

  lemma WithinKeepsOthers(mem: seq<Word>, mem': seq<Word>, t: nat, u: nat)
    requires Within(mem, mem', t) && u < N_STACKS && u != t
    ensures StackWords(mem', u) == StackWords(mem, u)
  {
    var x, y := StackWords(mem', u), StackWords(mem, u);
    forall i | 0 <= i < |x|
      ensures x[i] == y[i]
    {
      assert x[i] == mem'[Base(u) + i] && y[i] == mem[Base(u) + i];
    }
  }

  lemma WithStackWithin(mem: seq<Word>, t: nat, image: seq<Word>)
    requires |mem| == MEM_WORDS && t < N_STACKS && |image| == STACK_LWORDS
    ensures Within(mem, WithStack(mem, t, image), t)
    ensures StackWords(WithStack(mem, t, image), t) == image
  {}

  lemma InitialStackWithin(mem: seq<Word>, t: nat, entry: Word, link: Link)
    requires |mem| == MEM_WORDS && t < N_STACKS
    ensures Within(mem, InitialStack(mem, t, entry, link), t)
  {}

  // Two live processes have different stacks, and neither is on the free list.
  lemma OwnStack(s: KState, p: nat, r: nat)
    requires Inv(s) && p < N_PCBS && r < N_PCBS && p != r && Live(s.pcbs[p]) && Live(s.pcbs[r])
    ensures HasContext(s.pcbs[p]) && s.pcbs[p].stack != s.pcbs[r].stack
    ensures forall i | 0 <= i < |s.queues[FREE_STACKS]| :: s.queues[FREE_STACKS][i].data != s.pcbs[p].stack
  {
    assert SoundParts(s.queues, s.pcbs, s.active, {s.current});
    assert PcbOk(s.pcbs[p]);
  }

  lemma SavedKeeps(s: KState, e: Event, p: nat)
    requires Inv(s) && InCpu(s) && UserOk(s, e) && p < N_PCBS && p != s.current && Live(s.pcbs[p])
    ensures Keeps(s, Saved(s, e), p)
  {
    OwnStack(s, p, s.current);
    WithStackWithin(s.mem, s.pcbs[s.current].stack, e.image);
    WithinKeepsOthers(s.mem, Saved(s, e).mem, s.pcbs[s.current].stack, s.pcbs[p].stack);
  }

  lemma DispatchKeeps(s: KState, p: nat)
    requires Sound(s, {}) && IdleOk(s.pcbs[IDLE]) && p < N_PCBS && Live(s.pcbs[p]) && 0 <= s.pcbs[p].stack
    ensures Dispatch(s).Ok? && Keeps(s, Dispatch(s).value, p) && Dispatch(s).value.mem == s.mem
  {
    IdleCanRun(s);
    DispatchSound(s);
  }

  lemma ClockKeeps(s: KState, p: nat)
    requires Inv(s) && p < N_PCBS && Live(s.pcbs[p]) && 0 <= s.pcbs[p].stack
    ensures ClockIsr(s).Ok? && Keeps(s, ClockIsr(s).value, p) && ClockIsr(s).value.mem == s.mem
  {
    var s1, pre, dispatched := ClockForm(s);
    if dispatched { DispatchKeeps(pre, p); }
  }

  lemma ExitKeeps(s: KState, p: nat)
    requires Inv(s) && InCpu(s) && s.current != IDLE && p < N_PCBS && p != s.current && Live(s.pcbs[p])
    ensures SysExit(s, s.current).Ok? && Keeps(s, SysExit(s, s.current).value, p)
  {
    OwnStack(s, p, s.current);
    ExitForm(s);
    var t, r := s.pcbs[s.current].stack, Released(s, s.current);
    WithStackWithin(s.mem, t, Zeros(STACK_LWORDS));
    WithinKeepsOthers(s.mem, r.mem, t, s.pcbs[p].stack);
    DispatchKeeps(r, p);
  }

  lemma SetRetKeeps(s: KState, p: nat, w: Word)
    requires Inv(s) && InCpu(s) && p < N_PCBS && p != s.current && Live(s.pcbs[p])
    ensures Keeps(s, SetRet(s, s.current, w), p)
  {
    OwnStack(s, p, s.current);
    WithinKeepsOthers(s.mem, SetRet(s, s.current, w).mem, s.pcbs[s.current].stack, s.pcbs[p].stack);
  }

  lemma SpawnKeeps(s: KState, link: Link, p: nat)
    requires Inv(s) && InCpu(s) && s.pcbs[s.current].context + CONTEXT_WORDS + 2 < MEM_WORDS
    requires p < N_PCBS && p != s.current && Live(s.pcbs[p])
    ensures SysSpawnp(s, s.current, link).Ok? && Keeps(s, SysSpawnp(s, s.current, link).value, p)
  {
    if s.queues[FREE_STACKS] == [] {
      SpawnFails(s, link);
      SetRetKeeps(s, p, 0xFFFF_FFFF);
    } else {
      SpawnSucceeds(s, link);
      SpawnedKeeps(s, Arg(s, s.current, 1), Arg(s, s.current, 2) % 0x100, link, p);
    }
  }

  lemma SpawnedKeeps(s: KState, entry: Word, prio: Byte, link: Link, p: nat)
    requires Inv(s) && InCpu(s) && p < N_PCBS && p != s.current && Live(s.pcbs[p])
    requires s.queues[FREE_STACKS] != [] && s.queues[FREE_PCBS] != []
    requires s.queues[FREE_PCBS][0].data != s.current
    ensures Keeps(s, Spawned(s, entry, prio, link), p)
  {
    OwnStack(s, p, s.current);
    var t, u, own := s.queues[FREE_STACKS][0].data, s.pcbs[s.current].stack, s.pcbs[p].stack;
    var r := Spawned(s, entry, prio, link);
    var m := InitialStack(s.mem, t, entry, link);
    InitialStackWithin(s.mem, t, entry, link);
    WithinKeepsOthers(s.mem, m, t, own);
    assert Within(m, r.mem, u);
    WithinKeepsOthers(m, r.mem, u, own);
    NotFree(s, p);
  }

  // Live processes are not on the free list.
  lemma NotFree(s: KState, p: nat)
    requires Inv(s) && p < N_PCBS && Live(s.pcbs[p])
    ensures forall i | 0 <= i < |s.queues[FREE_PCBS]| :: s.queues[FREE_PCBS][i].data != p
  {
    assert SoundParts(s.queues, s.pcbs, s.active, {s.current});
    assert Houses(FREE_PCBS, s.queues[FREE_PCBS], s.pcbs, {s.current});
  }

  lemma SleepKeeps(s: KState, p: nat)
    requires Inv(s) && InCpu(s) && s.current != IDLE
    requires s.pcbs[s.current].context + CONTEXT_WORDS + 1 < MEM_WORDS
    requires p < N_PCBS && Live(s.pcbs[p]) && 0 <= s.pcbs[p].stack
    ensures SysSleep(s, s.current).Ok? && Keeps(s, SysSleep(s, s.current).value, p)
  {
    var pre := SleepForm(s);
    DispatchKeeps(pre, p);
  }

  // No entry into the kernel touches the context or the stack of a process that is not in
  // the CPU.
  lemma StepKeepsContext(s: KState, e: Event, s': KState, link: Link, p: nat)
    requires Inv(s) && Next(s, e, s', link) && p < N_PCBS && p != s.current && Live(s.pcbs[p])
    ensures Keeps(s, s', p)
  {
    assert Leads(s, e, s', link);
    SavedKeepsInv(s, e);
    StepIs(s, e, link);
    SavedKeeps(s, e, p);
    var s0 := Saved(s, e);
    if e.Tick? { ClockKeeps(s0, p); } else { CallKeeps(s0, e.result, link, p); }
  }

  lemma CallKeeps(s: KState, result: Word, link: Link, p: nat)
    requires Inv(s) && InCpu(s) && HasArgs(s) && s.current != IDLE
    requires p < N_PCBS && p != s.current && Live(s.pcbs[p])
    ensures SysIsr(s, result, link).Ok? && Keeps(s, SysIsr(s, result, link).value, p)
  {
    var which := SyscallCode(s);
    if which == SYS_EXIT {
      ExitKeeps(s, p);
    } else if which == SYS_SPAWNP {
      SpawnKeeps(s, link, p);
    } else if which == SYS_SLEEP {
      OwnStack(s, p, s.current);
      SleepKeeps(s, p);
    } else {
      SetRetKeeps(s, p, result);
    }
  }

  // Whatever happens while a process is out of the CPU, it is dispatched again with the
  // context and the stack that it left with.
  lemma {:induction false} OutOfCpuKeepsContext(ss: seq<KState>, es: seq<Event>, link: Link, p: nat, k: nat)
    requires Run(ss, es, link) && Inv(ss[0]) && k < |ss| && p < N_PCBS && Live(ss[0].pcbs[p])
    requires forall j | 0 <= j < k :: ss[j].current != p
    ensures Inv(ss[k]) && Keeps(ss[0], ss[k], p)
  {
    RunKeepsInv(ss, es, link, k);
    if k > 0 {
      OutOfCpuKeepsContext(ss, es, link, p, k - 1);
      StepKeepsContext(ss[k - 1], es[k - 1], ss[k], link, p);
    } else {
      assert SoundParts(ss[0].queues, ss[0].pcbs, ss[0].active, {ss[0].current});
      assert PcbOk(ss[0].pcbs[p]);
    }
  }

  // A process that is switched out by a tick or by a sleep leaves with exactly what it saved.
  lemma SwitchedOutAsSaved(s: KState, e: Event, s': KState, link: Link)
    requires Inv(s) && Next(s, e, s', link) && InCpu(s) && UserOk(s, e)
    requires e.Tick? || SyscallCode(Saved(s, e)) == SYS_SLEEP
    ensures Inv(s') && Live(s'.pcbs[s.current])
    ensures var pcb := s'.pcbs[s.current];
      && pcb.context == e.context && pcb.stack == s.pcbs[s.current].stack
      && StackWords(s'.mem, pcb.stack) == e.image
  {
    assert Leads(s, e, s', link);
    NextKeepsInv(s, e, s', link);
    SavedKeepsInv(s, e);
    StepIs(s, e, link);
    var s0 := Saved(s, e);
    WithStackWithin(s.mem, s.pcbs[s.current].stack, e.image);
    if e.Tick? { ClockKeeps(s0, s.current); } else { SleepKeeps(s0, s.current); }
  }

  // So a process resumes exactly where it was interrupted: switched out by the first event,
  // it is back in the CPU with the context and all stack words that were saved then.
  lemma ResumesWhereItStopped(ss: seq<KState>, es: seq<Event>, link: Link, k: nat)
    requires Run(ss, es, link) && Inv(ss[0]) && 0 < k < |ss|
    requires InCpu(ss[0]) && UserOk(ss[0], es[0])
    requires es[0].Tick? || SyscallCode(Saved(ss[0], es[0])) == SYS_SLEEP
    requires ss[k].current == ss[0].current && forall j | 0 < j < k :: ss[j].current != ss[0].current
    ensures Inv(ss[k])
    ensures var pcb := ss[k].pcbs[ss[k].current];
      && pcb.context == es[0].context && pcb.stack == ss[0].pcbs[ss[0].current].stack
      && StackWords(ss[k].mem, pcb.stack) == es[0].image
  {
    var p := ss[0].current;
    SwitchedOutAsSaved(ss[0], es[0], ss[1], link);
    RunFrom(ss, es, link, 1);
    OutOfCpuKeepsContext(ss[1..], es[1..], link, p, k - 1);
  }

  // Exact counting.

  // The processes below n that are live, or free, in increasing order.
  function Pick(pcbs: seq<Pcb>, n: nat, live: bool): seq<int>
    requires n <= |pcbs|
  {
    if n == 0 then []
    else if Live(pcbs[n - 1]) == live then Pick(pcbs, n - 1, live) + [n - 1]
    else Pick(pcbs, n - 1, live)
  }

  lemma {:induction false} PickCount(pcbs: seq<Pcb>, n: nat)
    requires n <= |pcbs|
    ensures |Pick(pcbs, n, true)| + |Pick(pcbs, n, false)| == n
  {
    if n > 0 { PickCount(pcbs, n - 1); }
  }

  lemma {:induction false} PickIs(pcbs: seq<Pcb>, n: nat, live: bool)
    requires n <= |pcbs|
    ensures forall i | 0 <= i < |Pick(pcbs, n, live)| ::
      0 <= Pick(pcbs, n, live)[i] < n && Live(pcbs[Pick(pcbs, n, live)[i]]) == live
    ensures forall i, j | 0 <= i < j < |Pick(pcbs, n, live)| :: Pick(pcbs, n, live)[i] < Pick(pcbs, n, live)[j]
    ensures forall p | 0 <= p < n && Live(pcbs[p]) == live :: p in Pick(pcbs, n, live)
  {
    if n > 0 {
      PickIs(pcbs, n - 1, live);
      var t, r := Pick(pcbs, n - 1, live), Pick(pcbs, n, live);
      if Live(pcbs[n - 1]) == live { assert r == t + [n - 1]; }
    }
  }

  function Data(items: seq<Item>): (r: seq<int>)
    ensures |r| == |items| && forall i | 0 <= i < |items| :: r[i] == items[i].data
  {
    seq(|items|, i requires 0 <= i < |items| => items[i].data)
  }

  // A PCB is free if and only if it is on the free list.
  lemma FreeIsListed(s: KState, p: int)
    requires Inv(s)
    ensures 0 <= p < N_PCBS && !Live(s.pcbs[p]) <==> Has(s.queues[FREE_PCBS], p)
  {
    assert SoundParts(s.queues, s.pcbs, s.active, {s.current});
    assert Houses(FREE_PCBS, s.queues[FREE_PCBS], s.pcbs, {s.current});
    if 0 <= p < N_PCBS && !Live(s.pcbs[p]) {
      assert p != s.current && Has(s.queues[Home(s.pcbs[p])], p);
    }
  }

  lemma DataHas(items: seq<Item>, p: int)
    ensures p in Data(items) <==> Has(items, p)
  {
    if Has(items, p) {
      var i :| 0 <= i < |items| && items[i].data == p;
      assert Data(items)[i] == p;
    }
  }

  // _system_active is the number of live processes.
  lemma ActiveIsLiveCount(s: KState)
    requires Inv(s)
    ensures s.active == |Pick(s.pcbs, N_PCBS, true)|
  {
    assert SoundParts(s.queues, s.pcbs, s.active, {s.current});
    var items := s.queues[FREE_PCBS];
    var free, listed := Pick(s.pcbs, N_PCBS, false), Data(items);
    PickIs(s.pcbs, N_PCBS, false);
    forall p: int
      ensures p in Elements(free) <==> p in Elements(listed)
    {
      FreeIsListed(s, p);
      DataHas(items, p);
    }
    assert Elements(free) == Elements(listed);
    assert Distinct(items);
    assert forall i, j | 0 <= i < j < |listed| :: listed[i] != listed[j];
    DistinctCount(free);
    DistinctCount(listed);
    PickCount(s.pcbs, N_PCBS);
  }

  function StacksOf(pcbs: seq<Pcb>, l: seq<int>): (r: seq<int>)
    requires forall i | 0 <= i < |l| :: 0 <= l[i] < |pcbs|
    ensures |r| == |l| && forall i | 0 <= i < |l| :: r[i] == pcbs[l[i]].stack
  {
    seq(|l|, i requires 0 <= i < |l| => pcbs[l[i]].stack)
  }

  lemma TwoListsFill(a: seq<int>, b: seq<int>, n: nat, t: nat)
    requires |a| + |b| == n && t < n
    requires forall i, j | 0 <= i < j < |a| :: a[i] != a[j]
    requires forall i, j | 0 <= i < j < |b| :: b[i] != b[j]
    requires forall x | x in a :: 0 <= x < n && x !in b
    requires forall x | x in b :: 0 <= x < n
    ensures t in a || t in b
  {
    DistinctCount(a);
    DistinctCount(b);
    assert Elements(a) !! Elements(b);
    SubsetOfEqualSize(Elements(a) + Elements(b), Below(n));
    assert t in Below(n);
  }

  // Every stack is on the free list or belongs to a live process, and never both.
  lemma EveryStackIsHeld(s: KState, t: nat)
    requires Inv(s) && t < N_STACKS
    ensures Has(s.queues[FREE_STACKS], t) <==> forall p | 0 <= p < N_PCBS && Live(s.pcbs[p]) :: s.pcbs[p].stack != t
  {
    assert SoundParts(s.queues, s.pcbs, s.active, {s.current});
    var items, live := s.queues[FREE_STACKS], Pick(s.pcbs, N_PCBS, true);
    PickIs(s.pcbs, N_PCBS, true);
    ActiveIsLiveCount(s);
    var owned, free := StacksOf(s.pcbs, live), Data(items);
    forall x | x in owned
      ensures 0 <= x < N_STACKS && x !in free
    {
      var i :| 0 <= i < |owned| && owned[i] == x;
      assert PcbOk(s.pcbs[live[i]]);
    }
    TwoListsFill(owned, free, N_STACKS, t);
    if t in owned {
      var i :| 0 <= i < |owned| && owned[i] == t;
      assert Live(s.pcbs[live[i]]) && s.pcbs[live[i]].stack == t;
    } else {
      var i :| 0 <= i < |free| && free[i] == t;
      assert items[i].data == t;
    }
  }
}
