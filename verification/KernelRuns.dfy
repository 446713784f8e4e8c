/** Runs of the kernel under any interleaving of ticks and system calls: safety, waiting
    times, wake-up times and the contexts that processes resume with. */
module KernelRuns {
  import opened Common
  import opened QueueSpec
  import opened KernelSpec
  import opened KernelInvariant
  import opened KernelTick

  ghost predicate Leads(s: KState, e: Event, s': KState, link: Link) {
    InCpu(s) && UserOk(s, e) && Step(s, e, link) == Ok(s')
  }

  // The same, in a form that a proof which only passes it along does not unfold.
  ghost predicate Next(s: KState, e: Event, s': KState, link: Link) {
    forall f: Event {:trigger Leads(s, f, s', link)} | f == e :: Leads(s, f, s', link)
  }

  lemma NextKeepsInv(s: KState, e: Event, s': KState, link: Link)
    requires Inv(s) && Next(s, e, s', link)
    ensures Inv(s')
  {
    assert Leads(s, e, s', link);
    StepKeepsInv(s, e, link);
  }

  // The states ss are passed through on the events es.
  ghost predicate Run(ss: seq<KState>, es: seq<Event>, link: Link) {
    && |ss| == |es| + 1
    && forall k | 0 <= k < |es| :: Next(ss[k], es[k], ss[k + 1], link)
  }

  lemma RunGrows(ss: seq<KState>, es: seq<Event>, e: Event, s: KState, link: Link)
    requires Run(ss, es, link) && Next(ss[|es|], e, s, link)
    ensures Run(ss + [s], es + [e], link)
  {
    var ss', es' := ss + [s], es + [e];
    forall k | 0 <= k < |es'|
      ensures Next(ss'[k], es'[k], ss'[k + 1], link)
    {
      if k < |es| {
        assert Next(ss[k], es[k], ss[k + 1], link);
      }
    }
  }

  lemma RunFrom(ss: seq<KState>, es: seq<Event>, link: Link, k: nat)
    requires Run(ss, es, link) && k <= |es|
    ensures Run(ss[k..], es[k..], link)
  {
    var ts, fs := ss[k..], es[k..];
    forall j | 0 <= j < |fs|
      ensures Next(ts[j], fs[j], ts[j + 1], link)
    {
      assert Next(ss[j + k], es[j + k], ss[j + k + 1], link);
    }
  }

  lemma {:induction false} RunKeepsInv(ss: seq<KState>, es: seq<Event>, link: Link, k: nat)
    requires Run(ss, es, link) && Inv(ss[0]) && k < |ss|
    ensures Inv(ss[k])
  {
    if k > 0 {
      RunKeepsInv(ss, es, link, k - 1);
      NextKeepsInv(ss[k - 1], es[k - 1], ss[k], link);
    }
  }

  // From the state that _init leaves, no run panics: every state satisfies the invariant,
  // and every further event that user processes can cause has a next state.
  lemma NoReachablePanic(programs: Programs, ss: seq<KState>, es: seq<Event>, link: Link, e: Event)
    requires Run(ss, es, link) && Init(programs, link) == Ok(ss[0])
    ensures Inv(ss[|es|]) && InCpu(ss[|es|])
    ensures UserOk(ss[|es|], e) ==> Step(ss[|es|], e, link).Ok?
  {
    InitKeepsInv(programs, link);
    RunKeepsInv(ss, es, link, |es|);
    InvInCpu(ss[|es|]);
    if UserOk(ss[|es|], e) { StepKeepsInv(ss[|es|], e, link); }
  }

  // What the invariant says about one process: it is in exactly one place, once, and its
  // state field names that place.
  lemma OnePlace(s: KState, p: nat)
    requires Inv(s) && p < N_PCBS
    ensures p == s.current <==> s.pcbs[p].state == Running
    ensures forall q, i | 0 <= q < N_QUEUES && IsPcbQueue(q) && 0 <= i < |s.queues[q]| && s.queues[q][i].data == p ::
              p != s.current && q == Home(s.pcbs[p])
    ensures p != s.current ==> IsPcbQueue(Home(s.pcbs[p])) && exists i ::
              && 0 <= i < |s.queues[Home(s.pcbs[p])]| && s.queues[Home(s.pcbs[p])][i].data == p
              && forall j | 0 <= j < |s.queues[Home(s.pcbs[p])]| && s.queues[Home(s.pcbs[p])][j].data == p :: j == i
  {
    assert SoundParts(s.queues, s.pcbs, s.active, {s.current});
    forall q, i | 0 <= q < N_QUEUES && IsPcbQueue(q) && 0 <= i < |s.queues[q]| && s.queues[q][i].data == p
      ensures p != s.current && q == Home(s.pcbs[p])
    {
      assert Houses(q, s.queues[q], s.pcbs, {s.current});
    }
    if p != s.current {
      var items := s.queues[Home(s.pcbs[p])];
      assert Has(items, p) && Distinct(items);
      var i :| 0 <= i < |items| && items[i].data == p;
      forall j | 0 <= j < |items| && items[j].data == p
        ensures j == i
      {}
    }
  }

  // The shape of a step: the kernel works up to a state `pre`, and then either dispatches or
  // goes on with the current process.  Until then every ready level has only grown.

  ghost predicate Grown(a: seq<seq<Item>>, b: seq<seq<Item>>) {
    && |a| == N_QUEUES && |b| == N_QUEUES
    && forall q | READY <= q < SLEEPING :: a[q] <= b[q]
  }

  function Elapsed(e: Event): nat { if e.Tick? then 1 else 0 }

  ghost predicate Form(s: KState, r: Outcome<KState>, pre: KState, dispatched: bool, ticks: nat) {
    && Shaped(s) && |pre.pcbs| == N_PCBS && s.current != NULL
    && Grown(s.queues, pre.queues) && pre.current == s.current && pre.time == Wrap(s.time + ticks)
    && s.pcbs[s.current].quantum >= ticks
    && if dispatched then Sound(pre, {}) && IdleOk(pre.pcbs[IDLE]) && r == Dispatch(pre)
       else r == Ok(pre) && pre.pcbs[s.current].quantum == s.pcbs[s.current].quantum - ticks > 0
  }

  lemma ScheduledGrows(s: KState, p: nat)
    requires Shaped(s) && p < N_PCBS
    ensures Grown(s.queues, Scheduled(s, p).queues)
  {}

  lemma WokenGrows(s: KState, r: KState)
    requires Woken(s, r)
    ensures Grown(s.queues, r.queues)
  {}

  lemma ExpireForm(s: KState) returns (pre: KState, dispatched: bool)
    requires Inv(s)
    ensures dispatched <==> s.pcbs[s.current].quantum == 1
    ensures pre == if dispatched then Scheduled(Charge(s), s.current) else Charge(s)
    ensures Grown(s.queues, pre.queues)
    ensures if dispatched then Sound(pre, {}) && IdleOk(pre.pcbs[IDLE]) && Expire(s) == Dispatch(pre)
            else Expire(s) == Ok(pre) && pre.pcbs[s.current].quantum == s.pcbs[s.current].quantum - 1 > 0
  {
    assert SoundParts(s.queues, s.pcbs, s.active, {s.current});
    pre := Charge(s);
    dispatched := pre.pcbs[s.current].quantum < 1;
    SetSound(s, {s.current}, s.current, pre.pcbs[s.current]);
    if dispatched {
      ScheduleSound(pre, {s.current}, s.current);
      ScheduledGrows(pre, s.current);
      assert {s.current} - {s.current} == {};
      pre := Scheduled(pre, s.current);
    }
  }

  lemma ClockForm(s: KState) returns (s1: KState, pre: KState, dispatched: bool)
    requires Inv(s)
    ensures Woken(s.(time := Wrap(s.time + 1)), s1) && s1.pcbs[s.current] == s.pcbs[s.current]
    ensures dispatched <==> s.pcbs[s.current].quantum == 1
    ensures pre == if dispatched then Scheduled(Charge(s1), s.current) else Charge(s1)
    ensures Form(s, ClockIsr(s), pre, dispatched, 1)
  {
    var s0 := s.(time := Wrap(s.time + 1));
    ClockIsrSteps(s, Wake(s0));
    WakeReleasesDue(s0, {s.current});
    WakeSound(s0, {s.current});
    s1 := Wake(s0).value;
    WokenGrows(s0, s1);
    pre, dispatched := ExpireForm(s1);
  }

  lemma ExitForm(s: KState)
    requires Inv(s) && InCpu(s) && s.current != IDLE
    ensures Form(s, SysExit(s, s.current), Released(s, s.current), true, 0)
  {
    ExitKeepsInv(s);
    ReleaseSound(s, {s.current}, s.current);
    assert {s.current} - {s.current} == {};
  }

  lemma SpawnedGrows(s: KState, entry: Word, prio: Byte, link: Link)
    requires Shaped(s) && s.current != NULL && HasContext(s.pcbs[s.current])
    requires s.queues[FREE_PCBS] != [] && s.queues[FREE_STACKS] != []
    requires s.queues[FREE_PCBS][0].data != s.current
    ensures var r := Spawned(s, entry, prio, link);
      Grown(s.queues, r.queues) && r.current == s.current && r.time == s.time
      && r.pcbs[s.current] == s.pcbs[s.current]
  {}

  // A step that does not dispatch and uses no quantum.
  lemma FormGoesOn(s: KState, pre: KState)
    requires Inv(s) && Shaped(pre) && Grown(s.queues, pre.queues)
    requires pre.current == s.current && pre.time == s.time && pre.pcbs[s.current] == s.pcbs[s.current]
    ensures Form(s, Ok(pre), pre, false, 0)
  {}

  lemma SpawnForm(s: KState, link: Link)
    requires Inv(s) && InCpu(s) && s.pcbs[s.current].context + CONTEXT_WORDS + 2 < MEM_WORDS
    ensures SysSpawnp(s, s.current, link).Ok?
    ensures Form(s, SysSpawnp(s, s.current, link), SysSpawnp(s, s.current, link).value, false, 0)
  {
    if s.queues[FREE_STACKS] == [] {
      SpawnFails(s, link);
    } else {
      SpawnSucceeds(s, link);
      SpawnedGrows(s, Arg(s, s.current, 1), Arg(s, s.current, 2) % 0x100, link);
    }
    FormGoesOn(s, SysSpawnp(s, s.current, link).value);
  }

  // A step that dispatches and uses no quantum.
  lemma FormDispatches(s: KState, pre: KState)
    requires Inv(s) && Sound(pre, {}) && IdleOk(pre.pcbs[IDLE])
    requires Grown(s.queues, pre.queues) && pre.current == s.current && pre.time == s.time
    ensures Form(s, Dispatch(pre), pre, true, 0)
  {}

  lemma ParkedGrows(s: KState, n: Word)
    requires Inv(s) && s.current != IDLE && n != 0
    ensures Sound(Parked(s, n), {}) && IdleOk(Parked(s, n).pcbs[IDLE])
    ensures Grown(s.queues, Parked(s, n).queues)
  {
    ParkSound(s, n);
  }

  lemma SleepForm(s: KState) returns (pre: KState)
    requires Inv(s) && InCpu(s) && s.current != IDLE
    requires s.pcbs[s.current].context + CONTEXT_WORDS + 1 < MEM_WORDS
    ensures var n := Arg(s, s.current, 1); pre == if n == 0 then Scheduled(s, s.current) else Parked(s, n)
    ensures Form(s, SysSleep(s, s.current), pre, true, 0)
  {
    SleepKeepsInv(s);
    var n := Arg(s, s.current, 1);
    if n == 0 {
      YieldSound(s);
      ScheduledGrows(s, s.current);
      pre := Scheduled(s, s.current);
    } else {
      ParkedGrows(s, n);
      pre := Parked(s, n);
    }
    FormDispatches(s, pre);
  }

  lemma CallForm(s: KState, result: Word, link: Link) returns (pre: KState, dispatched: bool)
    requires Inv(s) && InCpu(s) && HasArgs(s) && s.current != IDLE
    ensures Form(s, SysIsr(s, result, link), pre, dispatched, 0)
  {
    var which := SyscallCode(s);
    dispatched := which == SYS_EXIT || which == SYS_SLEEP;
    if which == SYS_EXIT {
      ExitForm(s);
      pre := Released(s, s.current);
    } else if which == SYS_SPAWNP {
      SpawnForm(s, link);
      pre := SysSpawnp(s, s.current, link).value;
    } else if which == SYS_SLEEP {
      pre := SleepForm(s);
    } else {
      pre := SetRet(s, s.current, result);
    }
  }

  lemma StepIs(s: KState, e: Event, link: Link)
    requires InCpu(s) && UserOk(s, e)
    ensures InCpu(Saved(s, e)) && Shaped(Saved(s, e))
    ensures e.Tick? ==> Step(s, e, link) == ClockIsr(Saved(s, e))
    ensures e.Syscall? ==> HasArgs(Saved(s, e)) && Step(s, e, link) == SysIsr(Saved(s, e), e.result, link)
  {}

  // Saving the context does not change what the form of a step speaks of.
  lemma FormOfSaved(s: KState, e: Event, r: Outcome<KState>, pre: KState, dispatched: bool, ticks: nat)
    requires Inv(s) && InCpu(s) && UserOk(s, e) && Form(Saved(s, e), r, pre, dispatched, ticks)
    ensures Form(s, r, pre, dispatched, ticks)
  {}

  lemma FormOfStep(s: KState, e: Event, link: Link) returns (pre: KState, dispatched: bool)
    requires Inv(s) && InCpu(s) && UserOk(s, e)
    ensures Form(s, Step(s, e, link), pre, dispatched, Elapsed(e))
  {
    SavedKeepsInv(s, e);
    StepIs(s, e, link);
    var s0 := Saved(s, e);
    if e.Tick? {
      var s1;
      s1, pre, dispatched := ClockForm(s0);
    } else {
      pre, dispatched := CallForm(s0, e.result, link);
    }
    FormOfSaved(s, e, Step(s, e, link), pre, dispatched, Elapsed(e));
  }

  // Bounded waiting.

  // Process p is at position i of ready level l.
  ghost predicate Waiting(s: KState, p: int, l: nat, i: nat) {
    Shaped(s) && l < N_PRIOS && i < |s.queues[READY + l]| && s.queues[READY + l][i].data == p
  }

  // No process of a higher priority than level l is ready or running.
  ghost predicate Quiet(s: KState, l: nat) {
    && Shaped(s) && l < N_PRIOS && s.current != NULL && s.pcbs[s.current].prio >= l
    && forall q | READY <= q < READY + l :: s.queues[q] == []
  }

  function Ticks(es: seq<Event>): nat {
    if es == [] then 0 else Ticks(es[1..]) + if es[0].Tick? then 1 else 0
  }

  // The ticks until the process at position i of its level is dispatched, at most.
  function Patience(s: KState, i: nat): nat
    requires Shaped(s) && s.current != NULL
  {
    s.pcbs[s.current].quantum + 10 * i
  }

  // Dispatching from a state in which p waits.
  lemma DispatchAdvances(s: KState, p: int, l: nat, i: nat)
    requires Sound(s, {}) && IdleOk(s.pcbs[IDLE]) && Waiting(s, p, l, i)
    requires Dispatch(s).Ok? && Quiet(Dispatch(s).value, l)
    ensures var r := Dispatch(s).value;
      if i == 0 then r.current == p else Waiting(r, p, l, i - 1) && r.pcbs[r.current].quantum == QUANTUM_DEFAULT
  {
    IdleCanRun(s);
    DispatchSound(s);
    var m, r := FirstReady(s.queues, 0), Dispatched(s);
    DispatchedIs(s);
    assert m == l;
  }

  // The dispatched process was at the level of its priority and has a fresh quantum.
  lemma DispatchedIs(s: KState)
    requires Sound(s, {}) && FirstReady(s.queues, 0) < N_PRIOS
    ensures var m, r := FirstReady(s.queues, 0), Dispatched(s);
      && r.queues == s.queues[READY + m := s.queues[READY + m][1..]]
      && r.pcbs[r.current].prio == m && r.pcbs[r.current].quantum == QUANTUM_DEFAULT
      && s.queues[READY + m][0] == Item(0, r.current)
  {
    FirstIsReady(s, FirstReady(s.queues, 0));
  }

  lemma FormAdvances(s: KState, s': KState, pre: KState, dispatched: bool, ticks: nat, p: int, l: nat, i: nat)
      returns (i': nat)
    requires Form(s, Ok(s'), pre, dispatched, ticks) && Waiting(s, p, l, i) && Quiet(s', l)
    ensures s'.current == p ||
      (Waiting(s', p, l, i') && i' <= i && Patience(s', i') + ticks <= Patience(s, i))
  {
    assert pre.queues[READY + l][i] == s.queues[READY + l][i];
    i' := i;
    if dispatched {
      DispatchAdvances(pre, p, l, i);
      if i > 0 { i' := i - 1; }
    }
  }

  lemma StepAdvances(s: KState, e: Event, s': KState, link: Link, p: int, l: nat, i: nat) returns (i': nat)
    requires Inv(s) && Next(s, e, s', link) && Waiting(s, p, l, i) && Quiet(s', l)
    ensures s'.current == p ||
      (Waiting(s', p, l, i') && i' <= i && Patience(s', i') + Elapsed(e) <= Patience(s, i))
  {
    assert Leads(s, e, s', link);
    var pre, dispatched := FormOfStep(s, e, link);
    i' := FormAdvances(s, s', pre, dispatched, Elapsed(e), p, l, i);
  }

  // A process waits at most ten ticks for every process before it, and for the current one,
  // as long as nobody of a higher priority is ready or runs.
  lemma {:induction false} BoundedWaiting(ss: seq<KState>, es: seq<Event>, link: Link, p: int, l: nat, i: nat)
    returns (k: nat)
    requires Run(ss, es, link) && Inv(ss[0]) && Waiting(ss[0], p, l, i)
    requires forall j | 0 <= j < |ss| :: Quiet(ss[j], l)
    requires Ticks(es) >= Patience(ss[0], i)
    ensures k < |ss| && ss[k].current == p
  {
    assert es != [];
    NextKeepsInv(ss[0], es[0], ss[1], link);
    var i' := StepAdvances(ss[0], es[0], ss[1], link, p, l, i);
    if ss[1].current == p {
      k := 1;
    } else {
      RunFrom(ss, es, link, 1);
      k := BoundedWaiting(ss[1..], es[1..], link, p, l, i');
      k := k + 1;
    }
  }
}
