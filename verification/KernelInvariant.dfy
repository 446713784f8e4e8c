/** What every kernel step keeps: where each process is, who owns which stack, and how many
    of everything there are. */
module KernelInvariant {
  import opened Common
  import opened QueueSpec
  import opened KernelSpec

  // The queue that a PCB's own fields name, or NULL for a process that is in none.
  function Home(pcb: Pcb): int {
    match pcb.state
    case Free => FREE_PCBS
    case Ready => if pcb.prio < N_PRIOS then READY + pcb.prio else NULL
    case Sleeping => SLEEPING
    case _ => NULL
  }

  ghost predicate Has(items: seq<Item>, p: int) {
    exists i :: 0 <= i < |items| && items[i].data == p
  }

  ghost predicate Distinct(items: seq<Item>) {
    forall i, j | 0 <= i < j < |items| :: items[i].data != items[j].data
  }

  // Queue q holds only processes whose home it is, under the key that belongs there, and
  // none of those in `out`.
  ghost predicate Houses(q: nat, items: seq<Item>, pcbs: seq<Pcb>, out: set<int>) {
    forall i | 0 <= i < |items| ::
      && 0 <= items[i].data < |pcbs| && items[i].data !in out
      && Home(pcbs[items[i].data]) == q
      && items[i].key == if q == SLEEPING then pcbs[items[i].data].wakeup else 0
  }

  // Every process outside `out` is in the queue that its fields name, exactly once, and in
  // no other; the processes in `out` are in no queue.
  ghost predicate Placed(queues: seq<seq<Item>>, pcbs: seq<Pcb>, out: set<int>) {
    && |queues| == N_QUEUES && |pcbs| == N_PCBS
    && (forall p | p in out :: 0 <= p < N_PCBS)
    && (forall q | 0 <= q < N_QUEUES && IsPcbQueue(q) :: Houses(q, queues[q], pcbs, out) && Distinct(queues[q]))
    && (forall p | 0 <= p < N_PCBS && p !in out ::
          IsPcbQueue(Home(pcbs[p])) && Has(queues[Home(pcbs[p])], p))
  }

  // Taking the first process out of its queue.
  lemma RemovePlaced(queues: seq<seq<Item>>, pcbs: seq<Pcb>, out: set<int>, q: nat)
    requires Placed(queues, pcbs, out) && q < N_QUEUES && IsPcbQueue(q) && queues[q] != []
    ensures queues[q][0].data !in out
    ensures Placed(queues[q := queues[q][1..]], pcbs, out + {queues[q][0].data})
  {
    var r, p0 := queues[q := queues[q][1..]], queues[q][0].data;
    assert Houses(q, queues[q], pcbs, out) && Distinct(queues[q]);
    forall p | 0 <= p < N_PCBS && p !in out + {p0}
      ensures Has(r[Home(pcbs[p])], p)
    {
      var h := Home(pcbs[p]);
      var i :| 0 <= i < |queues[h]| && queues[h][i].data == p;
      assert r[h][if h == q then i - 1 else i].data == p;
    }
    forall h | 0 <= h < N_QUEUES && IsPcbQueue(h)
      ensures Houses(h, r[h], pcbs, out + {p0}) && Distinct(r[h])
    {
      assert Houses(h, queues[h], pcbs, out) && Distinct(queues[h]);
    }
  }

  lemma InsertHoused(q: nat, l: seq<Item>, pcbs: seq<Pcb>, out: set<int>, k: nat, x: Item)
    requires Houses(q, l, pcbs, out) && Distinct(l) && k <= |l|
    requires x.data in out && 0 <= x.data < |pcbs| && Home(pcbs[x.data]) == q
    requires x.key == if q == SLEEPING then pcbs[x.data].wakeup else 0
    ensures Houses(q, Spliced(l, k, x), pcbs, out - {x.data}) && Distinct(Spliced(l, k, x))
  {
    var m := Spliced(l, k, x);
    forall i, j | 0 <= i < j < |m|
      ensures m[i].data != m[j].data
    {
      if i != k { assert m[i] == l[if i < k then i else i - 1]; }
      if j != k { assert m[j] == l[if j < k then j else j - 1]; }
    }
  }

  lemma InsertHas(l: seq<Item>, k: nat, x: Item, p: int)
    requires k <= |l| && (p == x.data || Has(l, p))
    ensures Has(Spliced(l, k, x), p)
  {
    if p == x.data {
      assert Spliced(l, k, x)[k].data == p;
    } else {
      var i :| 0 <= i < |l| && l[i].data == p;
      var j := if i < k then i else i + 1;
      assert Spliced(l, k, x)[j].data == p;
    }
  }

  // Putting a process into the queue that its fields name.
  lemma InsertPlaced(queues: seq<seq<Item>>, pcbs: seq<Pcb>, out: set<int>, p: nat, key: Word, k: nat)
    requires Placed(queues, pcbs, out) && p in out && IsPcbQueue(Home(pcbs[p]))
    requires key == if Home(pcbs[p]) == SLEEPING then pcbs[p].wakeup else 0
    requires k <= |queues[Home(pcbs[p])]|
    ensures var q := Home(pcbs[p]);
      Placed(queues[q := Spliced(queues[q], k, Item(key, p))], pcbs, out - {p})
  {
    var q := Home(pcbs[p]);
    var r := queues[q := Spliced(queues[q], k, Item(key, p))];
    InsertHoused(q, queues[q], pcbs, out, k, Item(key, p));
    forall h | 0 <= h < N_QUEUES && IsPcbQueue(h)
      ensures Houses(h, r[h], pcbs, out - {p}) && Distinct(r[h])
    {
      assert Houses(h, queues[h], pcbs, out) && Distinct(queues[h]);
    }
    forall p1 | 0 <= p1 < N_PCBS && p1 !in out - {p}
      ensures IsPcbQueue(Home(pcbs[p1])) && Has(r[Home(pcbs[p1])], p1)
    {
      if Home(pcbs[p1]) == q { InsertHas(queues[q], k, Item(key, p), p1); }
    }
  }

  // Rewriting the PCB of a process that is in no queue.
  lemma SetPlaced(queues: seq<seq<Item>>, pcbs: seq<Pcb>, out: set<int>, p: nat, pcb: Pcb)
    requires Placed(queues, pcbs, out) && p in out
    ensures Placed(queues, pcbs[p := pcb], out)
  {
    forall q | 0 <= q < N_QUEUES && IsPcbQueue(q)
      ensures Houses(q, queues[q], pcbs[p := pcb], out)
    {
      assert Houses(q, queues[q], pcbs, out);
    }
  }

  // Changing a queue that holds no processes.
  lemma OtherPlaced(queues: seq<seq<Item>>, pcbs: seq<Pcb>, out: set<int>, q: nat, items: seq<Item>)
    requires Placed(queues, pcbs, out) && q < N_QUEUES && !IsPcbQueue(q)
    ensures Placed(queues[q := items], pcbs, out)
  {}

  // Conservation.

  function PcbCount(queues: seq<seq<Item>>): nat
    requires |queues| == N_QUEUES
  {
    |queues[1]| + |queues[3]| + |queues[4]| + |queues[5]| + |queues[6]| + |queues[7]|
  }

  // All PCBs are in a queue or in `out`; only queues 8 and 9 are free, and unused; each live
  // process holds one stack, and _system_active counts the live processes.
  ghost predicate Counted(queues: seq<seq<Item>>, active: int, out: set<int>) {
    && |queues| == N_QUEUES
    && PcbCount(queues) + |out| == N_PCBS
    && |queues[FREE_QUEUES]| == 2 && queues[8] == [] && queues[9] == []
    && active == N_PCBS - |queues[FREE_PCBS]|
    && active + |queues[FREE_STACKS]| == N_STACKS
  }

  lemma TotalOfTen(queues: seq<seq<Item>>)
    requires |queues| == N_QUEUES
    ensures Total(queues) == PcbCount(queues) + |queues[0]| + |queues[2]| + |queues[8]| + |queues[9]|
  {
    assert Total(queues) == Total(queues[..9]) + |queues[9]|;
    forall n | 1 <= n < N_QUEUES
      ensures Total(queues[..n]) == Total(queues[..n - 1]) + |queues[n - 1]|
    {
      assert queues[..n][..n - 1] == queues[..n - 1];
    }
    assert Total(queues[..0]) == 0;
    assert Total(queues[..1]) == |queues[0]|;
    assert Total(queues[..3]) == |queues[0]| + |queues[1]| + |queues[2]|;
    assert Total(queues[..6]) == Total(queues[..3]) + |queues[3]| + |queues[4]| + |queues[5]|;
    assert Total(queues[..9]) == Total(queues[..6]) + |queues[6]| + |queues[7]| + |queues[8]|;
  }

  // Ownership of stacks.

  predicate Live(pcb: Pcb) { pcb.state != Free }

  // Live processes own distinct stacks, none of which is on the free list.
  ghost predicate Owned(free: seq<Item>, pcbs: seq<Pcb>) {
    && |pcbs| == N_PCBS && Distinct(free)
    && (forall p, r | 0 <= p < r < N_PCBS && Live(pcbs[p]) && Live(pcbs[r]) :: pcbs[p].stack != pcbs[r].stack)
    && (forall p, i | 0 <= p < N_PCBS && Live(pcbs[p]) && 0 <= i < |free| :: free[i].data != pcbs[p].stack)
  }

  // The fields of a PCB at rest.
  ghost predicate PcbOk(pcb: Pcb) {
    if Live(pcb) then pcb.defaultQuantum == QUANTUM_DEFAULT && HasContext(pcb) else pcb == ZERO_PCB
  }

  ghost predicate PcbsOk(pcbs: seq<Pcb>) {
    && |pcbs| == N_PCBS
    && forall p | 0 <= p < N_PCBS :: PcbOk(pcbs[p])
  }

  // The idle process never leaves the CPU and the lowest ready level.
  ghost predicate IdleOk(pcb: Pcb) {
    pcb.prio == PRIO_USER_LOW && (pcb.state == Ready || pcb.state == Running)
  }

  // The state of the kernel while the processes in `out` are in its hands.
  ghost predicate SoundParts(queues: seq<seq<Item>>, pcbs: seq<Pcb>, active: int, out: set<int>) {
    && Placed(queues, pcbs, out) && Counted(queues, active, out)
    && Owned(queues[FREE_STACKS], pcbs) && PcbsOk(pcbs)
  }

  // The same, in a form that a proof which only passes it along does not unfold.
  ghost predicate Sound(s: KState, out: set<int>) {
    && Shaped(s) && (forall p | p in out :: 0 <= p < N_PCBS)
    && forall queues, pcbs, active {:trigger SoundParts(queues, pcbs, active, out)}
         | queues == s.queues && pcbs == s.pcbs && active == s.active :: SoundParts(queues, pcbs, active, out)
  }

  // The process in the CPU.
  ghost predicate CurrentOk(pcb: Pcb) {
    pcb.state == Running && pcb.prio < N_PRIOS && 1 <= pcb.quantum <= QUANTUM_DEFAULT
  }

  // The invariant between two entries into the kernel.
  ghost predicate Inv(s: KState) {
    && s.current != NULL && Sound(s, {s.current}) && CurrentOk(s.pcbs[s.current])
    && IdleOk(s.pcbs[IDLE])
  }

  lemma HasRoom(s: KState, out: set<int>)
    requires Sound(s, out)
    ensures Total(s.queues) + |out| <= 53 < N_QNODES
  {
    assert SoundParts(s.queues, s.pcbs, s.active, out);
    TotalOfTen(s.queues);
  }

  // The elementary moves on sound states.

  lemma InsertParts(queues: seq<seq<Item>>, pcbs: seq<Pcb>, active: int, out: set<int>, p: nat, key: Word, k: nat)
    requires SoundParts(queues, pcbs, active, out) && p in out && READY <= Home(pcbs[p]) <= SLEEPING
    requires key == if Home(pcbs[p]) == SLEEPING then pcbs[p].wakeup else 0
    requires k <= |queues[Home(pcbs[p])]|
    ensures var q := Home(pcbs[p]);
      SoundParts(queues[q := Spliced(queues[q], k, Item(key, p))], pcbs, active, out - {p})
  {
    InsertPlaced(queues, pcbs, out, p, key, k);
  }

  lemma InsertSound(s: KState, out: set<int>, p: nat, q: nat, key: Word)
    requires Sound(s, out) && p in out && q == Home(s.pcbs[p]) && READY <= q <= SLEEPING
    requires key == if q == SLEEPING then s.pcbs[p].wakeup else 0
    ensures var r := s.(queues := s.queues[q := Enqueue(CompareOf(q), s.queues[q], Item(key, p))]);
      Insert(s, q, p, key) == Ok(r) && Sound(r, out - {p})
  {
    assert SoundParts(s.queues, s.pcbs, s.active, out);
    HasRoom(s, out);
    InsertParts(s.queues, s.pcbs, s.active, out, p, key, Slot(CompareOf(q), s.queues[q], key));
  }

  lemma RemoveSound(s: KState, out: set<int>, q: nat)
    requires Sound(s, out) && READY <= q <= SLEEPING && s.queues[q] != []
    ensures Remove(s, q).1 == s.queues[q][0].data && Remove(s, q).1 !in out
    ensures Sound(Remove(s, q).0, out + {s.queues[q][0].data})
    ensures Home(s.pcbs[s.queues[q][0].data]) == q
  {
    assert SoundParts(s.queues, s.pcbs, s.active, out);
    assert Houses(q, s.queues[q], s.pcbs, out);
    RemovePlaced(s.queues, s.pcbs, out, q);
  }

  lemma SetSound(s: KState, out: set<int>, p: nat, pcb: Pcb)
    requires Sound(s, out) && p in out && Live(s.pcbs[p])
    requires Live(pcb) && PcbOk(pcb) && pcb.stack == s.pcbs[p].stack
    ensures Sound(SetPcb(s, p, pcb), out)
  {
    assert SoundParts(s.queues, s.pcbs, s.active, out);
    SetPlaced(s.queues, s.pcbs, out, p, pcb);
  }

  // What _schedule leaves behind.
  function Scheduled(s: KState, p: nat): (r: KState)
    requires Shaped(s) && p < N_PCBS
    ensures Shaped(r)
  {
    var prio := if s.pcbs[p].prio < N_PRIOS then s.pcbs[p].prio else PRIO_USER_LOW;
    s.(pcbs := s.pcbs[p := s.pcbs[p].(prio := prio, state := Ready)],
       queues := s.queues[READY + prio := s.queues[READY + prio] + [Item(0, p)]])
  }

  lemma ScheduleInserts(s: KState, p: nat)
    requires Shaped(s) && p < N_PCBS
    ensures var prio := if s.pcbs[p].prio < N_PRIOS then s.pcbs[p].prio else PRIO_USER_LOW;
      Schedule(s, p) == Insert(SetPcb(s, p, s.pcbs[p].(prio := prio, state := Ready)), READY + prio, p, 0)
  {}

  lemma ScheduleSound(s: KState, out: set<int>, p: nat)
    requires Sound(s, out) && p in out && Live(s.pcbs[p])
    ensures Schedule(s, p) == Ok(Scheduled(s, p)) && Sound(Scheduled(s, p), out - {p})
  {
    var prio := if s.pcbs[p].prio < N_PRIOS then s.pcbs[p].prio else PRIO_USER_LOW;
    var pcb := s.pcbs[p].(prio := prio, state := Ready);
    assert PcbOk(pcb) by { assert SoundParts(s.queues, s.pcbs, s.active, out); }
    ScheduleInserts(s, p);
    SetSound(s, out, p, pcb);
    EnqueueAppends(s.queues[READY + prio], Item(0, p));
    InsertSound(SetPcb(s, p, pcb), out, p, READY + prio, 0);
  }

  // What _dispatch leaves behind.
  function Dispatched(s: KState): (r: KState)
    requires Shaped(s) && FirstReady(s.queues, 0) < N_PRIOS
    ensures Shaped(r)
  {
    var q := READY + FirstReady(s.queues, 0);
    var p := s.queues[q][0].data;
    s.(queues := s.queues[q := s.queues[q][1..]], current := p,
       pcbs := s.pcbs[p := s.pcbs[p].(state := Running, quantum := s.pcbs[p].defaultQuantum)])
  }

  // The first process of the first level that is not empty.
  lemma FirstIsReady(s: KState, m: nat)
    requires Sound(s, {}) && m == FirstReady(s.queues, 0) < N_PRIOS
    ensures var x := s.queues[READY + m][0];
      && 0 <= x.data < N_PCBS && x == Item(0, x.data)
      && s.pcbs[x.data].state == Ready && s.pcbs[x.data].prio == m && s.pcbs[x.data].defaultQuantum == 10
  {
    assert SoundParts(s.queues, s.pcbs, s.active, {});
    assert Houses(READY + m, s.queues[READY + m], s.pcbs, {});
    var p := s.queues[READY + m][0].data;
    assert Home(s.pcbs[p]) == READY + m && PcbOk(s.pcbs[p]);
  }

  lemma DispatchIs(s: KState)
    requires Shaped(s) && FirstReady(s.queues, 0) < N_PRIOS
    ensures Dispatch(s) == Ok(Dispatched(s))
  {}

  lemma DispatchSound(s: KState)
    requires Sound(s, {}) && FirstReady(s.queues, 0) < N_PRIOS
    ensures Dispatch(s) == Ok(Dispatched(s))
    ensures Sound(Dispatched(s), {Dispatched(s).current})
    ensures CurrentOk(Dispatched(s).pcbs[Dispatched(s).current])
  {
    DispatchIs(s);
    RunsSound(s, FirstReady(s.queues, 0));
  }

  lemma RunningOk(s: KState, p: nat)
    requires Sound(s, {}) && p < N_PCBS && Live(s.pcbs[p])
    ensures PcbOk(s.pcbs[p].(state := Running, quantum := QUANTUM_DEFAULT))
  {
    assert SoundParts(s.queues, s.pcbs, s.active, {});
    assert PcbOk(s.pcbs[p]);
  }

  // Taking the first process of a level to the CPU.
  lemma RunsSound(s: KState, level: nat)
    requires Sound(s, {}) && level == FirstReady(s.queues, 0) < N_PRIOS
    ensures Sound(Dispatched(s), {Dispatched(s).current})
    ensures CurrentOk(Dispatched(s).pcbs[Dispatched(s).current])
  {
    FirstIsReady(s, level);
    RemoveSound(s, {}, READY + level);
    var (s1, p) := Remove(s, READY + level);
    var pcb := s1.pcbs[p].(state := Running, quantum := QUANTUM_DEFAULT);
    RunningOk(s, p);
    assert {} + {p} == {p};
    SetSound(s1, {p}, p, pcb);
    assert SetPcb(s1, p, pcb).(current := p) == Dispatched(s);
  }

  // With nobody in its hands the kernel finds a process to run, if only the idle process.
  lemma IdleCanRun(s: KState)
    requires Sound(s, {}) && IdleOk(s.pcbs[IDLE])
    ensures FirstReady(s.queues, 0) < N_PRIOS
  {
    assert SoundParts(s.queues, s.pcbs, s.active, {});
    assert Has(s.queues[Home(s.pcbs[IDLE])], IDLE);
  }

  lemma DispatchKeepsInv(s: KState)
    requires Sound(s, {}) && IdleOk(s.pcbs[IDLE])
    ensures Dispatch(s).Ok? && Inv(Dispatch(s).value)
  {
    IdleCanRun(s);
    DispatchSound(s);
  }

  // Only sleepers are touched by a wake-up.
  lemma {:induction false} WakeSound(s: KState, out: set<int>)
    requires Sound(s, out)
    ensures Wake(s).Ok? && Sound(Wake(s).value, out)
    ensures var r := Wake(s).value;
      && r == s.(queues := r.queues, pcbs := r.pcbs)
      && forall p | 0 <= p < N_PCBS && (p in out || s.pcbs[p].state != Sleeping) :: r.pcbs[p] == s.pcbs[p]
    decreases |s.queues[SLEEPING]|
  {
    if s.queues[SLEEPING] != [] && s.queues[SLEEPING][0].key <= s.time {
      var (s1, p) := Remove(s, SLEEPING);
      RemoveSound(s, out, SLEEPING);
      ScheduleSound(s1, out + {p}, p);
      assert out + {p} - {p} == out;
      WakeSound(Scheduled(s1, p), out);
    }
  }

  lemma ExpireKeepsInv(s: KState)
    requires Inv(s)
    ensures Expire(s).Ok? && Inv(Expire(s).value)
  {
    assert SoundParts(s.queues, s.pcbs, s.active, {s.current});
    var s1 := Charge(s);
    SetSound(s, {s.current}, s.current, s1.pcbs[s.current]);
    if s1.pcbs[s.current].quantum < 1 {
      ScheduleSound(s1, {s.current}, s.current);
      assert {s.current} - {s.current} == {};
      DispatchKeepsInv(Scheduled(s1, s.current));
    }
  }

  lemma ClockKeepsInv(s: KState)
    requires Inv(s)
    ensures ClockIsr(s).Ok? && Inv(ClockIsr(s).value)
  {
    var s0 := s.(time := Wrap(s.time + 1));
    ClockIsrSteps(s, Wake(s0));
    WakeSound(s0, {s.current});
    ExpireKeepsInv(Wake(s0).value);
  }

  // _create_process either takes a free PCB and a free stack, or changes nothing at all:
  // there are fewer stacks than PCBs, so a PCB is always found, and when no stack is left
  // the PCB that goes back was the only free one.

  function Created(s: KState, entry: Word, prio: Byte, link: Link): (r: KState)
    requires Shaped(s) && s.queues[FREE_PCBS] != [] && s.queues[FREE_STACKS] != []
    ensures Shaped(r)
  {
    Furnish(s.(queues := s.queues[FREE_PCBS := s.queues[FREE_PCBS][1..]]
                                 [FREE_STACKS := s.queues[FREE_STACKS][1..]],
               active := Wrap(s.active + 1)),
            s.queues[FREE_PCBS][0].data, s.queues[FREE_STACKS][0].data, entry, prio, link)
  }

  // With no free stack there is just one free PCB; it is taken, cleared, and given back.
  function Taken(s: KState): KState
    requires Shaped(s)
  {
    s.(queues := s.queues[FREE_PCBS := []], active := Wrap(s.active + 1))
  }

  lemma LastPcb(s: KState, out: set<int>) returns (p: nat)
    requires Sound(s, out) && s.queues[FREE_STACKS] == []
    ensures p < N_PCBS && s.queues[FREE_PCBS] == [Item(0, p)] && s.pcbs[p] == ZERO_PCB
  {
    assert SoundParts(s.queues, s.pcbs, s.active, out);
    assert |s.queues[FREE_PCBS]| == 1;
    p := s.queues[FREE_PCBS][0].data;
    assert Houses(FREE_PCBS, s.queues[FREE_PCBS], s.pcbs, out);
  }

  lemma PcbTaken(s: KState, p: nat)
    requires Shaped(s) && p < N_PCBS && s.queues[FREE_PCBS] == [Item(0, p)] && s.pcbs[p] == ZERO_PCB
    ensures PcbAlloc(s).1 == p && SetPcb(PcbAlloc(s).0, p, ZERO_PCB) == Taken(s)
  {
    assert s.pcbs[p := s.pcbs[p].(state := New)][p := ZERO_PCB] == s.pcbs;
    assert s.queues[FREE_PCBS][1..] == [];
  }

  lemma PcbGivenBack(s: KState, out: set<int>, p: nat)
    requires Sound(s, out) && p < N_PCBS && s.queues[FREE_PCBS] == [Item(0, p)] && s.pcbs[p] == ZERO_PCB
    ensures Shaped(Taken(s)) && PcbDealloc(Taken(s), p) == Ok(s)
  {
    HasRoom(s, out);
    TotalUpdate(s.queues, FREE_PCBS, []);
    var s2 := Taken(s);
    assert Enqueue(NoCompare, s2.queues[FREE_PCBS], Item(0, p)) == [Item(0, p)];
    assert s2.queues[FREE_PCBS := [Item(0, p)]] == s.queues;
    assert s2.pcbs[p := ZERO_PCB] == s2.pcbs;
    assert SetPcb(s2, p, ZERO_PCB) == s2;
    assert SoundParts(s.queues, s.pcbs, s.active, out);
    assert Insert(s2, FREE_PCBS, p, 0) == Ok(s.(active := s2.active));
  }

  lemma CreateFails(s: KState, out: set<int>, entry: Word, prio: Byte, link: Link)
    requires Sound(s, out) && s.queues[FREE_STACKS] == []
    ensures CreateProcess(s, entry, prio, link) == Ok((s, NULL))
  {
    var p := LastPcb(s, out);
    PcbTaken(s, p);
    PcbGivenBack(s, out, p);
  }

  // The two allocations and what they come to.
  lemma CreatesAs(s: KState, out: set<int>, entry: Word, prio: Byte, link: Link)
    requires Sound(s, out) && s.queues[FREE_STACKS] != []
    ensures s.queues[FREE_PCBS] != []
    ensures var p := s.queues[FREE_PCBS][0].data;
      CreateProcess(s, entry, prio, link) == Ok((Created(s, entry, prio, link), p)) && s.pcbs[p] == ZERO_PCB
  {
    assert SoundParts(s.queues, s.pcbs, s.active, out);
    assert |s.queues[FREE_PCBS]| > 1;
    var p := s.queues[FREE_PCBS][0].data;
    assert Houses(FREE_PCBS, s.queues[FREE_PCBS], s.pcbs, out);
    assert s.pcbs[p := s.pcbs[p].(state := New)][p := ZERO_PCB] == s.pcbs;
  }

  // What creation leaves is sound, with the new process in hand.
  lemma CreatedSound(s: KState, out: set<int>, entry: Word, prio: Byte, link: Link)
    requires Sound(s, out) && s.queues[FREE_STACKS] != [] && s.queues[FREE_PCBS] != []
    requires s.pcbs[s.queues[FREE_PCBS][0].data] == ZERO_PCB
    ensures var p := s.queues[FREE_PCBS][0].data;
      p !in out && Sound(Created(s, entry, prio, link), out + {p})
  {
    assert SoundParts(s.queues, s.pcbs, s.active, out);
    var p, t := s.queues[FREE_PCBS][0].data, s.queues[FREE_STACKS][0].data;
    assert Houses(FREE_PCBS, s.queues[FREE_PCBS], s.pcbs, out);
    RemovePlaced(s.queues, s.pcbs, out, FREE_PCBS);
    var queues := s.queues[FREE_PCBS := s.queues[FREE_PCBS][1..]];
    OtherPlaced(queues, s.pcbs, out + {p}, FREE_STACKS, queues[FREE_STACKS][1..]);
    queues := queues[FREE_STACKS := queues[FREE_STACKS][1..]];
    SetPlaced(queues, s.pcbs, out + {p}, p, NewPcb(t, s.nextPid, prio));
  }

  lemma CreateSucceeds(s: KState, out: set<int>, entry: Word, prio: Byte, link: Link)
    requires Sound(s, out) && s.queues[FREE_STACKS] != []
    ensures s.queues[FREE_PCBS] != []
    ensures var p := s.queues[FREE_PCBS][0].data;
      && CreateProcess(s, entry, prio, link) == Ok((Created(s, entry, prio, link), p))
      && p !in out && s.pcbs[p] == ZERO_PCB
      && Sound(Created(s, entry, prio, link), out + {p})
  {
    CreatesAs(s, out, entry, prio, link);
    CreatedSound(s, out, entry, prio, link);
  }

  // What the two deallocations of _sys_exit leave behind.
  function Released(s: KState, p: nat): (r: KState)
    requires Shaped(s) && p < N_PCBS && s.pcbs[p].stack != NULL
    ensures Shaped(r)
  {
    var t := s.pcbs[p].stack;
    s.(mem := WithStack(s.mem, t, Zeros(STACK_LWORDS)), pcbs := s.pcbs[p := ZERO_PCB],
       queues := s.queues[FREE_STACKS := s.queues[FREE_STACKS] + [Item(0, t)]]
                         [FREE_PCBS := s.queues[FREE_PCBS] + [Item(0, p)]],
       active := Wrap(s.active - 1))
  }

  lemma ReleasedPlaced(s: KState, out: set<int>, p: nat)
    requires Sound(s, out) && p in out && Live(s.pcbs[p]) && HasContext(s.pcbs[p])
    ensures Placed(Released(s, p).queues, Released(s, p).pcbs, out - {p})
  {
    assert SoundParts(s.queues, s.pcbs, s.active, out);
    var stacks, frees := s.queues[FREE_STACKS] + [Item(0, s.pcbs[p].stack)], s.queues[FREE_PCBS];
    var queues, pcbs := s.queues[FREE_STACKS := stacks], s.pcbs[p := ZERO_PCB];
    OtherPlaced(s.queues, s.pcbs, out, FREE_STACKS, stacks);
    SetPlaced(queues, s.pcbs, out, p, ZERO_PCB);
    InsertPlaced(queues, pcbs, out, p, 0, |frees|);
    assert Spliced(frees, |frees|, Item(0, p)) == frees + [Item(0, p)];
  }

  lemma StackGivenBack(s: KState, out: set<int>, t: nat)
    requires Sound(s, out) && t < N_STACKS && out != {}
    ensures StackDealloc(s, t) == Ok(s.(mem := WithStack(s.mem, t, Zeros(STACK_LWORDS)),
                                        queues := s.queues[FREE_STACKS := s.queues[FREE_STACKS] + [Item(0, t)]]))
  {
    HasRoom(s, out);
    assert SoundParts(s.queues, s.pcbs, s.active, out);
    EnqueueAppends(s.queues[FREE_STACKS], Item(0, t));
  }

  lemma ReleaseSteps(s: KState, out: set<int>, p: nat)
    requires Sound(s, out) && p in out && p < N_PCBS && Live(s.pcbs[p]) && HasContext(s.pcbs[p])
    ensures StackDealloc(s, s.pcbs[p].stack).Ok?
    ensures PcbDealloc(StackDealloc(s, s.pcbs[p].stack).value, p) == Ok(Released(s, p))
  {
    HasRoom(s, out);
    StackGivenBack(s, out, s.pcbs[p].stack);
    TotalUpdate(s.queues, FREE_STACKS, s.queues[FREE_STACKS] + [Item(0, s.pcbs[p].stack)]);
    EnqueueAppends(s.queues[FREE_PCBS], Item(0, p));
  }

  lemma ReleasedSound(s: KState, out: set<int>, p: nat)
    requires Sound(s, out) && p in out && p < N_PCBS && Live(s.pcbs[p]) && HasContext(s.pcbs[p])
    ensures Sound(Released(s, p), out - {p})
  {
    assert SoundParts(s.queues, s.pcbs, s.active, out);
    ReleasedPlaced(s, out, p);
  }

  lemma ReleaseSound(s: KState, out: set<int>, p: nat)
    requires Sound(s, out) && p in out && Live(s.pcbs[p]) && HasContext(s.pcbs[p])
    ensures Sound(Released(s, p), out - {p})
    ensures StackDealloc(s, s.pcbs[p].stack).Ok?
    ensures PcbDealloc(StackDealloc(s, s.pcbs[p].stack).value, p) == Ok(Released(s, p))
  {
    assert SoundParts(s.queues, s.pcbs, s.active, out);
    ReleasedSound(s, out, p);
    ReleaseSteps(s, out, p);
  }

  lemma ExitKeepsInv(s: KState)
    requires Inv(s) && InCpu(s) && s.current != IDLE
    ensures SysExit(s, s.current).Ok? && Inv(SysExit(s, s.current).value)
    ensures SysExit(s, s.current) == Dispatch(Released(s, s.current))
  {
    assert SoundParts(s.queues, s.pcbs, s.active, {s.current});
    ReleaseSound(s, {s.current}, s.current);
    assert {s.current} - {s.current} == {};
    DispatchKeepsInv(Released(s, s.current));
  }

  // A spawn that found no stack only returns -1 to the caller; otherwise the child joins its
  // ready level and its PID is returned.
  function Spawned(s: KState, entry: Word, prio: Byte, link: Link): KState
    requires Shaped(s) && s.current != NULL && HasContext(s.pcbs[s.current])
    requires s.queues[FREE_PCBS] != [] && s.queues[FREE_STACKS] != []
    requires s.queues[FREE_PCBS][0].data != s.current
  {
    var child := s.queues[FREE_PCBS][0].data;
    var s1 := Created(s, entry, prio, link);
    var s2 := SetPcb(s1, child, s1.pcbs[child].(ppid := s.pcbs[s.current].pid));
    Scheduled(SetRet(s2, s.current, Wrap(ToInt16(s.nextPid))), child)
  }

  lemma SpawnFails(s: KState, link: Link)
    requires Inv(s) && InCpu(s) && s.pcbs[s.current].context + CONTEXT_WORDS + 2 < MEM_WORDS
    requires s.queues[FREE_STACKS] == []
    ensures SysSpawnp(s, s.current, link) == Ok(SetRet(s, s.current, 0xFFFF_FFFF))
  {
    CreateFails(s, {s.current}, Arg(s, s.current, 1), Arg(s, s.current, 2) % 0x100, link);
    SysSpawnpSteps(s, s.current, link);
  }

  // The child of a spawn that found a stack.
  lemma ChildJoins(s: KState, entry: Word, prio: Byte, link: Link)
    requires Inv(s) && InCpu(s) && s.queues[FREE_STACKS] != []
    ensures s.queues[FREE_PCBS] != [] && s.queues[FREE_PCBS][0].data != s.current
    ensures var child := s.queues[FREE_PCBS][0].data;
      && 0 <= child < N_PCBS && Inv(Spawned(s, entry, prio, link))
      && CreateProcess(s, entry, prio, link) == Ok((Created(s, entry, prio, link), child))
      && var s1 := Created(s, entry, prio, link);
         var s2 := SetPcb(s1, child, s1.pcbs[child].(ppid := s1.pcbs[s.current].pid));
         HasContext(s2.pcbs[s.current])
         && Schedule(SetRet(s2, s.current, Wrap(s2.pcbs[child].pid)), child) == Ok(Spawned(s, entry, prio, link))
  {
    assert SoundParts(s.queues, s.pcbs, s.active, {s.current});
    CreateSucceeds(s, {s.current}, entry, prio, link);
    var child := s.queues[FREE_PCBS][0].data;
    var s1 := Created(s, entry, prio, link);
    var out := {s.current} + {child};
    var s2 := SetPcb(s1, child, s1.pcbs[child].(ppid := s.pcbs[s.current].pid));
    SetSound(s1, out, child, s2.pcbs[child]);
    var s3 := SetRet(s2, s.current, Wrap(ToInt16(s.nextPid)));
    assert Sound(s3, out);
    ScheduleSound(s3, out, child);
    assert out - {child} == {s.current};
  }

  lemma SpawnSucceeds(s: KState, link: Link)
    requires Inv(s) && InCpu(s) && s.pcbs[s.current].context + CONTEXT_WORDS + 2 < MEM_WORDS
    requires s.queues[FREE_STACKS] != []
    ensures s.queues[FREE_PCBS] != [] && s.queues[FREE_PCBS][0].data != s.current
    ensures var r := Spawned(s, Arg(s, s.current, 1), Arg(s, s.current, 2) % 0x100, link);
      SysSpawnp(s, s.current, link) == Ok(r) && Inv(r)
  {
    ChildJoins(s, Arg(s, s.current, 1), Arg(s, s.current, 2) % 0x100, link);
    SysSpawnpSteps(s, s.current, link);
  }

  // What the current process going to sleep leaves behind.
  function Parked(s: KState, sleeptime: Word): (r: KState)
    requires Shaped(s) && s.current != NULL && sleeptime != 0
    ensures Shaped(r)
  {
    var pcb := s.pcbs[s.current].(wakeup := Wrap(s.time + sleeptime), state := Sleeping);
    s.(pcbs := s.pcbs[s.current := pcb],
       queues := s.queues[SLEEPING := Enqueue(ByTime, s.queues[SLEEPING], Item(pcb.wakeup, s.current))])
  }

  lemma ParkSound(s: KState, sleeptime: Word)
    requires Inv(s) && sleeptime != 0
    ensures Park(s, s.current, sleeptime) == Ok(Parked(s, sleeptime)) && Sound(Parked(s, sleeptime), {})
  {
    assert SoundParts(s.queues, s.pcbs, s.active, {s.current});
    var p := s.current;
    assert {p} - {p} == {};
    var pcb := s.pcbs[p].(wakeup := Wrap(s.time + sleeptime), state := Sleeping);
    var s1 := SetPcb(s, p, pcb);
    SetSound(s, {p}, p, pcb);
    InsertSound(s1, {p}, p, SLEEPING, pcb.wakeup);
    var r := s1.(queues := s1.queues[SLEEPING := Enqueue(ByTime, s1.queues[SLEEPING], Item(pcb.wakeup, p))]);
    assert r == Parked(s, sleeptime) && Sound(r, {});
  }

  // A yield puts the current process at the end of its level.
  lemma YieldSound(s: KState)
    requires Inv(s)
    ensures Park(s, s.current, 0) == Ok(Scheduled(s, s.current)) && Sound(Scheduled(s, s.current), {})
    ensures IdleOk(Scheduled(s, s.current).pcbs[IDLE])
  {
    assert SoundParts(s.queues, s.pcbs, s.active, {s.current});
    assert {s.current} - {s.current} == {};
    ScheduleSound(s, {s.current}, s.current);
  }

  lemma SleepKeepsInv(s: KState)
    requires Inv(s) && InCpu(s) && s.current != IDLE
    requires s.pcbs[s.current].context + CONTEXT_WORDS + 1 < MEM_WORDS
    ensures SysSleep(s, s.current).Ok? && Inv(SysSleep(s, s.current).value)
    ensures var n := Arg(s, s.current, 1);
      SysSleep(s, s.current) == Dispatch(if n == 0 then Scheduled(s, s.current) else Parked(s, n))
  {
    var n := Arg(s, s.current, 1);
    SysSleepSteps(s, s.current);
    if n == 0 {
      YieldSound(s);
      DispatchKeepsInv(Scheduled(s, s.current));
    } else {
      ParkSound(s, n);
      DispatchKeepsInv(Parked(s, n));
    }
  }

  lemma SavedKeepsInv(s: KState, e: Event)
    requires Inv(s) && InCpu(s) && UserOk(s, e)
    ensures Inv(Saved(s, e)) && InCpu(Saved(s, e))
  {
    assert SoundParts(s.queues, s.pcbs, s.active, {s.current});
    SetSound(s, {s.current}, s.current, s.pcbs[s.current].(context := e.context));
  }

  // The current process is what the machine expects it to be.
  lemma InvInCpu(s: KState)
    requires Inv(s)
    ensures InCpu(s)
  {
    assert SoundParts(s.queues, s.pcbs, s.active, {s.current});
    assert Houses(FREE_PCBS, s.queues[FREE_PCBS], s.pcbs, {s.current});
  }

  // No entry into the kernel panics, and every one keeps the invariant.
  lemma StepKeepsInv(s: KState, e: Event, link: Link)
    requires Inv(s) && InCpu(s) && UserOk(s, e)
    ensures Step(s, e, link).Ok? && Inv(Step(s, e, link).value)
  {
    SavedKeepsInv(s, e);
    var s1 := Saved(s, e);
    if e.Tick? {
      ClockKeepsInv(s1);
    } else {
      var which := SyscallCode(s1);
      if which == SYS_EXIT {
        ExitKeepsInv(s1);
      } else if which == SYS_SPAWNP {
        if s1.queues[FREE_STACKS] == [] { SpawnFails(s1, link); } else { SpawnSucceeds(s1, link); }
      } else if which == SYS_SLEEP {
        SleepKeepsInv(s1);
      }
    }
  }

  // The first states.

  lemma BootedSound()
    ensures Sound(Booted(), {})
  {
    var s := Booted();
    forall p | 0 <= p < N_PCBS
      ensures Has(s.queues[FREE_PCBS], p)
    { assert s.queues[FREE_PCBS][p].data == p; }
    forall q | 0 <= q < N_QUEUES && IsPcbQueue(q)
      ensures Houses(q, s.queues[q], s.pcbs, {}) && Distinct(s.queues[q])
    {}
  }

  // What _init's creation of one process does.
  function Started(s: KState, entry: Word, prio: Byte, link: Link): (r: KState)
    requires Shaped(s) && s.queues[FREE_PCBS] != [] && s.queues[FREE_STACKS] != []
    ensures Shaped(r)
  {
    Scheduled(Created(s, entry, prio, link), s.queues[FREE_PCBS][0].data)
  }

  lemma StartSound(s: KState, out: set<int>, entry: Word, prio: Byte, link: Link)
    requires Sound(s, out) && s.queues[FREE_STACKS] != []
    ensures s.queues[FREE_PCBS] != []
    ensures Start(s, entry, prio, link) == Ok(Started(s, entry, prio, link))
    ensures Sound(Started(s, entry, prio, link), out)
  {
    CreateSucceeds(s, out, entry, prio, link);
    var p := s.queues[FREE_PCBS][0].data;
    ScheduleSound(Created(s, entry, prio, link), out + {p}, p);
    assert out + {p} - {p} == out;
  }

  // The n-th process is PCB n, and joins the ready level of its priority.
  ghost predicate Stage(s: KState, n: nat) {
    && Shaped(s) && n < N_STACKS
    && s.queues[FREE_PCBS] == Booted().queues[FREE_PCBS][n..]
    && s.queues[FREE_STACKS] == Booted().queues[FREE_STACKS][n..]
    && s.active == n && s.nextPid == PID_INIT + n && s.time == 0
  }

  lemma StageNext(s: KState, n: nat, entry: Word, prio: Byte, link: Link)
    requires Stage(s, n) && n + 1 < N_STACKS && prio < N_PRIOS
    ensures s.queues[FREE_PCBS] != [] && s.queues[FREE_STACKS] != []
    ensures var r := Started(s, entry, prio, link);
      && Stage(r, n + 1) && r.current == s.current
      && r.queues == s.queues[FREE_PCBS := r.queues[FREE_PCBS]][FREE_STACKS := r.queues[FREE_STACKS]]
                             [READY + prio := s.queues[READY + prio] + [Item(0, n)]]
      && r.pcbs == s.pcbs[n := NewPcb(n, PID_INIT + n, prio)]
  {
    assert s.queues[FREE_PCBS][0] == Item(0, n) && s.queues[FREE_STACKS][0] == Item(0, n);
  }

  // The processes that exist when the first one is dispatched.
  function ThreeStarted(programs: Programs, link: Link): (r: KState)
    ensures Shaped(r)
  {
    var s1 := Started(Booted(), programs.init, PRIO_SYSTEM, link);
    StageNext(Booted(), 0, programs.init, PRIO_SYSTEM, link);
    var s2 := Started(s1, programs.idle, PRIO_USER_LOW, link);
    StageNext(s1, 1, programs.idle, PRIO_USER_LOW, link);
    Started(s2, programs.hello, PRIO_USER_HIGH, link)
  }

  lemma ThreeStartedRuns(programs: Programs, link: Link)
    ensures Init(programs, link) ==
      var s4 := Dispatch(ThreeStarted(programs, link));
      if s4.Panic? then Panic else Start(s4.value, programs.shell, PRIO_USER_STD, link)
    ensures Sound(ThreeStarted(programs, link), {})
  {
    BootedSound();
    StartSound(Booted(), {}, programs.init, PRIO_SYSTEM, link);
    var s1 := Started(Booted(), programs.init, PRIO_SYSTEM, link);
    StageNext(Booted(), 0, programs.init, PRIO_SYSTEM, link);
    StartSound(s1, {}, programs.idle, PRIO_USER_LOW, link);
    var s2 := Started(s1, programs.idle, PRIO_USER_LOW, link);
    StageNext(s1, 1, programs.idle, PRIO_USER_LOW, link);
    StartSound(s2, {}, programs.hello, PRIO_USER_HIGH, link);
  }

  ghost predicate InitReady(s: KState, system: seq<Item>, std: seq<Item>) {
    && Shaped(s) && s.queues[READY] == system && s.queues[READY + 1] == [Item(0, 2)]
    && s.queues[READY + 2] == std && s.queues[READY + 3] == [Item(0, IDLE)] && s.queues[SLEEPING] == []
    && s.pcbs[IDLE] == NewPcb(IDLE, PID_INIT + 1, PRIO_USER_LOW)
  }

  lemma FirstDispatch(s: KState)
    requires Sound(s, {}) && Stage(s, 3) && InitReady(s, [Item(0, 0)], [])
    ensures FirstReady(s.queues, 0) == 0
    ensures var r := Dispatched(s);
      && Dispatch(s) == Ok(r) && Sound(r, {0}) && Stage(r, 3) && InitReady(r, [], [])
      && r.current == 0 && CurrentOk(r.pcbs[0])
  {
    assert FirstReady(s.queues, 0) == 0;
    DispatchSound(s);
  }

  lemma LastStart(s: KState, programs: Programs, link: Link)
    requires Sound(s, {0}) && Stage(s, 3) && InitReady(s, [], []) && s.current == 0 && CurrentOk(s.pcbs[0])
    ensures var r := Started(s, programs.shell, PRIO_USER_STD, link);
      && Start(s, programs.shell, PRIO_USER_STD, link) == Ok(r) && Inv(r) && Stage(r, 4)
      && InitReady(r, [], [Item(0, 3)]) && r.current == 0
  {
    StageNext(s, 3, programs.shell, PRIO_USER_STD, link);
    StartSound(s, {0}, programs.shell, PRIO_USER_STD, link);
  }

  lemma TwoStartedQueues(programs: Programs, link: Link) returns (s: KState)
    ensures Stage(s, 2) && s.queues[READY] == [Item(0, 0)] && s.queues[READY + 3] == [Item(0, IDLE)]
    ensures s.queues[READY + 1] == s.queues[READY + 2] == s.queues[SLEEPING] == []
    ensures s.pcbs[IDLE] == NewPcb(IDLE, PID_INIT + 1, PRIO_USER_LOW)
    ensures ThreeStarted(programs, link) == Started(s, programs.hello, PRIO_USER_HIGH, link)
  {
    var s1 := Started(Booted(), programs.init, PRIO_SYSTEM, link);
    StageNext(Booted(), 0, programs.init, PRIO_SYSTEM, link);
    s := Started(s1, programs.idle, PRIO_USER_LOW, link);
    StageNext(s1, 1, programs.idle, PRIO_USER_LOW, link);
  }

  lemma ThirdStarted(s: KState, entry: Word, link: Link)
    requires Stage(s, 2) && s.queues[READY] == [Item(0, 0)] && s.queues[READY + 3] == [Item(0, IDLE)]
    requires s.queues[READY + 1] == s.queues[READY + 2] == s.queues[SLEEPING] == []
    requires s.pcbs[IDLE] == NewPcb(IDLE, PID_INIT + 1, PRIO_USER_LOW)
    ensures s.queues[FREE_PCBS] != [] && s.queues[FREE_STACKS] != []
    ensures var r := Started(s, entry, PRIO_USER_HIGH, link); Stage(r, 3) && InitReady(r, [Item(0, 0)], [])
  {
    StageNext(s, 2, entry, PRIO_USER_HIGH, link);
  }

  lemma ThreeStartedQueues(programs: Programs, link: Link)
    ensures Stage(ThreeStarted(programs, link), 3)
    ensures InitReady(ThreeStarted(programs, link), [Item(0, 0)], [])
  {
    var s := TwoStartedQueues(programs, link);
    ThirdStarted(s, programs.hello, link);
  }

  // Initialisation does not panic; it leaves init running, hello, shell and idle ready at
  // the levels 1, 2 and 3, and nobody asleep.
  lemma InitKeepsInv(programs: Programs, link: Link)
    ensures Init(programs, link).Ok?
    ensures var s := Init(programs, link).value;
      && Inv(s) && s.current == 0 && s.time == 0 && s.active == 4 && s.nextPid == PID_INIT + 4
      && InitReady(s, [], [Item(0, 3)])
  {
    ThreeStartedRuns(programs, link);
    ThreeStartedQueues(programs, link);
    FirstDispatch(ThreeStarted(programs, link));
    LastStart(Dispatched(ThreeStarted(programs, link)), programs, link);
  }
}
