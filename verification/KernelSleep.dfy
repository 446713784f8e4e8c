/** Sleeping processes: exact wake-up times and the order of waking. */
module KernelSleep {
  import opened Common
  import opened QueueSpec
  import opened KernelSpec
  import opened KernelInvariant
  import opened KernelTick
  import opened KernelRuns

  // What a step does to the clock and the queue of sleepers.
  datatype Move = Advance | Join(n: Word) | Stay

  ghost predicate Moved(items: seq<Item>, time: Word, current: int, m: Move, items': seq<Item>, time': Word) {
    match m
    case Advance => time' == Wrap(time + 1) && items' == items[Due(items, time')..]
    case Join(n) => time' == time && items' == Enqueue(ByTime, items, Item(Wrap(time + n), current))
    case Stay => time' == time && items' == items
  }

  // The end of a sleep is in reach of the sleepers, by name.
  ghost predicate Reaches(items: seq<Item>, key: Word) {
    forall k: Word {:trigger InReach(items, k)} | k == key :: InReach(items, k)
  }

  // The clock does not wrap, and no sleep ends past its range or out of reach of the sleepers.
  ghost predicate InRange(items: seq<Item>, time: Word, m: Move) {
    match m
    case Advance => time + 1 < 0x1_0000_0000
    case Join(n) => 0 < n && time + n < 0x1_0000_0000 && Reaches(items, time + n)
    case Stay => true
  }

  // A non-zero sleep of the current process joins the sleepers.
  ghost function MoveOf(s: KState, e: Event): Move
    requires InCpu(s) && UserOk(s, e)
  {
    if e.Tick? then Advance
    else if SyscallCode(Saved(s, e)) == SYS_SLEEP && Arg(Saved(s, e), s.current, 1) != 0
    then Join(Arg(Saved(s, e), s.current, 1))
    else Stay
  }

  predicate Awake(pcb: Pcb) { pcb.state == Ready || pcb.state == Running }

  // Processes that left the sleepers are awake.
  ghost predicate Released(items: seq<Item>, n: nat, pcbs: seq<Pcb>) {
    n <= |items| && forall i | 0 <= i < n :: 0 <= items[i].data < |pcbs| && Awake(pcbs[items[i].data])
  }

  lemma DispatchKeepsSleepers(s: KState)
    requires Sound(s, {}) && IdleOk(s.pcbs[IDLE])
    ensures var r := Dispatch(s);
      && r.Ok? && r.value.queues[SLEEPING] == s.queues[SLEEPING] && r.value.time == s.time
      && forall p | 0 <= p < N_PCBS && Awake(s.pcbs[p]) :: Awake(r.value.pcbs[p])
  {
    IdleCanRun(s);
    DispatchSound(s);
  }

  lemma WokenReleases(s: KState, s0: KState, s1: KState)
    requires Inv(s) && s0 == s.(time := Wrap(s.time + 1)) && Woken(s0, s1)
    ensures Released(s.queues[SLEEPING], Due(s.queues[SLEEPING], s0.time), s1.pcbs)
    ensures s1.queues[SLEEPING] == s.queues[SLEEPING][Due(s.queues[SLEEPING], s0.time)..] && s1.time == s0.time
    ensures forall i | 0 <= i < |s.queues[SLEEPING]| :: s.queues[SLEEPING][i].data != s.current
  {
    assert SoundParts(s.queues, s.pcbs, s.active, {s.current});
    var items := s.queues[SLEEPING];
    assert Houses(SLEEPING, items, s.pcbs, {s.current});
    var due := items[..Due(items, s0.time)];
    forall i | 0 <= i < |due|
      ensures Awake(s1.pcbs[items[i].data])
    {
      assert due[i].data == items[i].data;
      assert Has(due, items[i].data);
    }
  }

  lemma ClockMoves(s: KState)
    requires Inv(s)
    ensures var r := ClockIsr(s);
      && r.Ok? && Moved(s.queues[SLEEPING], s.time, s.current, Advance, r.value.queues[SLEEPING], r.value.time)
      && Released(s.queues[SLEEPING], Due(s.queues[SLEEPING], r.value.time), r.value.pcbs)
  {
    var s1, pre, dispatched := ClockForm(s);
    WokenReleases(s, s.(time := Wrap(s.time + 1)), s1);
    if dispatched { DispatchKeepsSleepers(pre); }
  }

  lemma ExitMoves(s: KState)
    requires Inv(s) && InCpu(s) && s.current != IDLE
    ensures var r := SysExit(s, s.current);
      r.Ok? && r.value.queues[SLEEPING] == s.queues[SLEEPING] && r.value.time == s.time
  {
    ExitForm(s);
    DispatchKeepsSleepers(KernelInvariant.Released(s, s.current));
  }

  lemma SleepMoves(s: KState)
    requires Inv(s) && InCpu(s) && s.current != IDLE
    requires s.pcbs[s.current].context + CONTEXT_WORDS + 1 < MEM_WORDS
    ensures var r, n := SysSleep(s, s.current), Arg(s, s.current, 1);
      r.Ok? && Moved(s.queues[SLEEPING], s.time, s.current, if n == 0 then Stay else Join(n),
                     r.value.queues[SLEEPING], r.value.time)
  {
    var pre := SleepForm(s);
    DispatchKeepsSleepers(pre);
  }

  lemma CallMoves(s: KState, result: Word, link: Link)
    requires Inv(s) && InCpu(s) && HasArgs(s) && s.current != IDLE
    ensures var r := SysIsr(s, result, link);
      var m := if SyscallCode(s) == SYS_SLEEP && Arg(s, s.current, 1) != 0 then Join(Arg(s, s.current, 1)) else Stay;
      r.Ok? && Moved(s.queues[SLEEPING], s.time, s.current, m, r.value.queues[SLEEPING], r.value.time)
  {
    var which := SyscallCode(s);
    if which == SYS_EXIT {
      ExitMoves(s);
    } else if which == SYS_SPAWNP {
      SpawnMoves(s, link);
    } else if which == SYS_SLEEP {
      SleepMoves(s);
    }
  }

  lemma SpawnMoves(s: KState, link: Link)
    requires Inv(s) && InCpu(s) && s.pcbs[s.current].context + CONTEXT_WORDS + 2 < MEM_WORDS
    ensures var r := SysSpawnp(s, s.current, link);
      r.Ok? && r.value.queues[SLEEPING] == s.queues[SLEEPING] && r.value.time == s.time
  {
    if s.queues[FREE_STACKS] == [] { SpawnFails(s, link); } else { SpawnSucceeds(s, link); }
  }

  lemma NextMoves(s: KState, e: Event, s': KState, link: Link)
    requires Inv(s) && Next(s, e, s', link)
    ensures InCpu(s) && UserOk(s, e) && Inv(s')
    ensures Moved(s.queues[SLEEPING], s.time, s.current, MoveOf(s, e), s'.queues[SLEEPING], s'.time)
    ensures e.Tick? ==> Released(s.queues[SLEEPING], Due(s.queues[SLEEPING], s'.time), s'.pcbs)
  {
    assert Leads(s, e, s', link);
    NextKeepsInv(s, e, s', link);
    SavedKeepsInv(s, e);
    StepIs(s, e, link);
    if e.Tick? { ClockMoves(Saved(s, e)); } else { CallMoves(Saved(s, e), e.result, link); }
  }

  // Exact wake-up.

  // Every sleeper's time is still to come, and the sleepers are sorted by it.
  ghost predicate OnTime(items: seq<Item>, time: Word) {
    Sorted(items) && forall i | 0 <= i < |items| :: time < items[i].key
  }

  lemma MoveKeepsOnTime(items: seq<Item>, time: Word, current: int, m: Move, items': seq<Item>, time': Word)
    requires Moved(items, time, current, m, items', time') && OnTime(items, time) && InRange(items, time, m)
    ensures OnTime(items', time')
  {
    match m
    case Advance => AdvanceKeepsOnTime(items, time, Due(items, time'));
    case Join(n) => LaterKeepsOnTime(items, time, current, n);
    case Stay =>
  }

  lemma InRangeIs(items: seq<Item>, time: Word, n: Word)
    requires InRange(items, time, Join(n))
    ensures time + n < 0x1_0000_0000 && Wrap(time + n) == time + n && InReach(items, time + n)
  {
    var key: Word := time + n;
    assert InReach(items, key);
  }

  lemma LaterKeepsOnTime(items: seq<Item>, time: Word, current: int, n: Word)
    requires OnTime(items, time) && InRange(items, time, Join(n))
    ensures OnTime(Enqueue(ByTime, items, Item(Wrap(time + n), current)), time)
  {
    InRangeIs(items, time, n);
    JoinKeepsOnTime(items, time, Item(time + n, current));
  }

  lemma AdvanceKeepsOnTime(items: seq<Item>, time: Word, n: nat)
    requires OnTime(items, time) && time + 1 < 0x1_0000_0000 && n <= |items|
    requires n < |items| ==> items[n].key > time + 1
    ensures OnTime(items[n..], time + 1)
  {
    var rest := items[n..];
    forall i | 0 <= i < |rest|
      ensures rest[i] == items[n + i] && time + 1 < rest[i].key
    {
      assert items[n].key <= items[n + i].key;
    }
  }

  lemma JoinKeepsOnTime(items: seq<Item>, time: Word, x: Item)
    requires OnTime(items, time) && time < x.key && InReach(items, x.key)
    ensures OnTime(Enqueue(ByTime, items, x), time)
  {
    EnqueueSortedExactly(items, x);
  }

  lemma EnqueueOnTimeExactly(items: seq<Item>, time: Word, x: Item)
    requires OnTime(items, time) && time < x.key
    ensures OnTime(Enqueue(ByTime, items, x), time) <==> InReach(items, x.key)
  {
    EnqueueSortedExactly(items, x);
    if InReach(items, x.key) {
      JoinKeepsOnTime(items, time, x);
    }
  }

  // A sleep that ends before the clock wraps keeps the sleepers on time if and only if its end
  // is in reach.
  lemma JoinOnTimeExactly(items: seq<Item>, time: Word, current: int, n: Word, items': seq<Item>)
    requires Moved(items, time, current, Join(n), items', time) && OnTime(items, time)
    requires 0 < n && time + n < 0x1_0000_0000
    ensures OnTime(items', time) <==> InReach(items, time + n)
  {
    assert Wrap(time + n) == time + n;
    EnqueueOnTimeExactly(items, time, Item(time + n, current));
  }

  // A sleeper stays asleep through every move that ends before its time, and leaves with
  // the tick that reaches it.
  lemma MoveOfSleeper(items: seq<Item>, time: Word, current: int, m: Move, items': seq<Item>, time': Word, x: Item)
    requires Moved(items, time, current, m, items', time') && OnTime(items, time) && InRange(items, time, m)
    requires x in items
    ensures time' < x.key ==> x in items'
    ensures time' >= x.key ==> m == Advance && time' == x.key && x in items[..Due(items, time')]
  {
    var i :| 0 <= i < |items| && items[i] == x;
    match m
    case Advance =>
      var n := Due(items, time');
      if i >= n { assert items'[i - n] == x; } else { assert items[..n][i] == x; }
    case Join(n) =>
      EnqueueHas(ByTime, items, Item(Wrap(time + n), current));
    case Stay =>
  }

  ghost predicate RunInRange(ss: seq<KState>, es: seq<Event>, link: Link) {
    && Run(ss, es, link)
    && forall k | 0 <= k < |es| ::
         && InCpu(ss[k]) && UserOk(ss[k], es[k])
         && InRange(ss[k].queues[SLEEPING], ss[k].time, MoveOf(ss[k], es[k]))
  }

  // Short sleeps: a caller need not look at the sleepers when all sleeps are below half the
  // range of the clock.

  predicate Short(time: Word, m: Move) {
    match m
    case Advance => time + 1 < 0x1_0000_0000
    case Join(n) => 0 < n < 0x8000_0000 && time + n < 0x1_0000_0000
    case Stay => true
  }

  ghost predicate Near(items: seq<Item>, time: Word) {
    OnTime(items, time) && forall i | 0 <= i < |items| :: items[i].key < time + 0x8000_0000
  }

  lemma NearIsInReach(items: seq<Item>, time: Word, key: Word)
    requires Near(items, time) && time < key < time + 0x8000_0000
    ensures InReach(items, key)
  {
    var r := Rank(items, key);
    assert 0 < r ==> time < items[0].key;
    assert r < |items| ==> items[r].key < time + 0x8000_0000;
  }

  lemma ShortIsInRange(items: seq<Item>, time: Word, m: Move)
    requires Near(items, time) && Short(time, m)
    ensures InRange(items, time, m)
  {
    if m.Join? {
      NearIsInReach(items, time, time + m.n);
    }
  }

  lemma JoinKeepsNear(items: seq<Item>, time: Word, z: Item)
    requires Near(items, time) && OnTime(Enqueue(ByTime, items, z), time) && z.key < time + 0x8000_0000
    ensures Near(Enqueue(ByTime, items, z), time)
  {}

  lemma ShortKeepsNear(items: seq<Item>, time: Word, current: int, m: Move, items': seq<Item>, time': Word)
    requires Moved(items, time, current, m, items', time') && Near(items, time) && Short(time, m)
    ensures Near(items', time')
  {
    ShortIsInRange(items, time, m);
    MoveKeepsOnTime(items, time, current, m, items', time');
    if m.Join? {
      JoinKeepsNear(items, time, Item(Wrap(time + m.n), current));
    }
  }

  ghost predicate ShortRun(ss: seq<KState>, es: seq<Event>, link: Link) {
    && Run(ss, es, link)
    && forall k | 0 <= k < |es| :: InCpu(ss[k]) && UserOk(ss[k], es[k]) && Short(ss[k].time, MoveOf(ss[k], es[k]))
  }

  lemma {:induction false} ShortRunNear(ss: seq<KState>, es: seq<Event>, link: Link, k: nat)
    requires ShortRun(ss, es, link) && Inv(ss[0]) && Near(ss[0].queues[SLEEPING], ss[0].time) && k < |ss|
    ensures Inv(ss[k]) && Near(ss[k].queues[SLEEPING], ss[k].time)
  {
    if k > 0 {
      var s, s' := ss[k - 1], ss[k];
      ShortRunNear(ss, es, link, k - 1);
      NextMoves(s, es[k - 1], s', link);
      ShortKeepsNear(s.queues[SLEEPING], s.time, s.current, MoveOf(s, es[k - 1]), s'.queues[SLEEPING], s'.time);
    }
  }

  // A run with short sleeps, on which the clock does not wrap, is in range.
  lemma ShortRunInRange(ss: seq<KState>, es: seq<Event>, link: Link)
    requires ShortRun(ss, es, link) && Inv(ss[0]) && Near(ss[0].queues[SLEEPING], ss[0].time)
    ensures RunInRange(ss, es, link)
  {
    forall k | 0 <= k < |es|
      ensures InRange(ss[k].queues[SLEEPING], ss[k].time, MoveOf(ss[k], es[k]))
    {
      ShortRunNear(ss, es, link, k);
      ShortIsInRange(ss[k].queues[SLEEPING], ss[k].time, MoveOf(ss[k], es[k]));
    }
  }

  // Sleepers are in the state that their queue says.
  lemma SleeperState(s: KState, x: Item)
    requires Inv(s) && x in s.queues[SLEEPING]
    ensures 0 <= x.data < N_PCBS && s.pcbs[x.data].state == Sleeping && s.pcbs[x.data].wakeup == x.key
  {
    assert SoundParts(s.queues, s.pcbs, s.active, {s.current});
    assert Houses(SLEEPING, s.queues[SLEEPING], s.pcbs, {s.current});
  }

  // No sleeper is ever overdue: on a run within the range, in every state the sleepers are
  // sorted and their times are still to come.
  lemma {:induction false} NobodyOverdue(ss: seq<KState>, es: seq<Event>, link: Link, k: nat)
    requires RunInRange(ss, es, link) && Inv(ss[0]) && OnTime(ss[0].queues[SLEEPING], ss[0].time) && k < |ss|
    ensures Inv(ss[k]) && OnTime(ss[k].queues[SLEEPING], ss[k].time)
  {
    if k > 0 {
      var s, s' := ss[k - 1], ss[k];
      NobodyOverdue(ss, es, link, k - 1);
      NextMoves(s, es[k - 1], s', link);
      MoveKeepsOnTime(s.queues[SLEEPING], s.time, s.current, MoveOf(s, es[k - 1]), s'.queues[SLEEPING], s'.time);
    }
  }

  // On every run within the range of the clock: a process that sleeps until x.key sleeps in
  // every state before that time, and the step that first reaches it is the tick of exactly
  // that time, after which the process is ready or already running.
  lemma {:induction false} ExactWakeup(ss: seq<KState>, es: seq<Event>, link: Link, x: Item, k: nat)
    requires RunInRange(ss, es, link) && Inv(ss[0]) && OnTime(ss[0].queues[SLEEPING], ss[0].time) && k < |ss|
    requires x in ss[0].queues[SLEEPING] && forall j | 0 <= j < k :: ss[j].time < x.key
    ensures Inv(ss[k]) && 0 <= x.data < N_PCBS
    ensures ss[k].time < x.key ==> x in ss[k].queues[SLEEPING] && ss[k].pcbs[x.data].state == Sleeping
    ensures ss[k].time >= x.key ==>
      0 < k && ss[k].time == x.key && es[k - 1].Tick? && Awake(ss[k].pcbs[x.data])
  {
    NobodyOverdue(ss, es, link, k);
    SleeperState(ss[0], x);
    if k > 0 {
      var s, s' := ss[k - 1], ss[k];
      ExactWakeup(ss, es, link, x, k - 1);
      NobodyOverdue(ss, es, link, k - 1);
      NextMoves(s, es[k - 1], s', link);
      MoveOfSleeper(s.queues[SLEEPING], s.time, s.current, MoveOf(s, es[k - 1]), s'.queues[SLEEPING], s'.time, x);
    }
    if x in ss[k].queues[SLEEPING] { SleeperState(ss[k], x); }
  }

  // A process that calls sleep(n) joins the sleepers until exactly n ticks later.
  lemma SleepSetsWakeup(s: KState, e: Event, s': KState, link: Link)
    requires Inv(s) && Next(s, e, s', link) && InCpu(s) && UserOk(s, e)
    requires MoveOf(s, e).Join? && s.time + MoveOf(s, e).n < 0x1_0000_0000
    ensures Inv(s') && s'.time == s.time
    ensures Item(s.time + MoveOf(s, e).n, s.current) in s'.queues[SLEEPING]
  {
    NextMoves(s, e, s', link);
    JoinAdds(s.queues[SLEEPING], s.time, s.current, MoveOf(s, e).n, s'.queues[SLEEPING]);
  }

  lemma JoinAdds(items: seq<Item>, time: Word, current: int, n: Word, items': seq<Item>)
    requires Moved(items, time, current, Join(n), items', time) && time + n < 0x1_0000_0000
    ensures Item(time + n, current) in items'
  {
    assert Wrap(time + n) == time + n;
    EnqueueHas(ByTime, items, Item(time + n, current));
  }

  // The order of waking.

  ghost predicate Ahead(items: seq<Item>, a: int, b: int) {
    exists i, j :: 0 <= i < j < |items| && items[i].data == a && items[j].data == b
  }

  lemma TailKeepsOrder(items: seq<Item>, n: nat, x: Item, b: int)
    requires n <= |items| && Distinct(items) && Ahead(items, x.data, b) && x in items[n..]
    ensures Ahead(items[n..], x.data, b)
  {
    var i, j :| 0 <= i < j < |items| && items[i].data == x.data && items[j].data == b;
    var i' :| 0 <= i' < |items| - n && items[n..][i'] == x;
    assert items[n + i'] == x;
    assert items[n..][i - n] == items[i] && items[n..][j - n] == items[j];
  }

  lemma SpliceKeepsOrder(items: seq<Item>, k: nat, z: Item, a: int, b: int)
    requires k <= |items| && Ahead(items, a, b)
    ensures Ahead(Spliced(items, k, z), a, b)
  {
    var i, j :| 0 <= i < j < |items| && items[i].data == a && items[j].data == b;
    var i', j' := if i < k then i else i + 1, if j < k then j else j + 1;
    assert Spliced(items, k, z)[i'] == items[i] && Spliced(items, k, z)[j'] == items[j];
  }

  // Sleepers keep their relative order while they sleep.
  lemma MoveKeepsOrder(items: seq<Item>, time: Word, current: int, m: Move, items': seq<Item>, time': Word,
                       x: Item, y: Item)
    requires Moved(items, time, current, m, items', time') && Distinct(items)
    requires Ahead(items, x.data, y.data) && x in items'
    ensures Ahead(items', x.data, y.data)
  {
    match m
    case Advance => TailKeepsOrder(items, Due(items, time'), x, y.data);
    case Join(n) =>
      var z := Item(Wrap(time + n), current);
      SpliceKeepsOrder(items, Slot(ByTime, items, z.key), z, x.data, y.data);
    case Stay =>
  }

  lemma EnqueuedInOrder(items: seq<Item>, z: Item, i: nat)
    requires Sorted(items) && InReach(items, z.key) && i < |items|
    ensures items[i].key <= z.key ==> Ahead(Enqueue(ByTime, items, z), items[i].data, z.data)
    ensures items[i].key > z.key ==> Ahead(Enqueue(ByTime, items, z), z.data, items[i].data)
  {
    EnqueueSortedExactly(items, z);
    SplicedInOrder(items, Slot(ByTime, items, z.key), z, i);
  }

  lemma SplicedInOrder(items: seq<Item>, k: nat, z: Item, i: nat)
    requires k <= |items| && i < |items|
    ensures i < k ==> Ahead(Spliced(items, k, z), items[i].data, z.data)
    ensures k <= i ==> Ahead(Spliced(items, k, z), z.data, items[i].data)
  {
    var r := Spliced(items, k, z);
    assert r[if i < k then i else i + 1] == items[i] && r[k] == z;
  }

  lemma JoinedIs(items: seq<Item>, time: Word, current: int, n: Word, items': seq<Item>)
    requires Moved(items, time, current, Join(n), items', time) && time + n < 0x1_0000_0000
    ensures items' == Enqueue(ByTime, items, Item(time + n, current))
  {
    assert Wrap(time + n) == time + n;
  }

  lemma JoinedInOrder(items: seq<Item>, z: Item, x: Item)
    requires Sorted(items) && InReach(items, z.key) && x in items
    ensures x.key <= z.key ==> Ahead(Enqueue(ByTime, items, z), x.data, z.data)
    ensures x.key > z.key ==> Ahead(Enqueue(ByTime, items, z), z.data, x.data)
  {
    var i :| 0 <= i < |items| && items[i] == x;
    EnqueuedInOrder(items, z, i);
  }

  // A process that falls asleep goes behind everybody who wakes no later, and before
  // everybody who wakes later.
  lemma JoinsInOrder(items: seq<Item>, time: Word, current: int, n: Word, items': seq<Item>, x: Item)
    requires Moved(items, time, current, Join(n), items', time) && OnTime(items, time) && InRange(items, time, Join(n))
    requires x in items
    ensures x.key <= time + n ==> Ahead(items', x.data, current)
    ensures x.key > time + n ==> Ahead(items', current, x.data)
  {
    InRangeIs(items, time, n);
    JoinedIs(items, time, current, n, items');
    JoinedInOrder(items, Item(time + n, current), x);
  }

  // A step that is within range keeps two sleepers in order that it does not reach.
  lemma OrderKept(s: KState, e: Event, s': KState, link: Link, a: Item, b: Item)
    requires Inv(s) && Next(s, e, s', link) && OnTime(s.queues[SLEEPING], s.time)
    requires InCpu(s) && UserOk(s, e) && InRange(s.queues[SLEEPING], s.time, MoveOf(s, e))
    requires a in s.queues[SLEEPING] && b in s.queues[SLEEPING] && s'.time < a.key && s'.time < b.key
    requires Ahead(s.queues[SLEEPING], a.data, b.data)
    ensures Inv(s') && a in s'.queues[SLEEPING] && b in s'.queues[SLEEPING]
    ensures Ahead(s'.queues[SLEEPING], a.data, b.data)
  {
    NextMoves(s, e, s', link);
    var items, items', m := s.queues[SLEEPING], s'.queues[SLEEPING], MoveOf(s, e);
    MoveOfSleeper(items, s.time, s.current, m, items', s'.time, a);
    MoveOfSleeper(items, s.time, s.current, m, items', s'.time, b);
    assert SoundParts(s.queues, s.pcbs, s.active, {s.current});
    MoveKeepsOrder(items, s.time, s.current, m, items', s'.time, a, b);
  }

  lemma JoinedBoth(items: seq<Item>, time: Word, current: int, m: Move, items': seq<Item>, time': Word,
                   x: Item, n: Word)
    requires Moved(items, time, current, m, items', time') && OnTime(items, time) && InRange(items, time, m)
    requires m == Join(n) && x in items && time < x.key
    ensures BothInOrder(items', x, Item(time + n, current))
  {
    MoveOfSleeper(items, time, current, m, items', time', x);
    JoinsInOrder(items, time, current, n, items', x);
    JoinAdds(items, time, current, n, items');
  }

  // Two sleepers are in the queue, in the order of their wake-up times, and as given where
  // these are equal.
  ghost predicate BothInOrder(items: seq<Item>, x: Item, y: Item) {
    && x in items && y in items
    && if x.key <= y.key then Ahead(items, x.data, y.data) else Ahead(items, y.data, x.data)
  }

  lemma FirstInOrder(s: KState, e: Event, s': KState, link: Link, x: Item, n: Word)
    requires Inv(s) && Next(s, e, s', link) && OnTime(s.queues[SLEEPING], s.time)
    requires InCpu(s) && UserOk(s, e) && MoveOf(s, e) == Join(n) && InRange(s.queues[SLEEPING], s.time, MoveOf(s, e))
    requires x in s.queues[SLEEPING] && s.time < x.key
    ensures Inv(s') && BothInOrder(s'.queues[SLEEPING], x, Item(s.time + n, s.current))
  {
    NextMoves(s, e, s', link);
    JoinedBoth(s.queues[SLEEPING], s.time, s.current, MoveOf(s, e), s'.queues[SLEEPING], s'.time, x, n);
  }

  // On every run within the range of the clock: as long as both sleep, the queue holds two
  // sleepers in the order of their wake-up times, and of falling asleep where these are equal.
  lemma {:induction false} SleepersInOrder(ss: seq<KState>, es: seq<Event>, link: Link, x: Item, n: Word, k: nat)
    requires RunInRange(ss, es, link) && Inv(ss[0]) && OnTime(ss[0].queues[SLEEPING], ss[0].time) && 0 < k < |ss|
    requires x in ss[0].queues[SLEEPING] && MoveOf(ss[0], es[0]) == Join(n)
    requires forall j | 0 <= j <= k :: ss[j].time < x.key && ss[j].time < ss[0].time + n
    ensures Inv(ss[k]) && BothInOrder(ss[k].queues[SLEEPING], x, Item(ss[0].time + n, ss[0].current))
  {
    var s, e, s' := ss[k - 1], es[k - 1], ss[k];
    NobodyOverdue(ss, es, link, k - 1);
    if k == 1 {
      FirstInOrder(s, e, s', link, x, n);
    } else {
      SleepersInOrder(ss, es, link, x, n, k - 1);
      var y := Item(ss[0].time + n, ss[0].current);
      var (a, b) := if x.key <= y.key then (x, y) else (y, x);
      OrderKept(s, e, s', link, a, b);
    }
  }

  // Where the released processes of one tick queue up.

  lemma {:induction false} AtLevelHas(items: seq<Item>, pcbs: seq<Pcb>, l: nat, p: int)
    requires forall i | 0 <= i < |items| :: 0 <= items[i].data < |pcbs|
    ensures Has(AtLevel(items, pcbs, l), p) <==> Has(items, p) && Level(pcbs[p]) == l
  {
    if items != [] {
      var rest, r := items[1..], AtLevel(items, pcbs, l);
      AtLevelHas(rest, pcbs, l, p);
      HasCons(items[0], rest, p);
      assert items == [items[0]] + rest;
      if Level(pcbs[items[0].data]) == l {
        HasCons(Item(0, items[0].data), AtLevel(rest, pcbs, l), p);
      } else {
        assert r == AtLevel(rest, pcbs, l);
      }
    }
  }

  lemma HasCons(x: Item, items: seq<Item>, p: int)
    ensures Has([x] + items, p) <==> x.data == p || Has(items, p)
  {
    var r := [x] + items;
    assert r[0] == x && forall i | 0 <= i < |items| :: r[i + 1] == items[i];
    if Has(r, p) {
      var i :| 0 <= i < |r| && r[i].data == p;
      if i > 0 { assert items[i - 1].data == p; }
    }
  }

  lemma AheadCons(x: Item, items: seq<Item>, a: int, b: int)
    requires Ahead(items, a, b) || (x.data == a && Has(items, b))
    ensures Ahead([x] + items, a, b)
  {
    var r := [x] + items;
    if Ahead(items, a, b) {
      var i, j :| 0 <= i < j < |items| && items[i].data == a && items[j].data == b;
      assert r[i + 1].data == a && r[j + 1].data == b;
    } else {
      var j :| 0 <= j < |items| && items[j].data == b;
      assert r[0].data == a && r[j + 1].data == b;
    }
  }

  // Processes of one level are released in the order of the sleep queue.
  lemma {:induction false} AtLevelKeepsOrder(items: seq<Item>, pcbs: seq<Pcb>, l: nat, a: int, b: int)
    requires forall i | 0 <= i < |items| :: 0 <= items[i].data < |pcbs|
    requires Ahead(items, a, b) && Level(pcbs[a]) == Level(pcbs[b]) == l
    ensures Ahead(AtLevel(items, pcbs, l), a, b)
  {
    var rest := items[1..];
    var i, j :| 0 <= i < j < |items| && items[i].data == a && items[j].data == b;
    assert rest[j - 1].data == b;
    if i > 0 {
      assert rest[i - 1].data == a;
      AtLevelKeepsOrder(rest, pcbs, l, a, b);
      if Level(pcbs[items[0].data]) == l {
        AheadCons(Item(0, items[0].data), AtLevel(rest, pcbs, l), a, b);
      } else {
        assert AtLevel(items, pcbs, l) == AtLevel(rest, pcbs, l);
      }
    } else {
      AtLevelHas(rest, pcbs, l, b);
      AheadCons(Item(0, a), AtLevel(rest, pcbs, l), a, b);
    }
  }

  // A ready level after the wake-ups of a tick and, at the end of a quantum, the return of
  // the current process behind them.
  function Refilled(s: KState, now: Word, q: nat): seq<Item>
    requires Shaped(s) && s.current != NULL && READY <= q < SLEEPING
  {
    var due := s.queues[SLEEPING][..Due(s.queues[SLEEPING], now)];
    s.queues[q] + AtLevel(due, s.pcbs, q - READY)
      + if s.pcbs[s.current].quantum == 1 && q == READY + s.pcbs[s.current].prio then [Item(0, s.current)] else []
  }

  lemma RefilledAt(s: KState, s1: KState, q: nat)
    requires Inv(s) && Woken(s.(time := Wrap(s.time + 1)), s1) && s1.pcbs[s.current] == s.pcbs[s.current]
    requires READY <= q < SLEEPING
    ensures Refilled(s, Wrap(s.time + 1), q) ==
      (if s.pcbs[s.current].quantum == 1 then Scheduled(Charge(s1), s.current) else Charge(s1)).queues[q]
  {
    var due := s.queues[SLEEPING][..Due(s.queues[SLEEPING], Wrap(s.time + 1))];
    assert s1.queues[q] == s.queues[q] + AtLevel(due, s.pcbs, q - READY);
    assert Charge(s1).queues == s1.queues;
  }

  // The four levels from the highest priority on.
  function Levels(s: KState): (r: seq<seq<Item>>)
    requires Shaped(s)
    ensures |r| == N_PRIOS
  {
    s.queues[READY..SLEEPING]
  }

  function RefilledLevels(s: KState, now: Word): (r: seq<seq<Item>>)
    requires Shaped(s) && s.current != NULL
    ensures |r| == N_PRIOS && forall l | 0 <= l < N_PRIOS :: r[l] == Refilled(s, now, READY + l)
  {
    seq(N_PRIOS, l requires 0 <= l < N_PRIOS => Refilled(s, now, READY + l))
  }

  // The state r comes from these levels by giving the CPU to the first process of the first
  // level that is not empty.
  ghost predicate FirstRuns(levels: seq<seq<Item>>, r: KState)
    requires |levels| == N_PRIOS
  {
    && Shaped(r) && 0 <= r.current < N_PCBS && r.pcbs[r.current].prio < N_PRIOS
    && var m := r.pcbs[r.current].prio;
    && (forall l | 0 <= l < m :: levels[l] == [])
    && levels[m] != [] && levels[m][0] == Item(0, r.current)
    && Levels(r) == levels[m := levels[m][1..]]
  }

  lemma LevelsRefilled(s: KState, s1: KState, pre: KState)
    requires Inv(s) && Woken(s.(time := Wrap(s.time + 1)), s1) && s1.pcbs[s.current] == s.pcbs[s.current]
    requires pre == if s.pcbs[s.current].quantum == 1 then Scheduled(Charge(s1), s.current) else Charge(s1)
    ensures Levels(pre) == RefilledLevels(s, Wrap(s.time + 1))
  {
    var levels := RefilledLevels(s, Wrap(s.time + 1));
    forall l | 0 <= l < N_PRIOS
      ensures pre.queues[READY + l] == levels[l]
    {
      RefilledAt(s, s1, READY + l);
    }
    assert Levels(pre) == levels;
  }

  lemma RefilledBefore(s: KState) returns (pre: KState, dispatched: bool)
    requires Inv(s)
    ensures Form(s, ClockIsr(s), pre, dispatched, 1) && dispatched == (s.pcbs[s.current].quantum == 1)
    ensures Levels(pre) == RefilledLevels(s, Wrap(s.time + 1))
  {
    var s1;
    s1, pre, dispatched := ClockForm(s);
    LevelsRefilled(s, s1, pre);
  }

  lemma DispatchesFirst(s: KState)
    requires Sound(s, {}) && IdleOk(s.pcbs[IDLE])
    ensures Dispatch(s).Ok? && FirstRuns(Levels(s), Dispatch(s).value)
  {
    IdleCanRun(s);
    DispatchSound(s);
    DispatchedIs(s);
    var m := FirstReady(s.queues, 0);
    assert Dispatched(s).queues == s.queues[READY + m := s.queues[READY + m][1..]];
    assert Levels(Dispatched(s)) == Levels(s)[m := Levels(s)[m][1..]];
  }

  // The ready queues after a tick that does not end the quantum: the released processes are
  // at the ends of their levels, in the order of the sleep queue.
  lemma TickWithinQuantum(s: KState)
    requires Inv(s) && s.pcbs[s.current].quantum > 1
    ensures ClockIsr(s).Ok?
    ensures var r := ClockIsr(s).value;
      r.current == s.current && Shaped(r) && Levels(r) == RefilledLevels(s, Wrap(s.time + 1))
  {
    var pre, dispatched := RefilledBefore(s);
  }

  // At the end of the quantum the current process goes behind the released ones of its level,
  // and the first process of the first level that is not empty gets the CPU.
  lemma TickAtQuantumEnd(s: KState)
    requires Inv(s) && s.pcbs[s.current].quantum == 1
    ensures ClockIsr(s).Ok? && FirstRuns(RefilledLevels(s, Wrap(s.time + 1)), ClockIsr(s).value)
  {
    var pre, dispatched := RefilledBefore(s);
    DispatchesFirst(pre);
  }
}
