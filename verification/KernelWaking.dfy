/** The order of waking, from falling asleep to the ready queues after the tick. */
module KernelWaking {
  import opened Common
  import opened QueueSpec
  import opened KernelSpec
  import opened KernelInvariant
  import opened KernelTick
  import opened KernelRuns
  import opened KernelSleep

  lemma DueAhead(items: seq<Item>, now: Word, a: Item, b: Item)
    requires Sorted(items) && Distinct(items) && a in items && b in items && b.key <= now
    requires Ahead(items, a.data, b.data)
    ensures Ahead(items[..Due(items, now)], a.data, b.data)
  {
    var n, due := Due(items, now), items[..Due(items, now)];
    var i, j :| 0 <= i < j < |items| && items[i].data == a.data && items[j].data == b.data;
    var k :| 0 <= k < |items| && items[k] == b;
    assert k == j;
    assert j < n;
    assert due[i].data == a.data && due[j].data == b.data;
  }

  lemma AheadBetween(before: seq<Item>, items: seq<Item>, behind: seq<Item>, a: int, b: int)
    requires Ahead(items, a, b)
    ensures Ahead(before + items + behind, a, b)
  {
    var i, j :| 0 <= i < j < |items| && items[i].data == a && items[j].data == b;
    var all := before + items + behind;
    assert all[|before| + i] == items[i] && all[|before| + j] == items[j];
  }

  lemma AheadOfLast(before: seq<Item>, items: seq<Item>, a: int, p: int)
    requires Has(items, a)
    ensures Ahead(before + items + [Item(0, p)], a, p)
  {
    var i :| 0 <= i < |items| && items[i].data == a;
    var all := before + items + [Item(0, p)];
    assert all[|before| + i] == items[i] && all[|before| + |items|].data == p;
  }

  // In the level l of these levels, a is ahead of b, and both are ahead of the current process
  // if that is preempted at this level.
  ghost predicate Ordered(s: KState, levels: seq<seq<Item>>, l: nat, a: int, b: int)
    requires |levels| == N_PRIOS && l < N_PRIOS && 0 <= s.current < |s.pcbs|
  {
    && Ahead(levels[l], a, b)
    && (s.pcbs[s.current].quantum == 1 && s.pcbs[s.current].prio == l ==>
          Ahead(levels[l], a, s.current) && Ahead(levels[l], b, s.current))
  }

  // A level that is refilled with due processes, among them a and then b.
  lemma RefilledOrdered(before: seq<Item>, due: seq<Item>, pcbs: seq<Pcb>, l: nat, last: seq<Item>, a: int, b: int)
    requires forall i | 0 <= i < |due| :: 0 <= due[i].data < |pcbs|
    requires Ahead(due, a, b) && Level(pcbs[a]) == Level(pcbs[b]) == l
    ensures Ahead(before + AtLevel(due, pcbs, l) + last, a, b)
    ensures last != [] && |last| == 1 && last[0].key == 0 ==>
              && Ahead(before + AtLevel(due, pcbs, l) + last, a, last[0].data)
              && Ahead(before + AtLevel(due, pcbs, l) + last, b, last[0].data)
  {
    var released := AtLevel(due, pcbs, l);
    AtLevelKeepsOrder(due, pcbs, l, a, b);
    AheadBetween(before, released, last, a, b);
    if last != [] && |last| == 1 && last[0].key == 0 {
      assert last == [Item(0, last[0].data)];
      AheadHas(released, a, b);
      AheadOfLast(before, released, a, last[0].data);
      AheadOfLast(before, released, b, last[0].data);
    }
  }

  lemma AheadHas(items: seq<Item>, a: int, b: int)
    requires Ahead(items, a, b)
    ensures Has(items, a) && Has(items, b)
  {}

  // Sleepers that one tick releases to one level get there in the order of the sleep queue.
  lemma ReleasedInOrder(s: KState, a: Item, b: Item, l: nat)
    requires Inv(s) && OnTime(s.queues[SLEEPING], s.time)
    requires a in s.queues[SLEEPING] && b in s.queues[SLEEPING] && Ahead(s.queues[SLEEPING], a.data, b.data)
    requires a.key <= Wrap(s.time + 1) && b.key <= Wrap(s.time + 1)
    requires 0 <= a.data < N_PCBS && 0 <= b.data < N_PCBS
    requires Level(s.pcbs[a.data]) == Level(s.pcbs[b.data]) == l
    ensures Ordered(s, RefilledLevels(s, Wrap(s.time + 1)), l, a.data, b.data)
  {
    assert SoundParts(s.queues, s.pcbs, s.active, {s.current});
    var items, now := s.queues[SLEEPING], Wrap(s.time + 1);
    DueAhead(items, now, a, b);
    var last := if s.pcbs[s.current].quantum == 1 && s.pcbs[s.current].prio == l then [Item(0, s.current)] else [];
    RefilledOrdered(s.queues[READY + l], items[..Due(items, now)], s.pcbs, l, last, a.data, b.data);
  }

  lemma BothReleased(s: KState, a: Item, b: Item)
    requires Inv(s) && OnTime(s.queues[SLEEPING], s.time) && BothInOrder(s.queues[SLEEPING], a, b)
    requires a.key == b.key == Wrap(s.time + 1)
    ensures 0 <= a.data < N_PCBS && 0 <= b.data < N_PCBS
    ensures Level(s.pcbs[a.data]) == Level(s.pcbs[b.data]) ==>
              Ordered(s, RefilledLevels(s, Wrap(s.time + 1)), Level(s.pcbs[b.data]), a.data, b.data)
  {
    SleeperState(s, a);
    SleeperState(s, b);
    if Level(s.pcbs[a.data]) == Level(s.pcbs[b.data]) {
      ReleasedInOrder(s, a, b, Level(s.pcbs[b.data]));
    }
  }

  // What the tick makes of these levels: they are the ready queues, or their first process
  // gets the CPU.
  ghost predicate TickLeads(s: KState, r: KState)
    requires Inv(s)
  {
    var levels := RefilledLevels(s, Wrap(s.time + 1));
    if s.pcbs[s.current].quantum == 1 then FirstRuns(levels, r)
    else Shaped(r) && r.current == s.current && Levels(r) == levels
  }

  lemma ClockLeads(s: KState)
    requires Inv(s)
    ensures ClockIsr(s).Ok? && TickLeads(s, ClockIsr(s).value)
  {
    assert SoundParts(s.queues, s.pcbs, s.active, {s.current});
    if s.pcbs[s.current].quantum == 1 {
      TickAtQuantumEnd(s);
    } else {
      TickWithinQuantum(s);
    }
  }

  lemma TickIs(s: KState, e: Event, s': KState, link: Link)
    requires Inv(s) && Next(s, e, s', link) && e.Tick?
    ensures InCpu(s) && UserOk(s, e) && Inv(Saved(s, e)) && TickLeads(Saved(s, e), s')
  {
    assert Leads(s, e, s', link);
    SavedKeepsInv(s, e);
    StepIs(s, e, link);
    ClockLeads(Saved(s, e));
  }

  lemma StepTime(s: KState, e: Event, s': KState, link: Link)
    requires Inv(s) && Next(s, e, s', link) && InCpu(s) && UserOk(s, e)
    requires InRange(s.queues[SLEEPING], s.time, MoveOf(s, e))
    ensures s.time <= s'.time
  {
    NextMoves(s, e, s', link);
  }

  lemma TimeSteps(ss: seq<KState>, es: seq<Event>, link: Link, k: nat)
    requires RunInRange(ss, es, link) && Inv(ss[0]) && k < |es|
    ensures ss[k].time <= ss[k + 1].time
  {
    RunKeepsInv(ss, es, link, k);
    StepTime(ss[k], es[k], ss[k + 1], link);
  }

  lemma {:induction false} TimeGrows(ss: seq<KState>, es: seq<Event>, link: Link, j: nat, k: nat)
    requires RunInRange(ss, es, link) && Inv(ss[0]) && j <= k < |ss|
    ensures ss[j].time <= ss[k].time
  {
    if j < k {
      TimeGrows(ss, es, link, j, k - 1);
      TimeSteps(ss, es, link, k - 1);
    }
  }

  lemma TimeBelow(ss: seq<KState>, es: seq<Event>, link: Link, k: nat)
    requires RunInRange(ss, es, link) && Inv(ss[0]) && k < |ss|
    ensures forall j | 0 <= j <= k :: ss[j].time <= ss[k].time
  {
    forall j | 0 <= j <= k
      ensures ss[j].time <= ss[k].time
    {
      TimeGrows(ss, es, link, j, k);
    }
  }

  // On every run within the range of the clock: of two processes that one tick releases to one
  // level, the one that fell asleep first is ahead, and both are ahead of a process that is
  // preempted by that tick at their level.  The first event of the run is the second of the
  // two sleeps; processes that are released by the same tick have the same wake-up time.
  lemma WakeUpOrder(ss: seq<KState>, es: seq<Event>, link: Link, x: Item, n: Word, k: nat)
    requires RunInRange(ss, es, link) && Inv(ss[0]) && OnTime(ss[0].queues[SLEEPING], ss[0].time)
    requires 0 < k < |es| && x in ss[0].queues[SLEEPING] && MoveOf(ss[0], es[0]) == Join(n)
    requires es[k].Tick? && x.key == ss[0].time + n == ss[k].time + 1
    ensures Inv(ss[k]) && InCpu(ss[k]) && UserOk(ss[k], es[k])
    ensures var s, y := Saved(ss[k], es[k]), ss[0].current;
      && Inv(s) && TickLeads(s, ss[k + 1]) && 0 <= x.data < N_PCBS && 0 <= y < N_PCBS
      && (Level(s.pcbs[x.data]) == Level(s.pcbs[y]) ==>
            Ordered(s, RefilledLevels(s, x.key), Level(s.pcbs[y]), x.data, y))
  {
    TimeBelow(ss, es, link, k);
    SleepersInOrder(ss, es, link, x, n, k);
    NobodyOverdue(ss, es, link, k);
    TickIs(ss[k], es[k], ss[k + 1], link);
    BothReleased(Saved(ss[k], es[k]), x, Item(ss[0].time + n, ss[0].current));
  }
}
