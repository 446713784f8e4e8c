/** Sleeps that end out of reach: from _init on, a long sleep keeps a short one from ending. */
module KernelOverdue {
  import opened Common
  import opened QueueSpec
  import opened KernelSpec
  import opened KernelInvariant
  import opened KernelTick
  import opened KernelRuns
  import opened KernelSleep

  // Item y is behind x in the queue.
  ghost predicate Behind(items: seq<Item>, x: Item, y: Item) {
    exists i, j :: 0 <= i < j < |items| && items[i] == x && items[j] == y
  }

  lemma TailKeepsBehind(items: seq<Item>, now: Word, x: Item, y: Item)
    requires Behind(items, x, y) && now < x.key
    ensures Behind(items[Due(items, now)..], x, y)
  {
    var i, j :| 0 <= i < j < |items| && items[i] == x && items[j] == y;
    var n := Due(items, now);
    assert items[n..][i - n] == x && items[n..][j - n] == y;
  }

  lemma SpliceKeepsBehind(items: seq<Item>, k: nat, z: Item, x: Item, y: Item)
    requires Behind(items, x, y) && k <= |items|
    ensures Behind(Spliced(items, k, z), x, y)
  {
    var i, j :| 0 <= i < j < |items| && items[i] == x && items[j] == y;
    var i', j' := if i < k then i else i + 1, if j < k then j else j + 1;
    assert Spliced(items, k, z)[i'] == x && Spliced(items, k, z)[j'] == y;
  }

  lemma MoveKeepsBehind(items: seq<Item>, time: Word, current: int, m: Move, items': seq<Item>, time': Word,
                        x: Item, y: Item)
    requires Moved(items, time, current, m, items', time') && Behind(items, x, y) && time' < x.key
    ensures Behind(items', x, y)
  {
    match m
    case Advance => TailKeepsBehind(items, time', x, y);
    case Join(n) =>
      var z := Item(Wrap(time + n), current);
      SpliceKeepsBehind(items, Slot(ByTime, items, z.key), z, x, y);
    case Stay =>
  }

  // A process sleeps until this time, and sleeps on when it is past.
  ghost predicate SleepsUntil(s: KState, p: int, wakeup: Word) {
    Shaped(s) && 0 <= p < N_PCBS && s.pcbs[p].state == Sleeping && s.pcbs[p].wakeup == wakeup
  }

  ghost predicate Overdue(s: KState, p: int, wakeup: Word) { SleepsUntil(s, p, wakeup) && wakeup <= s.time }

  // On every run at all: a sleeper that is behind another one sleeps at least as long as that.
  lemma {:induction false} StaysBehind(ss: seq<KState>, es: seq<Event>, link: Link, x: Item, y: Item, k: nat)
    requires Run(ss, es, link) && Inv(ss[0]) && Behind(ss[0].queues[SLEEPING], x, y) && k < |ss|
    requires forall j | 0 <= j <= k :: ss[j].time < x.key
    ensures Inv(ss[k]) && Behind(ss[k].queues[SLEEPING], x, y)
    ensures SleepsUntil(ss[k], y.data, y.key)
  {
    if k > 0 {
      var s, e, s' := ss[k - 1], es[k - 1], ss[k];
      StaysBehind(ss, es, link, x, y, k - 1);
      NextMoves(s, e, s', link);
      MoveKeepsBehind(s.queues[SLEEPING], s.time, s.current, MoveOf(s, e), s'.queues[SLEEPING], s'.time, x, y);
    }
    SleeperState(ss[k], y);
  }

  // A short sleep out of reach of a long one.

  const LONG: Word := 0x9000_0000

  lemma JoinsBehindLong(p: int, q: int, n: Word)
    requires n < 0x1000_0000
    ensures Enqueue(ByTime, [Item(LONG, p)], Item(n, q)) == [Item(LONG, p), Item(n, q)]
  {
    var items := [Item(LONG, p)];
    CompareTimeIs(n, LONG);
    SlotIs(items, n, 1);
  }

  // The current process falls asleep for n ticks.
  ghost predicate FallsAsleepParts(s: KState, e: Event, n: Word) {
    InCpu(s) && UserOk(s, e) && MoveOf(s, e) == Join(n)
  }

  ghost predicate FallsAsleep(s: KState, e: Event, n: Word) {
    forall f {:trigger FallsAsleepParts(s, f, n)} | f == e :: FallsAsleepParts(s, f, n)
  }

  lemma AsleepNext(s: KState, e: Event, s': KState, link: Link, n: Word)
    requires Inv(s) && Next(s, e, s', link) && FallsAsleep(s, e, n)
    ensures Inv(s') && s'.time == s.time
    ensures s'.queues[SLEEPING] == Enqueue(ByTime, s.queues[SLEEPING], Item(Wrap(s.time + n), s.current))
  {
    assert FallsAsleepParts(s, e, n);
    NextMoves(s, e, s', link);
  }

  // The first two events of a run from _init are such sleeps.
  ghost predicate LongThenShort(ss: seq<KState>, es: seq<Event>, link: Link, n: Word) {
    && Run(ss, es, link) && |es| >= 2 && 0 < n < 0x1000_0000
    && FallsAsleep(ss[0], es[0], LONG) && FallsAsleep(ss[1], es[1], n)
  }

  lemma BothAsleep(s0: KState, e0: Event, s1: KState, e1: Event, s2: KState, link: Link, n: Word)
    requires Inv(s0) && s0.time == 0 && s0.queues[SLEEPING] == [] && 0 < n < 0x1000_0000
    requires Next(s0, e0, s1, link) && FallsAsleep(s0, e0, LONG)
    requires Next(s1, e1, s2, link) && FallsAsleep(s1, e1, n)
    ensures Inv(s1) && Inv(s2) && s1.time == s2.time == 0
    ensures Behind(s2.queues[SLEEPING], Item(LONG, s0.current), Item(n, s1.current))
  {
    AsleepNext(s0, e0, s1, link, LONG);
    AsleepNext(s1, e1, s2, link, n);
    assert s1.queues[SLEEPING] == [Item(LONG, s0.current)];
    JoinsBehindLong(s0.current, s1.current, n);
    var items := s2.queues[SLEEPING];
    assert items[0] == Item(LONG, s0.current) && items[1] == Item(n, s1.current);
  }

  // As _init leaves it: init runs, nobody sleeps, and the clock is at 0.
  ghost predicate Fresh(s: KState) {
    Inv(s) && s.current == 0 && s.time == 0 && InitReady(s, [], [Item(0, 3)])
  }

  lemma LongBlocksShort(ss: seq<KState>, es: seq<Event>, link: Link, n: Word, k: nat)
    requires LongThenShort(ss, es, link, n) && Fresh(ss[0]) && 2 <= k < |ss|
    requires forall j | 0 <= j <= k :: ss[j].time < LONG
    ensures Inv(ss[k]) && SleepsUntil(ss[k], ss[1].current, n)
  {
    BothAsleep(ss[0], es[0], ss[1], es[1], ss[2], link, n);
    RunFrom(ss, es, link, 2);
    StaysBehind(ss[2..], es[2..], link, Item(LONG, ss[0].current), Item(n, ss[1].current), k - 2);
  }

  lemma InitIsFresh(programs: Programs, link: Link)
    ensures Init(programs, link).Ok? && Fresh(Init(programs, link).value)
  {
    InitKeepsInv(programs, link);
  }

  // When the first two processes fall asleep for LONG and for n ticks, the second one is
  // overdue from tick n on, until the clock gets to LONG, whatever else happens.
  lemma LongSleepBlocks(programs: Programs, ss: seq<KState>, es: seq<Event>, link: Link, n: Word, k: nat)
    requires LongThenShort(ss, es, link, n) && Init(programs, link) == Ok(ss[0]) && 2 <= k < |ss|
    requires forall j | 0 <= j <= k :: ss[j].time < LONG
    ensures Inv(ss[k]) && (ss[k].time >= n ==> Overdue(ss[k], ss[1].current, n))
  {
    InitIsFresh(programs, link);
    LongBlocksShort(ss, es, link, n, k);
  }

  // There are such runs.

  // The current process calls sleep(n).
  ghost function SleepCall(s: KState, n: Word): (e: Event)
    requires Inv(s) && InCpu(s)
  {
    var at := STACK_LWORDS - CONTEXT_WORDS - 3;
    Syscall(Base(s.pcbs[s.current].stack) + at,
            seq(STACK_LWORDS, i => if i == at + EAX then SYS_SLEEP else if i == at + CONTEXT_WORDS + 1 then n else 0),
            0)
  }

  lemma SleepCallMoves(s: KState, n: Word)
    requires Inv(s) && InCpu(s) && s.current != IDLE && n != 0
    ensures UserOk(s, SleepCall(s, n)) && FallsAsleep(s, SleepCall(s, n), n)
  {
    var e, at := SleepCall(s, n), STACK_LWORDS - CONTEXT_WORDS - 3;
    SavedImage(s, e, at + EAX);
    SavedImage(s, e, at + CONTEXT_WORDS + 1);
  }

  lemma SavedImage(s: KState, e: Event, i: nat)
    requires InCpu(s) && |e.image| == STACK_LWORDS && i < STACK_LWORDS
    ensures Saved(s, e).mem[Base(s.pcbs[s.current].stack) + i] == e.image[i]
  {}

  lemma Goes(s: KState, e: Event, link: Link) returns (s': KState)
    requires Inv(s) && InCpu(s) && UserOk(s, e)
    ensures Next(s, e, s', link) && Inv(s') && InCpu(s')
  {
    StepKeepsInv(s, e, link);
    s' := Step(s, e, link).value;
    assert Leads(s, e, s', link);
    InvInCpu(s');
  }

  // When init sleeps first, hello runs next.
  lemma HelloNext(s: KState, s': KState, link: Link, n: Word)
    requires Fresh(s) && InCpu(s) && n != 0
    requires UserOk(s, SleepCall(s, n)) && Next(s, SleepCall(s, n), s', link)
    ensures s'.current == 2
  {
    var e := SleepCall(s, n);
    assert Leads(s, e, s', link);
    SleepCallMoves(s, n);
    assert FallsAsleepParts(s, e, n);
    SavedKeepsInv(s, e);
    StepIs(s, e, link);
    var pre := SleepForm(Saved(s, e));
    assert FirstReady(pre.queues, 0) == 1;
    DispatchSound(pre);
  }

  // n ticks more.
  lemma {:induction false} Ticking(ss: seq<KState>, es: seq<Event>, link: Link, t: nat, n: nat)
      returns (ss': seq<KState>, es': seq<Event>)
    requires Run(ss, es, link) && Inv(ss[|es|]) && InCpu(ss[|es|]) && ss[|es|].time == t && t + n < LONG
    requires forall j | 0 <= j < |ss| :: ss[j].time <= t
    ensures Run(ss', es', link) && ss <= ss' && es <= es' && ss'[|es'|].time == t + n
    ensures forall j | 0 <= j < |ss'| :: ss'[j].time <= t + n
    decreases n
  {
    ss', es' := ss, es;
    if n > 0 {
      var s := ss[|es|];
      var e := Tick(s.pcbs[s.current].context, Zeros(STACK_LWORDS));
      var s' := Goes(s, e, link);
      NextMoves(s, e, s', link);
      RunGrows(ss, es, e, s', link);
      ss', es' := Ticking(ss + [s'], es + [e], link, t + 1, n - 1);
    }
  }

  // The first two steps.
  lemma TwoSleeps(s0: KState, link: Link, n: Word) returns (ss: seq<KState>, es: seq<Event>)
    requires Fresh(s0) && 0 < n < 0x1000_0000
    ensures |es| == 2 && LongThenShort(ss, es, link, n) && ss[0] == s0
    ensures Inv(ss[2]) && InCpu(ss[2]) && ss[0].time == ss[1].time == ss[2].time == 0
  {
    InvInCpu(s0);
    SleepCallMoves(s0, LONG);
    var e0 := SleepCall(s0, LONG);
    var s1 := Goes(s0, e0, link);
    HelloNext(s0, s1, link, LONG);
    SleepCallMoves(s1, n);
    var e1 := SleepCall(s1, n);
    var s2 := Goes(s1, e1, link);
    BothAsleep(s0, e0, s1, e1, s2, link, n);
    ss, es := [s0, s1, s2], [e0, e1];
  }

  lemma OverdueReached(s0: KState, link: Link, n: Word, now: Word) returns (ss: seq<KState>, es: seq<Event>)
    requires Fresh(s0) && 0 < n < 0x1000_0000 && n <= now < LONG
    ensures Run(ss, es, link) && ss[0] == s0 && 2 <= |es|
    ensures ss[|es|].time == now && Overdue(ss[|es|], ss[1].current, n)
  {
    var ts, fs := TwoSleeps(s0, link, n);
    ss, es := Ticking(ts, fs, link, 0, now);
    assert ss[0] == ts[0] && ss[1] == ts[1] && es[0] == fs[0] && es[1] == fs[1];
    LongBlocksShort(ss, es, link, n, |es|);
  }

  // From the state of _init, sleep(0x9000_0000) and then sleep(n) lead to a state in which the
  // second sleeper is overdue, at any time before the end of the first sleep.
  lemma LongSleepReached(programs: Programs, link: Link, n: Word, now: Word)
      returns (ss: seq<KState>, es: seq<Event>)
    requires 0 < n < 0x1000_0000 && n <= now < LONG
    ensures Run(ss, es, link) && Init(programs, link) == Ok(ss[0]) && 2 <= |es|
    ensures ss[|es|].time == now && Overdue(ss[|es|], ss[1].current, n)
  {
    InitIsFresh(programs, link);
    ss, es := OverdueReached(Init(programs, link).value, link, n, now);
  }
}
