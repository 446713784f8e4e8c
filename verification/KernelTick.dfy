/** The order in which sleepers wake, and when. */
module KernelTick {
  import opened Common
  import opened QueueSpec
  import opened KernelSpec
  import opened KernelInvariant

  // The number of sleepers at the head of the queue whose time has come.
  function Due(items: seq<Item>, time: Word): (n: nat)
    ensures n <= |items|
    ensures forall i | 0 <= i < n :: items[i].key <= time
    ensures n < |items| ==> items[n].key > time
  {
    if items == [] || items[0].key > time then 0 else 1 + Due(items[1..], time)
  }

  // The ready level at which _schedule puts a process.
  function Level(pcb: Pcb): (l: nat)
    ensures l < N_PRIOS
  {
    if pcb.prio < N_PRIOS then pcb.prio else PRIO_USER_LOW
  }

  // Those of the processes that belong to one level, in their order.
  function AtLevel(items: seq<Item>, pcbs: seq<Pcb>, l: nat): seq<Item>
    requires forall i | 0 <= i < |items| :: 0 <= items[i].data < |pcbs|
  {
    if items == [] then []
    else
      (if Level(pcbs[items[0].data]) == l then [Item(0, items[0].data)] else []) + AtLevel(items[1..], pcbs, l)
  }

  lemma {:induction false} AtLevelFrame(items: seq<Item>, pcbs: seq<Pcb>, pcbs': seq<Pcb>, l: nat)
    requires |pcbs| == |pcbs'|
    requires forall i | 0 <= i < |items| ::
               0 <= items[i].data < |pcbs| && Level(pcbs[items[i].data]) == Level(pcbs'[items[i].data])
    ensures AtLevel(items, pcbs, l) == AtLevel(items, pcbs', l)
  {
    if items != [] { AtLevelFrame(items[1..], pcbs, pcbs', l); }
  }

  // The state after the wake-up loop: the due processes, in the order of the sleep queue, are
  // at the ends of their levels.
  ghost predicate Woken(s: KState, r: KState) {
    && Shaped(s) && Shaped(r)
    && var due := s.queues[SLEEPING][..Due(s.queues[SLEEPING], s.time)];
    && r.queues[SLEEPING] == s.queues[SLEEPING][|due|..]
    && (forall q | 0 <= q < N_QUEUES && !(READY <= q <= SLEEPING) :: r.queues[q] == s.queues[q])
    && (forall q | READY <= q < SLEEPING :: r.queues[q] == s.queues[q] + AtLevel(due, s.pcbs, q - READY))
    && (forall p | 0 <= p < N_PCBS ::
          r.pcbs[p] == if Has(due, p) then s.pcbs[p].(prio := Level(s.pcbs[p]), state := Ready) else s.pcbs[p])
    && r == s.(queues := r.queues, pcbs := r.pcbs)
  }

  lemma HasFirst(items: seq<Item>, n: nat, p: int)
    requires 0 < n <= |items|
    ensures Has(items[..n], p) <==> p == items[0].data || Has(items[1..][..n - 1], p)
  {
    var due, rest := items[..n], items[1..][..n - 1];
    if Has(due, p) {
      var i :| 0 <= i < n && due[i].data == p;
      if i > 0 { assert rest[i - 1].data == p; }
    }
    if Has(rest, p) {
      var i :| 0 <= i < n - 1 && rest[i].data == p;
      assert due[i + 1].data == p;
    }
    assert due[0].data == items[0].data;
  }

  // One turn of the loop, followed by the rest.
  lemma AtLevelFirst(items: seq<Item>, n: nat, pcbs: seq<Pcb>, l: nat)
    requires 0 < n <= |items| && forall i | 0 <= i < |items| :: 0 <= items[i].data < |pcbs|
    ensures AtLevel(items[..n], pcbs, l) ==
      (if Level(pcbs[items[0].data]) == l then [Item(0, items[0].data)] else []) + AtLevel(items[1..][..n - 1], pcbs, l)
  {
    assert items[..n][1..] == items[1..][..n - 1] && items[..n][0] == items[0];
  }

  lemma WokenPcbs(s: KState, s1: KState, r: KState, p: nat, p1: nat)
    requires Shaped(s) && s.queues[SLEEPING] != [] && s.queues[SLEEPING][0].key <= s.time
    requires p == s.queues[SLEEPING][0].data && p < N_PCBS && p1 < N_PCBS && Distinct(s.queues[SLEEPING])
    requires s1 == Scheduled(Remove(s, SLEEPING).0, p) && Woken(s1, r)
    ensures r.pcbs[p1] ==
      if Has(s.queues[SLEEPING][..Due(s.queues[SLEEPING], s.time)], p1)
      then s.pcbs[p1].(prio := Level(s.pcbs[p1]), state := Ready) else s.pcbs[p1]
  {
    var items, rest := s.queues[SLEEPING], s.queues[SLEEPING][1..];
    var n := Due(items, s.time);
    assert s1.queues[SLEEPING] == rest && Due(rest, s.time) == n - 1;
    var due1 := rest[..n - 1];
    HasFirst(items, n, p1);
    if p1 == p {
      assert forall i | 0 <= i < |due1| :: due1[i] == items[i + 1];
      assert !Has(due1, p);
    }
  }

  lemma WokenAt(s: KState, r: KState, q: nat)
    requires Woken(s, r) && READY <= q < SLEEPING
    ensures var items := s.queues[SLEEPING];
      r.queues[q] == s.queues[q] + AtLevel(items[..Due(items, s.time)], s.pcbs, q - READY)
  {}

  // The queue of level l after the first due sleeper p is scheduled, and what is due then.
  lemma ScheduledFirst(s: KState, s1: KState, p: nat, q: nat)
    requires Shaped(s) && s.queues[SLEEPING] != [] && p == s.queues[SLEEPING][0].data && p < N_PCBS
    requires s1 == Scheduled(Remove(s, SLEEPING).0, p) && READY <= q < SLEEPING
    ensures s1.queues[q] == s.queues[q] + (if Level(s.pcbs[p]) == q - READY then [Item(0, p)] else [])
    ensures s1.queues[SLEEPING] == s.queues[SLEEPING][1..] && s1.time == s.time
    ensures |s1.pcbs| == |s.pcbs| && forall i | 0 <= i < N_PCBS :: Level(s1.pcbs[i]) == Level(s.pcbs[i])
  {}

  lemma WokenQueue(s: KState, s1: KState, p: nat, q: nat)
    requires Shaped(s) && s.queues[SLEEPING] != [] && s.queues[SLEEPING][0].key <= s.time
    requires p == s.queues[SLEEPING][0].data && p < N_PCBS && READY <= q < SLEEPING
    requires s1 == Scheduled(Remove(s, SLEEPING).0, p)
    ensures var items, rest := s.queues[SLEEPING], s1.queues[SLEEPING];
      s1.queues[q] + AtLevel(rest[..Due(rest, s1.time)], s1.pcbs, q - READY)
        == s.queues[q] + AtLevel(items[..Due(items, s.time)], s.pcbs, q - READY)
  {
    ScheduledFirst(s, s1, p, q);
    var items, rest := s.queues[SLEEPING], s1.queues[SLEEPING];
    var n := Due(items, s.time);
    AtLevelFirst(items, n, s.pcbs, q - READY);
    AtLevelFrame(rest[..n - 1], s1.pcbs, s.pcbs, q - READY);
  }

  lemma WokenStep(s: KState, s1: KState, r: KState, p: nat)
    requires Shaped(s) && s.queues[SLEEPING] != [] && s.queues[SLEEPING][0].key <= s.time
    requires p == s.queues[SLEEPING][0].data && p < N_PCBS && Distinct(s.queues[SLEEPING])
    requires s1 == Scheduled(Remove(s, SLEEPING).0, p) && Woken(s1, r)
    ensures Woken(s, r)
  {
    var items := s.queues[SLEEPING];
    var due := items[..Due(items, s.time)];
    assert s1.queues[SLEEPING] == items[1..];
    forall q | READY <= q < SLEEPING
      ensures r.queues[q] == s.queues[q] + AtLevel(due, s.pcbs, q - READY)
    {
      WokenAt(s1, r, q);
      WokenQueue(s, s1, p, q);
    }
    forall p1 | 0 <= p1 < N_PCBS
      ensures r.pcbs[p1] == if Has(due, p1) then s.pcbs[p1].(prio := Level(s.pcbs[p1]), state := Ready) else s.pcbs[p1]
    {
      WokenPcbs(s, s1, r, p, p1);
    }
  }

  lemma NobodyWoken(s: KState)
    requires Shaped(s) && Due(s.queues[SLEEPING], s.time) == 0
    ensures Woken(s, s)
  {}

  // The wake-up loop releases exactly the due sleepers, in the order of their queue.
  lemma {:induction false} WakeReleasesDue(s: KState, out: set<int>)
    requires Sound(s, out)
    ensures Wake(s).Ok? && Sound(Wake(s).value, out) && Woken(s, Wake(s).value)
    decreases |s.queues[SLEEPING]|
  {
    WakeSound(s, out);
    assert SoundParts(s.queues, s.pcbs, s.active, out);
    if s.queues[SLEEPING] != [] && s.queues[SLEEPING][0].key <= s.time {
      var (s1, p) := Remove(s, SLEEPING);
      RemoveSound(s, out, SLEEPING);
      ScheduleSound(s1, out + {p}, p);
      assert out + {p} - {p} == out;
      WakeReleasesDue(Scheduled(s1, p), out);
      WokenStep(s, Scheduled(s1, p), Wake(s).value, p);
    } else {
      NobodyWoken(s);
    }
  }
}
