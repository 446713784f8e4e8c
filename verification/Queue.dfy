/** The generic self-ordering queues of queue.c, seen as sequences of keyed items. */
module QueueSpec {
  import opened Common

  datatype Item = Item(key: Word, data: int)

  // The comparison function of a queue: none, or _compare_time.
  datatype Compare = NoCompare | ByTime

  // The wrapped 32-bit difference of two keys, read back as a signed int.
  function CompareTime(k1: Word, k2: Word): int { Signed(Wrap(k1 - k2)) }

  // Where an insertion into a non-empty or empty queue links the new node.
  function Slot(cmp: Compare, items: seq<Item>, key: Word): (k: nat)
    ensures k <= |items|
  {
    if cmp == NoCompare then |items|
    else if items == [] || CompareTime(key, items[0].key) < 0 then 0
    else 1 + Slot(cmp, items[1..], key)
  }

  function Spliced<T>(l: seq<T>, k: nat, x: T): (m: seq<T>)
    requires k <= |l|
    ensures |m| == |l| + 1
    ensures forall i | 0 <= i < |m| :: m[i] == if i < k then l[i] else if i == k then x else l[i - 1]
  {
    l[..k] + [x] + l[k..]
  }

  function Enqueue(cmp: Compare, items: seq<Item>, x: Item): seq<Item> {
    Spliced(items, Slot(cmp, items, x.key), x)
  }

  lemma EnqueueHas(cmp: Compare, items: seq<Item>, x: Item)
    ensures x in Enqueue(cmp, items, x)
    ensures forall y | y in items :: y in Enqueue(cmp, items, x)
  {
    var k, m := Slot(cmp, items, x.key), Enqueue(cmp, items, x);
    assert m[k] == x;
    forall y | y in items
      ensures y in m
    {
      var i :| 0 <= i < |items| && items[i] == y;
      var j := if i < k then i else i + 1;
      assert m[j] == y;
    }
  }

  lemma EnqueueAppends(items: seq<Item>, x: Item)
    ensures Enqueue(NoCompare, items, x) == items + [x]
  {}

  // A walk over keys that do not compare below `key` reaches the slot.
  lemma {:induction false} SlotIs(items: seq<Item>, key: Word, k: nat)
    requires k <= |items|
    requires forall i | 0 <= i < k :: CompareTime(key, items[i].key) >= 0
    requires k < |items| ==> CompareTime(key, items[k].key) < 0
    ensures Slot(ByTime, items, key) == k
  {
    if k > 0 {
      SlotIs(items[1..], key, k - 1);
    }
  }

  // The wrapped comparison agrees with the order of the keys exactly when their
  // distance is below half the clock's range.
  lemma CompareTimeAgrees(k1: Word, k2: Word)
    ensures (CompareTime(k1, k2) >= 0 <==> k1 >= k2) <==> -0x8000_0000 <= k1 - k2 < 0x8000_0000
  {
    if k1 < k2 {
      assert Wrap(k1 - k2) == k1 - k2 + 0x1_0000_0000;
    }
  }

  ghost predicate Sorted(items: seq<Item>) {
    forall i, j | 0 <= i < j < |items| :: items[i].key <= items[j].key
  }

  // All keys, and a new one, lie in a window shorter than half the clock's range.
  ghost predicate InWindow(items: seq<Item>, key: Word, low: int) {
    && low < key < low + 0x8000_0000
    && forall i | 0 <= i < |items| :: low < items[i].key < low + 0x8000_0000
  }

  lemma SplicedSorted(items: seq<Item>, k: nat, x: Item)
    requires Sorted(items) && k <= |items|
    requires forall i | 0 <= i < k :: items[i].key <= x.key
    requires forall i | k <= i < |items| :: x.key <= items[i].key
    ensures Sorted(Spliced(items, k, x))
  {}

  // The number of items with keys up to the given one, in a sorted queue.
  function Rank(items: seq<Item>, key: Word): (r: nat)
    ensures r <= |items|
    ensures forall i | 0 <= i < r :: items[i].key <= key
    ensures r < |items| ==> key < items[r].key
  {
    if items == [] || key < items[0].key then 0 else 1 + Rank(items[1..], key)
  }

  // What a caller can check before an insertion: the first key is not half the range or more
  // before the new one, and the next greater key is at most half the range behind it.
  predicate InReach(items: seq<Item>, key: Word) {
    var r := Rank(items, key);
    && (0 < r ==> key - items[0].key < 0x8000_0000)
    && (r < |items| ==> items[r].key - key <= 0x8000_0000)
  }

  lemma CompareTimeIs(k1: Word, k2: Word)
    ensures k1 >= k2 ==> (CompareTime(k1, k2) >= 0 <==> k1 - k2 < 0x8000_0000)
    ensures k1 < k2 ==> (CompareTime(k1, k2) < 0 <==> k2 - k1 <= 0x8000_0000)
  {
    if k1 < k2 {
      assert Wrap(k1 - k2) == k1 - k2 + 0x1_0000_0000;
    }
  }

  // The walk passes every item that does not compare above the new key.
  lemma {:induction false} SlotPasses(items: seq<Item>, key: Word, k: nat)
    requires k <= |items| && forall i | 0 <= i < k :: CompareTime(key, items[i].key) >= 0
    ensures Slot(ByTime, items, key) >= k
  {
    if k > 0 {
      SlotPasses(items[1..], key, k - 1);
    }
  }

  lemma EnqueueInReach(items: seq<Item>, x: Item)
    requires Sorted(items) && InReach(items, x.key)
    ensures Slot(ByTime, items, x.key) == Rank(items, x.key) && Sorted(Enqueue(ByTime, items, x))
  {
    var r := Rank(items, x.key);
    forall i | 0 <= i < r
      ensures CompareTime(x.key, items[i].key) >= 0
    {
      CompareTimeIs(x.key, items[i].key);
    }
    if r < |items| {
      CompareTimeIs(x.key, items[r].key);
    }
    SlotIs(items, x.key, r);
    SplicedSorted(items, r, x);
  }

  lemma EnqueueBeforeReach(items: seq<Item>, x: Item)
    requires Sorted(items) && items != [] && x.key - items[0].key >= 0x8000_0000
    ensures !Sorted(Enqueue(ByTime, items, x))
  {
    CompareTimeIs(x.key, items[0].key);
    var m := Enqueue(ByTime, items, x);
    assert m[0] == x && m[1] == items[0];
  }

  lemma EnqueueBehindReach(items: seq<Item>, x: Item, r: nat)
    requires Sorted(items) && r == Rank(items, x.key) < |items| && items[r].key - x.key > 0x8000_0000
    requires 0 < r ==> x.key - items[0].key < 0x8000_0000
    ensures !Sorted(Enqueue(ByTime, items, x))
  {
    forall i | 0 <= i < r + 1
      ensures CompareTime(x.key, items[i].key) >= 0
    {
      CompareTimeIs(x.key, items[i].key);
    }
    SlotPasses(items, x.key, r + 1);
    var m, k := Enqueue(ByTime, items, x), Slot(ByTime, items, x.key);
    assert m[r] == items[r] && m[k] == x;
  }

  // Insertion into a sorted queue leaves it sorted exactly if the new key is in reach, and
  // then it is stable.
  lemma EnqueueSortedExactly(items: seq<Item>, x: Item)
    requires Sorted(items)
    ensures Sorted(Enqueue(ByTime, items, x)) <==> InReach(items, x.key)
    ensures InReach(items, x.key) ==>
      var k := Slot(ByTime, items, x.key);
      && (forall i | 0 <= i < k :: items[i].key <= x.key)
      && (forall i | k <= i < |items| :: x.key < items[i].key)
  {
    var r := Rank(items, x.key);
    if InReach(items, x.key) {
      EnqueueInReach(items, x);
    } else if 0 < r && x.key - items[0].key >= 0x8000_0000 {
      EnqueueBeforeReach(items, x);
    } else {
      EnqueueBehindReach(items, x, r);
    }
  }

  // In particular within a window insertion is stable: the new item goes after every item
  // with the same or a smaller key and before every item with a larger one.
  lemma EnqueueByTimeIsStable(items: seq<Item>, x: Item, low: int)
    requires Sorted(items) && InWindow(items, x.key, low)
    ensures Sorted(Enqueue(ByTime, items, x))
    ensures var k := Slot(ByTime, items, x.key);
      && (forall i | 0 <= i < k :: items[i].key <= x.key)
      && (forall i | k <= i < |items| :: x.key < items[i].key)
  {
    EnqueueSortedExactly(items, x);
  }

  // Out of reach the queue leaves the order of the clock: a wake-up at 5 is
  // queued behind one at 0x90000000.
  lemma LongSleepBreaksOrder()
    ensures !Sorted(Enqueue(ByTime, [Item(0x9000_0000, 0)], Item(5, 1)))
  {
    assert Wrap(5 - 0x9000_0000) == 0x7000_0005;
    var items := [Item(0x9000_0000, 0)];
    assert CompareTime(5, items[0].key) >= 0;
    SlotIs(items, 5, 1);
    var r := Enqueue(ByTime, items, Item(5, 1));
    assert r[0].key > r[1].key;
  }

  function Total<T>(queues: seq<seq<T>>): nat {
    if queues == [] then 0 else Total(queues[..|queues| - 1]) + |queues[|queues| - 1]|
  }

  lemma {:induction false} TotalUpdate<T>(queues: seq<seq<T>>, q: nat, items: seq<T>)
    requires q < |queues|
    ensures Total(queues[q := items]) == Total(queues) - |queues[q]| + |items|
  {
    var n := |queues| - 1;
    if q < n {
      TotalUpdate(queues[..n], q, items);
      assert queues[q := items][..n] == queues[..n][q := items];
    } else {
      assert queues[q := items][..n] == queues[..n];
    }
  }

  lemma {:induction false} TotalOfLengths<S, T>(a: seq<seq<S>>, b: seq<seq<T>>)
    requires |a| == |b| && forall q | 0 <= q < |a| :: |a[q]| == |b[q]|
    ensures Total(a) == Total(b)
  {
    if a != [] {
      TotalOfLengths(a[..|a| - 1], b[..|b| - 1]);
    }
  }
}
