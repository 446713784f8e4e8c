/** The qnode pool and the linked queues of queue.c, updated in place. */
module QueueModule {
  import opened Common
  import opened QueueSpec

  // Pointers to qnodes and to queues are indices into _qnodes and _queues.
  datatype QNode = QNode(key: Word, data: int, next: int)
  datatype Queue = Queue(first: int, last: int, compare: Compare, size: nat)

  const ZERO_QUEUE := Queue(NULL, NULL, NoCompare, 0)

  // The node lists of the heap: one per queue, then the free list, the nodes held by a
  // running operation, and the nodes of queues that were deallocated while not empty.
  const FREE := N_QUEUES
  const HELD := N_QUEUES + 1
  const LOST := N_QUEUES + 2
  const N_LISTS := N_QUEUES + 3

  function After(l: seq<int>, i: nat): int {
    if i + 1 < |l| then l[i + 1] else NULL
  }

  function First(l: seq<int>): int {
    if l == [] then NULL else l[0]
  }

  function Last(l: seq<int>): int {
    if l == [] then NULL else l[|l| - 1]
  }

  // The nodes of `l`, in order, are linked from `head` and end in a null pointer.
  ghost predicate Chain(nodes: seq<QNode>, head: int, l: seq<int>) {
    && head == First(l)
    && (forall i | 0 <= i < |l| :: 0 <= l[i] < |nodes|)
    && (forall i {:trigger nodes[l[i]]} | 0 <= i < |l| :: nodes[l[i]].next == After(l, i))
  }

  ghost predicate Carries(nodes: seq<QNode>, l: seq<int>, items: seq<Item>) {
    && |l| == |items|
    && (forall i | 0 <= i < |l| :: 0 <= l[i] < |nodes|)
    && (forall i {:trigger nodes[l[i]]} {:trigger items[i]} | 0 <= i < |l| ::
          Item(nodes[l[i]].key, nodes[l[i]].data) == items[i])
  }

  ghost predicate Represents(nodes: seq<QNode>, queue: Queue, l: seq<int>, items: seq<Item>) {
    && Chain(nodes, queue.first, l) && Carries(nodes, l, items)
    && queue.last == Last(l) && queue.size == |l|
  }

  // No node is in two lists, or twice in one, and the lists have as many nodes as there are;
  // so every node is in exactly one of them (EveryNodeIsListed).
  ghost predicate Partition(lists: seq<seq<int>>, owner: seq<int>) {
    && |lists| == N_LISTS && |owner| == N_QNODES
    && (forall q, i | 0 <= q < N_LISTS && 0 <= i < |lists[q]| ::
          0 <= lists[q][i] < N_QNODES && owner[lists[q][i]] == q)
    && (forall q, i, j | 0 <= q < N_LISTS && 0 <= i < j < |lists[q]| :: lists[q][i] != lists[q][j])
    && Total(lists) == N_QNODES
  }

  // The heap of the queue module with its lists made explicit.
  datatype Heap = Heap(nodes: seq<QNode>, free: int, queues: seq<Queue>,
                       lists: seq<seq<int>>, owner: seq<int>, contents: seq<seq<Item>>)
  {
    ghost predicate Linked() {
      && |nodes| == N_QNODES && |queues| == N_QUEUES && |contents| == N_QUEUES
      && Partition(lists, owner)
      && Chain(nodes, free, lists[FREE])
      && forall q | 0 <= q < N_QUEUES :: Represents(nodes, queues[q], lists[q], contents[q])
    }

    // The same, in a form that a proof which only passes it along does not unfold.
    ghost predicate Intact() {
      forall h: Heap {:trigger h.Linked()} | h == this :: h.Linked()
    }

    ghost function Compares(): (r: seq<Compare>)
      ensures |r| == |queues| && forall q | 0 <= q < |queues| :: r[q] == queues[q].compare
    {
      seq(|queues|, q requires 0 <= q < |queues| => queues[q].compare)
    }
  }

  // The heap has the right sizes and an operation holds a node.
  ghost predicate Holds(h: Heap) {
    && |h.lists| == N_LISTS && h.lists[HELD] != []
    && |h.nodes| == |h.owner| == N_QNODES && |h.queues| == |h.contents| == N_QUEUES
    && 0 <= h.lists[HELD][0] < N_QNODES
  }

  ghost function Elements(l: seq<int>): set<int> {
    set n | n in l
  }

  ghost function Nodes(lists: seq<seq<int>>): set<int> {
    if lists == [] then {} else Nodes(lists[..|lists| - 1]) + Elements(lists[|lists| - 1])
  }

  lemma {:induction false} DistinctCount(l: seq<int>)
    requires forall i, j | 0 <= i < j < |l| :: l[i] != l[j]
    ensures |Elements(l)| == |l|
  {
    if l != [] {
      var t, x := l[..|l| - 1], l[|l| - 1];
      DistinctCount(t);
      assert Elements(l) == Elements(t) + {x} by {
        assert l == t + [x];
      }
    }
  }

  // The nodes of the first k lists.
  ghost predicate Listed(lists: seq<seq<int>>, owner: seq<int>, k: nat)
    requires |lists| == N_LISTS && |owner| == N_QNODES && k <= N_LISTS
  {
    && |Nodes(lists[..k])| == Total(lists[..k])
    && forall n | n in Nodes(lists[..k]) :: 0 <= n < N_QNODES && 0 <= owner[n] < k && n in lists[owner[n]]
  }

  lemma ListElements(lists: seq<seq<int>>, owner: seq<int>, q: nat)
    requires Partition(lists, owner) && q < N_LISTS
    ensures |Elements(lists[q])| == |lists[q]|
    ensures forall n | n in Elements(lists[q]) :: 0 <= n < N_QNODES && owner[n] == q && n in lists[q]
  {
    DistinctCount(lists[q]);
  }

  lemma OneListMore(lists: seq<seq<int>>, k: nat)
    requires k < |lists|
    ensures Nodes(lists[..k + 1]) == Nodes(lists[..k]) + Elements(lists[k])
    ensures Total(lists[..k + 1]) == Total(lists[..k]) + |lists[k]|
  {
    assert lists[..k + 1][..k] == lists[..k];
  }

  lemma {:induction false} NodeCount(lists: seq<seq<int>>, owner: seq<int>, k: nat)
    requires Partition(lists, owner) && k <= N_LISTS
    ensures Listed(lists, owner, k)
  {
    if k > 0 {
      NodeCount(lists, owner, k - 1);
      ListElements(lists, owner, k - 1);
      OneListMore(lists, k - 1);
      assert Nodes(lists[..k - 1]) !! Elements(lists[k - 1]);
    }
  }

  function Below(n: nat): (r: set<int>)
    ensures |r| == n && forall i :: i in r <==> 0 <= i < n
  {
    if n == 0 then {} else Below(n - 1) + {n - 1}
  }

  lemma SubsetOfEqualSize(a: set<int>, b: set<int>)
    requires a <= b && |a| == |b|
    ensures a == b
  {
    assert |b - a| == |b| - |a|;
  }

  lemma NodesAreAll(lists: seq<seq<int>>, owner: seq<int>)
    requires Partition(lists, owner)
    ensures Nodes(lists) == Below(N_QNODES)
    ensures forall n | n in Nodes(lists) :: 0 <= owner[n] < N_LISTS && n in lists[owner[n]]
  {
    NodeCount(lists, owner, N_LISTS);
    assert lists[..N_LISTS] == lists;
    assert Nodes(lists) <= Below(N_QNODES);
    SubsetOfEqualSize(Nodes(lists), Below(N_QNODES));
  }

  // Nothing of the node array is outside the lists.
  lemma EveryNodeIsListed(lists: seq<seq<int>>, owner: seq<int>, n: nat)
    requires Partition(lists, owner) && n < N_QNODES
    ensures 0 <= owner[n] < N_LISTS && n in lists[owner[n]]
  {
    NodesAreAll(lists, owner);
    assert n in Below(N_QNODES);
  }

  // Moves the first node of one list to position k of another.
  ghost function Relist(lists: seq<seq<int>>, from: nat, to: nat, k: nat): seq<seq<int>>
    requires from < |lists| && to < |lists| && from != to
    requires lists[from] != [] && k <= |lists[to]|
  {
    lists[from := lists[from][1..]][to := lists[to][..k] + [lists[from][0]] + lists[to][k..]]
  }

  // What a relisting does to each list.
  lemma RelistAt(lists: seq<seq<int>>, from: nat, to: nat, k: nat)
    requires from < |lists| && to < |lists| && from != to
    requires lists[from] != [] && k <= |lists[to]|
    ensures var r := Relist(lists, from, to, k);
      && |r| == |lists| && r[from] == lists[from][1..]
      && r[to] == lists[to][..k] + [lists[from][0]] + lists[to][k..]
      && (forall q | 0 <= q < |lists| && q != from && q != to :: r[q] == lists[q])
      && Total(r) == Total(lists)
  {
    TotalUpdate(lists, from, lists[from][1..]);
    TotalUpdate(lists[from := lists[from][1..]], to, Relist(lists, from, to, k)[to]);
  }

  // Where the node at position i of a relisted list was before.
  lemma RelistFrom(lists: seq<seq<int>>, from: nat, to: nat, k: nat, q: nat, i: nat)
    requires from < |lists| && to < |lists| && from != to && q < |lists|
    requires lists[from] != [] && k <= |lists[to]|
    requires i < |Relist(lists, from, to, k)[q]|
    ensures var n := Relist(lists, from, to, k)[q][i];
      if q == from then i + 1 < |lists[from]| && n == lists[from][i + 1]
      else if q == to && i == k then n == lists[from][0]
      else if q == to then i - 1 < |lists[to]| && n == lists[to][if i < k then i else i - 1]
      else Relist(lists, from, to, k)[q] == lists[q]
  {}

  lemma RelistKeepsPartition(lists: seq<seq<int>>, owner: seq<int>, from: nat, to: nat, k: nat)
    requires Partition(lists, owner)
    requires from < N_LISTS && to < N_LISTS && from != to
    requires lists[from] != [] && k <= |lists[to]|
    ensures Partition(Relist(lists, from, to, k), owner[lists[from][0] := to])
  {
    var r, n := Relist(lists, from, to, k), lists[from][0];
    var o := owner[n := to];
    RelistAt(lists, from, to, k);
    forall q, i | 0 <= q < N_LISTS && 0 <= i < |r[q]|
      ensures 0 <= r[q][i] < N_QNODES && o[r[q][i]] == q
    {
      RelistFrom(lists, from, to, k, q, i);
    }
    forall q, i, j | 0 <= q < N_LISTS && 0 <= i < j < |r[q]|
      ensures r[q][i] != r[q][j]
    {
      RelistFrom(lists, from, to, k, q, i);
      RelistFrom(lists, from, to, k, q, j);
    }
  }

  ghost function Abandoned(owner: seq<int>, q: nat): (r: seq<int>)
    ensures |r| == |owner|
    ensures forall n | 0 <= n < |owner| :: r[n] == if owner[n] == q then LOST else owner[n]
  {
    seq(|owner|, n requires 0 <= n < |owner| => if owner[n] == q then LOST else owner[n])
  }

  lemma AbandonKeepsPartition(lists: seq<seq<int>>, owner: seq<int>, q: nat)
    requires Partition(lists, owner) && q < N_QUEUES
    ensures Partition(lists[q := []][LOST := lists[LOST] + lists[q]], Abandoned(owner, q))
  {
    var r, o := lists[q := []][LOST := lists[LOST] + lists[q]], Abandoned(owner, q);
    TotalUpdate(lists, q, []);
    TotalUpdate(lists[q := []], LOST, r[LOST]);
    forall p, i | 0 <= p < N_LISTS && 0 <= i < |r[p]|
      ensures 0 <= r[p][i] < N_QNODES && o[r[p][i]] == p
    {
      if p == LOST && |lists[LOST]| <= i { assert r[p][i] == lists[q][i - |lists[LOST]|]; }
    }
    forall p, i, j | 0 <= p < N_LISTS && 0 <= i < j < |r[p]|
      ensures r[p][i] != r[p][j]
    {
      if p == LOST && |lists[LOST]| <= j {
        assert r[p][j] == lists[q][j - |lists[LOST]|];
        if i < |lists[LOST]| { assert owner[r[p][i]] == LOST; }
      }
    }
  }

  // Total over all lists, split by kind.
  lemma ListTotal(lists: seq<seq<int>>, contents: seq<seq<Item>>)
    requires |lists| == N_LISTS && |contents| == N_QUEUES
    requires forall q | 0 <= q < N_QUEUES :: |lists[q]| == |contents[q]|
    ensures Total(lists) == Total(contents) + |lists[FREE]| + |lists[HELD]| + |lists[LOST]|
  {
    TotalOfLengths(lists[..FREE], contents);
    assert lists[..LOST][..HELD] == lists[..HELD];
    assert lists[..HELD][..FREE] == lists[..FREE];
    assert Total(lists[..LOST]) == Total(lists[..HELD]) + |lists[HELD]|;
    assert Total(lists[..HELD]) == Total(lists[..FREE]) + |lists[FREE]|;
  }

  // Writing to a node outside a list does not disturb it.
  lemma ChainFrame(nodes: seq<QNode>, head: int, l: seq<int>, n: int, x: QNode)
    requires 0 <= n < |nodes| && n !in l && Chain(nodes, head, l)
    ensures Chain(nodes[n := x], head, l)
  {}

  lemma CarriesFrame(nodes: seq<QNode>, l: seq<int>, items: seq<Item>, n: int, x: QNode)
    requires 0 <= n < |nodes| && Carries(nodes, l, items)
    requires n !in l || (x.key == nodes[n].key && x.data == nodes[n].data)
    ensures Carries(nodes[n := x], l, items)
  {}

  // Writing to a node of one list leaves all other lists alone.
  lemma OthersFrame(h: Heap, owned: nat, n: int, x: QNode)
    requires h.Linked() && owned < N_LISTS && n in h.lists[owned]
    ensures 0 <= n < N_QNODES
    ensures owned != FREE ==> Chain(h.nodes[n := x], h.free, h.lists[FREE])
    ensures forall q | 0 <= q < N_QUEUES && q != owned ::
              Represents(h.nodes[n := x], h.queues[q], h.lists[q], h.contents[q])
  {
    forall q | 0 <= q < N_LISTS && q != owned
      ensures n !in h.lists[q]
    {}
    if owned != FREE { ChainFrame(h.nodes, h.free, h.lists[FREE], n, x); }
    forall q | 0 <= q < N_QUEUES && q != owned
      ensures Represents(h.nodes[n := x], h.queues[q], h.lists[q], h.contents[q])
    {
      ChainFrame(h.nodes, h.queues[q].first, h.lists[q], n, x);
      CarriesFrame(h.nodes, h.lists[q], h.contents[q], n, x);
    }
  }

  // _qnode_dealloc as a step on heaps: push the held node.
  ghost function Freed(h: Heap): Heap
    requires Holds(h)
  {
    var n := h.lists[HELD][0];
    h.(nodes := h.nodes[n := h.nodes[n].(next := h.free)], free := n,
       lists := Relist(h.lists, HELD, FREE, 0), owner := h.owner[n := FREE])
  }

  lemma FreedIsLinked(h: Heap)
    requires h.Linked() && h.lists[HELD] != []
    ensures Freed(h).Linked()
  {
    var n, r := h.lists[HELD][0], Freed(h);
    RelistKeepsPartition(h.lists, h.owner, HELD, FREE, 0);
    OthersFrame(h, HELD, n, r.nodes[n]);
    var l := r.lists[FREE];
    assert l == [n] + h.lists[FREE];
    forall i {:trigger r.nodes[l[i]]} | 0 <= i < |l|
      ensures r.nodes[l[i]].next == After(l, i)
    {
      if i > 0 {
        assert l[i] == h.lists[FREE][i - 1];
        assert h.nodes[h.lists[FREE][i - 1]].next == After(h.lists[FREE], i - 1);
      }
    }
  }

  // _qnode_alloc as a step on heaps: pop the first free node.
  ghost function Popped(h: Heap): Heap
    requires h.Linked() && h.lists[FREE] != []
  {
    var n := h.lists[FREE][0];
    h.(nodes := h.nodes[n := h.nodes[n].(next := NULL)], free := h.nodes[n].next,
       lists := Relist(h.lists, FREE, HELD, 0), owner := h.owner[n := HELD])
  }

  lemma PoppedIsLinked(h: Heap)
    requires h.Linked() && h.lists[FREE] != []
    ensures Popped(h).Linked()
  {
    var n, r := h.lists[FREE][0], Popped(h);
    RelistKeepsPartition(h.lists, h.owner, FREE, HELD, 0);
    OthersFrame(h, FREE, n, r.nodes[n]);
    TailChain(h.nodes, h.free, h.lists[FREE], r.nodes[n]);
  }

  // Unlinking the first node of a list.
  lemma TailChain(nodes: seq<QNode>, head: int, l: seq<int>, x: QNode)
    requires Chain(nodes, head, l) && l != []
    requires forall i, j | 0 <= i < j < |l| :: l[i] != l[j]
    ensures Chain(nodes[l[0] := x], nodes[l[0]].next, l[1..])
  {
    var t, r := l[1..], nodes[l[0] := x];
    forall i {:trigger r[t[i]]} | 0 <= i < |t|
      ensures r[t[i]].next == After(t, i)
    {
      assert t[i] == l[i + 1];
      assert nodes[l[i + 1]].next == After(l, i + 1);
    }
  }

  // _queue_insert after its slot is found: link node n before position k of a list.
  ghost function LinkedNodes(nodes: seq<QNode>, l: seq<int>, k: nat, n: nat, x: Item): (r: seq<QNode>)
    requires n < |nodes| && k <= |l| && forall i | 0 <= i < |l| :: 0 <= l[i] < |nodes|
    ensures |r| == |nodes|
  {
    var r := nodes[n := QNode(x.key, x.data, if k < |l| then l[k] else NULL)];
    if k == 0 then r else r[l[k - 1] := r[l[k - 1]].(next := n)]
  }

  ghost function LinkedQueue(queue: Queue, l: seq<int>, k: nat, n: nat): Queue {
    queue.(first := if k == 0 then n else queue.first, last := if k == |l| then n else queue.last,
           size := |l| + 1)
  }

  // The node at position i of the longer list.
  lemma LinkedAt(nodes: seq<QNode>, head: int, l: seq<int>, items: seq<Item>, k: nat, n: nat, x: Item, i: nat)
    requires Chain(nodes, head, l) && Carries(nodes, l, items)
    requires n < |nodes| && k <= |l| && n !in l && forall i, j | 0 <= i < j < |l| :: l[i] != l[j]
    requires i <= |l|
    ensures var r, m := LinkedNodes(nodes, l, k, n, x), l[..k] + [n] + l[k..];
      && 0 <= m[i] < |r| && r[m[i]].next == After(m, i)
      && Item(r[m[i]].key, r[m[i]].data) == (items[..k] + [x] + items[k..])[i]
  {
    var r, m := LinkedNodes(nodes, l, k, n, x), l[..k] + [n] + l[k..];
    if i == k {
      assert m[i] == n && r[n] == QNode(x.key, x.data, if k < |l| then l[k] else NULL);
    } else {
      var j := if i < k then i else i - 1;
      assert m[i] == l[j] && l[j] != n;
      assert nodes[l[j]].next == After(l, j);
      if i == k - 1 {
        assert m[i + 1] == n;
      } else {
        assert k > 0 ==> l[j] != l[k - 1];
        assert After(m, i) == After(l, j);
      }
    }
  }

  lemma LinkedRepresents(nodes: seq<QNode>, queue: Queue, l: seq<int>, items: seq<Item>, k: nat, n: nat, x: Item)
    requires Represents(nodes, queue, l, items)
    requires n < |nodes| && k <= |l| && n !in l && forall i, j | 0 <= i < j < |l| :: l[i] != l[j]
    ensures Represents(LinkedNodes(nodes, l, k, n, x), LinkedQueue(queue, l, k, n),
                       l[..k] + [n] + l[k..], items[..k] + [x] + items[k..])
  {
    var r, m, c := LinkedNodes(nodes, l, k, n, x), l[..k] + [n] + l[k..], items[..k] + [x] + items[k..];
    forall i | 0 <= i < |m|
      ensures 0 <= m[i] < |r|
    { LinkedAt(nodes, queue.first, l, items, k, n, x, i); }
    forall i {:trigger r[m[i]]} | 0 <= i < |m|
      ensures r[m[i]].next == After(m, i) && Item(r[m[i]].key, r[m[i]].data) == c[i]
    { LinkedAt(nodes, queue.first, l, items, k, n, x, i); }
  }

  ghost function Inserted(h: Heap, q: nat, x: Item): Heap
    requires Holds(h) && q < N_QUEUES
    requires Represents(h.nodes, h.queues[q], h.lists[q], h.contents[q])
  {
    var n, l, c := h.lists[HELD][0], h.lists[q], h.contents[q];
    var k := Slot(h.queues[q].compare, c, x.key);
    h.(nodes := LinkedNodes(h.nodes, l, k, n, x), queues := h.queues[q := LinkedQueue(h.queues[q], l, k, n)],
       lists := Relist(h.lists, HELD, q, k), owner := h.owner[n := q],
       contents := h.contents[q := Enqueue(h.queues[q].compare, c, x)])
  }

  lemma HeldWritten(h: Heap, x: QNode)
    requires h.Linked() && h.lists[HELD] != []
    ensures Holds(h) && h.(nodes := h.nodes[h.lists[HELD][0] := x]).Linked()
  {
    OthersFrame(h, HELD, h.lists[HELD][0], x);
  }

  lemma InsertedIsLinked(h: Heap, q: nat, x: Item)
    requires h.Linked() && h.lists[HELD] != [] && q < N_QUEUES
    ensures Holds(h) && Inserted(h, q, x).Linked()
  {
    var n, l, r := h.lists[HELD][0], h.lists[q], Inserted(h, q, x);
    var k := Slot(h.queues[q].compare, h.contents[q], x.key);
    assert n !in l;
    RelistKeepsPartition(h.lists, h.owner, HELD, q, k);
    LinkedRepresents(h.nodes, h.queues[q], l, h.contents[q], k, n, x);
    var y := QNode(x.key, x.data, if k < |l| then l[k] else NULL);
    var h1 := h.(nodes := h.nodes[n := y]);
    HeldWritten(h, y);
    if k > 0 {
      OthersFrame(h1, q, l[k - 1], h1.nodes[l[k - 1]].(next := n));
    }
    forall p | 0 <= p < N_QUEUES
      ensures Represents(r.nodes, r.queues[p], r.lists[p], r.contents[p])
    {
      if p != q { assert Represents(h1.nodes, h.queues[p], h.lists[p], h.contents[p]); }
    }
  }

  // _queue_remove before the node is returned to the pool: unlink the first node.
  ghost function Unlinked(h: Heap, q: nat): Heap
    requires h.Linked() && q < N_QUEUES && h.lists[q] != []
  {
    var n, queue := h.lists[q][0], h.queues[q];
    var next := h.nodes[n].next;
    h.(queues := h.queues[q := queue.(first := next, last := if next == NULL then NULL else queue.last,
                                      size := |h.lists[q]| - 1)],
       lists := Relist(h.lists, q, HELD, 0), owner := h.owner[n := HELD],
       contents := h.contents[q := h.contents[q][1..]])
  }

  lemma TailRepresents(nodes: seq<QNode>, queue: Queue, l: seq<int>, items: seq<Item>)
    requires Represents(nodes, queue, l, items) && l != []
    requires forall i, j | 0 <= i < j < |l| :: l[i] != l[j]
    ensures var next := nodes[l[0]].next;
      Represents(nodes, queue.(first := next, last := if next == NULL then NULL else queue.last, size := |l| - 1),
                 l[1..], items[1..])
  {
    TailChain(nodes, queue.first, l, nodes[l[0]]);
    assert nodes[l[0] := nodes[l[0]]] == nodes;
    assert nodes[l[0]].next == After(l, 0);
    forall i {:trigger nodes[l[1..][i]]} | 0 <= i < |l| - 1
      ensures Item(nodes[l[1..][i]].key, nodes[l[1..][i]].data) == items[1..][i]
    {
      assert l[1..][i] == l[i + 1];
    }
  }

  lemma UnlinkedIsLinked(h: Heap, q: nat)
    requires h.Linked() && q < N_QUEUES && h.lists[q] != []
    ensures Unlinked(h, q).Linked()
  {
    RelistKeepsPartition(h.lists, h.owner, q, HELD, 0);
    TailRepresents(h.nodes, h.queues[q], h.lists[q], h.contents[q]);
  }

  // _queue_init, which is also the clearing of _queue_dealloc: the nodes the queue still
  // had are lost.
  ghost function Cleared(h: Heap, q: nat, cmp: Compare): Heap
    requires h.Linked() && q < N_QUEUES
  {
    h.(queues := h.queues[q := Queue(NULL, NULL, cmp, 0)], contents := h.contents[q := []],
       lists := h.lists[q := []][LOST := h.lists[LOST] + h.lists[q]], owner := Abandoned(h.owner, q))
  }

  lemma ClearedIsLinked(h: Heap, q: nat, cmp: Compare)
    requires h.Linked() && q < N_QUEUES
    ensures var r := Cleared(h, q, cmp);
      && r.Linked() && r.lists[HELD] == h.lists[HELD]
      && |r.lists[LOST]| == |h.lists[LOST]| + |h.contents[q]|
      && r.Compares() == h.Compares()[q := cmp]
  {
    AbandonKeepsPartition(h.lists, h.owner, q);
    assert Represents(h.nodes, h.queues[q], h.lists[q], h.contents[q]);
  }

  lemma FreeNodes(h: Heap)
    requires h.Linked() && h.lists[HELD] == []
    ensures h.lists[FREE] == [] <==> Total(h.contents) + |h.lists[LOST]| >= N_QNODES
  {
    forall q | 0 <= q < N_QUEUES
      ensures |h.lists[q]| == |h.contents[q]|
    {
      assert Represents(h.nodes, h.queues[q], h.lists[q], h.contents[q]);
    }
    ListTotal(h.lists, h.contents);
  }

  // A whole insertion: pop a free node and link it at its slot.
  lemma InsertStepFacts(h: Heap, q: nat, x: Item)
    requires h.Linked() && h.lists[FREE] != [] && h.lists[HELD] == [] && q < N_QUEUES
    ensures Holds(Popped(h)) && h.lists[FREE][0] !in h.lists[q]
    ensures Represents(Popped(h).nodes, h.queues[q], h.lists[q], h.contents[q])
    ensures var r := Inserted(Popped(h), q, x);
      && r.Linked() && r.lists[HELD] == [] && r.lists[LOST] == h.lists[LOST]
      && r.contents == h.contents[q := Enqueue(h.queues[q].compare, h.contents[q], x)]
      && r.Compares() == h.Compares()
  {
    PoppedIsLinked(h);
    InsertedIsLinked(Popped(h), q, x);
  }

  // A whole removal: unlink the first node and push it on the free list.
  ghost function RemoveStep(h: Heap, q: nat): Heap
    requires h.Linked() && q < N_QUEUES && h.lists[q] != []
  {
    UnlinkedIsLinked(h, q);
    Freed(Unlinked(h, q))
  }

  lemma RemoveStepFacts(h: Heap, q: nat)
    requires h.Linked() && q < N_QUEUES && h.lists[q] != [] && h.lists[HELD] == []
    ensures RemoveStep(h, q).Linked()
    ensures RemoveStep(h, q).lists[HELD] == [] && RemoveStep(h, q).lists[LOST] == h.lists[LOST]
    ensures RemoveStep(h, q).Compares() == h.Compares()
    ensures Holds(Unlinked(h, q))
  {
    UnlinkedIsLinked(h, q);
    FreedIsLinked(Unlinked(h, q));
  }

  // The heap before initialisation: static storage is zero and no node is in any list yet.
  ghost function StaticLists(): (r: seq<seq<int>>)
    ensures |r| == N_LISTS && |r[HELD]| == N_QNODES
    ensures forall q | 0 <= q < N_LISTS && q != HELD :: r[q] == []
    ensures forall n | 0 <= n < N_QNODES :: r[HELD][n] == n
  {
    seq(N_LISTS, q => if q == HELD then seq(N_QNODES, i => i) else [])
  }

  ghost function StaticHeap(): (h: Heap)
    ensures |h.nodes| == N_QNODES && h.free == NULL && h.lists == StaticLists()
    ensures |h.queues| == |h.contents| == N_QUEUES
    ensures forall q | 0 <= q < N_QUEUES :: h.queues[q] == ZERO_QUEUE && h.contents[q] == []
    ensures |h.owner| == N_QNODES && forall n | 0 <= n < N_QNODES :: h.owner[n] == HELD
  {
    Heap(seq(N_QNODES, i => QNode(0, 0, NULL)), NULL, seq(N_QUEUES, q => ZERO_QUEUE),
         StaticLists(), seq(N_QNODES, n => HELD), seq(N_QUEUES, q => []))
  }

  lemma StaticPartition()
    ensures Partition(StaticLists(), StaticHeap().owner)
  {
    var lists, none := StaticLists(), StaticHeap().contents;
    ListTotal(lists, none);
    TotalOfEmpty(none);
  }

  lemma StaticHeapIsLinked()
    ensures StaticHeap().Linked()
  {
    StaticPartition();
    var h := StaticHeap();
    forall q | 0 <= q < N_QUEUES
      ensures Represents(h.nodes, h.queues[q], h.lists[q], h.contents[q])
    {
      assert h.lists[q] == [] && h.contents[q] == [] && h.queues[q] == ZERO_QUEUE;
    }
  }

  lemma {:induction false} TotalOfEmpty(contents: seq<seq<Item>>)
    requires forall q | 0 <= q < |contents| :: contents[q] == []
    ensures Total(contents) == 0
  {
    if contents != [] {
      TotalOfEmpty(contents[..|contents| - 1]);
    }
  }

  class Queues {
    const nodes: array<QNode>      // _qnodes
    const queues: array<Queue>     // _queues
    var freeNodes: int             // _free_qnodes
    var freeQueues: nat            // _free_queues

    // The nodes of every list, the list of every node, and the items of every queue.
    ghost var lists: seq<seq<int>>
    ghost var owner: seq<int>
    ghost var contents: seq<seq<Item>>

    ghost function View(): Heap
      reads this, nodes, queues
    {
      Heap(nodes[..], freeNodes, queues[..], lists, owner, contents)
    }

    // The heap shape between operations: no node is held.
    ghost predicate Valid()
      reads this, nodes, queues
    {
      && View().Intact() && queues.Length == N_QUEUES && |contents| == N_QUEUES
      && |lists| == N_LISTS && lists[HELD] == []
    }

    ghost function Lost(): nat
      reads this
      requires |lists| == N_LISTS
    {
      |lists[LOST]|
    }

    // Static storage: every pointer is null and every field zero.
    constructor ()
      ensures nodes.Length == N_QNODES && queues.Length == N_QUEUES && fresh(nodes) && fresh(queues)
      ensures View() == StaticHeap() && View().Linked()
    {
      nodes := new QNode[N_QNODES](_ => QNode(0, 0, NULL));
      queues := new Queue[N_QUEUES](_ => ZERO_QUEUE);
      freeNodes, freeQueues := NULL, 0;
      lists, owner, contents := StaticHeap().lists, StaticHeap().owner, StaticHeap().contents;
      new;
      assert nodes[..] == StaticHeap().nodes && queues[..] == StaticHeap().queues;
      assert View() == StaticHeap();
      StaticHeapIsLinked();
    }

    method QnodeDealloc(node: int)
      requires Holds(View()) && node == lists[HELD][0]
      modifies `freeNodes, `lists, `owner, nodes
      ensures View() == Freed(old(View()))
    {
      nodes[node] := nodes[node].(next := freeNodes);
      freeNodes := node;
      lists, owner := Relist(lists, HELD, FREE, 0), owner[node := FREE];
    }

    method QnodeAlloc() returns (node: int)
      requires Valid()
      modifies `freeNodes, `lists, `owner, nodes
      ensures old(lists[FREE]) == [] ==> node == NULL && View() == old(View())
      ensures old(lists[FREE]) != [] ==>
        node == old(lists[FREE][0]) && View() == Popped(old(View()))
    {
      node := freeNodes;
      assert View().Linked();
      if node != NULL {
        freeNodes := nodes[node].next;
        nodes[node] := nodes[node].(next := NULL);
        lists, owner := Relist(lists, FREE, HELD, 0), owner[node := HELD];
      }
    }

    method QueueEmpty(queue: nat) returns (empty: bool)
      requires Valid() && queue < N_QUEUES
      ensures empty <==> contents[queue] == []
    {
      assert View().Linked();
      assert Represents(nodes[..], queues[queue], lists[queue], contents[queue]);
      empty := queues[queue].first == NULL;
    }

    method QueueSize(queue: nat) returns (size: nat)
      requires Valid() && queue < N_QUEUES
      ensures size == |contents[queue]|
    {
      assert View().Linked();
      assert Represents(nodes[..], queues[queue], lists[queue], contents[queue]);
      size := queues[queue].size;
    }

    // The key of the first element, which NULL (that is, 0) stands for in an empty queue.
    method QueueKpeek(queue: nat) returns (key: Word)
      requires Valid() && queue < N_QUEUES
      ensures key == if contents[queue] == [] then 0 else contents[queue][0].key
    {
      var empty := QueueEmpty(queue);
      if empty { return 0; }
      assert View().Linked();
      assert Represents(nodes[..], queues[queue], lists[queue], contents[queue]);
      key := nodes[queues[queue].first].key;
    }

    method QueueDpeek(queue: nat) returns (data: int)
      requires Valid() && queue < N_QUEUES
      ensures data == if contents[queue] == [] then NULL else contents[queue][0].data
    {
      var empty := QueueEmpty(queue);
      if empty { return NULL; }
      assert View().Linked();
      assert Represents(nodes[..], queues[queue], lists[queue], contents[queue]);
      data := nodes[queues[queue].first].data;
    }

    // _queue_remove up to the return of the node.
    method Unlink(queue: nat) returns (node: nat, data: int)
      requires nodes.Length == N_QNODES && queues.Length == N_QUEUES && queue < N_QUEUES
      requires |lists| == N_LISTS && |contents| == N_QUEUES && lists[queue] != []
      requires Represents(nodes[..], queues[queue], lists[queue], contents[queue])
      modifies queues
      ensures node == lists[queue][0] && data == contents[queue][0].data
      ensures var next := nodes[node].next;
        queues[..] == old(queues[..])[queue :=
          old(queues[queue]).(first := next, last := if next == NULL then NULL else old(queues[queue].last),
                              size := |lists[queue]| - 1)]
    {
      node := queues[queue].first;
      assert nodes[..][lists[queue][0]].data == contents[queue][0].data;
      queues[queue] := queues[queue].(first := nodes[node].next);
      if queues[queue].first == NULL {
        queues[queue] := queues[queue].(last := NULL);
      }
      queues[queue] := queues[queue].(size := queues[queue].size - 1);
      data := nodes[node].data;
    }

    method QueueRemove(queue: nat) returns (data: int)
      requires Valid() && queue < N_QUEUES
      modifies `freeNodes, `lists, `owner, `contents, nodes, queues
      ensures Valid() && Lost() == old(Lost())
      ensures old(contents[queue]) == [] ==> data == NULL && contents == old(contents)
      ensures old(contents[queue]) != [] ==>
        && data == old(contents[queue][0].data)
        && contents == old(contents)[queue := old(contents[queue])[1..]]
      ensures View().Compares() == old(View().Compares())
    {
      var empty := QueueEmpty(queue);
      if empty {
        return NULL;
      }
      ghost var h := View();
      assert h.Linked();
      assert Represents(h.nodes, h.queues[queue], h.lists[queue], h.contents[queue]);
      RemoveStepFacts(h, queue);
      var node;
      node, data := Unlink(queue);
      lists, owner, contents :=
        Relist(lists, queue, HELD, 0), owner[node := HELD], contents[queue := contents[queue][1..]];
      assert View() == Unlinked(h, queue);
      QnodeDealloc(node);
    }

    // The search loop of _queue_insert.
    method FindSlot(queue: nat, node: nat) returns (prev: int, curr: int, ghost k: nat)
      requires nodes.Length == N_QNODES && queues.Length == N_QUEUES && queue < N_QUEUES && node < N_QNODES
      requires |lists| == N_LISTS && |contents| == N_QUEUES
      requires Represents(nodes[..], queues[queue], lists[queue], contents[queue])
      ensures k == Slot(ByTime, contents[queue], nodes[node].key) && k <= |lists[queue]|
      ensures curr == if k < |lists[queue]| then lists[queue][k] else NULL
      ensures prev == if k == 0 then NULL else lists[queue][k - 1]
    {
      ghost var l, items := lists[queue], contents[queue];
      prev, curr, k := NULL, queues[queue].first, 0;
      while curr != NULL && CompareTime(nodes[node].key, nodes[curr].key) >= 0
        invariant 0 <= k <= |l|
        invariant curr == if k < |l| then l[k] else NULL
        invariant prev == if k == 0 then NULL else l[k - 1]
        invariant forall i | 0 <= i < k :: CompareTime(nodes[node].key, items[i].key) >= 0
        decreases |l| - k
      {
        assert nodes[..][l[k]].next == After(l, k) && nodes[..][l[k]].key == items[k].key;
        prev, curr, k := curr, nodes[curr].next, k + 1;
      }
      if k < |l| { assert nodes[..][l[k]].key == items[k].key; }
      SlotIs(items, nodes[node].key, k);
    }

    // _queue_insert into a non-empty queue with a comparison function.
    method LinkSorted(queue: nat, node: nat)
      requires nodes.Length == N_QNODES && queues.Length == N_QUEUES && queue < N_QUEUES && node < N_QNODES
      requires |lists| == N_LISTS && |contents| == N_QUEUES && lists[queue] != []
      requires Represents(nodes[..], queues[queue], lists[queue], contents[queue])
      requires node !in lists[queue]
      modifies nodes, queues
      ensures var k := Slot(ByTime, contents[queue], old(nodes[node].key));
        var x := Item(old(nodes[node].key), old(nodes[node].data));
        && nodes[..] == LinkedNodes(old(nodes[..]), lists[queue], k, node, x)
        && queues[..] == old(queues[..])[queue := LinkedQueue(old(queues[queue]), lists[queue], k, node)]
    {
      var prev, curr, k := FindSlot(queue, node);
      nodes[node] := nodes[node].(next := curr);
      if prev == NULL {
        queues[queue] := queues[queue].(first := node);
      } else {
        nodes[prev] := nodes[prev].(next := node);
      }
      if curr == NULL {
        queues[queue] := queues[queue].(last := node);
      }
      queues[queue] := queues[queue].(size := queues[queue].size + 1);
    }

    // _queue_insert once a node is at hand.
    method Link(queue: nat, node: nat, data: int, key: Word)
      requires nodes.Length == N_QNODES && queues.Length == N_QUEUES && queue < N_QUEUES && node < N_QNODES
      requires |lists| == N_LISTS && |contents| == N_QUEUES
      requires Represents(nodes[..], queues[queue], lists[queue], contents[queue])
      requires node !in lists[queue] && nodes[node].next == NULL
      modifies nodes, queues
      ensures var k := Slot(old(queues[queue].compare), contents[queue], key);
        && nodes[..] == LinkedNodes(old(nodes[..]), lists[queue], k, node, Item(key, data))
        && queues[..] == old(queues[..])[queue := LinkedQueue(old(queues[queue]), lists[queue], k, node)]
    {
      ghost var l, before := lists[queue], nodes[..];
      nodes[node] := nodes[node].(key := key, data := data);
      CarriesFrame(before, l, contents[queue], node, nodes[node]);
      ChainFrame(before, queues[queue].first, l, node, nodes[node]);
      assert nodes[..] == before[node := nodes[node]];

      if queues[queue].first == NULL {
        queues[queue] := queues[queue].(first := node, last := node, size := 1);
      } else if queues[queue].compare == NoCompare {
        nodes[queues[queue].last] := nodes[queues[queue].last].(next := node);
        queues[queue] := queues[queue].(last := node, size := queues[queue].size + 1);
      } else {
        LinkSorted(queue, node);
      }
    }

    method LinkHeld(queue: nat, node: nat, data: int, key: Word)
      requires Holds(View()) && queue < N_QUEUES
      requires Represents(nodes[..], queues[queue], lists[queue], contents[queue])
      requires node == lists[HELD][0] && node !in lists[queue] && nodes[node].next == NULL
      modifies `lists, `owner, `contents, nodes, queues
      ensures View() == Inserted(old(View()), queue, Item(key, data))
    {
      ghost var cmp := queues[queue].compare;
      ghost var k := Slot(cmp, contents[queue], key);
      Link(queue, node, data, key);
      lists, owner, contents := Relist(lists, HELD, queue, k), owner[node := queue],
        contents[queue := Enqueue(cmp, contents[queue], Item(key, data))];
    }

    method QueueInsert(queue: nat, data: int, key: Word) returns (status: Status)
      requires Valid() && queue < N_QUEUES
      modifies `freeNodes, `lists, `owner, `contents, nodes, queues
      ensures Valid() && Lost() == old(Lost())
      ensures status.Halted? <==> Total(old(contents)) + Lost() >= N_QNODES
      ensures status.Halted? ==> contents == old(contents)
      ensures status.Fine? ==>
        contents == old(contents)[queue :=
          Enqueue(old(queues[queue].compare), old(contents[queue]), Item(key, data))]
      ensures View().Compares() == old(View().Compares())
    {
      ghost var h := View();
      assert h.Linked();
      FreeNodes(h);
      if lists[FREE] != [] { InsertStepFacts(h, queue, Item(key, data)); }
      var node := QnodeAlloc();
      if node == NULL {
        return Halted;
      }
      LinkHeld(queue, node, data, key);
      return Fine;
    }

    method QueueInit(queue: nat, compare: Compare)
      requires Valid() && queue < N_QUEUES
      modifies `lists, `owner, `contents, queues
      ensures Valid() && Lost() == old(Lost()) + |old(contents[queue])|
      ensures contents == old(contents)[queue := []]
      ensures View().Compares() == old(View().Compares())[queue := compare]
    {
      ghost var h := View();
      assert h.Linked();
      ClearedIsLinked(h, queue, compare);
      queues[queue] := Queue(NULL, NULL, compare, 0);
      owner, contents := Abandoned(owner, queue), contents[queue := []];
      lists := lists[queue := []][LOST := lists[LOST] + lists[queue]];
      assert View() == Cleared(h, queue, compare);
    }

    // Clearing the structure with zeros empties the queue and drops its comparison function.
    method QueueDealloc(queue: int) returns (status: Status)
      requires Valid() && freeQueues == 0 && (queue == NULL || 0 <= queue < N_QUEUES)
      modifies this, nodes, queues
      ensures Valid() && freeQueues == 0
      ensures queue == NULL ==> status.Fine? && View() == old(View())
      ensures queue != NULL ==>
        && Lost() == old(Lost()) + |old(contents[queue])|
        && View().Compares() == old(View().Compares())[queue := NoCompare]
        && (status.Halted? <==> Total(old(contents)) + old(Lost()) >= N_QNODES)
      ensures queue != NULL && status.Fine? ==>
        var cleared := old(contents)[queue := []];
        var cmp := old(View().Compares())[queue := NoCompare][0];
        contents == cleared[0 := Enqueue(cmp, cleared[0], Item(0, queue))]
    {
      if queue == NULL {
        return Fine;
      }
      TotalUpdate(contents, queue, []);
      QueueInit(queue, NoCompare);
      status := QueueInsert(freeQueues, queue, 0);
    }

    // Takes queues off the free list until `num` are found or none is left.
    method QueueAlloc(num: nat) returns (locs: seq<int>)
      requires Valid() && freeQueues == 0
      modifies this, nodes, queues
      ensures Valid() && freeQueues == 0 && Lost() == old(Lost())
      ensures View().Compares() == old(View().Compares())
      ensures var n := |locs|;
        && n <= num && n <= |old(contents[0])|
        && (n < num ==> n == |old(contents[0])| || old(contents[0][n].data) == NULL)
        && (forall i | 0 <= i < n :: locs[i] == old(contents[0][i].data) != NULL)
        && contents == old(contents)[0 := old(contents[0])[if n < num && n < |old(contents[0])| then n + 1 else n..]]
    {
      locs := [];
      ghost var free := contents[0];
      assert free[0..] == free && contents[0 := free] == contents;
      while |locs| < num
        invariant Valid() && freeQueues == 0 && Lost() == old(Lost())
        invariant View().Compares() == old(View().Compares())
        invariant |locs| <= num && |locs| <= |free|
        invariant forall i | 0 <= i < |locs| :: locs[i] == free[i].data != NULL
        invariant contents == old(contents)[0 := free[|locs|..]]
      {
        var empty := QueueEmpty(freeQueues);
        if empty {
          break;
        }
        var queue := QueueRemove(freeQueues);
        assert contents == old(contents)[0 := free[|locs| + 1..]];
        if queue == NULL {
          break;
        }
        locs := locs + [queue];
      }
    }

    // The first loop of _queue_modinit.
    method FreeAllNodes()
      requires View() == StaticHeap()
      modifies `freeNodes, `lists, `owner, nodes
      ensures Valid() && Lost() == 0 && contents == StaticHeap().contents && queues[..] == StaticHeap().queues
    {
      StaticHeapIsLinked();
      freeNodes := NULL;
      for i := 0 to N_QNODES
        invariant View().Linked() && lists[HELD] == StaticLists()[HELD][i..] && lists[LOST] == []
        invariant contents == StaticHeap().contents && queues[..] == StaticHeap().queues
      {
        assert lists[HELD][0] == i;
        FreedIsLinked(View());
        QnodeDealloc(i);
      }
    }

    // The second loop of _queue_modinit.
    method FreeAllQueues() returns (status: Status)
      requires Valid() && freeQueues == 0 && Lost() == 0
      requires contents == InitialContents(1) && View().Compares() == NoCompares()
      modifies this, nodes, queues
      ensures status.Fine? && Valid() && freeQueues == 0 && Lost() == 0
      ensures contents == InitialContents(N_QUEUES) && View().Compares() == NoCompares()
    {
      for i := 1 to N_QUEUES
        invariant Valid() && freeQueues == 0 && Lost() == 0
        invariant contents == InitialContents(i) && View().Compares() == NoCompares()
      {
        InitialNext(i);
        status := QueueDealloc(i);
        assert status.Fine?;
      }
      status := Fine;
    }

    method QueueModinit() returns (status: Status)
      requires View() == StaticHeap()
      modifies this, nodes, queues
      ensures status.Fine? && Valid() && freeQueues == 0 && Lost() == 0
      ensures contents == InitialContents(N_QUEUES) && View().Compares() == NoCompares()
    {
      FreeAllNodes();
      freeQueues := 0;
      InitialStart(View());
      QueueInit(freeQueues, NoCompare);
      status := FreeAllQueues();
    }
  }

  ghost function NoCompares(): (r: seq<Compare>)
    ensures |r| == N_QUEUES && forall q | 0 <= q < N_QUEUES :: r[q] == NoCompare
  {
    seq(N_QUEUES, q => NoCompare)
  }

  // Queue 0 holds the queues 1 to n - 1; all other queues are empty.
  ghost function InitialContents(n: nat): (r: seq<seq<Item>>)
    requires 1 <= n <= N_QUEUES
    ensures |r| == N_QUEUES && |r[0]| == n - 1
    ensures forall i | 0 <= i < n - 1 :: r[0][i] == Item(0, i + 1)
    ensures forall q | 0 < q < N_QUEUES :: r[q] == []
  {
    seq(N_QUEUES, q => if q == 0 then seq(n - 1, i => Item(0, i + 1)) else [])
  }

  lemma InitialStart(h: Heap)
    requires |h.queues| == |h.contents| == N_QUEUES
    requires forall q | 0 <= q < N_QUEUES :: h.queues[q] == ZERO_QUEUE && h.contents[q] == []
    ensures h.contents == h.contents[0 := []] == InitialContents(1)
    ensures h.Compares() == h.Compares()[0 := NoCompare] == NoCompares()
  {}

  lemma InitialNext(n: nat)
    requires 1 <= n < N_QUEUES
    ensures var c := InitialContents(n);
      && Total(c) == n - 1
      && c[n := []][0 := Enqueue(NoCompare, c[0], Item(0, n))] == InitialContents(n + 1)
      && NoCompares()[n := NoCompare] == NoCompares()
  {
    var c := InitialContents(n);
    TotalUpdate(c, 0, []);
    TotalOfEmpty(c[0 := []]);
    assert c[n := []] == c;
    assert Enqueue(NoCompare, c[0], Item(0, n)) == InitialContents(n + 1)[0];
  }
}
