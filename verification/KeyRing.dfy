/** The keyboard's circular buffer of c_io.c, and the queue that it is. */
module KeyRing {
  import opened Common

  const C_BUFSIZE := 200

  // The buffer with the places of the next character and the next space.
  datatype Ring = Ring(buffer: seq<Byte>, nextChar: nat, nextSpace: nat)

  predicate Valid(r: Ring) {
    |r.buffer| == C_BUFSIZE && r.nextChar < C_BUFSIZE && r.nextSpace < C_BUFSIZE
  }

  // __c_increment
  function Increment(place: nat): nat {
    if place + 1 >= C_BUFSIZE then 0 else place + 1
  }

  // The store half of __c_input_scan_code: a character without room is dropped.
  function Store(r: Ring, c: Byte): (s: Ring)
    requires Valid(r)
    ensures Valid(s)
  {
    var next := Increment(r.nextSpace);
    if next == r.nextChar then r
    else r.(buffer := r.buffer[r.nextSpace := c], nextSpace := next)
  }

  // The dequeue half of c_getchar, past its wait for a character.
  function Dequeue(r: Ring): (s: (Byte, Ring))
    requires Valid(r) && r.nextChar != r.nextSpace
    ensures Valid(s.1)
  {
    (r.buffer[r.nextChar], r.(nextChar := Increment(r.nextChar)))
  }

  // c_input_queue
  function InputQueue(r: Ring): int {
    var n := r.nextSpace - r.nextChar;
    if n < 0 then n + C_BUFSIZE else n
  }

  // The characters waiting, oldest first.
  function Waiting(r: Ring): seq<Byte>
    requires Valid(r)
  {
    if r.nextChar <= r.nextSpace then r.buffer[r.nextChar..r.nextSpace]
    else r.buffer[r.nextChar..] + r.buffer[..r.nextSpace]
  }

  lemma StoreRefines(r: Ring, c: Byte)
    requires Valid(r)
    ensures Waiting(Store(r, c)) == if |Waiting(r)| < 199 then Waiting(r) + [c] else Waiting(r)
  {
    var s := Store(r, c);
    if s != r {
      StoreJoins(r, c);
    }
  }

  // A character that there is room for.
  lemma StoreJoins(r: Ring, c: Byte)
    requires Valid(r) && Increment(r.nextSpace) != r.nextChar
    ensures |Waiting(r)| < C_BUFSIZE - 1 && Waiting(Store(r, c)) == Waiting(r) + [c]
  {
    var s := Store(r, c);
    if r.nextSpace < r.nextChar {
      assert s.buffer[s.nextChar..] == r.buffer[r.nextChar..];
      assert s.buffer[..s.nextSpace] == r.buffer[..r.nextSpace] + [c];
    } else if s.nextSpace != 0 {
      assert s.buffer[r.nextChar..s.nextSpace] == r.buffer[r.nextChar..r.nextSpace] + [c];
    } else {
      assert s.buffer[s.nextChar..] == r.buffer[r.nextChar..r.nextSpace] + [c] && s.buffer[..0] == [];
    }
  }

  lemma DequeueRefines(r: Ring)
    requires Valid(r) && r.nextChar != r.nextSpace
    ensures Waiting(r) != [] && Dequeue(r).0 == Waiting(r)[0] && Waiting(Dequeue(r).1) == Waiting(r)[1..]
  {
    if r.nextChar > r.nextSpace {
      var end := r.buffer[r.nextChar..];
      assert Waiting(r)[1..] == end[1..] + r.buffer[..r.nextSpace];
      assert r.nextChar + 1 == C_BUFSIZE ==> end[1..] == [];
    }
  }

  lemma InputQueueCounts(r: Ring)
    requires Valid(r)
    ensures InputQueue(r) == |Waiting(r)| < C_BUFSIZE
    ensures r.nextChar == r.nextSpace <==> Waiting(r) == []
  {}

  lemma StoreDrops(r: Ring, c: Byte)
    requires Valid(r)
    ensures Store(r, c) == r <==> |Waiting(r)| == C_BUFSIZE - 1
  {}

  // Interrupts and readers in any order; a reader of an empty ring is still waiting.
  datatype Event = Key(c: Byte) | Read

  // The ring after the events, the characters that found room, and those that were read.
  datatype History = History(ring: Ring, accepted: seq<Byte>, taken: seq<Byte>)

  function After(h: History, e: Event): (r: History)
    requires Valid(h.ring)
    ensures Valid(r.ring)
  {
    match e
    case Key(c) =>
      var ring := Store(h.ring, c);
      h.(ring := ring, accepted := if ring == h.ring then h.accepted else h.accepted + [c])
    case Read =>
      if h.ring.nextChar == h.ring.nextSpace then h
      else h.(ring := Dequeue(h.ring).1, taken := h.taken + [Dequeue(h.ring).0])
  }

  function AfterAll(h: History, events: seq<Event>): (r: History)
    requires Valid(h.ring)
    ensures Valid(r.ring)
    decreases |events|
  {
    if events == [] then h else AfterAll(After(h, events[0]), events[1..])
  }

  // What has been read is what was accepted, in order and without loss or repetition, up to
  // what is waiting; and a key is turned away only when the ring is full.
  ghost predicate Faithful(h: History) {
    Valid(h.ring) && h.accepted == h.taken + Waiting(h.ring)
  }

  lemma KeyFaithful(h: History, c: Byte)
    requires Faithful(h)
    ensures Faithful(After(h, Key(c)))
    ensures After(h, Key(c)).accepted == if |Waiting(h.ring)| < C_BUFSIZE - 1 then h.accepted + [c] else h.accepted
    ensures After(h, Key(c)).taken == h.taken
  {
    StoreRefines(h.ring, c);
    InputQueueCounts(h.ring);
    StoreDrops(h.ring, c);
  }

  lemma TakesFirst(taken: seq<Byte>, waiting: seq<Byte>)
    requires waiting != []
    ensures taken + waiting == taken + [waiting[0]] + waiting[1..]
  {}

  lemma ReadFaithful(h: History)
    requires Faithful(h)
    ensures Faithful(After(h, Read)) && After(h, Read).accepted == h.accepted
    ensures After(h, Read).taken == if Waiting(h.ring) == [] then h.taken else h.taken + [Waiting(h.ring)[0]]
  {
    InputQueueCounts(h.ring);
    if h.ring.nextChar != h.ring.nextSpace {
      DequeueRefines(h.ring);
      TakesFirst(h.taken, Waiting(h.ring));
    }
  }

  lemma {:induction false} FirstInFirstOut(h: History, events: seq<Event>)
    requires Faithful(h)
    ensures Faithful(AfterAll(h, events))
    decreases |events|
  {
    if events != [] {
      match events[0] {
        case Key(c) => KeyFaithful(h, c);
        case Read => ReadFaithful(h);
      }
      FirstInFirstOut(After(h, events[0]), events[1..]);
    }
  }

  class Keyboard {
    const buffer: array<Byte>
    var nextChar: nat
    var nextSpace: nat

    ghost function Abs(): Ring
      reads this, buffer
    {
      Ring(buffer[..], nextChar, nextSpace)
    }

    constructor ()
      ensures fresh(buffer) && Valid(Abs()) && Waiting(Abs()) == []
    {
      buffer := new Byte[C_BUFSIZE](_ => 0);
      nextChar, nextSpace := 0, 0;
    }

    method StoreChar(c: Byte)
      requires Valid(Abs())
      modifies this, buffer
      ensures Valid(Abs()) && Abs() == Store(old(Abs()), c)
    {
      var next := Increment(nextSpace);
      if next != nextChar {
        buffer[nextSpace] := c;
        nextSpace := next;
      }
    }

    method TakeChar() returns (c: Byte)
      requires Valid(Abs()) && nextChar != nextSpace
      modifies this
      ensures Valid(Abs()) && (c, Abs()) == Dequeue(old(Abs()))
    {
      c := buffer[nextChar];
      nextChar := Increment(nextChar);
    }

    method CountQueue() returns (n: nat)
      requires Valid(Abs())
      ensures n == |Waiting(Abs())|
    {
      InputQueueCounts(Abs());
      var chars: int := nextSpace - nextChar;
      if chars < 0 {
        chars := chars + C_BUFSIZE;
      }
      n := chars;
    }
  }
}
