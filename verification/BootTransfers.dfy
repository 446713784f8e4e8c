/** What the loader's transfers leave in memory, for every segment and offset it is given. */
module BootTransfers {
  import opened Common
  import opened BootImage
  import opened BootLoader

  // The offset j bytes on, within the segment.
  function Plus(bx: Half, j: nat): Half
    requires j < 0x1_0000
  {
    if bx + j < 0x1_0000 then bx + j else bx + j - 0x1_0000
  }

  // Where the loader points after k sectors.
  function Pointer(es: Half, bx: Half, k: nat): (Half, Half)
    decreases k
  {
    if k == 0 then (es, bx) else Pointer(NextSegment(es, bx), NextOffset(bx), k - 1)
  }

  // The place of byte j of sector k of a block.
  function Target(es: Half, bx: Half, k: nat, j: nat): nat
    requires j < SECTOR_SIZE
  {
    var at := Pointer(es, bx, k);
    Physical(at.0, Plus(at.1, j))
  }

  // Memory after these whole sectors have been transferred one by one.
  function Sent(ram: seq<Byte>, es: Half, bx: Half, data: seq<Byte>): (r: seq<Byte>)
    requires |ram| == RAM && |data| % SECTOR_SIZE == 0
    ensures |r| == RAM
    decreases |data|
  {
    if data == [] then ram
    else Sent(Store(ram, es, bx, data[..SECTOR_SIZE]), NextSegment(es, bx), NextOffset(bx), data[SECTOR_SIZE..])
  }

  // The part of the disk that n transfers from linear sector l on read.
  function Slice(d: Disk, l: nat, n: nat): (s: seq<Byte>)
    requires SECTOR_SIZE * (l + n) <= |d.image|
    ensures |s| == SECTOR_SIZE * n
  {
    d.image[SECTOR_SIZE * l..SECTOR_SIZE * (l + n)]
  }

  lemma SliceFirst(d: Disk, l: nat, n: nat)
    requires SECTOR_SIZE * (l + n) <= |d.image| && n > 0
    ensures Slice(d, l, n)[..SECTOR_SIZE] == SectorAt(d.image, l)
    ensures Slice(d, l, n)[SECTOR_SIZE..] == Slice(d, l + 1, n - 1)
  {}

  predicate Healthy(d: Disk, from: nat, n: nat) {
    forall i | from <= i < from + n :: d.faults(i) < 3
  }

  lemma HealthySum(d: Disk, from: nat, n: nat, k: nat)
    ensures Healthy(d, from, n + k) <==> Healthy(d, from, n) && Healthy(d, from + n, k)
  {}

  lemma HealthyOne(d: Disk, from: nat)
    ensures Healthy(d, from, 1) <==> d.faults(from) < 3
  {}

  // The machine is about to read linear sector l.
  ghost predicate At(d: Disk, m: Machine, l: nat) {
    forall n {:trigger Linear(d, n)} | n == m :: Linear(d, n) == l
  }

  lemma ReadSectorIs(d: Disk, m: Machine, l: nat, es: Half, bx: Half)
    requires Geometry(d) && Fit(d, m) && At(d, m, l)
    requires SECTOR_SIZE * (l + 1) <= |d.image|
    ensures ReadSector(d, m, es, bx).Ok? <==> l + 1 < Capacity(d) && d.faults(m.transfers) < 3
    ensures ReadSector(d, m, es, bx).Ok? ==>
              var m' := ReadSector(d, m, es, bx).value;
              && m'.ram == Store(m.ram, es, bx, SectorAt(d.image, l))
              && At(d, m', l + 1) && m'.transfers == m.transfers + 1
  {
    assert Linear(d, m) == l;
    var r := Transfer(d, m, es, bx);
    if r.Ok? {
      ForwardWalks(d, r.value);
    }
  }

  // The outcome r of reading n sectors to es:bx: the memory that the transfers leave, unless
  // one fails three times or the 80 tracks end.
  ghost predicate Reads(d: Disk, m: Machine, l: nat, n: nat, es: Half, bx: Half, r: Outcome<Machine>)
    requires SECTOR_SIZE * (l + n) <= |d.image| && |m.ram| == RAM
  {
    && (r.Ok? <==> l + n < Capacity(d) && Healthy(d, m.transfers, n))
    && (r.Ok? ==>
          && r.value.ram == Sent(m.ram, es, bx, Slice(d, l, n))
          && At(d, r.value, l + n) && r.value.transfers == m.transfers + n)
  }

  lemma ReadsMore(d: Disk, m: Machine, l: nat, n: nat, es: Half, bx: Half, r1: Outcome<Machine>, r: Outcome<Machine>)
    requires n > 0 && SECTOR_SIZE * (l + n) <= |d.image| && |m.ram| == RAM
    requires r1.Ok? <==> l + 1 < Capacity(d) && d.faults(m.transfers) < 3
    requires r1.Ok? ==>
               && r1.value.ram == Store(m.ram, es, bx, SectorAt(d.image, l)) && r1.value.transfers == m.transfers + 1
               && Reads(d, r1.value, l + 1, n - 1, NextSegment(es, bx), NextOffset(bx), r)
    requires r1.Panic? ==> r.Panic?
    ensures Reads(d, m, l, n, es, bx, r)
  {
    SliceFirst(d, l, n);
    HealthySum(d, m.transfers, 1, n - 1);
    HealthyOne(d, m.transfers);
  }

  lemma {:induction false} ReadProgIs(d: Disk, m: Machine, l: nat, n: nat, es: Half, bx: Half)
    requires Geometry(d) && Fit(d, m) && At(d, m, l) && 1 <= n < 0x8000
    requires SECTOR_SIZE * (l + n) <= |d.image|
    ensures Reads(d, m, l, n, es, bx, ReadProg(d, m, n, es, bx))
    decreases n
  {
    var r := ReadSector(d, m, es, bx);
    ReadSectorIs(d, m, l, es, bx);
    if n == 1 {
      HealthyOne(d, m.transfers);
      SliceFirst(d, l, 1);
    } else {
      if r.Ok? {
        ReadProgIs(d, r.value, l + 1, n - 1, NextSegment(es, bx), NextOffset(bx));
      }
      ReadsMore(d, m, l, n, es, bx, r, ReadProg(d, m, n, es, bx));
    }
  }

  // Offsets of one segment are different places.
  lemma PlacesDiffer(es: Half, b: Half, c: Half)
    requires b != c
    ensures Physical(es, b) != Physical(es, c)
  {}

  lemma {:induction false} StoreElsewhere(ram: seq<Byte>, es: Half, bx: Half, data: seq<Byte>, a: nat)
    requires |ram| == RAM && a < RAM && |data| < 0x1_0000
    requires forall j | 0 <= j < |data| :: Physical(es, Plus(bx, j)) != a
    ensures Store(ram, es, bx, data)[a] == ram[a]
    decreases |data|
  {
    if data != [] {
      assert Physical(es, Plus(bx, 0)) != a;
      forall j | 0 <= j < |data| - 1
        ensures Physical(es, Plus(Next(bx), j)) != a
      {
        assert Plus(Next(bx), j) == Plus(bx, j + 1);
      }
      StoreElsewhere(ram[Physical(es, bx) := data[0]], es, Next(bx), data[1..], a);
    }
  }

  // Byte j of a transfer arrives j bytes on in the segment.
  lemma {:induction false} StoreByte(ram: seq<Byte>, es: Half, bx: Half, data: seq<Byte>, j: nat)
    requires |ram| == RAM && j < |data| < 0x1_0000
    ensures Store(ram, es, bx, data)[Physical(es, Plus(bx, j))] == data[j]
    decreases |data|
  {
    var ram1 := ram[Physical(es, bx) := data[0]];
    if j > 0 {
      assert Plus(Next(bx), j - 1) == Plus(bx, j);
      StoreByte(ram1, es, Next(bx), data[1..], j - 1);
    } else {
      forall i | 0 <= i < |data| - 1
        ensures Physical(es, Plus(Next(bx), i)) != Physical(es, bx)
      {
        PlacesDiffer(es, Plus(Next(bx), i), bx);
      }
      StoreElsewhere(ram1, es, Next(bx), data[1..], Physical(es, bx));
    }
  }

  // The last sector of a block goes to where the loader points by then.
  lemma {:induction false} SentLast(ram: seq<Byte>, es: Half, bx: Half, data: seq<Byte>, last: seq<Byte>, k: nat)
    requires |ram| == RAM && |data| == SECTOR_SIZE * k && |last| == SECTOR_SIZE
    ensures var at := Pointer(es, bx, k);
            Sent(ram, es, bx, data + last) == Store(Sent(ram, es, bx, data), at.0, at.1, last)
    decreases k
  {
    var whole := data + last;
    if k > 0 {
      var ram1 := Store(ram, es, bx, data[..SECTOR_SIZE]);
      SentLast(ram1, NextSegment(es, bx), NextOffset(bx), data[SECTOR_SIZE..], last, k - 1);
      assert whole[..SECTOR_SIZE] == data[..SECTOR_SIZE] && whole[SECTOR_SIZE..] == data[SECTOR_SIZE..] + last;
    } else {
      assert whole[..SECTOR_SIZE] == last && whole[SECTOR_SIZE..] == [];
    }
  }

  lemma SliceLast(d: Disk, l: nat, k: nat)
    requires SECTOR_SIZE * (l + k + 1) <= |d.image|
    ensures Slice(d, l, k + 1) == Slice(d, l, k) + SectorAt(d.image, l + k)
  {}

  lemma SentAtTarget(ram: seq<Byte>, es: Half, bx: Half, data: seq<Byte>, last: seq<Byte>, k: nat, j: nat)
    requires |ram| == RAM && |data| == SECTOR_SIZE * k && |last| == SECTOR_SIZE && j < SECTOR_SIZE
    ensures |data + last| % SECTOR_SIZE == 0 && Sent(ram, es, bx, data + last)[Target(es, bx, k, j)] == last[j]
  {
    SentLast(ram, es, bx, data, last, k);
    var at := Pointer(es, bx, k);
    StoreByte(Sent(ram, es, bx, data), at.0, at.1, last, j);
  }

  // The loader's reading, at any address at all: when sector k has been read, each of its
  // bytes is at its target.
  lemma ReadProgAtTarget(d: Disk, m: Machine, l: nat, k: nat, es: Half, bx: Half, j: nat)
    requires Geometry(d) && Fit(d, m) && At(d, m, l) && k + 1 < 0x8000 && j < SECTOR_SIZE
    requires SECTOR_SIZE * (l + k + 1) <= |d.image|
    ensures ReadProg(d, m, k + 1, es, bx).Ok? ==>
              ReadProg(d, m, k + 1, es, bx).value.ram[Target(es, bx, k, j)] == d.image[SECTOR_SIZE * (l + k) + j]
  {
    ReadProgIs(d, m, l, k + 1, es, bx);
    SliceLast(d, l, k);
    SentAtTarget(m.ram, es, bx, Slice(d, l, k), SectorAt(d.image, l + k), k, j);
  }

  // Blocks in one piece.

  lemma {:induction false} StoreAt(ram: seq<Byte>, es: Half, bx: Half, data: seq<Byte>, k: nat)
    requires |ram| == RAM && k < RAM
    requires bx + |data| <= 65536 && Address(es, bx) + |data| <= RAM
    ensures Store(ram, es, bx, data)[k]
         == if Address(es, bx) <= k < Address(es, bx) + |data| then data[k - Address(es, bx)] else ram[k]
    decreases |data|
  {
    if |data| > 1 {
      StoreAt(ram[Address(es, bx) := data[0]], es, bx + 1, data[1..], k);
    }
  }

  lemma StorePlaces(ram: seq<Byte>, es: Half, bx: Half, data: seq<Byte>)
    requires |ram| == RAM
    requires bx + |data| <= 65536 && Address(es, bx) + |data| <= RAM
    ensures Store(ram, es, bx, data) == Placed(ram, Address(es, bx), data)
  {
    forall k | 0 <= k < RAM
      ensures Store(ram, es, bx, data)[k] == Placed(ram, Address(es, bx), data)[k]
    {
      StoreAt(ram, es, bx, data, k);
      PlacedAt(ram, Address(es, bx), data, k);
    }
  }

  lemma PlacedTwice<T>(s: seq<T>, a: nat, x: seq<T>, y: seq<T>)
    requires a + |x| + |y| <= |s|
    ensures Placed(Placed(s, a, x), a + |x|, y) == Placed(s, a, x + y)
  {}

  // No transfer of the block runs over the end of its segment.
  predicate Straight(es: Half, bx: Half, n: nat) {
    && (bx % SECTOR_SIZE == 0 || bx + SECTOR_SIZE * n <= 65536)
    && Address(es, bx) + SECTOR_SIZE * n <= RAM
  }

  lemma NextIs(es: Half, bx: Half, n: nat)
    requires 1 < n && Straight(es, bx, n)
    ensures Address(NextSegment(es, bx), NextOffset(bx)) == Address(es, bx) + SECTOR_SIZE
    ensures Straight(NextSegment(es, bx), NextOffset(bx), n - 1)
  {}

  // Such a block ends up contiguous, across segment ends too.
  lemma {:induction false} SentStraight(ram: seq<Byte>, es: Half, bx: Half, data: seq<Byte>, n: nat)
    requires |ram| == RAM && |data| == SECTOR_SIZE * n && n > 0 && Straight(es, bx, n)
    ensures Sent(ram, es, bx, data) == Placed(ram, Address(es, bx), data)
    decreases n
  {
    var a, first, rest := Address(es, bx), data[..SECTOR_SIZE], data[SECTOR_SIZE..];
    StorePlaces(ram, es, bx, first);
    var ram1 := Placed(ram, a, first);
    assert data == first + rest;
    if n > 1 {
      NextIs(es, bx, n);
      SentStraight(ram1, NextSegment(es, bx), NextOffset(bx), rest, n - 1);
      PlacedTwice(ram, a, first, rest);
    } else {
      assert data == first && Sent(ram1, NextSegment(es, bx), NextOffset(bx), rest) == ram1;
    }
  }

  // Blocks off a segment boundary never leave their first segment.

  predicate OutsideSegment(es: Half, a: nat) {
    a < Address(es, 0) || Address(es, 0) + 0x1_0000 <= a
  }

  lemma StoreInSegment(ram: seq<Byte>, es: Half, bx: Half, data: seq<Byte>, a: nat)
    requires |ram| == RAM && |data| < 0x1_0000 && Address(es, 0) + 0x1_0000 <= RAM
    requires a < RAM && OutsideSegment(es, a)
    ensures Store(ram, es, bx, data)[a] == ram[a]
  {
    forall j | 0 <= j < |data|
      ensures Physical(es, Plus(bx, j)) != a
    {}
    StoreElsewhere(ram, es, bx, data, a);
  }

  lemma {:induction false} SentSkewed(ram: seq<Byte>, es: Half, bx: Half, data: seq<Byte>, a: nat)
    requires |ram| == RAM && |data| % SECTOR_SIZE == 0 && bx % SECTOR_SIZE != 0
    requires Address(es, 0) + 0x1_0000 <= RAM && a < RAM && OutsideSegment(es, a)
    ensures Sent(ram, es, bx, data)[a] == ram[a]
    decreases |data|
  {
    if data != [] {
      StoreInSegment(ram, es, bx, data[..SECTOR_SIZE], a);
      SentSkewed(Store(ram, es, bx, data[..SECTOR_SIZE]), es, NextOffset(bx), data[SECTOR_SIZE..], a);
    }
  }

  lemma {:induction false} PointerAligned(es: Half, bx: Half, k: nat)
    requires bx % SECTOR_SIZE == 0 && Address(es, bx) + SECTOR_SIZE * k <= RAM - SECTOR_SIZE
    ensures var at := Pointer(es, bx, k);
            at.1 % SECTOR_SIZE == 0 && Address(at.0, at.1) == Address(es, bx) + SECTOR_SIZE * k
    decreases k
  {
    if k > 0 {
      PointerAligned(NextSegment(es, bx), NextOffset(bx), k - 1);
    }
  }

  lemma {:induction false} PointerSkewed(es: Half, bx: Half, k: nat)
    requires bx % SECTOR_SIZE != 0 && bx + SECTOR_SIZE * k < 0x1_0000
    ensures Pointer(es, bx, k) == (es, bx + SECTOR_SIZE * k)
    decreases k
  {
    if k > 0 {
      PointerSkewed(es, bx + SECTOR_SIZE, k - 1);
    }
  }

  // A program that is contiguous in memory once it is loaded: it starts on a segment boundary
  // or is too short to reach the end of its first segment.
  predicate Contiguous(p: Program) { p.address % 16 == 0 || Sectors(p.data) <= 127 }

  // All targets of a program are where its address says.
  ghost predicate InPlace(p: Program) {
    forall k, j | 0 <= k < Sectors(p.data) && 0 <= j < SECTOR_SIZE ::
      Target(SegmentOf(p.address), OffsetOf(p.address), k, j) == p.address + SECTOR_SIZE * k + j
  }

  lemma AddressesExactly(p: Program)
    requires Accepted(p) && 0 <= p.address
    ensures InPlace(p) <==> Contiguous(p)
  {
    var n, es, bx := Sectors(p.data), SegmentOf(p.address), OffsetOf(p.address);
    assert es == p.address / 16 && Address(es, bx) == p.address;
    if bx == 0 || n <= 127 {
      forall k, j | 0 <= k < n && 0 <= j < SECTOR_SIZE
        ensures Target(es, bx, k, j) == p.address + SECTOR_SIZE * k + j
      {
        if bx == 0 {
          PointerAligned(es, bx, k);
        } else {
          PointerSkewed(es, bx, k);
        }
      }
    } else {
      PointerSkewed(es, bx, 127);
      assert Target(es, bx, 127, SECTOR_SIZE - 1) != p.address + SECTOR_SIZE * 127 + SECTOR_SIZE - 1;
    }
  }

  // A program clear of what the loader needs while it runs: the interrupt vectors and the
  // BIOS data in front of 0x500, its own code at 0x7C00, and its stack below 0xBC00.
  predicate Loadable(p: Program) {
    && Accepted(p) && p.data != []
    && ((0x500 <= p.address && p.address + |Padded(p.data)| <= 0x7C00) || 0xBC00 <= p.address)
  }

  // Memory after the sectors of such a program.
  function Put(ram: seq<Byte>, p: Program): (r: seq<Byte>)
    requires |ram| == RAM
    ensures |r| == RAM
  {
    Sent(ram, SegmentOf(p.address), OffsetOf(p.address), Padded(p.data))
  }

  // The memory that its transfers may change.
  function Low(p: Program): int { if Contiguous(p) then p.address else p.address - p.address % 16 }
  function High(p: Program): int { if Contiguous(p) then p.address + |Padded(p.data)| else Low(p) + 0x1_0000 }

  // The registers that the table gives for a program.
  lemma SplitIs(p: Program)
    requires Loadable(p)
    ensures 1 <= Sectors(p.data) <= 1279 && p.address + |Padded(p.data)| <= TOP
    ensures SegmentOf(p.address) == p.address / 16
    ensures Address(SegmentOf(p.address), OffsetOf(p.address)) == p.address
    ensures Address(SegmentOf(p.address), 0) == p.address - p.address % 16
  {
    var segment: nat := SegmentOf(p.address);
    assert segment == p.address / 16;
  }

  lemma SplitStraight(p: Program)
    requires Loadable(p) && Contiguous(p)
    ensures Straight(SegmentOf(p.address), OffsetOf(p.address), Sectors(p.data))
  {
    SplitIs(p);
  }

  lemma Footprint(p: Program)
    requires Loadable(p)
    ensures 0x500 <= Low(p) && (High(p) <= 0x7C00 || 0xBC00 <= Low(p))
    ensures High(p) <= p.address + |Padded(p.data)| <= TOP
  {
    SplitIs(p);
  }

  lemma PutPlaced(ram: seq<Byte>, p: Program)
    requires |ram| == RAM && Loadable(p) && Contiguous(p)
    ensures p.address + |Padded(p.data)| <= RAM && Put(ram, p) == Placed(ram, p.address, Padded(p.data))
  {
    SplitIs(p);
    SplitStraight(p);
    SentStraight(ram, SegmentOf(p.address), OffsetOf(p.address), Padded(p.data), Sectors(p.data));
  }

  lemma PutElsewhere(ram: seq<Byte>, p: Program, a: nat)
    requires |ram| == RAM && Loadable(p) && a < RAM && !(Low(p) <= a < High(p))
    ensures Put(ram, p)[a] == ram[a]
  {
    Footprint(p);
    if Contiguous(p) {
      PutPlaced(ram, p);
      PlacedAt(ram, p.address, Padded(p.data), a);
    } else {
      SplitIs(p);
      SentSkewed(ram, SegmentOf(p.address), OffsetOf(p.address), Padded(p.data), a);
    }
  }

  // Whether a program is in memory as it is on the disk.
  predicate Whole(ram: seq<Byte>, p: Program) {
    0 <= p.address && p.address + |Padded(p.data)| <= |ram|
    && ram[p.address..p.address + |Padded(p.data)|] == Padded(p.data)
  }

  // A byte near the end of sector 127, which a program off a segment boundary misses.
  const MISSED := SECTOR_SIZE * 128 - 1

  // Memory does not hold by chance what would be missing.
  predicate Foreign(ram: seq<Byte>, p: Program) {
    Contiguous(p) || !(0 <= p.address + MISSED < |ram|) || ram[p.address + MISSED] != Padded(p.data)[MISSED]
  }

  // What the transfers leave is the whole program if and only if it is contiguous.
  lemma PutWholeExactly(ram: seq<Byte>, p: Program)
    requires |ram| == RAM && Loadable(p) && Foreign(ram, p)
    ensures Whole(Put(ram, p), p) <==> Contiguous(p)
  {
    SplitIs(p);
    if Contiguous(p) {
      PutPlaced(ram, p);
    } else {
      PutElsewhere(ram, p, p.address + MISSED);
      var to := p.address + |Padded(p.data)|;
      assert Put(ram, p)[p.address..to][MISSED] == Put(ram, p)[p.address + MISSED];
    }
  }

  // The same of the loader's reading.
  lemma PlacesExactly(d: Disk, m: Machine, l: nat, p: Program)
    requires Geometry(d) && Fit(d, m) && At(d, m, l) && Loadable(p) && Foreign(m.ram, p)
    requires SECTOR_SIZE * l <= |d.image| && Padded(p.data) <= d.image[SECTOR_SIZE * l..]
    requires ReadProg(d, m, Short(Sectors(p.data)), SegmentOf(p.address), OffsetOf(p.address)).Ok?
    ensures var r := ReadProg(d, m, Short(Sectors(p.data)), SegmentOf(p.address), OffsetOf(p.address)).value;
            r.ram == Put(m.ram, p) && (Whole(r.ram, p) <==> Contiguous(p))
  {
    SplitIs(p);
    var n := Sectors(p.data);
    ReadProgIs(d, m, l, n, SegmentOf(p.address), OffsetOf(p.address));
    assert Slice(d, l, n) == Padded(p.data);
    PutWholeExactly(m.ram, p);
  }
}
