/** The loader with its stack in memory reads a block as if the stack were apart, as long as the
    block stays clear of the memory that the stack and the BIOS use. */
module StackTransfers {
  import opened Common
  import opened BootImage
  import opened BootLoader
  import opened BootTransfers
  import opened LoaderStack

  // Memory that neither the stack nor the BIOS uses.
  predicate Kept(a: nat) { 0x500 <= a < 0x8000 || 0xBC00 <= a }

  ghost predicate SameKept(r: seq<Byte>, s: seq<Byte>) {
    |r| == |s| == RAM && forall a | 0 <= a < RAM && Kept(a) :: r[a] == s[a]
  }

  // The words above the stack pointer are the same.
  ghost predicate SameStack(r: seq<Byte>, s: seq<Byte>, sp: Half)
    requires |r| == |s| == RAM && sp <= STACK
  {
    forall a | 0x7C00 + sp <= a < 0xBC00 :: r[a] == s[a]
  }

  // The two facts by name, unfolded where they are mentioned.
  ghost predicate KeptAs(r: seq<Byte>, s: seq<Byte>) {
    |r| == |s| == RAM && forall t {:trigger SameKept(t, s)} | t == r :: SameKept(t, s)
  }

  ghost predicate StackAs(r: seq<Byte>, s: seq<Byte>, sp: Half) {
    && |r| == |s| == RAM && sp <= STACK
    && forall t {:trigger SameStack(t, s, sp)} | t == r :: SameStack(t, s, sp)
  }

  lemma KeptBoth(r: seq<Byte>, s: seq<Byte>, t: seq<Byte>)
    requires KeptAs(r, s) && KeptAs(s, t)
    ensures KeptAs(r, t)
  {
    assert SameKept(r, s) && SameKept(s, t);
  }

  lemma StackBoth(r: seq<Byte>, s: seq<Byte>, t: seq<Byte>, low: Half, sp: Half)
    requires low <= sp && StackAs(r, s, low) && StackAs(s, t, sp)
    ensures StackAs(r, t, sp)
  {
    assert SameStack(r, s, low) && SameStack(s, t, sp);
  }

  lemma WordSame(r: seq<Byte>, s: seq<Byte>, sp: Half, offset: Half)
    requires StackAs(r, s, sp) && sp <= offset <= STACK - 2
    ensures RamWord(r, BOOT_SEGMENT, offset) == RamWord(s, BOOT_SEGMENT, offset)
  {
    assert SameStack(r, s, sp);
  }

  lemma PushKeeps(ram: seq<Byte>, sp: Half, word: Half)
    requires |ram| == RAM && 0x400 <= sp - 2 && sp <= STACK
    ensures KeptAs(Push(ram, sp, word), ram) && StackAs(Push(ram, sp, word), ram, sp)
  {
    PushIs(ram, sp, word);
  }

  lemma ScribbleKeeps(ram: seq<Byte>, left: nat -> Byte, sp: Half)
    requires |ram| == RAM && sp <= STACK
    ensures KeptAs(Scribbled(ram, left, sp), ram) && StackAs(Scribbled(ram, left, sp), ram, sp)
  {}

  lemma {:induction false} StoreKeeps(r: seq<Byte>, s: seq<Byte>, es: Half, bx: Half, data: seq<Byte>)
    requires SameKept(r, s)
    ensures SameKept(Store(r, es, bx, data), Store(s, es, bx, data))
    decreases |data|
  {
    if data != [] {
      StoreKeeps(r[Physical(es, bx) := data[0]], s[Physical(es, bx) := data[0]], es, Next(bx), data[1..]);
    }
  }

  // A sector that goes to kept memory only, and n of them.
  predicate SectorClear(es: Half, bx: Half) {
    forall j | 0 <= j < SECTOR_SIZE :: Kept(Physical(es, Plus(bx, j)))
  }

  predicate BlockClear(es: Half, bx: Half, n: nat)
    decreases n
  {
    n == 0 || (SectorClear(es, bx) && BlockClear(NextSegment(es, bx), NextOffset(bx), n - 1))
  }

  lemma StoreClear(ram: seq<Byte>, es: Half, bx: Half, data: seq<Byte>, sp: Half)
    requires |ram| == RAM && |data| == SECTOR_SIZE && SectorClear(es, bx) && 0x400 <= sp <= STACK
    ensures StackAs(Store(ram, es, bx, data), ram, sp)
  {
    forall a | 0x7C00 + sp <= a < 0xBC00
      ensures Store(ram, es, bx, data)[a] == ram[a]
    {
      StoreElsewhere(ram, es, bx, data, a);
    }
  }

  // The machine whose memory is `ram` instead.
  function With(m: Machine, ram: seq<Byte>): Machine { m.(ram := ram) }

  lemma AtWith(d: Disk, m: Machine, ram: seq<Byte>, l: nat)
    requires At(d, m, l)
    ensures At(d, With(m, ram), l)
  {
    assert Linear(d, m) == l;
  }

  // One round changes kept memory as the transfer does, and gives back the sector count.
  ghost predicate RoundAs(m: Machine, sp: Half, count: Half, r: Outcome<Machine>, plain: Outcome<Machine>)
    requires |m.ram| == RAM && 4 <= sp <= STACK
  {
    && (r.Ok? <==> plain.Ok?)
    && (r.Ok? ==>
          && KeptAs(r.value.ram, plain.value.ram) && r.value == With(plain.value, r.value.ram)
          && StackAs(r.value.ram, m.ram, sp) && RamWord(r.value.ram, BOOT_SEGMENT, sp - 2) == count)
  }

  // Memory after the pushes, the transfer and the message.
  lemma RoundMemory(ram: seq<Byte>, mem: seq<Byte>, sp: Half, count: Half, tries: Half, left: nat -> Byte,
                    es: Half, bx: Half, data: seq<Byte>) returns (after: seq<Byte>)
    requires KeptAs(ram, mem) && 0x1000 <= sp <= STACK && |data| == SECTOR_SIZE && SectorClear(es, bx)
    ensures after == Scribbled(Store(Push(Push(ram, sp, count), sp - 2, tries), es, bx, data), left, sp - 4)
    ensures KeptAs(after, Store(mem, es, bx, data))
    ensures StackAs(after, ram, sp) && RamWord(after, BOOT_SEGMENT, sp - 2) == count
  {
    var ram1 := Push(ram, sp, count);
    var ram2 := Push(ram1, sp - 2, tries);
    var ram3 := Store(ram2, es, bx, data);
    after := Scribbled(ram3, left, sp - 4);
    PushKeeps(ram, sp, count);
    PushKeeps(ram1, sp - 2, tries);
    StoreClear(ram2, es, bx, data, sp - 4);
    ScribbleKeeps(ram3, left, sp - 4);
    Popped(ram, sp, count);
    KeptBoth(ram2, ram1, ram);
    KeptBoth(ram2, ram, mem);
    assert SameKept(ram2, mem);
    StoreKeeps(ram2, mem, es, bx, data);
    KeptBoth(after, ram3, Store(mem, es, bx, data));
    StackBoth(after, ram3, ram2, sp - 4, sp - 4);
    StackBoth(after, ram2, ram1, sp - 4, sp - 2);
    StackBoth(after, ram1, ram, sp - 2, sp);
    WordSame(after, ram1, sp - 2, sp - 2);
  }

  lemma RoundIs(d: Disk, env: Env, m: Machine, mem: seq<Byte>, sp: Half, count: Half, es: Half, bx: Half)
    requires Geometry(d) && Fit(d, m) && KeptAs(m.ram, mem) && 0x1000 <= sp <= STACK && SectorClear(es, bx)
    ensures RoundAs(m, sp, count, Round(d, env, m, sp, count, es, bx), ReadSector(d, With(m, mem), es, bx))
  {
    var tries := TriesLeft(d.faults(m.transfers));
    var pushed := Push(Push(m.ram, sp, count), sp - 2, tries);
    var r, plain := Transfer(d, With(m, pushed), es, bx), Transfer(d, With(m, mem), es, bx);
    if r.Ok? {
      var data := SectorAt(d.image, Linear(d, m));
      var after := RoundMemory(m.ram, mem, sp, count, tries, env.byRead(m.transfers), es, bx, data);
      assert r.value == With(plain.value, Store(pushed, es, bx, data));
    }
  }

  // All rounds of readprog.
  ghost predicate RoundsAs(m: Machine, sp: Half, r: Fate, plain: Outcome<Machine>)
    requires |m.ram| == RAM && sp <= STACK
  {
    && (r.Done? <==> plain.Ok?)
    && (r.Done? ==>
          && KeptAs(r.machine.ram, plain.value.ram) && r.machine == With(plain.value, r.machine.ram)
          && StackAs(r.machine.ram, m.ram, sp))
  }

  lemma {:induction false} RoundsAre(d: Disk, env: Env, m: Machine, mem: seq<Byte>, sp: Half, n: Half,
                                     es: Half, bx: Half)
    requires Geometry(d) && Fit(d, m) && KeptAs(m.ram, mem) && 0x1000 <= sp <= STACK
    requires 1 <= n < 0x8000 && BlockClear(es, bx, n)
    ensures RoundsAs(m, sp, Rounds(d, env, m, sp, n, es, bx), ReadProg(d, With(m, mem), n, es, bx))
    decreases n
  {
    RoundIs(d, env, m, mem, sp, n, es, bx);
    var r, plain := Round(d, env, m, sp, n, es, bx), ReadSector(d, With(m, mem), es, bx);
    if r.Ok? && n > 1 {
      RoundsAre(d, env, r.value, plain.value.ram, sp, n - 1, NextSegment(es, bx), NextOffset(bx));
      assert plain.value == With(r.value, plain.value.ram);
      var end := Rounds(d, env, m, sp, n, es, bx);
      if end.Done? {
        StackBoth(end.machine.ram, r.value.ram, m.ram, sp, sp);
      }
    }
  }

  // Memory after n sectors from linear sector l on.
  function Filled(d: Disk, mem: seq<Byte>, l: nat, n: nat, es: Half, bx: Half): (r: seq<Byte>)
    requires |mem| == RAM && SECTOR_SIZE * (l + n) <= |d.image|
    ensures |r| == RAM
  {
    Sent(mem, es, bx, Slice(d, l, n))
  }

  // Readprog for a clear block of n sectors, from linear sector l on, in memory that is `mem`
  // where it is kept: it ends exactly when all transfers work, and never goes astray.
  ghost predicate CallReads(d: Disk, m: Machine, mem: seq<Byte>, l: nat, sp: Half, n: nat, es: Half, bx: Half, r: Fate)
    requires |m.ram| == |mem| == RAM && sp <= STACK && SECTOR_SIZE * (l + n) <= |d.image|
  {
    && !r.Astray?
    && (r.Done? <==> l + n < Capacity(d) && Healthy(d, m.transfers, n))
    && (r.Done? ==>
          && KeptAs(r.machine.ram, Filled(d, mem, l, n, es, bx)) && StackAs(r.machine.ram, m.ram, sp)
          && At(d, r.machine, l + n) && r.machine.transfers == m.transfers + n)
  }

  lemma RoundsRead(d: Disk, env: Env, m: Machine, mem: seq<Byte>, l: nat, sp: Half, n: Half, es: Half, bx: Half)
    requires Geometry(d) && Fit(d, m) && At(d, m, l) && KeptAs(m.ram, mem) && 0x1000 <= sp <= STACK
    requires 1 <= n < 0x8000 && BlockClear(es, bx, n) && SECTOR_SIZE * (l + n) <= |d.image|
    ensures CallReads(d, m, mem, l, sp, n, es, bx, Rounds(d, env, m, sp, n, es, bx))
  {
    var plain := With(m, mem);
    RoundsAre(d, env, m, mem, sp, n, es, bx);
    AtWith(d, m, mem, l);
    ReadProgIs(d, plain, l, n, es, bx);
    var r, end := Rounds(d, env, m, sp, n, es, bx), ReadProg(d, plain, n, es, bx);
    if r.Done? {
      AtWith(d, end.value, r.machine.ram, l + n);
    }
  }

  // The end of such a call.
  lemma ReturnComes(env: Env, m: Machine, before: seq<Byte>, sp: Half, ret: Half)
    requires |m.ram| == |before| == RAM && 0x1000 <= sp <= STACK - 2
    requires StackAs(m.ram, Push(before, sp + 2, ret), sp)
    ensures var r := Return(env, m, sp, ret);
            && r.Done? && KeptAs(r.machine.ram, m.ram) && r.machine == With(m, r.machine.ram)
            && StackAs(r.machine.ram, before, sp + 2)
  {
    ScribbleKeeps(m.ram, env.byPrint(m.transfers), sp);
    PushKeeps(before, sp + 2, ret);
    Popped(before, sp + 2, ret);
    var ram, pushed := Scribbled(m.ram, env.byPrint(m.transfers), sp), Push(before, sp + 2, ret);
    StackBoth(ram, m.ram, pushed, sp, sp);
    StackBoth(ram, pushed, before, sp, sp + 2);
    WordSame(ram, pushed, sp, sp);
  }

  lemma CallIs(d: Disk, env: Env, m: Machine, mem: seq<Byte>, l: nat, sp: Half, ret: Half, n: Half, es: Half, bx: Half)
    requires Geometry(d) && Fit(d, m) && At(d, m, l) && KeptAs(m.ram, mem) && 0x2000 <= sp <= STACK
    requires 1 <= n < 0x8000 && BlockClear(es, bx, n) && SECTOR_SIZE * (l + n) <= |d.image|
    ensures CallReads(d, m, mem, l, sp, n, es, bx, Call(d, env, m, sp, ret, n, es, bx))
  {
    var pushed := With(m, Push(m.ram, sp, ret));
    PushKeeps(m.ram, sp, ret);
    KeptBoth(pushed.ram, m.ram, mem);
    AtWith(d, m, pushed.ram, l);
    RoundsRead(d, env, pushed, mem, l, sp - 2, n, es, bx);
    var r := Rounds(d, env, pushed, sp - 2, n, es, bx);
    if r.Done? {
      ReturnComes(env, r.machine, m.ram, sp - 2, ret);
      var back := Return(env, r.machine, sp - 2, ret).machine;
      KeptBoth(back.ram, r.machine.ram, Filled(d, mem, l, n, es, bx));
      AtWith(d, r.machine, back.ram, l + n);
    }
  }

  // The programs that are loadable are clear.

  lemma {:induction false} ClearStraight(es: Half, bx: Half, n: nat)
    requires Straight(es, bx, n)
    requires (0x500 <= Address(es, bx) && Address(es, bx) + SECTOR_SIZE * n <= 0x8000) || 0xBC00 <= Address(es, bx)
    ensures BlockClear(es, bx, n)
    decreases n
  {
    if n > 0 {
      assert SectorClear(es, bx);
      if n > 1 {
        NextIs(es, bx, n);
        ClearStraight(NextSegment(es, bx), NextOffset(bx), n - 1);
      }
    }
  }

  lemma {:induction false} ClearSkewed(es: Half, bx: Half, n: nat)
    requires bx % SECTOR_SIZE != 0 && 0xBC00 <= Address(es, 0) && Address(es, 0) + 0x1_0000 <= RAM
    ensures BlockClear(es, bx, n)
    decreases n
  {
    if n > 0 {
      assert SectorClear(es, bx);
      ClearSkewed(es, NextOffset(bx), n - 1);
    }
  }

  lemma ClearProgram(p: Program)
    requires Loadable(p)
    ensures BlockClear(SegmentOf(p.address), OffsetOf(p.address), Sectors(p.data))
  {
    SplitIs(p);
    Footprint(p);
    if Contiguous(p) {
      SplitStraight(p);
      ClearStraight(SegmentOf(p.address), OffsetOf(p.address), Sectors(p.data));
    } else {
      ClearSkewed(SegmentOf(p.address), OffsetOf(p.address), Sectors(p.data));
    }
  }

  // A block over the stack: its words arrive where the loader's were.
  lemma WordArrives(ram: seq<Byte>, es: Half, bx: Half, data: seq<Byte>, j: nat, offset: Half)
    requires |ram| == RAM && |data| == SECTOR_SIZE && j + 1 < SECTOR_SIZE && offset <= STACK - 2
    requires bx + SECTOR_SIZE <= 65536 && Address(es, bx) + SECTOR_SIZE <= RAM && Address(es, bx) + j == 0x7C00 + offset
    ensures RamWord(Store(ram, es, bx, data), BOOT_SEGMENT, offset) == WordAt(data, j)
  {
    StoreAt(ram, es, bx, data, 0x7C00 + offset);
    StoreAt(ram, es, bx, data, 0x7C00 + offset + 1);
  }

  lemma WordLeft(ram: seq<Byte>, left: nat -> Byte, sp: Half, offset: Half)
    requires |ram| == RAM && sp <= offset <= STACK - 2
    ensures RamWord(Scribbled(ram, left, sp), BOOT_SEGMENT, offset) == RamWord(ram, BOOT_SEGMENT, offset)
  {}

  // The round of a call for one sector.
  lemma OneRound(d: Disk, env: Env, m: Machine, l: nat, sp: Half, es: Half, bx: Half) returns (r: Machine)
    requires Geometry(d) && Fit(d, m) && At(d, m, l) && 4 <= sp <= STACK
    requires SECTOR_SIZE * (l + 1) <= |d.image| && l + 1 < Capacity(d) && d.faults(m.transfers) < 3
    ensures Round(d, env, m, sp, 1, es, bx) == Ok(r)
    ensures var pushed := Push(Push(m.ram, sp, 1), sp - 2, TriesLeft(d.faults(m.transfers)));
            r.ram == Scribbled(Store(pushed, es, bx, SectorAt(d.image, l)), env.byRead(m.transfers), sp - 4)
  {
    assert Linear(d, m) == l;
    var pushed := Push(Push(m.ram, sp, 1), sp - 2, TriesLeft(d.faults(m.transfers)));
    var m1 := Transfer(d, With(m, pushed), es, bx).value;
    var m2 := With(m1, Scribbled(m1.ram, env.byRead(m.transfers), sp - 4));
    AtWith(d, m, pushed, l);
    assert Linear(d, m2) == l;
    ForwardWalks(d, m2);
    r := Forward(d, m2).value;
  }

  // That round over the stack, when the word in place of the count ends the call.
  lemma LastRound(d: Disk, env: Env, m: Machine, l: nat, sp: Half, es: Half, bx: Half, j: nat) returns (r: Machine)
    requires Geometry(d) && Fit(d, m) && At(d, m, l) && 4 <= sp <= STACK - 2
    requires SECTOR_SIZE * (l + 1) <= |d.image| && l + 1 < Capacity(d) && d.faults(m.transfers) < 3
    requires bx + SECTOR_SIZE <= 65536 && Address(es, bx) + SECTOR_SIZE <= RAM
    requires 2 <= j < SECTOR_SIZE - 1 && Address(es, bx) + j == 0x7C00 + sp
    requires SignedHalf(WordAt(SectorAt(d.image, l), j - 2)) <= 1
    ensures Rounds(d, env, m, sp, 1, es, bx) == Done(r) && |r.ram| == RAM
    ensures RamWord(r.ram, BOOT_SEGMENT, sp) == WordAt(SectorAt(d.image, l), j)
  {
    r := OneRound(d, env, m, l, sp, es, bx);
    var data := SectorAt(d.image, l);
    var pushed := Push(Push(m.ram, sp, 1), sp - 2, TriesLeft(d.faults(m.transfers)));
    WordArrives(pushed, es, bx, data, j - 2, sp - 2);
    WordArrives(pushed, es, bx, data, j, sp);
    WordLeft(Store(pushed, es, bx, data), env.byRead(m.transfers), sp - 4, sp - 2);
    WordLeft(Store(pushed, es, bx, data), env.byRead(m.transfers), sp - 4, sp);
  }

  // Where the transfer of a call for one sector goes over the sector count and the return
  // address, and the word in place of the count ends the call, the loader comes back if and
  // only if the word in place of the address is that address; if not, it goes where it says.
  lemma ReturnsExactly(d: Disk, env: Env, m: Machine, l: nat, sp: Half, ret: Half, es: Half, bx: Half, j: nat)
    requires Geometry(d) && Fit(d, m) && At(d, m, l) && 6 <= sp <= STACK
    requires SECTOR_SIZE * (l + 1) <= |d.image| && l + 1 < Capacity(d) && d.faults(m.transfers) < 3
    requires bx + SECTOR_SIZE <= 65536 && Address(es, bx) + SECTOR_SIZE <= RAM
    requires 2 <= j < SECTOR_SIZE - 1 && Address(es, bx) + j == 0x7C00 + sp - 2
    requires SignedHalf(WordAt(SectorAt(d.image, l), j - 2)) <= 1
    ensures var word, r := WordAt(SectorAt(d.image, l), j), Call(d, env, m, sp, ret, 1, es, bx);
            if word == ret then r.Done? else r == Astray(word)
  {
    var pushed := With(m, Push(m.ram, sp, ret));
    AtWith(d, m, pushed.ram, l);
    var r := LastRound(d, env, pushed, l, sp - 2, es, bx, j);
    WordLeft(r.ram, env.byPrint(r.transfers), sp - 2, sp - 2);
  }
}
