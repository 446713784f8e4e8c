/** Where the image writer and the loader fall short of what a user would expect: the inputs.
    When each happens is stated by BootedProgram, EverythingReadExactly, StopsExactly,
    BootsExactly, SplitExactly and ReturnsExactly. */
module BootLimits {
  import opened Common
  import opened BootImage
  import opened BootLoader
  import opened BootTransfers
  import opened LoaderStack
  import opened StackTransfers
  import opened BootTheorems

  const HLT: Byte := 0xF4

  function Halts(n: nat, address: int): (p: Program)
    ensures |p.data| == n && p.address == address
    ensures n % SECTOR_SIZE == 0 ==> Sectors(p.data) * SECTOR_SIZE == n && Padded(p.data) == p.data
    ensures forall i | 0 <= i < n :: p.data[i] == HLT
  {
    Program(seq(n, i => HLT), address)
  }

  // A bootstrap of two blank sectors.
  function Blank(): (b: seq<Byte>)
    ensures |b| == 1024 && Padded(b) == b && forall i | 0 <= i < 1024 :: b[i] == 0
  {
    Zeros(1024)
  }

  // A disk with two sectors on each of its 80 tracks, all of them readable.
  function SmallDisk(image: seq<Byte>): (d: Disk)
    ensures Geometry(d) && Capacity(d) == 160 && d.image == image && forall i :: d.faults(i) == 0
  {
    Disk(image, 1, 2, i => 0)
  }

  lemma BlankHasRoom(programs: seq<Program>)
    requires 0 < |programs| <= 85 && forall p | p in programs :: Accepted(p)
    ensures Build(Blank(), programs, 0).Ok? && StopWord(Blank(), programs) == 0
  {
    var n := 6 * |programs|;
    assert Blank()[1024 - n..] == Zeros(n);
  }

  // What BootsExactly needs for a disk that starts with such an image.
  lemma BlankBootable(programs: seq<Program>, ram: seq<Byte>, image: seq<Byte>)
    requires 0 < |programs| <= 85 && (forall p | p in programs :: Accepted(p)) && AllLoadable(Loaded(programs))
    requires |ram| == RAM && Build(Blank(), programs, 0).Ok? && Build(Blank(), programs, 0).value <= image
    ensures Bootable(Blank(), programs, 0, SmallDisk(image), ram)
  {
    ImageHolds(Blank(), programs, 0);
    assert StartsWith(SmallDisk(image), Blank(), programs, 0);
  }

  // The disk with just the image of one program.
  function DiskOf(p: Program): (d: Disk)
    requires Accepted(p)
    ensures Geometry(d) && Capacity(d) == 160 && forall i :: d.faults(i) == 0
    ensures Build(Blank(), [p], 0) == Ok(d.image) && StopWord(Blank(), [p]) == 0
  {
    BlankHasRoom([p]);
    SmallDisk(Build(Blank(), [p], 0).value)
  }

  // One loadable program boots, as long as there are tracks for it.
  lemma OneBoots(p: Program, env: Env, ram: seq<Byte>)
    requires |ram| == RAM && Loadable(p)
    ensures Loads(DiskOf(p), env, ram).Done? <==> Sectors(p.data) < 158
    ensures !Loads(DiskOf(p), env, ram).Astray? && Loaded([p]) == [p]
    ensures Bootable(Blank(), [p], 0, DiskOf(p), ram)
  {
    var d := DiskOf(p);
    assert [p][1..] == [] && Loaded([p]) == [p] && Total([p]) == Sectors(p.data);
    BlankBootable([p], ram, d.image);
    BootsExactly(Blank(), [p], 0, d, env, ram);
  }

  // A program of 128 sectors one byte off a segment boundary is accepted and boots, but it does
  // not get into memory: the last byte of its sector 127 is as it was before.
  lemma SkewedProgramTorn(env: Env, ram: seq<Byte>)
    requires |ram| == RAM
    ensures var p := Halts(0x1_0000, 0x10001);
            && Accepted(p) && !InPlace(p)
            && var r := Loads(DiskOf(p), env, ram);
            r.Done? && |r.machine.ram| == RAM && r.machine.ram[0x10001 + MISSED] == ram[0x10001 + MISSED]
  {
    var p := Halts(0x1_0000, 0x10001);
    assert Sectors(p.data) == 128;
    AddressesExactly(p);
    OneBoots(p, env, ram);
    BootsExactly(Blank(), [p], 0, DiskOf(p), env, ram);
    TornByte(Loads(DiskOf(p), env, ram).machine.ram, ram, DiskOf(p).image, p);
  }

  lemma TornByte(after: seq<Byte>, before: seq<Byte>, image: seq<Byte>, p: Program)
    requires Loadable(p) && !Contiguous(p) && 0xBC00 <= p.address && Contains(after, before, image, [p])
    ensures |after| == |before| == RAM && p.address + MISSED < RAM
    ensures after[p.address + MISSED] == before[p.address + MISSED]
  {
    SplitIs(p);
    var a := p.address + MISSED;
    assert ContainsParts(after, before, image, [p]);
    assert LoadAll(Started(before, image), [p]) == Put(Started(before, image), p);
    PutElsewhere(Started(before, image), p, a);
    KeptSlice(after, Put(Started(before, image), p), a, a + 1);
    StartedApart(before, image, a, a + 1);
    assert after[a] == after[a..a + 1][0];
    assert before[a] == before[a..a + 1][0] == Started(before, image)[a..a + 1][0];
  }

  // The disk of a program of one sector.
  lemma DiskHas(p: Program)
    requires Accepted(p) && Sectors(p.data) == 1
    ensures |DiskOf(p).image| >= 3 * SECTOR_SIZE && SectorAt(DiskOf(p).image, 2) == Padded(p.data)
    ensures EntryAt(DiskOf(p).image, p, 1022)
  {
    var d := DiskOf(p);
    ImageHolds(Blank(), [p], 0);
    assert [p][1..] == [] && Body([p]) == Padded(p.data);
    assert SectorAt(d.image, 2) == d.image[1024..];
    ImageTable(Blank(), [p], 0, d.image, d);
    assert EntryOf(d.image, [p], 0);
  }

  // A program at -16 is accepted; the registers that it gets take its first 16 bytes to the top
  // of the first megabyte, and the others over the interrupt vectors at address 0.
  lemma NegativeWraps(m: Machine, p: Program, j: nat)
    requires p.address == -16 && Sectors(p.data) == 1 && j < SECTOR_SIZE
    requires Accepted(p) && Fit(DiskOf(p), m) && At(DiskOf(p), m, 2)
    ensures var r := ReadProg(DiskOf(p), m, 1, SegmentOf(p.address), OffsetOf(p.address));
            && r.Ok? && |r.value.ram| == RAM
            && r.value.ram[if j < 16 then 0xFFFF0 + j else j - 16] == Padded(p.data)[j]
  {
    var d := DiskOf(p);
    assert SegmentOf(-16) == 0xFFFF && OffsetOf(-16) == 0;
    DiskHas(p);
    assert d.image[1024 + j] == SectorAt(d.image, 2)[j];
    ReadProgIs(d, m, 2, 1, 0xFFFF, 0);
    ReadProgAtTarget(d, m, 2, 0, 0xFFFF, 0, j);
  }

  // A program over the loader's stack is accepted, and the loader returns into nowhere.
  lemma StackOverwritten(env: Env, ram: seq<Byte>)
    requires |ram| == RAM && env.afterBlock != 0xF4F4
    ensures var p := Halts(SECTOR_SIZE, 0xBA00);
            Accepted(p) && Loads(DiskOf(p), env, ram) == Astray(0xF4F4)
  {
    var p := Halts(SECTOR_SIZE, 0xBA00);
    var d := DiskOf(p);
    DiskHas(p);
    var m := StartsAt(d, env, ram);
    ResidentAs(m.ram, Started(ram, d.image), d.image);
    StackLost(d, env, m);
    BlocksStep(d, env, m, 1022, 1, Loads(d, env, ram));
  }

  lemma StackLost(d: Disk, env: Env, m: Machine)
    requires Geometry(d) && Fit(d, m) && At(d, m, 2) && |d.image| >= 3 * SECTOR_SIZE && Resident(m.ram, d.image)
    requires 3 < Capacity(d) && d.faults(m.transfers) < 3 && env.afterBlock != 0xF4F4
    requires WordAt(d.image, 1020) == 0xBA0 && WordAt(d.image, 1018) == 0
    requires forall i | 0 <= i < SECTOR_SIZE :: SectorAt(d.image, 2)[i] == HLT
    ensures Block(d, env, m, 1022, 1) == Astray(0xF4F4)
  {
    var pushed := With(m, Push(m.ram, STACK, 1016));
    AtWith(d, m, pushed.ram, 2);
    ReturnsExactly(d, env, pushed, 2, STACK - 2, env.afterBlock, 0xBA0, 0, 508);
    BlockStep(d, env, m, 1022, 1, 0xBA0, 0);
  }

  // Behind an empty program the next one is not loaded, although the loader finishes.
  lemma EmptyProgramHides(env: Env, ram: seq<Byte>)
    requires |ram| == RAM
    ensures var image := Build(Blank(), [Program([], 0x10000), Program([HLT], 0x20000)], 0);
            && image.Ok?
            && var r := Loads(SmallDisk(image.value), env, ram);
            && r.Done? && r.machine.transfers == 1 && |r.machine.ram| == RAM
            && r.machine.ram[0x20000] == ram[0x20000]
  {
    var programs := [Program([], 0x10000), Program([HLT], 0x20000)];
    assert Loaded(programs) == [];
    BlankHasRoom(programs);
    var image := Build(Blank(), programs, 0).value;
    BlankBootable(programs, ram, image);
    BootsExactly(Blank(), programs, 0, SmallDisk(image), env, ram);
    ProgramBehindEmpty(Blank(), programs, 0, SmallDisk(image), env, ram, 1);
    var r, n := Loads(SmallDisk(image), env, ram).machine.ram, |Padded([HLT])|;
    assert r[0x20000] == r[0x20000..0x20000 + n][0] == ram[0x20000..0x20000 + n][0];
  }

  // On 80 tracks of two sectors there is room for 158 sectors behind the bootstrap.  A program
  // that fills them all is accepted, and freezes the loader once it is in memory; a smaller one
  // boots.
  lemma FullDiskFreezes(env: Env, ram: seq<Byte>, n: nat)
    requires |ram| == RAM && 0 < n <= 158
    ensures var p := Halts(n * SECTOR_SIZE, 0x10000);
            Accepted(p) && (Loads(DiskOf(p), env, ram).Done? <==> n < 158)
  {
    var p := Halts(n * SECTOR_SIZE, 0x10000);
    assert Sectors(p.data) == n;
    OneBoots(p, env, ram);
  }

  // A bootstrap with no zero word below the table is accepted too; behind its only program the
  // loader goes on with whatever the disk holds there.
  lemma UnterminatedGoesOn(env: Env, ram: seq<Byte>, behind: seq<Byte>)
    requires |ram| == RAM
    ensures var image := Build(Blank()[1017 := HLT], [Program([HLT], 0x10000)], 0);
            && image.Ok?
            && var r := Loads(SmallDisk(image.value + behind), env, ram);
            r.Done? ==> r.machine.transfers > 2
  {
    var bootstrap, p := Blank()[1017 := HLT], Program([HLT], 0x10000);
    var programs := [p];
    assert |Padded(bootstrap)| == 1024 && Padded(bootstrap) == bootstrap;
    assert Sectors(p.data) == 1 && Loadable(p) && Loaded(programs) == [p] && programs[1..] == [];
    assert Total(programs) == 1;
    assert bootstrap[1018..] == Zeros(6);
    var d := SmallDisk(Build(bootstrap, programs, 0).value + behind);
    ImageHolds(bootstrap, programs, 0);
    assert StartsWith(d, bootstrap, programs, 0);
    assert StopWord(bootstrap, programs) != 0 by { assert WordAt(bootstrap, 1016) == 0x100 * 0xF4; }
    StopsExactly(bootstrap, programs, 0, d, env, ram);
  }
}
