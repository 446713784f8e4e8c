/** The image writer and the loader agree: what the one lays out, the other puts where its
    user asked for it.  The disk holds the image, and anything at all behind it. */
module BootTheorems {
  import opened Common
  import opened BootImage
  import opened BootLoader
  import opened BootTransfers
  import opened LoaderStack
  import opened StackTransfers

  // The programs up to the first empty one, whose count of zero ends the table.
  function Loaded(programs: seq<Program>): (r: seq<Program>)
    ensures r <= programs
  {
    if programs == [] || programs[0].data == [] then []
    else [programs[0]] + Loaded(programs[1..])
  }

  predicate NoneEmpty(programs: seq<Program>) {
    forall k | 0 <= k < |programs| :: programs[k].data != []
  }

  lemma {:induction false} LoadedEnds(programs: seq<Program>)
    ensures if NoneEmpty(programs) then Loaded(programs) == programs
            else |Loaded(programs)| < |programs| && programs[|Loaded(programs)|].data == []
  {
    if programs != [] && programs[0].data != [] {
      var rest := programs[1..];
      LoadedEnds(rest);
      assert NoneEmpty(rest) ==> forall k | 1 <= k < |programs| :: programs[k] == rest[k - 1];
      assert NoneEmpty(programs) ==> NoneEmpty(rest);
    }
  }

  function Total(programs: seq<Program>): nat {
    if programs == [] then 0 else Sectors(programs[0].data) + Total(programs[1..])
  }

  predicate AllLoadable(programs: seq<Program>) {
    programs == [] || (Loadable(programs[0]) && AllLoadable(programs[1..]))
  }

  lemma {:induction false} LoadableAt(programs: seq<Program>, i: nat)
    requires AllLoadable(programs) && i < |programs|
    ensures Loadable(programs[i])
  {
    if i > 0 {
      LoadableAt(programs[1..], i - 1);
    }
  }

  // Memory after all of them.
  function LoadAll(ram: seq<Byte>, programs: seq<Program>): (r: seq<Byte>)
    requires |ram| == RAM
    ensures |r| == RAM
    decreases |programs|, 1
  {
    if programs == [] then ram
    else LoadAll(Put(ram, programs[0]), programs[1..])
  }

  // The table's entries for these programs, from `di` down.
  predicate Entries(image: seq<Byte>, programs: seq<Program>, di: int) {
    programs == []
    || (EntryAt(image, programs[0], di) && Entries(image, programs[1..], di - 6))
  }

  predicate EntryAt(image: seq<Byte>, p: Program, di: int) {
    && 516 <= di <= 1022 < |image| - 1
    && WordAt(image, di) == Short(Sectors(p.data))
    && WordAt(image, di - 2) == SegmentOf(p.address)
    && WordAt(image, di - 4) == OffsetOf(p.address)
  }

  // The second sector of the bootstrap is in memory.
  ghost predicate Resident(ram: seq<Byte>, image: seq<Byte>) {
    |ram| == RAM && |image| >= 1024 && ram[0x7E00..0x8000] == image[512..1024]
  }

  lemma ResidentWord(ram: seq<Byte>, image: seq<Byte>, di: Half)
    requires Resident(ram, image) && 512 <= di <= 1022
    ensures RamWord(ram, BOOT_SEGMENT, di) == WordAt(image, di)
  {
    assert ram[0x7E00..0x8000][di - 512] == image[512..1024][di - 512];
    assert ram[0x7E00..0x8000][di + 1 - 512] == image[512..1024][di + 1 - 512];
  }

  lemma ResidentKept(ram: seq<Byte>, image: seq<Byte>, p: Program)
    requires Resident(ram, image) && Loadable(p)
    ensures Resident(Put(ram, p), image)
  {
    forall k | 0x7E00 <= k < 0x8000
      ensures Put(ram, p)[k] == ram[k]
    {
      Footprint(p);
      PutElsewhere(ram, p, k);
    }
  }

  lemma ResidentAs(ram: seq<Byte>, mem: seq<Byte>, image: seq<Byte>)
    requires KeptAs(ram, mem) && Resident(mem, image)
    ensures Resident(ram, image)
  {
    assert SameKept(ram, mem);
    assert forall a | 0x7E00 <= a < 0x8000 :: ram[a] == mem[a];
  }

  // What the loader does with one program in memory that is `mem` where it is kept.
  ghost predicate LoadsProgramParts(d: Disk, m: Machine, mem: seq<Byte>, l: nat, p: Program, r: Fate)
    requires |mem| == RAM
  {
    var n := Sectors(p.data);
    && !r.Astray?
    && (r.Done? <==> l + n < Capacity(d) && Healthy(d, m.transfers, n))
    && (r.Done? ==>
          && KeptAs(r.machine.ram, Put(mem, p)) && Resident(Put(mem, p), d.image)
          && Fit(d, r.machine) && At(d, r.machine, l + n) && r.machine.transfers == m.transfers + n)
  }

  ghost predicate LoadsProgram(d: Disk, m: Machine, mem: seq<Byte>, l: nat, p: Program, r: Fate)
    requires |mem| == RAM
  {
    forall o {:trigger LoadsProgramParts(d, m, mem, l, p, o)} | o == r :: LoadsProgramParts(d, m, mem, l, p, o)
  }

  lemma ProgramSlice(d: Disk, mem: seq<Byte>, l: nat, p: Program)
    requires |mem| == RAM && SECTOR_SIZE * l <= |d.image| && Padded(p.data) <= d.image[SECTOR_SIZE * l..]
    ensures SECTOR_SIZE * (l + Sectors(p.data)) <= |d.image|
    ensures Filled(d, mem, l, Sectors(p.data), SegmentOf(p.address), OffsetOf(p.address)) == Put(mem, p)
  {
    assert Slice(d, l, Sectors(p.data)) == Padded(p.data);
  }

  // The state in which the loader looks at the table.
  ghost predicate Looking(d: Disk, m: Machine, mem: seq<Byte>, l: nat) {
    Fit(d, m) && At(d, m, l) && KeptAs(m.ram, mem) && Resident(mem, d.image)
  }

  // The call for one entry of the table.
  lemma BlockLoads(d: Disk, env: Env, m: Machine, mem: seq<Byte>, l: nat, p: Program, di: Half)
    requires Geometry(d) && Looking(d, m, mem, l) && Loadable(p) && 6 <= di && Sectors(p.data) < 0x8000
    requires SECTOR_SIZE * l <= |d.image| && Padded(p.data) <= d.image[SECTOR_SIZE * l..]
    ensures var pushed := With(m, Push(m.ram, STACK, di - 6));
            var r := Call(d, env, pushed, STACK - 2, env.afterBlock, Sectors(p.data),
                          SegmentOf(p.address), OffsetOf(p.address));
            && LoadsProgram(d, m, mem, l, p, r)
            && (r.Done? ==> RamWord(r.machine.ram, BOOT_SEGMENT, STACK - 2) == di - 6)
  {
    var pushed := With(m, Push(m.ram, STACK, di - 6));
    PushKeeps(m.ram, STACK, di - 6);
    KeptBoth(pushed.ram, m.ram, mem);
    AtWith(d, m, pushed.ram, l);
    SplitIs(p);
    ClearProgram(p);
    ProgramSlice(d, mem, l, p);
    var n: Half, es, bx := Sectors(p.data), SegmentOf(p.address), OffsetOf(p.address);
    CallIs(d, env, pushed, mem, l, STACK - 2, env.afterBlock, n, es, bx);
    ResidentKept(mem, d.image, p);
    var r := Call(d, env, pushed, STACK - 2, env.afterBlock, n, es, bx);
    if r.Done? {
      WordSame(r.machine.ram, pushed.ram, STACK - 2, STACK - 2);
      Popped(m.ram, STACK, di - 6);
    }
  }

  lemma BlockStep(d: Disk, env: Env, m: Machine, di: Half, count: Half, es: Half, bx: Half)
    requires Geometry(d) && Fit(d, m) && 516 <= di <= 1022 && Resident(m.ram, d.image)
    requires WordAt(d.image, di - 2) == es && WordAt(d.image, di - 4) == bx
    ensures Block(d, env, m, di, count)
         == Call(d, env, With(m, Push(m.ram, STACK, di - 6)), STACK - 2, env.afterBlock, count, es, bx)
  {
    ResidentWord(m.ram, d.image, di - 2);
    ResidentWord(m.ram, d.image, di - 4);
  }

  // What the loop over the table makes of m, by name.
  ghost predicate GoesOnParts(d: Disk, env: Env, m: Machine, di: Half, out: Fate)
    requires Geometry(d)
  {
    Fit(d, m) && out == Blocks(d, env, m, di)
  }

  ghost predicate GoesOn(d: Disk, env: Env, m: Machine, di: Half, out: Fate)
    requires Geometry(d)
  {
    forall o {:trigger GoesOnParts(d, env, m, di, o)} | o == out :: GoesOnParts(d, env, m, di, o)
  }

  lemma BlocksStep(d: Disk, env: Env, m: Machine, di: Half, count: Half, out: Fate)
    requires Geometry(d) && Fit(d, m) && 516 <= di <= 1022 && Resident(m.ram, d.image)
    requires WordAt(d.image, di) == count > 0 && GoesOn(d, env, m, di, out)
    ensures var r := Block(d, env, m, di, count);
            if r.Done? then GoesOn(d, env, r.machine, RamWord(r.machine.ram, BOOT_SEGMENT, STACK - 2), out)
            else out == r
  {
    ResidentWord(m.ram, d.image, di);
    assert GoesOnParts(d, env, m, di, out);
  }

  // What the loop makes of the entry of this program.
  lemma BlockIs(d: Disk, env: Env, m: Machine, mem: seq<Byte>, l: nat, p: Program, di: Half) returns (r: Fate)
    requires Geometry(d) && Looking(d, m, mem, l) && Loadable(p) && EntryAt(d.image, p, di)
    requires SECTOR_SIZE * l <= |d.image| && Padded(p.data) <= d.image[SECTOR_SIZE * l..]
    ensures r == Block(d, env, m, di, Short(Sectors(p.data))) && LoadsProgram(d, m, mem, l, p, r)
    ensures r.Done? ==> RamWord(r.machine.ram, BOOT_SEGMENT, STACK - 2) == di - 6
  {
    SplitIs(p);
    ResidentAs(m.ram, mem, d.image);
    BlockStep(d, env, m, di, Sectors(p.data), SegmentOf(p.address), OffsetOf(p.address));
    BlockLoads(d, env, m, mem, l, p, di);
    r := Block(d, env, m, di, Sectors(p.data));
  }

  lemma EntryIs(image: seq<Byte>, p: Program, di: nat)
    requires EntryAt(image, p, di) && Loadable(p)
    ensures WordAt(image, di) == Sectors(p.data) > 0
  {
    SplitIs(p);
  }

  // The loop over the table, whose fate is `out`, gets to m' behind these programs, with all of
  // them in memory, and goes on from there; or it freezes, exactly when a transfer fails or the
  // 80 tracks end.
  ghost predicate ArrivesParts(d: Disk, env: Env, m: Machine, mem: seq<Byte>, l: nat, programs: seq<Program>, end: Half,
                               m': Machine, out: Fate)
    requires Geometry(d) && |mem| == RAM
  {
    var n := Total(programs);
    if l + n < Capacity(d) && Healthy(d, m.transfers, n) then
      && Looking(d, m', LoadAll(mem, programs), l + n) && m'.transfers == m.transfers + n
      && GoesOn(d, env, m', end, out)
    else out.Frozen?
  }

  ghost predicate Arrives(d: Disk, env: Env, m: Machine, mem: seq<Byte>, l: nat, programs: seq<Program>, end: Half,
                          m': Machine, out: Fate)
    requires Geometry(d) && |mem| == RAM
  {
    forall n {:trigger ArrivesParts(d, env, m, mem, l, programs, end, n, out)} | n == m' ::
      ArrivesParts(d, env, m, mem, l, programs, end, n, out)
  }

  lemma ArrivesFirst(d: Disk, env: Env, m: Machine, mem: seq<Byte>, l: nat, p: Program, rest: seq<Program>, end: Half,
                     r: Fate, m': Machine, out: Fate)
    requires Geometry(d) && |mem| == RAM && LoadsProgram(d, m, mem, l, p, r) && r.Done?
    requires Arrives(d, env, r.machine, Put(mem, p), l + Sectors(p.data), rest, end, m', out)
    ensures Arrives(d, env, m, mem, l, [p] + rest, end, m', out)
  {
    assert LoadsProgramParts(d, m, mem, l, p, r);
    assert ([p] + rest)[1..] == rest;
    HealthySum(d, m.transfers, Sectors(p.data), Total(rest));
    assert ArrivesParts(d, env, r.machine, Put(mem, p), l + Sectors(p.data), rest, end, m', out);
  }

  lemma FreezesFirst(d: Disk, env: Env, m: Machine, mem: seq<Byte>, l: nat, p: Program, rest: seq<Program>, end: Half,
                     r: Fate, m': Machine)
    requires Geometry(d) && |mem| == RAM && LoadsProgram(d, m, mem, l, p, r) && !r.Done?
    ensures Arrives(d, env, m, mem, l, [p] + rest, end, m', Frozen)
  {
    assert LoadsProgramParts(d, m, mem, l, p, r);
    assert ([p] + rest)[1..] == rest;
    HealthySum(d, m.transfers, Sectors(p.data), Total(rest));
  }

  lemma ArrivesNowhere(d: Disk, env: Env, m: Machine, mem: seq<Byte>, l: nat, di: Half, out: Fate)
    requires Geometry(d) && Looking(d, m, mem, l) && GoesOn(d, env, m, di, out)
    ensures Arrives(d, env, m, mem, l, [], di, m, out)
  {
    assert Linear(d, m) == l;
    ForwardWalks(d, m);
  }

  lemma BodyTail(image: seq<Byte>, l: nat, p: Program, rest: seq<Program>)
    requires SECTOR_SIZE * l <= |image| && Body([p] + rest) <= image[SECTOR_SIZE * l..]
    ensures Padded(p.data) <= image[SECTOR_SIZE * l..]
    ensures var next := SECTOR_SIZE * (l + Sectors(p.data));
            next <= |image| && Body(rest) <= image[next..]
  {
    var n, data := Sectors(p.data), Padded(p.data);
    assert ([p] + rest)[1..] == rest;
    assert Body([p] + rest) == data + Body(rest);
    assert image[SECTOR_SIZE * (l + n)..] == image[SECTOR_SIZE * l..][SECTOR_SIZE * n..];
  }

  // The programs from linear sector l on, with the table's entries for them from `di` on.
  ghost predicate AheadParts(d: Disk, l: nat, programs: seq<Program>, di: int) {
    && Entries(d.image, programs, di) && AllLoadable(programs)
    && SECTOR_SIZE * l <= |d.image| && Body(programs) <= d.image[SECTOR_SIZE * l..]
  }

  ghost predicate Ahead(d: Disk, l: nat, programs: seq<Program>, di: int) {
    forall ps {:trigger AheadParts(d, l, ps, di)} | ps == programs :: AheadParts(d, l, ps, di)
  }

  lemma AheadFirst(d: Disk, l: nat, programs: seq<Program>, di: int)
    requires Ahead(d, l, programs, di) && programs != []
    ensures Loadable(programs[0]) && EntryAt(d.image, programs[0], di)
    ensures SECTOR_SIZE * l <= |d.image| && Padded(programs[0].data) <= d.image[SECTOR_SIZE * l..]
  {
    assert AheadParts(d, l, programs, di);
    assert programs == [programs[0]] + programs[1..];
    BodyTail(d.image, l, programs[0], programs[1..]);
  }

  lemma AheadNext(d: Disk, l: nat, programs: seq<Program>, di: int)
    requires Ahead(d, l, programs, di) && programs != []
    ensures Loadable(programs[0]) && AllLoadable(programs[1..])
    ensures Ahead(d, l + Sectors(programs[0].data), programs[1..], di - 6)
  {
    assert AheadParts(d, l, programs, di);
    assert programs == [programs[0]] + programs[1..];
    BodyTail(d.image, l, programs[0], programs[1..]);
  }

  lemma LoadsEnd(d: Disk, m: Machine, mem: seq<Byte>, l: nat, p: Program, r: Fate)
    requires |mem| == RAM && LoadsProgram(d, m, mem, l, p, r)
    ensures r.Done? ==> Looking(d, r.machine, Put(mem, p), l + Sectors(p.data))
    ensures !r.Done? ==> r == Frozen
  {
    assert LoadsProgramParts(d, m, mem, l, p, r);
  }

  // The first entry, and what the loop makes of it.
  lemma EntersOne(d: Disk, env: Env, m: Machine, mem: seq<Byte>, l: nat, programs: seq<Program>, di: Half, out: Fate)
      returns (r: Fate)
    requires Geometry(d) && Looking(d, m, mem, l) && Ahead(d, l, programs, di) && programs != []
    requires GoesOn(d, env, m, di, out)
    ensures LoadsProgram(d, m, mem, l, programs[0], r)
    ensures r.Done? ==> Looking(d, r.machine, Put(mem, programs[0]), l + Sectors(programs[0].data))
    ensures 6 <= di && if r.Done? then GoesOn(d, env, r.machine, di - 6, out) else out == r == Frozen
  {
    var p := programs[0];
    AheadFirst(d, l, programs, di);
    EntryIs(d.image, p, di);
    r := BlockIs(d, env, m, mem, l, p, di);
    ResidentAs(m.ram, mem, d.image);
    BlocksStep(d, env, m, di, Sectors(p.data), out);
    LoadsEnd(d, m, mem, l, p, r);
  }

  lemma {:induction false} LoadsFrom(d: Disk, env: Env, m: Machine, mem: seq<Byte>, l: nat, programs: seq<Program>,
                                     di: Half, out: Fate) returns (m': Machine)
    requires Geometry(d) && Looking(d, m, mem, l) && Ahead(d, l, programs, di) && 6 * |programs| <= di
    requires GoesOn(d, env, m, di, out)
    ensures Arrives(d, env, m, mem, l, programs, di - 6 * |programs|, m', out)
    decreases |programs|
  {
    if programs == [] {
      ArrivesNowhere(d, env, m, mem, l, di, out);
      return m;
    }
    var p, rest, end: Half := programs[0], programs[1..], di - 6 * |programs|;
    AheadNext(d, l, programs, di);
    var r := EntersOne(d, env, m, mem, l, programs, di, out);
    assert programs == [p] + rest;
    if r.Done? {
      m' := LoadsFrom(d, env, r.machine, Put(mem, p), l + Sectors(p.data), rest, di - 6, out);
      ArrivesFirst(d, env, m, mem, l, p, rest, end, r, m', out);
    } else {
      FreezesFirst(d, env, m, mem, l, p, rest, end, r, m);
      m' := m;
    }
  }

  // What memory holds once the bootstrap is complete: its second sector, and the size of the
  // first program for the kernel.
  function Started(ram: seq<Byte>, image: seq<Byte>): (r: seq<Byte>)
    requires |ram| == RAM && |image| >= 1024
    ensures |r| == RAM
  {
    Placed(Placed(ram, 0x7E00, image[512..1024]), 0x2D0A, image[1022..1024])
  }

  lemma BytesWordAt(image: seq<Byte>, i: nat)
    requires i + 1 < |image|
    ensures Bytes([WordAt(image, i)]) == image[i..i + 2]
  {}

  lemma SecondSectorResident(ram: seq<Byte>, image: seq<Byte>)
    requires |ram| == RAM && |image| >= 1024
    ensures Resident(Placed(ram, 0x7E00, image[512..1024]), image) && Resident(Started(ram, image), image)
  {
    var ram1 := Placed(ram, 0x7E00, image[512..1024]);
    forall k | 0x7E00 <= k < 0x8000
      ensures ram1[k] == image[512..1024][k - 0x7E00] == Started(ram, image)[k]
    {
      PlacedAt(ram, 0x7E00, image[512..1024], k);
      PlacedAt(ram1, 0x2D0A, image[1022..1024], k);
    }
  }

  // The size of the first program that is stored for the kernel, in memory that is `mem` where
  // it is kept.
  lemma NotedIs(ram: seq<Byte>, mem: seq<Byte>, image: seq<Byte>)
    requires KeptAs(ram, mem) && |image| >= 1024 && Resident(mem, image)
    ensures KeptAs(Noted(ram), Placed(mem, 0x2D0A, image[1022..1024]))
  {
    ResidentAs(ram, mem, image);
    ResidentWord(ram, image, FIRST_COUNT);
    BytesWordAt(image, 1022);
    var pushed := Push(ram, STACK, BOOT_SEGMENT);
    PushKeeps(ram, STACK, BOOT_SEGMENT);
    KeptBoth(pushed, ram, mem);
    assert SameKept(pushed, mem);
    StoreKeeps(pushed, mem, MMAP_SEGMENT, MMAP_SECTORS, image[1022..1024]);
    StorePlaces(mem, MMAP_SEGMENT, MMAP_SECTORS, image[1022..1024]);
  }

  // The machine in which the loop over the table starts.
  ghost predicate Ready(d: Disk, env: Env, ram: seq<Byte>, m: Machine)
    requires Geometry(d) && |ram| == RAM && |d.image| >= 1024
  {
    && Looking(d, m, Started(ram, d.image), 2) && m.transfers == 1
    && GoesOn(d, env, m, FIRST_COUNT, Loads(d, env, ram))
  }

  lemma SecondSector(d: Disk, ram: seq<Byte>)
    requires |ram| == RAM && |d.image| >= 1024
    ensures Filled(d, ram, 1, 1, 0, 0x7E00) == Placed(ram, 0x7E00, d.image[512..1024])
    ensures BlockClear(0, 0x7E00, 1)
  {
    SentStraight(ram, 0, 0x7E00, Slice(d, 1, 1), 1);
    assert Slice(d, 1, 1) == d.image[512..1024];
    ClearStraight(0, 0x7E00, 1);
  }

  lemma StartsAt(d: Disk, env: Env, ram: seq<Byte>) returns (m: Machine)
    requires Geometry(d) && |ram| == RAM && |d.image| >= 1024
    ensures 2 < Capacity(d)
    ensures if d.faults(0) < 3 then Ready(d, env, ram, m) else Loads(d, env, ram).Frozen?
  {
    m := Machine(ram, 2, 0, 0, 0);
    MulMonotone(80, TRACKS * d.heads, d.perTrack);
    assert Linear(d, m) == 1;
    SecondSector(d, ram);
    assert SameKept(ram, ram);
    CallIs(d, env, m, ram, 1, STACK, env.afterFirst, 1, 0, 0x7E00);
    HealthyOne(d, 0);
    var r := Call(d, env, m, STACK, env.afterFirst, 1, 0, 0x7E00);
    if r.Done? {
      SecondSectorResident(ram, d.image);
      NotedIs(r.machine.ram, Placed(ram, 0x7E00, d.image[512..1024]), d.image);
      m := With(r.machine, Noted(r.machine.ram));
      AtWith(d, r.machine, m.ram, 2);
    }
  }

  predicate EntryOf(image: seq<Byte>, programs: seq<Program>, i: nat)
    requires i < |programs| <= 85
  {
    EntryAt(image, programs[i], 1022 - 6 * i)
  }

  lemma EntryFound(image: seq<Byte>, t: seq<Half>, programs: seq<Program>, i: nat)
    requires Carries(image, t) && Rows(t, programs) && i < |programs| <= 85
    ensures EntryOf(image, programs, i)
  {
    EntryHolds(image, t, programs, i, 0);
    EntryHolds(image, t, programs, i, 1);
    EntryHolds(image, t, programs, i, 2);
  }

  // The image carries the table of all its programs, counted down from the last word.
  lemma {:induction false} EntriesFrom(image: seq<Byte>, programs: seq<Program>, ps: seq<Program>, i: nat)
    requires i + |ps| <= |programs| <= 85 && ps == programs[i..i + |ps|]
    requires forall k | 0 <= k < |programs| :: EntryOf(image, programs, k)
    ensures Entries(image, ps, 1022 - 6 * i)
    decreases |ps|
  {
    if ps != [] {
      assert EntryOf(image, programs, i) && ps[0] == programs[i];
      EntriesFrom(image, programs, ps[1..], i + 1);
    }
  }

  lemma EntriesLoaded(image: seq<Byte>, programs: seq<Program>)
    requires |programs| <= 85 && forall k | 0 <= k < |programs| :: EntryOf(image, programs, k)
    ensures Entries(image, Loaded(programs), 1022)
  {
    assert Loaded(programs) == programs[..|Loaded(programs)|];
    EntriesFrom(image, programs, Loaded(programs), 0);
  }

  lemma {:induction false} BodyOfPrefix(programs: seq<Program>)
    ensures Body(Loaded(programs)) <= Body(programs)
  {
    if Loaded(programs) != [] {
      BodyOfPrefix(programs[1..]);
      assert Loaded(programs)[1..] == Loaded(programs[1..]);
    }
  }

  // The word of the bootstrap that the loader reads behind the last entry, unless an empty
  // program stops it before.
  function StopWord(bootstrap: seq<Byte>, programs: seq<Program>): Half
    requires |Padded(bootstrap)| == 1024 && |programs| <= 85
  {
    if NoneEmpty(programs) then WordAt(Padded(bootstrap), 1022 - 6 * |programs|) else 0
  }

  // A disk that starts with this image has the table of all programs, and then the programs.
  lemma ImageTable(bootstrap: seq<Byte>, programs: seq<Program>, drive: Half, image: seq<Byte>, d: Disk)
    requires |Padded(bootstrap)| == 1024 && Build(bootstrap, programs, drive) == Ok(image) && image <= d.image
    ensures 0 < |programs| <= 85 && |d.image| >= 1024
    ensures forall i | 0 <= i < |programs| :: EntryOf(d.image, programs, i)
  {
    ImageHolds(bootstrap, programs, drive);
    ImageCarries(bootstrap, programs, drive);
    TableRows(programs);
    forall i | 0 <= i < |programs|
      ensures EntryOf(d.image, programs, i)
    {
      EntryFound(image, Table(programs), programs, i);
      assert EntryOf(image, programs, i);
    }
  }

  lemma ImageBody(bootstrap: seq<Byte>, programs: seq<Program>, drive: Half, image: seq<Byte>, d: Disk)
    requires |Padded(bootstrap)| == 1024 && Build(bootstrap, programs, drive) == Ok(image) && image <= d.image
    ensures |d.image| >= 1024 && Body(Loaded(programs)) <= d.image[1024..]
  {
    ImageHolds(bootstrap, programs, drive);
    assert d.image[1024..|image|] == image[1024..];
    BodyOfPrefix(programs);
  }

  lemma ImageEntries(bootstrap: seq<Byte>, programs: seq<Program>, drive: Half, image: seq<Byte>, d: Disk)
    requires |Padded(bootstrap)| == 1024 && Build(bootstrap, programs, drive) == Ok(image) && image <= d.image
    ensures |programs| <= 85 && Entries(d.image, Loaded(programs), 1022)
  {
    ImageTable(bootstrap, programs, drive, image, d);
    EntriesLoaded(d.image, programs);
  }

  lemma AheadIs(d: Disk, programs: seq<Program>)
    requires |d.image| >= 1024 && Body(programs) <= d.image[1024..]
    requires Entries(d.image, programs, 1022) && AllLoadable(programs)
    ensures Ahead(d, 2, programs, 1022)
  {
    assert AheadParts(d, 2, programs, 1022);
  }

  // Everything that the loader finds there.
  lemma ImageAhead(bootstrap: seq<Byte>, programs: seq<Program>, drive: Half, image: seq<Byte>, d: Disk)
    requires |Padded(bootstrap)| == 1024 && Build(bootstrap, programs, drive) == Ok(image) && image <= d.image
    requires AllLoadable(Loaded(programs))
    ensures |programs| <= 85 && |d.image| >= 1024 && Ahead(d, 2, Loaded(programs), 1022)
  {
    ImageEntries(bootstrap, programs, drive, image, d);
    ImageBody(bootstrap, programs, drive, image, d);
    AheadIs(d, Loaded(programs));
  }

  lemma ImageStops(bootstrap: seq<Byte>, programs: seq<Program>, drive: Half, image: seq<Byte>, d: Disk)
    requires |Padded(bootstrap)| == 1024 && Build(bootstrap, programs, drive) == Ok(image) && image <= d.image
    ensures |programs| <= 85 && |d.image| >= 1024
    ensures WordAt(d.image, 1022 - 6 * |Loaded(programs)|) == StopWord(bootstrap, programs)
  {
    ImageTable(bootstrap, programs, drive, image, d);
    ImageHolds(bootstrap, programs, drive);
    TerminatorKept(bootstrap, programs, drive);
    StopFound(bootstrap, programs, d.image);
  }

  lemma StopFound(bootstrap: seq<Byte>, programs: seq<Program>, image: seq<Byte>)
    requires |Padded(bootstrap)| == 1024 <= |image| && |programs| <= 85
    requires var at := 1022 - 6 * |programs|; WordAt(image, at) == WordAt(Padded(bootstrap), at)
    requires forall i | 0 <= i < |programs| :: EntryOf(image, programs, i)
    ensures WordAt(image, 1022 - 6 * |Loaded(programs)|) == StopWord(bootstrap, programs)
  {
    LoadedEnds(programs);
    if !NoneEmpty(programs) {
      EmptyEntry(image, programs, |Loaded(programs)|);
    }
  }

  lemma EmptyEntry(image: seq<Byte>, programs: seq<Program>, i: nat)
    requires i < |programs| <= 85 && EntryOf(image, programs, i) && programs[i].data == []
    ensures WordAt(image, 1022 - 6 * i) == 0
  {}

  lemma TerminatorKept(bootstrap: seq<Byte>, programs: seq<Program>, drive: Half)
    requires Build(bootstrap, programs, drive).Ok? && |Padded(bootstrap)| == 1024 && |programs| <= 85
    requires |Build(bootstrap, programs, drive).value| >= 1024
    ensures var at := 1022 - 6 * |programs|;
            WordAt(Build(bootstrap, programs, drive).value, at) == WordAt(Padded(bootstrap), at)
  {
    ImageHolds(bootstrap, programs, drive);
    var at := 1022 - 6 * |programs|;
    assert Padded(bootstrap)[at] == Build(bootstrap, programs, drive).value[at];
    assert Padded(bootstrap)[at + 1] == Build(bootstrap, programs, drive).value[at + 1];
  }

  // The disk starts with the image that is built from these parts.
  ghost predicate StartsWith(d: Disk, bootstrap: seq<Byte>, programs: seq<Program>, drive: Half) {
    Build(bootstrap, programs, drive).Ok? && Build(bootstrap, programs, drive).value <= d.image
  }

  ghost predicate Holds(d: Disk, bootstrap: seq<Byte>, programs: seq<Program>, drive: Half) {
    forall e {:trigger StartsWith(e, bootstrap, programs, drive)} | e == d :: StartsWith(e, bootstrap, programs, drive)
  }

  // The disk holds such an image, and the loader can load the programs.
  ghost predicate Bootable(bootstrap: seq<Byte>, programs: seq<Program>, drive: Half, d: Disk, ram: seq<Byte>) {
    && Geometry(d) && |ram| == RAM && |Padded(bootstrap)| == 1024 && |programs| <= 85 && |d.image| >= 1024
    && Holds(d, bootstrap, programs, drive) && AllLoadable(Loaded(programs))
  }

  // All transfers for the bootstrap and these programs work, on the 80 tracks.
  predicate Readable(d: Disk, programs: seq<Program>) {
    2 + Total(programs) < Capacity(d) && Healthy(d, 0, 1 + Total(programs))
  }

  // Memory once these programs are loaded from a disk that starts with the image, except where
  // the BIOS and the stack have theirs.
  ghost predicate ContainsParts(after: seq<Byte>, before: seq<Byte>, image: seq<Byte>, programs: seq<Program>) {
    |before| == RAM && |image| >= 1024 && KeptAs(after, LoadAll(Started(before, image), programs))
  }

  ghost predicate Contains(after: seq<Byte>, before: seq<Byte>, image: seq<Byte>, programs: seq<Program>) {
    forall r {:trigger ContainsParts(r, before, image, programs)} | r == after ::
      ContainsParts(r, before, image, programs)
  }

  // Having loaded these programs, the loader is in m and looks at the word below their entries.
  ghost predicate BootsToParts(d: Disk, env: Env, ram: seq<Byte>, programs: seq<Program>, m: Machine, out: Fate)
    requires Geometry(d) && |ram| == RAM && |d.image| >= 1024 && |programs| <= 85
  {
    if Readable(d, programs) then
      && Fit(d, m) && m.transfers == 1 + Total(programs) && Resident(m.ram, d.image)
      && Contains(m.ram, ram, d.image, programs)
      && GoesOn(d, env, m, 1022 - 6 * |programs|, out)
    else out.Frozen?
  }

  ghost predicate BootsTo(d: Disk, env: Env, ram: seq<Byte>, programs: seq<Program>, m: Machine, out: Fate)
    requires Geometry(d) && |ram| == RAM && |d.image| >= 1024 && |programs| <= 85
  {
    forall n {:trigger BootsToParts(d, env, ram, programs, n, out)} | n == m ::
      BootsToParts(d, env, ram, programs, n, out)
  }

  lemma ArrivesBooted(d: Disk, env: Env, ram: seq<Byte>, m0: Machine, programs: seq<Program>, m: Machine, out: Fate)
    requires Geometry(d) && |ram| == RAM && |d.image| >= 1024 && |programs| <= 85
    requires m0.transfers == 1 && d.faults(0) < 3
    requires Arrives(d, env, m0, Started(ram, d.image), 2, programs, 1022 - 6 * |programs|, m, out)
    ensures BootsTo(d, env, ram, programs, m, out)
  {
    HealthySum(d, 0, 1, Total(programs));
    HealthyOne(d, 0);
    var mem := Started(ram, d.image);
    assert ArrivesParts(d, env, m0, mem, 2, programs, 1022 - 6 * |programs|, m, out);
    if Readable(d, programs) {
      ResidentAs(m.ram, LoadAll(mem, programs), d.image);
      assert ContainsParts(m.ram, ram, d.image, programs);
    }
  }

  lemma BootsFrom(d: Disk, env: Env, ram: seq<Byte>, m0: Machine, programs: seq<Program>, out: Fate)
      returns (m: Machine)
    requires Geometry(d) && |ram| == RAM && |d.image| >= 1024 && |programs| <= 85
    requires Ready(d, env, ram, m0) && out == Loads(d, env, ram) && Ahead(d, 2, programs, 1022) && d.faults(0) < 3
    ensures BootsTo(d, env, ram, programs, m, out)
  {
    m := LoadsFrom(d, env, m0, Started(ram, d.image), 2, programs, FIRST_COUNT, out);
    ArrivesBooted(d, env, ram, m0, programs, m, out);
  }

  lemma BootArrives(bootstrap: seq<Byte>, programs: seq<Program>, drive: Half, d: Disk, env: Env, ram: seq<Byte>)
      returns (m: Machine)
    requires Bootable(bootstrap, programs, drive, d, ram)
    ensures BootsTo(d, env, ram, Loaded(programs), m, Loads(d, env, ram))
    ensures WordAt(d.image, 1022 - 6 * |Loaded(programs)|) == StopWord(bootstrap, programs)
  {
    assert StartsWith(d, bootstrap, programs, drive);
    ImageAhead(bootstrap, programs, drive, Build(bootstrap, programs, drive).value, d);
    ImageStops(bootstrap, programs, drive, Build(bootstrap, programs, drive).value, d);
    m := StartsAt(d, env, ram);
    if d.faults(0) < 3 {
      m := BootsFrom(d, env, ram, m, Loaded(programs), Loads(d, env, ram));
    } else {
      HealthySum(d, 0, 1, Total(Loaded(programs)));
      HealthyOne(d, 0);
    }
  }

  // A look at the table: the end, or at least one transfer more.
  lemma LooksAt(d: Disk, env: Env, m: Machine, di: Half, out: Fate)
    requires Geometry(d) && Fit(d, m) && Resident(m.ram, d.image) && 512 <= di <= 1022
    requires GoesOn(d, env, m, di, out)
    ensures WordAt(d.image, di) == 0 ==> out == Done(m)
    ensures WordAt(d.image, di) != 0 && out.Done? ==> out.machine.transfers > m.transfers
  {
    assert GoesOnParts(d, env, m, di, out);
    ResidentWord(m.ram, d.image, di);
  }

  // The loader never goes astray, and it finishes exactly when all transfers work, with these
  // programs in memory.
  ghost predicate Finishes(d: Disk, ram: seq<Byte>, programs: seq<Program>, out: Fate) {
    && !out.Astray?
    && (out.Done? <==> Readable(d, programs))
    && (out.Done? ==>
          && Contains(out.machine.ram, ram, d.image, programs)
          && out.machine.transfers == 1 + Total(programs))
  }

  lemma FinishesIn(d: Disk, ram: seq<Byte>, programs: seq<Program>, m: Machine)
    requires Readable(d, programs) && Contains(m.ram, ram, d.image, programs) && m.transfers == 1 + Total(programs)
    ensures Finishes(d, ram, programs, Done(m))
  {}

  lemma FinishesNot(d: Disk, ram: seq<Byte>, programs: seq<Program>)
    requires !Readable(d, programs)
    ensures Finishes(d, ram, programs, Frozen)
  {}

  lemma LoaderFinishes(d: Disk, env: Env, ram: seq<Byte>, programs: seq<Program>, m: Machine, out: Fate)
    requires Geometry(d) && |ram| == RAM && |d.image| >= 1024 && |programs| <= 85
    requires BootsTo(d, env, ram, programs, m, out) && WordAt(d.image, 1022 - 6 * |programs|) == 0
    ensures Finishes(d, ram, programs, out)
  {
    assert BootsToParts(d, env, ram, programs, m, out);
    if Readable(d, programs) {
      LooksAt(d, env, m, 1022 - 6 * |programs|, out);
      FinishesIn(d, ram, programs, m);
    } else {
      FinishesNot(d, ram, programs);
    }
  }

  // If the loader finishes, it has read just the sectors of these programs exactly if the word
  // behind their entries is zero.
  ghost predicate StopsAt(programs: seq<Program>, word: Half, out: Fate) {
    out.Done? ==>
      && (out.machine.transfers == 1 + Total(programs) <==> word == 0)
      && out.machine.transfers >= 1 + Total(programs)
  }

  lemma LoaderStops(d: Disk, env: Env, ram: seq<Byte>, programs: seq<Program>, m: Machine, word: Half, out: Fate)
    requires Geometry(d) && |ram| == RAM && |d.image| >= 1024 && |programs| <= 85
    requires BootsTo(d, env, ram, programs, m, out) && WordAt(d.image, 1022 - 6 * |programs|) == word
    ensures StopsAt(programs, word, out)
  {
    assert BootsToParts(d, env, ram, programs, m, out);
    if Readable(d, programs) {
      LooksAt(d, env, m, 1022 - 6 * |programs|, out);
    }
  }

  // End to end, where the bootstrap leaves a zero word below the table: exactly when every
  // sector is read within three attempts and the 80 tracks are not exhausted, the loader
  // finishes, and memory is what the transfers of the programs up to the first empty one
  // leave.
  lemma BootsExactly(bootstrap: seq<Byte>, programs: seq<Program>, drive: Half, d: Disk, env: Env, ram: seq<Byte>)
    requires Bootable(bootstrap, programs, drive, d, ram) && StopWord(bootstrap, programs) == 0
    ensures Finishes(d, ram, Loaded(programs), Loads(d, env, ram))
  {
    var m := BootArrives(bootstrap, programs, drive, d, env, ram);
    LoaderFinishes(d, env, ram, Loaded(programs), m, Loads(d, env, ram));
  }

  // Without it, the loader goes on reading behind the programs: it stops after their sectors
  // if and only if there is a zero word below the table, or an empty program in it.
  lemma StopsExactly(bootstrap: seq<Byte>, programs: seq<Program>, drive: Half, d: Disk, env: Env, ram: seq<Byte>)
    requires Bootable(bootstrap, programs, drive, d, ram)
    ensures StopsAt(Loaded(programs), StopWord(bootstrap, programs), Loads(d, env, ram))
  {
    var m := BootArrives(bootstrap, programs, drive, d, env, ram);
    LoaderStops(d, env, ram, Loaded(programs), m, StopWord(bootstrap, programs), Loads(d, env, ram));
  }

  // Whether only empty programs follow the first empty one.
  predicate OnlyEmptyBehind(programs: seq<Program>) {
    forall i | |Loaded(programs)| <= i < |programs| :: programs[i].data == []
  }

  lemma {:induction false} TotalNone(programs: seq<Program>)
    ensures Total(programs) == 0 <==> forall i | 0 <= i < |programs| :: programs[i].data == []
  {
    if programs != [] {
      TotalNone(programs[1..]);
      assert forall i | 0 <= i < |programs| - 1 :: programs[1..][i] == programs[i + 1];
    }
  }

  lemma {:induction false} TotalLoaded(programs: seq<Program>)
    ensures Total(Loaded(programs)) == Total(programs) <==> OnlyEmptyBehind(programs)
  {
    if programs == [] || programs[0].data == [] {
      TotalNone(programs);
    } else {
      var rest := programs[1..];
      TotalLoaded(rest);
      assert Loaded(programs)[1..] == Loaded(rest);
      assert OnlyEmptyBehind(rest) ==> forall i | |Loaded(programs)| <= i < |programs| :: programs[i] == rest[i - 1];
      assert OnlyEmptyBehind(programs) ==> forall i | |Loaded(rest)| <= i < |rest| :: rest[i] == programs[i + 1];
    }
  }

  // The loader reads the sectors of all programs if and only if no program that has any
  // follows an empty one.
  lemma EverythingReadExactly(bootstrap: seq<Byte>, programs: seq<Program>, drive: Half, d: Disk, env: Env,
                              ram: seq<Byte>)
    requires Bootable(bootstrap, programs, drive, d, ram) && StopWord(bootstrap, programs) == 0
    requires Loads(d, env, ram).Done?
    ensures Loads(d, env, ram).machine.transfers == 1 + Total(programs) <==> OnlyEmptyBehind(programs)
  {
    BootsExactly(bootstrap, programs, drive, d, env, ram);
    TotalLoaded(programs);
  }

  // What loading q does not touch.
  predicate Beside(q: Program, from: int, to: int) { to <= Low(q) || High(q) <= from }

  predicate Apart(p: Program, q: Program) { Beside(q, p.address, p.address + |Padded(p.data)|) }

  lemma PlacedApart<T>(s: seq<T>, at: nat, data: seq<T>, from: nat, to: nat)
    requires at + |data| <= |s| && from <= to <= |s| && (to <= at || at + |data| <= from)
    ensures Placed(s, at, data)[from..to] == s[from..to]
  {}

  lemma PutApart(ram: seq<Byte>, q: Program, from: nat, to: nat)
    requires |ram| == RAM && Loadable(q) && from <= to <= RAM && Beside(q, from, to)
    ensures Put(ram, q)[from..to] == ram[from..to]
  {
    forall a | from <= a < to
      ensures Put(ram, q)[a] == ram[a]
    {
      PutElsewhere(ram, q, a);
    }
  }

  lemma {:induction false} KeptApart(ram: seq<Byte>, programs: seq<Program>, from: nat, to: nat)
    requires |ram| == RAM && from <= to <= RAM && AllLoadable(programs)
    requires forall j | 0 <= j < |programs| :: Beside(programs[j], from, to)
    ensures LoadAll(ram, programs)[from..to] == ram[from..to]
    decreases |programs|
  {
    if programs != [] {
      var q := programs[0];
      assert Beside(q, from, to);
      KeptApart(Put(ram, q), programs[1..], from, to);
      PutApart(ram, q, from, to);
    }
  }

  lemma ApartIsBeside(programs: seq<Program>, p: Program)
    requires forall j | 0 <= j < |programs| :: Apart(p, programs[j])
    ensures forall j | 0 <= j < |programs| :: Beside(programs[j], p.address, p.address + |Padded(p.data)|)
  {
    forall j | 0 <= j < |programs|
      ensures Beside(programs[j], p.address, p.address + |Padded(p.data)|)
    {
      assert Apart(p, programs[j]);
    }
  }

  // Whether program i stays clear of those loaded after it, and of all others if it is torn.
  predicate Undisturbed(programs: seq<Program>, i: nat)
    requires i < |programs|
  {
    forall j | 0 <= j < |programs| && (i < j || (j < i && !Contiguous(programs[i]))) :: Apart(programs[i], programs[j])
  }

  lemma ForeignPast(ram: seq<Byte>, q: Program, p: Program)
    requires |ram| == RAM && Loadable(p) && Loadable(q) && Foreign(ram, p) && (!Contiguous(p) ==> Apart(p, q))
    ensures Foreign(Put(ram, q), p)
  {
    if !Contiguous(p) {
      SplitIs(p);
      var to := p.address + |Padded(p.data)|;
      PutApart(ram, q, p.address, to);
      assert Put(ram, q)[p.address..to][MISSED] == ram[p.address..to][MISSED];
    }
  }

  lemma WholeSame(r: seq<Byte>, s: seq<Byte>, p: Program, from: nat, to: nat)
    requires |r| == |s| && from == p.address && to == from + |Padded(p.data)| && to <= |r| && r[from..to] == s[from..to]
    ensures Whole(r, p) <==> Whole(s, p)
  {}

  lemma KeptApartFrom(mem: seq<Byte>, p: Program, rest: seq<Program>, from: nat, to: nat)
    requires |mem| == RAM && AllLoadable(rest) && from == p.address && to == from + |Padded(p.data)| && to <= RAM
    requires forall j | 0 <= j < |rest| :: Apart(p, rest[j])
    ensures LoadAll(mem, rest)[from..to] == mem[from..to]
  {
    ApartIsBeside(rest, p);
    KeptApart(mem, rest, from, to);
  }

  lemma WholeAfter(mem: seq<Byte>, p: Program, rest: seq<Program>)
    requires |mem| == RAM && Loadable(p) && AllLoadable(rest)
    requires forall j | 0 <= j < |rest| :: Apart(p, rest[j])
    ensures Whole(LoadAll(mem, rest), p) <==> Whole(mem, p)
  {
    SplitIs(p);
    var from: nat, to: nat := p.address, p.address + |Padded(p.data)|;
    KeptApartFrom(mem, p, rest, from, to);
    WholeSame(LoadAll(mem, rest), mem, p, from, to);
  }

  // Such a program is in memory whole, in the end, if and only if it is contiguous.
  lemma {:induction false} ProgramInMemory(ram: seq<Byte>, programs: seq<Program>, i: nat)
    requires |ram| == RAM && i < |programs| && AllLoadable(programs)
    requires Undisturbed(programs, i) && Foreign(ram, programs[i])
    ensures Whole(LoadAll(ram, programs), programs[i]) <==> Contiguous(programs[i])
    decreases |programs|
  {
    var q, p, rest := programs[0], programs[i], programs[1..];
    if i > 0 {
      LoadableAt(programs, i);
      assert !Contiguous(p) ==> Apart(p, q);
      ForeignPast(ram, q, p);
      ProgramInMemory(Put(ram, q), rest, i - 1);
    } else {
      assert forall j | 0 <= j < |rest| :: rest[j] == programs[j + 1];
      WholeAfter(Put(ram, p), p, rest);
      PutWholeExactly(ram, p);
    }
  }

  // A place outside the memory of the BIOS and the stack.
  lemma KeptSlice(ram: seq<Byte>, mem: seq<Byte>, from: nat, to: nat)
    requires KeptAs(ram, mem) && from <= to <= RAM && ((0x500 <= from && to <= 0x8000) || 0xBC00 <= from)
    ensures ram[from..to] == mem[from..to]
  {
    assert SameKept(ram, mem);
  }

  lemma ForeignStarted(ram: seq<Byte>, image: seq<Byte>, p: Program)
    requires |ram| == RAM && |image| >= 1024 && Loadable(p) && Foreign(ram, p)
    ensures Foreign(Started(ram, image), p)
  {
    if !Contiguous(p) {
      SplitIs(p);
      PlacedAt(ram, 0x7E00, image[512..1024], p.address + MISSED);
      PlacedAt(Placed(ram, 0x7E00, image[512..1024]), 0x2D0A, image[1022..1024], p.address + MISSED);
    }
  }

  lemma WholeKept(ram: seq<Byte>, mem: seq<Byte>, p: Program)
    requires KeptAs(ram, mem) && Loadable(p)
    ensures Whole(ram, p) <==> Whole(mem, p)
  {
    SplitIs(p);
    var from: nat, to: nat := p.address, p.address + |Padded(p.data)|;
    KeptSlice(ram, mem, from, to);
    WholeSame(ram, mem, p, from, to);
  }

  // In the end: a program in front of the first empty one is in memory as it is on the disk if
  // and only if it is contiguous, provided that no later one touches it.
  lemma BootedProgram(bootstrap: seq<Byte>, programs: seq<Program>, drive: Half, d: Disk, env: Env, ram: seq<Byte>,
                      i: nat)
    requires Bootable(bootstrap, programs, drive, d, ram) && StopWord(bootstrap, programs) == 0
    requires Loads(d, env, ram).Done? && i < |Loaded(programs)|
    requires Undisturbed(Loaded(programs), i) && Foreign(ram, programs[i])
    ensures Whole(Loads(d, env, ram).machine.ram, programs[i]) <==> Contiguous(programs[i])
  {
    BootsExactly(bootstrap, programs, drive, d, env, ram);
    LoadableAt(Loaded(programs), i);
    assert ContainsParts(Loads(d, env, ram).machine.ram, ram, d.image, Loaded(programs));
    ForeignStarted(ram, d.image, programs[i]);
    ProgramInMemory(Started(ram, d.image), Loaded(programs), i);
    WholeKept(Loads(d, env, ram).machine.ram, LoadAll(Started(ram, d.image), Loaded(programs)), programs[i]);
  }

  lemma StartedApart(ram: seq<Byte>, image: seq<Byte>, from: nat, to: nat)
    requires |ram| == RAM && |image| >= 1024 && from <= to <= RAM && Reserved(from, to)
    ensures Started(ram, image)[from..to] == ram[from..to]
  {
    PlacedApart(ram, 0x7E00, image[512..1024], from, to);
    PlacedApart(Placed(ram, 0x7E00, image[512..1024]), 0x2D0A, image[1022..1024], from, to);
  }

  // Memory that the loader does not use itself.
  predicate Reserved(from: nat, to: nat) {
    (0x500 <= from && to <= 0x2D0A) || (0x2D0C <= from && to <= 0x7C00) || 0xBC00 <= from
  }

  // A program behind an empty one is not loaded: its place is as it was before.
  lemma ProgramBehindEmpty(bootstrap: seq<Byte>, programs: seq<Program>, drive: Half, d: Disk, env: Env,
                           ram: seq<Byte>, i: nat)
    requires Bootable(bootstrap, programs, drive, d, ram) && Loads(d, env, ram).Done?
    requires |Loaded(programs)| <= i < |programs| && 0 <= programs[i].address
    requires Reserved(programs[i].address, programs[i].address + |Padded(programs[i].data)|)
    requires forall j | 0 <= j < |Loaded(programs)| :: Apart(programs[i], programs[j])
    ensures var from, to := programs[i].address, programs[i].address + |Padded(programs[i].data)|;
            && to <= RAM == |Loads(d, env, ram).machine.ram|
            && Loads(d, env, ram).machine.ram[from..to] == ram[from..to]
  {
    EmptyStops(bootstrap, programs);
    BootsExactly(bootstrap, programs, drive, d, env, ram);
    ImageAccepts(bootstrap, programs, drive, d, i);
    ProgramKept(Loads(d, env, ram).machine.ram, ram, d.image, Loaded(programs), programs[i]);
  }

  lemma EmptyStops(bootstrap: seq<Byte>, programs: seq<Program>)
    requires |Padded(bootstrap)| == 1024 && |Loaded(programs)| < |programs| <= 85
    ensures StopWord(bootstrap, programs) == 0
  {
    LoadedEnds(programs);
  }

  lemma ProgramKept(after: seq<Byte>, before: seq<Byte>, image: seq<Byte>, programs: seq<Program>, p: Program)
    requires Contains(after, before, image, programs) && AllLoadable(programs) && Accepted(p) && 0 <= p.address
    requires Reserved(p.address, p.address + |Padded(p.data)|)
    requires forall j | 0 <= j < |programs| :: Apart(p, programs[j])
    ensures var from, to := p.address, p.address + |Padded(p.data)|;
            to <= RAM == |after| == |before| && after[from..to] == before[from..to]
  {
    ApartIsBeside(programs, p);
    KeptBehind(after, before, image, programs, p.address, p.address + |Padded(p.data)|);
  }

  lemma ImageAccepts(bootstrap: seq<Byte>, programs: seq<Program>, drive: Half, d: Disk, i: nat)
    requires Holds(d, bootstrap, programs, drive) && i < |programs|
    ensures Accepted(programs[i])
  {
    assert StartsWith(d, bootstrap, programs, drive);
    assert programs[i] in programs;
  }

  lemma KeptBehind(after: seq<Byte>, before: seq<Byte>, image: seq<Byte>, programs: seq<Program>, from: nat, to: nat)
    requires Contains(after, before, image, programs) && AllLoadable(programs)
    requires from <= to <= RAM && Reserved(from, to)
    requires forall j | 0 <= j < |programs| :: Beside(programs[j], from, to)
    ensures |before| == |after| == RAM && after[from..to] == before[from..to]
  {
    assert ContainsParts(after, before, image, programs);
    KeptApart(Started(before, image), programs, from, to);
    KeptSlice(after, LoadAll(Started(before, image), programs), from, to);
    StartedApart(before, image, from, to);
  }
}
