/** The two programs as they run: BuildImage.c with its table and output file, and the loops of
    bootstrap.S on memory and registers, each proved to do what its specification says. */
module BootModule {
  import opened Common
  import opened BootImage
  import opened BootLoader
  import opened LoaderStack

  lemma PaddedHead(data: seq<Byte>, n: nat)
    requires data != [] && n == if |data| < SECTOR_SIZE then |data| else SECTOR_SIZE
    ensures Padded(data) == data[..n] + Zeros(SECTOR_SIZE - n) + Padded(data[n..])
    ensures Sectors(data) == 1 + Sectors(data[n..])
  {
    var rest := Sectors(data[n..]);
    assert Sectors(data) == 1 + rest;
    assert data == data[..n] + data[n..];
    if n < SECTOR_SIZE {
      assert Padded(data[n..]) == [];
    }
  }

  // One sector more of a file that is read up to a place.
  lemma PaddedPart(data: seq<Byte>, at: nat, n: nat)
    requires at < |data| && n == if |data| - at < SECTOR_SIZE then |data| - at else SECTOR_SIZE
    ensures Padded(data[at..]) == data[at..at + n] + Zeros(SECTOR_SIZE - n) + Padded(data[at + n..])
    ensures Sectors(data[at..]) == 1 + Sectors(data[at + n..])
  {
    PaddedHead(data[at..], n);
    assert data[at..][..n] == data[at..at + n] && data[at..][n..] == data[at + n..];
  }

  // The output when the input is copied up to a place.
  ghost predicate Copied(before: seq<Byte>, input: seq<Byte>, at: nat, out: seq<Byte>, nSectors: nat)
    requires at <= |input|
  {
    out + Padded(input[at..]) == before + Padded(input) && nSectors + Sectors(input[at..]) == Sectors(input)
  }

  lemma CopiedMore(before: seq<Byte>, input: seq<Byte>, at: nat, n: nat, out: seq<Byte>, nSectors: nat)
    requires at < |input| && n == (if |input| - at < SECTOR_SIZE then |input| - at else SECTOR_SIZE)
    requires Copied(before, input, at, out, nSectors)
    ensures Copied(before, input, at + n, out + (input[at..at + n] + Zeros(SECTOR_SIZE - n)), nSectors + 1)
  {
    PaddedPart(input, at, n);
  }

  // One program more, or one too many.
  lemma ListGrows(programs: seq<Program>, k: nat)
    requires k < |programs| && Listed(programs[..k])
    ensures Listed(programs[..k + 1]) <==> Accepted(programs[k]) && 3 * k + 3 < N_INFO
    ensures !(Accepted(programs[k]) && 3 * k + 3 < N_INFO) ==> !Listed(programs)
    ensures Table(programs[..k + 1]) == TableEntry(programs[k]) + Table(programs[..k])
    ensures Body(programs[..k + 1]) == Body(programs[..k]) + Padded(programs[k].data)
  {
    assert programs[..k + 1] == programs[..k] + [programs[k]];
    TableGrows(programs[..k], programs[k]);
    BodyGrows(programs[..k], programs[k]);
  }

  // Where the table goes, in the file and in the bootstrap.
  lemma TableRoom(boot: seq<Byte>, body: seq<Byte>, programs: seq<Program>)
    requires programs != []
    ensures var n := 6 * |programs|;
            RoomFor(boot, programs) <==> n <= |boot| && (boot + body)[|boot| - n..|boot|] == Zeros(n)
  {
    var n := 6 * |programs|;
    assert n <= |boot| ==> (boot + body)[|boot| - n..|boot|] == boot[|boot| - n..];
  }

  lemma BuildSteps(bootstrap: seq<Byte>, programs: seq<Program>, drive: Half)
    requires Listed(programs)
    ensures var boot := Padded(bootstrap);
            if RoomFor(boot, programs)
            then
              && DRIVE_AT + 2 <= |boot| && |Bytes(Table(programs))| == 6 * |programs| <= |boot|
              && Build(bootstrap, programs, drive)
                   == Ok(Marked(boot + Body(programs), |boot| - 6 * |programs|, Bytes(Table(programs)), drive))
            else Build(bootstrap, programs, drive) == Panic
  {}

  // The image, from the file before the table is written.
  lemma BuildFrom(bootstrap: seq<Byte>, programs: seq<Program>, drive: Half, out: seq<Byte>)
    requires Listed(programs) && programs != [] && out == Padded(bootstrap) + Body(programs)
    ensures var size, n := |Padded(bootstrap)|, 6 * |programs|;
            if n <= size && out[size - n..size] == Zeros(n)
            then
              && DRIVE_AT + 2 <= size && |Bytes(Table(programs))| == n
              && Build(bootstrap, programs, drive) == Ok(Marked(out, size - n, Bytes(Table(programs)), drive))
            else Build(bootstrap, programs, drive) == Panic
  {
    TableRoom(Padded(bootstrap), Body(programs), programs);
    BuildSteps(bootstrap, programs, drive);
  }

  lemma WordZero(bytes: seq<Byte>, at: nat)
    requires at + 1 < |bytes|
    ensures WordAt(bytes, at) == 0 <==> bytes[at] == 0 && bytes[at + 1] == 0
  {}

  class Builder {
    const info: array<Half>
    var nInfo: nat
    var out: seq<Byte>         // the output file

    ghost predicate Valid()
      reads this
    {
      info.Length == N_INFO && nInfo <= N_INFO
    }

    constructor ()
      ensures Valid() && nInfo == N_INFO && out == [] && fresh(info)
    {
      info := new Half[N_INFO](_ => 0);
      nInfo, out := N_INFO, [];
    }

    // copy_file
    method CopyFile(input: seq<Byte>) returns (nSectors: nat)
      modifies `out
      ensures out == old(out) + Padded(input) && nSectors == Sectors(input)
    {
      nSectors := 0;
      var buf := new Byte[SECTOR_SIZE];
      var at := 0;
      ghost var before := out;
      while at < |input|
        invariant 0 <= at <= |input|
        invariant Copied(before, input, at, out, nSectors)
      {
        var nBytes := if |input| - at < SECTOR_SIZE then |input| - at else SECTOR_SIZE;
        FillBuffer(buf, input[at..at + nBytes]);
        CopiedMore(before, input, at, nBytes, out, nSectors);
        out := out + buf[..];
        nSectors := nSectors + 1;
        at := at + nBytes;
      }
      assert Padded(input[at..]) == [];
    }

    // A short read leaves the rest of the buffer to be cleared.
    static method FillBuffer(buf: array<Byte>, data: seq<Byte>)
      requires buf.Length == SECTOR_SIZE && |data| <= SECTOR_SIZE
      modifies buf
      ensures buf[..] == data + Zeros(SECTOR_SIZE - |data|)
    {
      for i := 0 to |data|
        invariant buf[..i] == data[..i]
      {
        buf[i] := data[i];
      }
      for i := |data| to SECTOR_SIZE
        invariant buf[..i] == data + Zeros(i - |data|)
      {
        buf[i] := 0;
        assert buf[..i + 1] == buf[..i] + [0];
      }
    }

    // process_file with a numeric address
    method ProcessFile(p: Program) returns (status: Status)
      requires Valid()
      modifies this, info
      ensures Valid()
      ensures status.Fine? <==> Accepted(p) && old(nInfo) >= 3
      ensures status.Fine? ==>
                && out == old(out) + Padded(p.data) && nInfo == old(nInfo) - 3
                && info[nInfo..] == TableEntry(p) + old(info[nInfo..])
    {
      var nSectors := CopyFile(p.data);
      var segment, offset := SegmentOf(p.address), OffsetOf(p.address);
      if !(p.address <= TOP) {
        return Halted;
      }
      if p.address + nSectors * SECTOR_SIZE > TOP {
        return Halted;
      }
      if nInfo < 3 {
        return Halted;
      }
      nInfo := nInfo - 1;
      info[nInfo] := Short(nSectors);
      nInfo := nInfo - 1;
      info[nInfo] := segment;
      nInfo := nInfo - 1;
      info[nInfo] := offset;
      return Fine;
    }

    // Whether the words that the table replaces are all zero.
    method CheckRoom(at: nat) returns (free: bool)
      requires Valid() && at + 2 * (N_INFO - nInfo) <= |out|
      ensures free <==> out[at..at + 2 * (N_INFO - nInfo)] == Zeros(2 * (N_INFO - nInfo))
    {
      var nWords := N_INFO - nInfo;
      for i := 0 to nWords
        invariant out[at..at + 2 * i] == Zeros(2 * i)
      {
        WordZero(out, at + 2 * i);
        if WordAt(out, at + 2 * i) != 0 {
          assert out[at..at + 2 * nWords][2 * i] == out[at + 2 * i];
          assert out[at..at + 2 * nWords][2 * i + 1] == out[at + 2 * i + 1];
          return false;
        }
        assert out[at..at + 2 * (i + 1)] == out[at..at + 2 * i] + [0, 0];
      }
      free := true;
    }

    // The loop of main over its arguments.
    method ProcessAll(programs: seq<Program>) returns (status: Status)
      requires Valid() && nInfo == N_INFO
      modifies this, info
      ensures Valid()
      ensures status.Fine? <==> Listed(programs)
      ensures status.Fine? ==>
                && out == old(out) + Body(programs) && nInfo == N_INFO - 3 * |programs|
                && info[nInfo..] == Table(programs)
    {
      assert programs[..0] == [] && info[nInfo..] == [];
      ghost var before := out;
      for k := 0 to |programs|
        invariant Processed(before, programs, k)
      {
        status := ProcessNext(before, programs, k);
        if status.Halted? {
          return;
        }
      }
      assert programs[..|programs|] == programs;
      status := Fine;
    }

    // The first k programs are in the output file and in the table.
    ghost predicate Processed(before: seq<Byte>, programs: seq<Program>, k: nat)
      requires k <= |programs|
      reads this, info
    {
      && Valid() && nInfo == N_INFO - 3 * k && Listed(programs[..k])
      && out == before + Body(programs[..k]) && info[nInfo..] == Table(programs[..k])
    }

    method ProcessNext(ghost before: seq<Byte>, programs: seq<Program>, k: nat) returns (status: Status)
      requires k < |programs| && Processed(before, programs, k)
      modifies this, info
      ensures Valid()
      ensures status.Fine? ==> Processed(before, programs, k + 1)
      ensures status.Halted? ==> !Listed(programs)
    {
      status := ProcessFile(programs[k]);
      ListGrows(programs, k);
    }

    // The end of main: the table and the drive go into the finished file.
    method WriteTable(bootSize: nat, drive: Half) returns (status: Status)
      requires Valid() && bootSize <= |out| && nInfo < N_INFO && (bootSize == 0 || SECTOR_SIZE <= bootSize)
      modifies `out
      ensures var n := 2 * (N_INFO - nInfo);
              if n <= bootSize && old(out)[bootSize - n..bootSize] == Zeros(n)
              then
                && status.Fine?
                && out == Marked(old(out), bootSize - n, Bytes(info[nInfo..]), drive)
              else status.Halted?
    {
      var nBytes := 2 * (N_INFO - nInfo);
      if bootSize < nBytes {
        return Halted;
      }
      var free := CheckRoom(bootSize - nBytes);
      if !free {
        return Halted;
      }
      StoreTable(bootSize - nBytes, drive);
      return Fine;
    }

    method StoreTable(at: nat, drive: Half)
      requires Valid() && at + 2 * (N_INFO - nInfo) <= |out| && DRIVE_AT + 2 <= |out|
      modifies `out
      ensures |Bytes(info[nInfo..])| == 2 * (N_INFO - nInfo)
      ensures out == Marked(old(out), at, Bytes(info[nInfo..]), drive)
    {
      out := Placed(out, at, Bytes(info[nInfo..]));
      out := Placed(out, DRIVE_AT, Bytes([drive]));
    }

    // main
    method BuildImage(bootstrap: seq<Byte>, programs: seq<Program>, drive: Half) returns (image: Outcome<seq<Byte>>)
      requires Valid() && nInfo == N_INFO && out == []
      modifies this, info
      ensures image == Build(bootstrap, programs, drive)
    {
      if |programs| < 1 {
        return Panic;
      }
      var bootSectors := CopyFile(bootstrap);
      var status := ProcessAll(programs);
      if status.Halted? {
        return Panic;
      }
      assert out == Padded(bootstrap) + Body(programs) && 6 * |programs| == 2 * (N_INFO - nInfo);
      BuildFrom(bootstrap, programs, drive, out);
      status := WriteTable(bootSectors * SECTOR_SIZE, drive);
      image := if status.Halted? then Panic else Ok(out);
    }
  }

  class Loader {
    const disk: Disk
    const env: Env
    const ram: array<Byte>
    const maxSec: Byte
    const maxHead: Byte
    var sp: Half              // %sp
    var sec: Byte             // low byte of the saved sector word
    var track: Byte           // its high byte
    var head: Byte            // high byte of the saved head word
    var transfers: nat        // completed transfers

    ghost function Abs(): Machine
      reads this, ram
    {
      Machine(ram[..], sec, track, head, transfers)
    }

    ghost predicate Valid()
      reads this, ram
    {
      && ram.Length == RAM && Geometry(disk) && Fit(disk, Abs()) && sp <= STACK
      && maxSec == (disk.perTrack + 1) % 0x100 && maxHead == disk.heads % 0x100
    }

    // The memory and the drive parameters that the BIOS leaves.
    constructor (disk: Disk, env: Env, memory: seq<Byte>)
      requires Geometry(disk) && |memory| == RAM
      ensures Valid() && fresh(ram) && this.disk == disk && this.env == env && sp == STACK
      ensures Abs() == Machine(memory, 2, 0, 0, 0)
    {
      this.disk, this.env := disk, env;
      maxSec, maxHead := (disk.perTrack + 1) % 0x100, disk.heads % 0x100;
      sp, sec, track, head, transfers := STACK, 2, 0, 0, 0;
      ram := new Byte[RAM](i requires 0 <= i < RAM => memory[i]);
      new;
      assert ram[..] == memory;
    }

    // Bytes arriving at es:bx.
    method StoreBytes(es: Half, bx: Half, data: seq<Byte>)
      requires Valid()
      modifies ram
      ensures Valid() && Abs() == old(Abs()).(ram := Store(old(ram[..]), es, bx, data))
    {
      var offset := bx;
      for i := 0 to |data|
        invariant Store(old(ram[..]), es, bx, data) == Store(ram[..], es, offset, data[i..])
      {
        ram[Physical(es, offset)] := data[i];
        offset := Next(offset);
      }
    }

    // A word in the loader's data segment, which is its stack segment too.
    method ReadWord(offset: Half) returns (w: Half)
      requires Valid()
      ensures w == RamWord(ram[..], BOOT_SEGMENT, offset)
    {
      var low: int, high: int := ram[Physical(BOOT_SEGMENT, offset)], ram[Physical(BOOT_SEGMENT, Next(offset))];
      w := low + 0x100 * high;
    }

    // pushw
    method PushWord(word: Half)
      requires Valid() && 2 <= sp
      modifies `sp, ram
      ensures Valid() && sp == old(sp) - 2
      ensures Abs() == old(Abs()).(ram := Push(old(ram[..]), old(sp), word))
    {
      sp := sp - 2;
      StoreBytes(BOOT_SEGMENT, sp, Bytes([word]));
    }

    // popw
    method PopWord() returns (word: Half)
      requires Valid() && sp + 2 <= STACK
      modifies `sp
      ensures Valid() && sp == old(sp) + 2
      ensures word == RamWord(ram[..], BOOT_SEGMENT, old(sp))
    {
      word := ReadWord(sp);
      sp := sp + 2;
    }

    // What a service of the BIOS leaves behind.
    method Service(left: nat -> Byte)
      requires Valid()
      modifies ram
      ensures Valid() && Abs() == old(Abs()).(ram := Scribbled(old(ram[..]), left, sp))
    {
      for a := 0 to RAM
        invariant forall i | 0 <= i < RAM ::
                    ram[i] == if i < a && Scratch(i, sp) then left(i) else old(ram[i])
      {
        if Scratch(a, sp) {
          ram[a] := left(a);
        }
      }
      assert ram[..] == Scribbled(old(ram[..]), left, sp);
    }

    // retry: the disk service, called up to three times
    method TryTransfer(es: Half, bx: Half) returns (status: Status)
      requires Valid() && 2 <= sp
      modifies this, ram
      ensures var pushed := Push(old(ram[..]), old(sp), TriesLeft(disk.faults(old(transfers))));
              var r := Transfer(disk, old(Abs()).(ram := pushed), es, bx);
              && (status.Fine? <==> r.Ok?)
              && (status.Fine? ==> Valid() && sp == old(sp) - 2 && r == Ok(Abs()))
    {
      var cx: Half, failed := 3, 0;
      var at := Linear(disk, Machine([], sec, track, head, 0));
      assert at == Linear(disk, Abs());
      if SECTOR_SIZE * at + SECTOR_SIZE > |disk.image| {
        return Halted;
      }
      PushWord(cx);
      while failed < disk.faults(transfers)
        invariant Valid() && sp == old(sp) - 2 && cx == 3 - failed && 0 < cx && failed <= disk.faults(transfers)
        invariant Abs() == old(Abs()).(ram := Push(old(ram[..]), old(sp), cx))
      {
        failed := failed + 1;
        Popped(old(ram[..]), old(sp), cx);
        cx := PopWord();
        cx := cx - 1;
        if cx == 0 {
          return Halted;
        }
        PushAgain(old(ram[..]), old(sp), cx + 1, cx);
        PushWord(cx);
      }
      StoreBytes(es, bx, SectorAt(disk.image, at));
      transfers := transfers + 1;
      return Fine;
    }

    // readcont2 and save_sector
    method NextSector() returns (status: Status)
      requires Valid()
      modifies `sec, `track, `head
      ensures status.Fine? <==> Forward(disk, old(Abs())).Ok?
      ensures status.Fine? ==> Valid() && Abs() == Forward(disk, old(Abs())).value
    {
      var cl: int, ch: int, dh: int := (sec + 1) % 0x100, track, head;
      if cl == maxSec {
        cl := 1;
        dh := (dh + 1) % 0x100;
        if dh == maxHead {
          dh := 0;
          ch := (ch + 1) % 0x100;
          if ch == TRACKS {
            return Halted;
          }
        }
      }
      sec, track, head := cl, ch, dh;
      return Fine;
    }

    // The counts on the stack, the transfer and the message behind it.
    method TransferOne(count: Half, es: Half, bx: Half) returns (status: Status)
      requires Valid() && 4 <= sp
      modifies this, ram
      ensures var pushed := Push(Push(old(ram[..]), old(sp), count), old(sp) - 2,
                                 TriesLeft(disk.faults(old(transfers))));
              var t := Transfer(disk, old(Abs()).(ram := pushed), es, bx);
              && (status.Fine? <==> t.Ok?)
              && (status.Fine? ==>
                    && Valid() && sp == old(sp) - 4
                    && Abs() == t.value.(ram := Scribbled(t.value.ram, env.byRead(old(transfers)), old(sp) - 4)))
    {
      PushWord(count);
      status := TryTransfer(es, bx);
      if status.Halted? {
        return;
      }
      Service(env.byRead(transfers - 1));
    }

    // One round of readprog, up to the sector count that it takes back from the stack.
    method ReadOne(count: Half, es: Half, bx: Half) returns (status: Status, left: Half)
      requires Valid() && 4 <= sp
      modifies this, ram
      ensures status.Fine? <==> Round(disk, env, old(Abs()), old(sp), count, es, bx).Ok?
      ensures status.Fine? ==> Valid() && sp == old(sp) && left == RamWord(ram[..], BOOT_SEGMENT, sp - 2)
      ensures status.Fine? ==> Round(disk, env, old(Abs()), sp, count, es, bx) == Ok(Abs())
    {
      left := 0;
      RoundSteps(disk, env, Abs(), sp, count, es, bx);
      status := TransferOne(count, es, bx);
      if status.Halted? {
        return;
      }
      status := NextSector();
      if status.Halted? {
        return;
      }
      left := PopWord();
      left := PopWord();
    }

    // adjust
    static method NextPlace(segment: Half, offset: Half) returns (es: Half, bx: Half)
      ensures es == NextSegment(segment, offset) && bx == NextOffset(offset)
    {
      es, bx := segment, offset;
      if bx == OFFSET_LIMIT {
        bx := 0;
        es := (es + 0x1000) % 0x1_0000;
      } else {
        bx := (bx + SECTOR_SIZE) % 0x1_0000;
      }
    }

    // One round, and where the next one goes.
    method RoundOnce(count: Half, segment: Half, offset: Half, ghost goal: Fate)
        returns (status: Status, more: bool, ax: Half, es: Half, bx: Half)
      requires Valid() && 4 <= sp && RoundsGo(disk, env, Abs(), sp, count, segment, offset, goal)
      modifies this, ram
      ensures status.Halted? ==> goal == Frozen
      ensures status.Fine? ==> Valid() && sp == old(sp) && Later(disk, old(Abs()), Abs())
      ensures status.Fine? ==>
                if more then RoundsGo(disk, env, Abs(), sp, ax, es, bx, goal) else goal == Done(Abs())
    {
      RoundsStep(disk, env, Abs(), sp, count, segment, offset, goal);
      es, bx := NextPlace(segment, offset);
      status, ax := ReadOne(count, segment, offset);
      more := SignedHalf(ax) - 1 > 0;
      if more {
        ax := ax - 1;
      }
    }

    // The loop of readprog.
    method ReadRounds(count: Half, segment: Half, offset: Half, ghost goal: Fate) returns (status: Status)
      requires Valid() && 4 <= sp && RoundsGo(disk, env, Abs(), sp, count, segment, offset, goal)
      modifies this, ram
      ensures status.Halted? ==> goal == Frozen
      ensures status.Fine? ==> Valid() && sp == old(sp) && goal == Done(Abs())
    {
      var ax: Half, es: Half, bx: Half, more := count, segment, offset, true;
      while more
        invariant Valid() && sp == old(sp)
        invariant if more then RoundsGo(disk, env, Abs(), sp, ax, es, bx, goal) else goal == Done(Abs())
        decreases more, TRACKS - track, disk.heads - head, disk.perTrack - sec
      {
        status, more, ax, es, bx := RoundOnce(ax, es, bx, goal);
        if status.Halted? {
          return;
        }
      }
      status := Fine;
    }

    // readprog
    method ReadBlock(count: Half, segment: Half, offset: Half) returns (status: Status)
      requires Valid() && 4 <= sp
      modifies this, ram
      ensures status.Fine? <==> Rounds(disk, env, old(Abs()), old(sp), count, segment, offset).Done?
      ensures status.Fine? ==> Valid() && sp == old(sp)
      ensures status.Fine? ==> Rounds(disk, env, old(Abs()), sp, count, segment, offset) == Done(Abs())
    {
      ghost var goal := Rounds(disk, env, Abs(), sp, count, segment, offset);
      assert RoundsGo(disk, env, Abs(), sp, count, segment, offset, goal);
      status := ReadRounds(count, segment, offset, goal);
    }

    // call readprog, and its way back
    method CallReadBlock(ret: Half, count: Half, es: Half, bx: Half) returns (end: Ending)
      requires Valid() && 6 <= sp
      modifies this, ram
      ensures end == Call(disk, env, old(Abs()), old(sp), ret, count, es, bx).Ending()
      ensures end == Back ==> Valid() && sp == old(sp)
      ensures end == Back ==> Call(disk, env, old(Abs()), sp, ret, count, es, bx) == Done(Abs())
    {
      PushWord(ret);
      var status := ReadBlock(count, es, bx);
      if status.Halted? {
        return Stopped;
      }
      Service(env.byPrint(transfers));
      var ip := PopWord();
      end := if ip == ret then Back else Gone(ip);
    }

    // One round of nextblock: the program whose count is at `first`.
    method LoadEntry(first: Half, count: Half) returns (end: Ending, di: Half)
      requires Valid() && sp == STACK
      modifies this, ram
      ensures end == Block(disk, env, old(Abs()), first, count).Ending()
      ensures end == Back ==> Valid() && sp == STACK && di == RamWord(ram[..], BOOT_SEGMENT, STACK - 2)
      ensures end == Back ==> Block(disk, env, old(Abs()), first, count) == Done(Abs())
    {
      BlockSteps(disk, env, Abs(), first, count);
      var es, bx := PushEntry(first);
      end := CallReadBlock(env.afterBlock, count, es, bx);
      di := 0;
      if end == Back {
        di := PopWord();
      }
    }

    // The segment and offset of an entry, and the place of the next one on the stack.
    method PushEntry(first: Half) returns (es: Half, bx: Half)
      requires Valid() && sp == STACK
      modifies `sp, ram
      ensures Valid() && sp == STACK - 2
      ensures Abs() == old(Abs()).(ram := Push(old(ram[..]), STACK, Down(first, 6)))
      ensures es == RamWord(old(ram[..]), BOOT_SEGMENT, Down(first, 2))
      ensures bx == RamWord(old(ram[..]), BOOT_SEGMENT, Down(first, 4))
    {
      var di := Down(first, 2);
      es := ReadWord(di);
      di := Down(di, 2);
      bx := ReadWord(di);
      di := Down(di, 2);
      PushWord(di);
    }

    // nextblock
    method LoadTable(first: Half) returns (end: Ending)
      requires Valid() && sp == STACK
      modifies this, ram
      ensures end == Blocks(disk, env, old(Abs()), first).Ending()
      ensures end == Back ==> Valid() && Blocks(disk, env, old(Abs()), first) == Done(Abs())
    {
      var di := first;
      var ax := ReadWord(di);
      while ax != 0
        invariant Valid() && sp == STACK && ax == RamWord(ram[..], BOOT_SEGMENT, di)
        invariant Blocks(disk, env, old(Abs()), first) == Blocks(disk, env, Abs(), di)
        decreases TRACKS - track, disk.heads - head, disk.perTrack - sec
      {
        end, di := LoadEntry(di, ax);
        if end != Back {
          return;
        }
        ax := ReadWord(di);
      }
      end := Back;
    }

    // The size of the first program, for the kernel.
    method NoteSize()
      requires Valid() && sp == STACK
      modifies `sp, ram
      ensures Valid() && sp == STACK && Abs() == old(Abs()).(ram := Noted(old(ram[..])))
    {
      var count := ReadWord(FIRST_COUNT);
      PushWord(BOOT_SEGMENT);
      StoreBytes(MMAP_SEGMENT, MMAP_SECTORS, Bytes([count]));
      var ds := PopWord();
    }

    // From diskok to done_loading
    method Load() returns (end: Ending)
      requires Valid() && Abs() == Machine(ram[..], 2, 0, 0, 0) && sp == STACK
      modifies this, ram
      ensures end == Loads(disk, env, old(ram[..])).Ending()
      ensures end == Back ==> Loads(disk, env, old(ram[..])) == Done(Abs())
    {
      end := CallReadBlock(env.afterFirst, 1, 0, 0x7E00);
      if end != Back {
        return;
      }
      NoteSize();
      end := LoadTable(FIRST_COUNT);
    }
  }
}
