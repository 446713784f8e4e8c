/** bootstrap.S as it runs, with its stack in the memory that it loads the programs into: the
    return addresses, the sector count and the retry count lie below 0xBC00, and the BIOS has
    its own data in front of 0x500 and its frames further down the stack. */
module LoaderStack {
  import opened Common
  import opened BootImage
  import opened BootLoader

  const STACK: Half := 0x4000       // %sp at the start, in BOOT_SEGMENT

  // The addresses behind the two calls of readprog, which the assembler assigns, and what the
  // BIOS leaves in its part of memory after the n-th transfer, and after the n-th bar is printed.
  datatype Env = Env(afterFirst: Half, afterBlock: Half, byRead: nat -> nat -> Byte, byPrint: nat -> nat -> Byte)

  // How a call ends: it freezes, returns to an address that was not pushed, or comes back.
  datatype Ending = Stopped | Gone(ip: Half) | Back

  // A freeze, a return to an address that was not pushed, or the machine the loader goes on with.
  datatype Fate = Frozen | Astray(ip: Half) | Done(machine: Machine) {
    predicate IsFailure() { !Done? }

    function PropagateFailure(): Fate { this }

    function Extract(): Machine
      requires Done?
    { machine }

    function Ending(): Ending {
      match this
      case Frozen => Stopped
      case Astray(ip) => Gone(ip)
      case Done(_) => Back
    }
  }

  function Push(ram: seq<Byte>, sp: Half, word: Half): (r: seq<Byte>)
    requires |ram| == RAM && 2 <= sp
    ensures |r| == RAM
  {
    Store(ram, BOOT_SEGMENT, sp - 2, Bytes([word]))
  }

  // Memory that a service called with this stack pointer may use.
  predicate Scratch(a: nat, sp: Half) { a < 0x500 || 0x8000 <= a < 0x7C00 + sp }

  function Scribbled(ram: seq<Byte>, left: nat -> Byte, sp: Half): (r: seq<Byte>)
    requires |ram| == RAM
    ensures |r| == RAM && forall a | 0 <= a < RAM && !Scratch(a, sp) :: r[a] == ram[a]
  {
    seq(RAM, a requires 0 <= a < RAM => if Scratch(a, sp) then left(a) else ram[a])
  }

  // The retry count with which a transfer works.
  function TriesLeft(faults: nat): Half { if faults < 3 then 3 - faults else 0 }

  // One round of readprog: the sector count and the retry count are on the stack during the
  // transfer, and the message that follows uses the stack below them.
  function Round(d: Disk, env: Env, m: Machine, sp: Half, count: Half, es: Half, bx: Half): (r: Outcome<Machine>)
    requires Geometry(d) && Fit(d, m) && 4 <= sp
    ensures r.Ok? ==> Fit(d, r.value) && Later(d, m, r.value) && r.value.transfers > m.transfers
  {
    var pushed := Push(Push(m.ram, sp, count), sp - 2, TriesLeft(d.faults(m.transfers)));
    var m1 :- Transfer(d, m.(ram := pushed), es, bx);
    Forward(d, m1.(ram := Scribbled(m1.ram, env.byRead(m.transfers), sp - 4)))
  }

  // The transfer of a round, and what follows it.
  lemma RoundSteps(d: Disk, env: Env, m: Machine, sp: Half, count: Half, es: Half, bx: Half)
    requires Geometry(d) && Fit(d, m) && 4 <= sp
    ensures var pushed := Push(Push(m.ram, sp, count), sp - 2, TriesLeft(d.faults(m.transfers)));
            var t := Transfer(d, m.(ram := pushed), es, bx);
            Round(d, env, m, sp, count, es, bx)
              == if t.Panic? then Panic
                 else Forward(d, t.value.(ram := Scribbled(t.value.ram, env.byRead(m.transfers), sp - 4)))
  {}

  // The rounds up to the end of readprog, which takes the count from the stack again.
  function Rounds(d: Disk, env: Env, m: Machine, sp: Half, count: Half, es: Half, bx: Half): (r: Fate)
    requires Geometry(d) && Fit(d, m) && 4 <= sp
    ensures r.Done? ==> Fit(d, r.machine) && Later(d, m, r.machine) && r.machine.transfers > m.transfers
    ensures !r.Astray?
    decreases TRACKS - m.track, d.heads - m.head, d.perTrack - m.sec
  {
    match Round(d, env, m, sp, count, es, bx)
    case Panic => Frozen
    case Ok(m1) =>
      var ax := RamWord(m1.ram, BOOT_SEGMENT, sp - 2);
      if SignedHalf(ax) - 1 > 0 then Rounds(d, env, m1, sp, ax - 1, NextSegment(es, bx), NextOffset(bx)) else Done(m1)
  }

  // The fate of the rounds, by name.
  ghost predicate RoundsGoParts(d: Disk, env: Env, m: Machine, sp: Half, count: Half, es: Half, bx: Half, r: Fate)
    requires Geometry(d)
  {
    Fit(d, m) && 4 <= sp && r == Rounds(d, env, m, sp, count, es, bx)
  }

  ghost predicate RoundsGo(d: Disk, env: Env, m: Machine, sp: Half, count: Half, es: Half, bx: Half, r: Fate)
    requires Geometry(d)
  {
    forall o {:trigger RoundsGoParts(d, env, m, sp, count, es, bx, o)} | o == r ::
      RoundsGoParts(d, env, m, sp, count, es, bx, o)
  }

  // One round, and the others.
  lemma RoundsStep(d: Disk, env: Env, m: Machine, sp: Half, count: Half, es: Half, bx: Half, r: Fate)
    requires Geometry(d) && Fit(d, m) && 4 <= sp && RoundsGo(d, env, m, sp, count, es, bx, r)
    ensures var round := Round(d, env, m, sp, count, es, bx);
            if round.Panic? then r == Frozen
            else
              var ax := RamWord(round.value.ram, BOOT_SEGMENT, sp - 2);
              if SignedHalf(ax) - 1 > 0
              then RoundsGo(d, env, round.value, sp, ax - 1, NextSegment(es, bx), NextOffset(bx), r)
              else r == Done(round.value)
  {
    assert RoundsGoParts(d, env, m, sp, count, es, bx, r);
  }

  // readprog prints its bar and returns to the address that it finds on the stack.
  function Return(env: Env, m: Machine, sp: Half, ret: Half): (r: Fate)
    requires |m.ram| == RAM
    ensures r.Done? ==> |r.machine.ram| == RAM && r.machine == m.(ram := r.machine.ram)
  {
    var ram := Scribbled(m.ram, env.byPrint(m.transfers), sp);
    var ip := RamWord(ram, BOOT_SEGMENT, sp);
    if ip == ret then Done(m.(ram := ram)) else Astray(ip)
  }

  // A call of readprog.
  function Call(d: Disk, env: Env, m: Machine, sp: Half, ret: Half, count: Half, es: Half, bx: Half): (r: Fate)
    requires Geometry(d) && Fit(d, m) && 6 <= sp
    ensures r.Done? ==> Fit(d, r.machine) && Later(d, m, r.machine) && r.machine.transfers > m.transfers
  {
    var m1 :- Rounds(d, env, m.(ram := Push(m.ram, sp, ret)), sp - 2, count, es, bx);
    Return(env, m1, sp - 2, ret)
  }

  // One program of the table, whose count is at `di`; %di is on the stack during the call.
  function Block(d: Disk, env: Env, m: Machine, di: Half, count: Half): (r: Fate)
    requires Geometry(d) && Fit(d, m)
    ensures r.Done? ==> Fit(d, r.machine) && Later(d, m, r.machine) && r.machine.transfers > m.transfers
  {
    var es := RamWord(m.ram, BOOT_SEGMENT, Down(di, 2));
    var bx := RamWord(m.ram, BOOT_SEGMENT, Down(di, 4));
    Call(d, env, m.(ram := Push(m.ram, STACK, Down(di, 6))), STACK - 2, env.afterBlock, count, es, bx)
  }

  lemma BlockSteps(d: Disk, env: Env, m: Machine, di: Half, count: Half)
    requires Geometry(d) && Fit(d, m)
    ensures var es, bx := RamWord(m.ram, BOOT_SEGMENT, Down(di, 2)), RamWord(m.ram, BOOT_SEGMENT, Down(di, 4));
            Block(d, env, m, di, count)
              == Call(d, env, m.(ram := Push(m.ram, STACK, Down(di, 6))), STACK - 2, env.afterBlock, count, es, bx)
  {}

  // nextblock
  function Blocks(d: Disk, env: Env, m: Machine, di: Half): (r: Fate)
    requires Geometry(d) && Fit(d, m)
    ensures r.Done? ==> Fit(d, r.machine) && r.machine.transfers >= m.transfers
    decreases TRACKS - m.track, d.heads - m.head, d.perTrack - m.sec
  {
    var count := RamWord(m.ram, BOOT_SEGMENT, di);
    if count == 0 then Done(m)
    else
      var m1 :- Block(d, env, m, di, count);
      Blocks(d, env, m1, RamWord(m1.ram, BOOT_SEGMENT, STACK - 2))
  }

  // The size of the first program is stored for the kernel; %ds is on the stack meanwhile.
  function Noted(ram: seq<Byte>): (r: seq<Byte>)
    requires |ram| == RAM
    ensures |r| == RAM
  {
    var count := RamWord(ram, BOOT_SEGMENT, FIRST_COUNT);
    Store(Push(ram, STACK, BOOT_SEGMENT), MMAP_SEGMENT, MMAP_SECTORS, Bytes([count]))
  }

  // From diskok to done_loading.
  function Loads(d: Disk, env: Env, ram: seq<Byte>): Fate
    requires Geometry(d) && |ram| == RAM
  {
    var m :- Call(d, env, Machine(ram, 2, 0, 0, 0), STACK, env.afterFirst, 1, 0, 0x7E00);
    Blocks(d, env, m.(ram := Noted(m.ram)), FIRST_COUNT)
  }

  lemma PushIs(ram: seq<Byte>, sp: Half, word: Half)
    requires |ram| == RAM && 2 <= sp <= STACK
    ensures Push(ram, sp, word) == ram[0x7C00 + sp - 2 := word % 0x100][0x7C00 + sp - 1 := word / 0x100]
  {
    var data, low, high: Byte := Bytes([word]), ram[0x7C00 + sp - 2 := word % 0x100], word / 0x100;
    assert data == [word % 0x100, high];
    assert Store(ram, BOOT_SEGMENT, sp - 2, data) == Store(low, BOOT_SEGMENT, sp - 1, data[1..]);
    assert data[1..] == [high] && data[1..][1..] == [];
    var full := low[Physical(BOOT_SEGMENT, sp - 1) := high];
    assert Store(low, BOOT_SEGMENT, sp - 1, data[1..]) == Store(full, BOOT_SEGMENT, Next(sp - 1), []);
  }

  // What is popped is what was pushed.
  lemma Popped(ram: seq<Byte>, sp: Half, word: Half)
    requires |ram| == RAM && 2 <= sp <= STACK
    ensures RamWord(Push(ram, sp, word), BOOT_SEGMENT, sp - 2) == word
  {
    PushIs(ram, sp, word);
  }

  // A word pushed over another one.
  lemma PushAgain(ram: seq<Byte>, sp: Half, v: Half, w: Half)
    requires |ram| == RAM && 2 <= sp <= STACK
    ensures Push(Push(ram, sp, v), sp, w) == Push(ram, sp, w)
  {
    PushIs(ram, sp, v);
    PushIs(ram, sp, w);
    PushIs(Push(ram, sp, v), sp, w);
  }
}
