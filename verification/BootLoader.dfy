/** The boot loader of bootstrap.S: its transfers, its way over the disk, and readprog with its
    counts in registers, as functions on the memory and registers they use. */
module BootLoader {
  import opened Common
  import opened BootImage

  const RAM := 0x10_0000            // the A20 line is still off
  const BOOT_SEGMENT: Half := 0x07C0
  const FIRST_COUNT: Half := 1022
  const OFFSET_LIMIT := 65536 - SECTOR_SIZE
  const TRACKS := 80
  const MMAP_SEGMENT: Half := 0x02D0
  const MMAP_SECTORS: Half := 0x0a

  // The disk: its contents, its geometry, and how often the transfer with a given running
  // number fails before it works.
  datatype Disk = Disk(image: seq<Byte>, heads: nat, perTrack: nat, faults: nat -> nat)

  // `sec` is %cl, `track` %ch and `head` %dh as they are saved between two transfers.
  datatype Machine = Machine(ram: seq<Byte>, sec: Byte, track: Byte, head: Byte, transfers: nat)

  predicate Geometry(d: Disk) { 1 <= d.heads <= 256 && 2 <= d.perTrack <= 63 }

  ghost predicate Fit(d: Disk, m: Machine) {
    |m.ram| == RAM && m.track < TRACKS && m.head < d.heads && 1 <= m.sec <= d.perTrack
  }

  function Physical(es: Half, bx: Half): (a: nat)
    ensures a < RAM
  {
    if Address(es, bx) < RAM then Address(es, bx) else Address(es, bx) - RAM
  }

  function Address(es: Half, bx: Half): nat {
    var segment: nat := es;
    segment * 16 + bx
  }

  function Next(bx: Half): Half { if bx == 0xFFFF then 0 else bx + 1 }

  // subw: %di n bytes down
  function Down(di: Half, n: Half): Half { if di < n then di - n + 0x1_0000 else di - n }

  // A transfer to es:bx stays within the segment.
  function Store(ram: seq<Byte>, es: Half, bx: Half, data: seq<Byte>): (r: seq<Byte>)
    requires |ram| == RAM
    ensures |r| == RAM
    decreases |data|
  {
    if data == [] then ram
    else Store(ram[Physical(es, bx) := data[0]], es, Next(bx), data[1..])
  }

  function RamWord(ram: seq<Byte>, segment: Half, offset: Half): Half
    requires |ram| == RAM
  {
    var high: int := ram[Physical(segment, Next(offset))];
    ram[Physical(segment, offset)] + 0x100 * high
  }

  function Linear(d: Disk, m: Machine): (l: int)
    ensures Fit(d, m) ==> l >= 0
  {
    (m.track * d.heads + m.head) * d.perTrack + m.sec - 1
  }

  function SectorAt(image: seq<Byte>, l: nat): (s: seq<Byte>)
    requires SECTOR_SIZE * l + SECTOR_SIZE <= |image|
    ensures |s| == SECTOR_SIZE
  {
    image[SECTOR_SIZE * l..SECTOR_SIZE * l + SECTOR_SIZE]
  }

  // One sector, tried up to three times.  Panic is the loader's freeze.
  function Transfer(d: Disk, m: Machine, es: Half, bx: Half): (r: Outcome<Machine>)
    requires Fit(d, m)
    ensures r.Ok? ==> |r.value.ram| == RAM && r.value == m.(ram := r.value.ram, transfers := m.transfers + 1)
  {
    if d.faults(m.transfers) >= 3 || SECTOR_SIZE * Linear(d, m) + SECTOR_SIZE > |d.image| then Panic
    else Ok(m.(ram := Store(m.ram, es, bx, SectorAt(d.image, Linear(d, m))), transfers := m.transfers + 1))
  }

  // readcont, adjust
  function NextSegment(es: Half, bx: Half): Half {
    if bx == OFFSET_LIMIT then (es + 0x1000) % 0x1_0000 else es
  }

  function NextOffset(bx: Half): Half {
    if bx == OFFSET_LIMIT then 0 else (bx + SECTOR_SIZE) % 0x1_0000
  }

  // readcont2: max_sec and max_head are bytes.
  function Forward(d: Disk, m: Machine): (r: Outcome<Machine>)
    requires Geometry(d) && Fit(d, m)
    ensures r.Ok? ==> Fit(d, r.value) && Later(d, m, r.value) && r.value.transfers == m.transfers
  {
    var sec: Byte := (m.sec + 1) % 0x100;
    var head: Byte := (m.head + 1) % 0x100;
    var track: Byte := (m.track + 1) % 0x100;
    if sec != (d.perTrack + 1) % 0x100 then Ok(m.(sec := sec))
    else if head != d.heads % 0x100 then Ok(m.(sec := 1, head := head))
    else if track != TRACKS then Ok(m.(sec := 1, head := 0, track := track))
    else Panic
  }

  function SignedHalf(w: Half): int { if w < 0x8000 then w else w - 0x1_0000 }

  // One round of readprog.
  function ReadSector(d: Disk, m: Machine, es: Half, bx: Half): (r: Outcome<Machine>)
    requires Geometry(d) && Fit(d, m)
    ensures r.Ok? ==> Fit(d, r.value) && Later(d, m, r.value) && r.value.transfers > m.transfers
  {
    var m1 :- Transfer(d, m, es, bx);
    Forward(d, m1)
  }

  // readprog
  function ReadProg(d: Disk, m: Machine, count: Half, es: Half, bx: Half): (r: Outcome<Machine>)
    requires Geometry(d) && Fit(d, m)
    ensures r.Ok? ==> Fit(d, r.value) && Later(d, m, r.value) && r.value.transfers > m.transfers
    decreases count
  {
    var m1 :- ReadSector(d, m, es, bx);
    if SignedHalf(count) - 1 > 0 then ReadProg(d, m1, count - 1, NextSegment(es, bx), NextOffset(bx)) else Ok(m1)
  }

  // The position has moved on.
  predicate Later(d: Disk, m: Machine, n: Machine) {
    n.track > m.track || (n.track == m.track && (n.head > m.head || (n.head == m.head && n.sec > m.sec)))
  }

  // The number of sectors on the 80 tracks.
  function Capacity(d: Disk): nat { TRACKS * d.heads * d.perTrack }

  ghost predicate Walks(d: Disk, m: Machine)
    requires Geometry(d) && Fit(d, m)
  {
    && Linear(d, m) < Capacity(d)
    && (Forward(d, m).Ok? <==> Linear(d, m) + 1 < Capacity(d))
    && (Forward(d, m).Ok? ==> Linear(d, Forward(d, m).value) == Linear(d, m) + 1)
  }

  // The geometry walk: the next linear sector, unless that would be the first of track 80.
  lemma ForwardWalks(d: Disk, m: Machine)
    requires Geometry(d) && Fit(d, m)
    ensures Walks(d, m)
  {
    if m.sec < d.perTrack {
      WalksSector(d, m);
    } else if m.head + 1 < d.heads {
      WalksHead(d, m);
    } else {
      WalksTrack(d, m);
    }
  }

  lemma WalksSector(d: Disk, m: Machine)
    requires Geometry(d) && Fit(d, m) && m.sec < d.perTrack
    ensures Walks(d, m)
  {
    RowBound(m.track, m.head, TRACKS, d.heads);
    RowBound(m.track * d.heads + m.head, m.sec, TRACKS * d.heads, d.perTrack);
  }

  lemma WalksHead(d: Disk, m: Machine)
    requires Geometry(d) && Fit(d, m) && m.sec == d.perTrack && m.head + 1 < d.heads
    ensures Walks(d, m)
  {
    var row := m.track * d.heads + m.head;
    RowBound(m.track, m.head + 1, TRACKS, d.heads);
    RowBound(row + 1, 0, TRACKS * d.heads, d.perTrack);
    assert (row + 1) * d.perTrack == row * d.perTrack + d.perTrack;
  }

  lemma WalksTrack(d: Disk, m: Machine)
    requires Geometry(d) && Fit(d, m) && m.sec == d.perTrack && m.head + 1 == d.heads
    ensures Walks(d, m)
  {
    LastOfTrack(m.track, d.heads, d.perTrack);
  }

  lemma LastOfTrack(t: nat, h: nat, s: nat)
    requires t < TRACKS && h >= 1 && s >= 1
    ensures (t * h + h - 1) * s + s == (t + 1) * h * s
    ensures t + 1 < TRACKS ==> (t + 1) * h * s < TRACKS * h * s
    ensures t + 1 == TRACKS ==> (t + 1) * h * s == TRACKS * h * s
  {
    var row := t * h + h - 1;
    assert row + 1 == (t + 1) * h;
    assert (row + 1) * s == row * s + s;
    if t + 1 < TRACKS {
      RowBound(t + 1, 0, TRACKS, h);
      RowBound((t + 1) * h, 0, TRACKS * h, s);
    }
  }

  lemma RowBound(a: nat, b: nat, rows: nat, n: nat)
    requires a < rows && b < n
    ensures a * n + b < rows * n
  {
    MulMonotone(a + 1, rows, n);
    assert (a + 1) * n == a * n + n;
  }

  lemma {:induction false} MulMonotone(a: nat, b: nat, n: nat)
    requires a <= b
    ensures a * n <= b * n
    decreases b - a
  {
    if a < b {
      MulMonotone(a + 1, b, n);
      assert (a + 1) * n == a * n + n;
    }
  }
}
