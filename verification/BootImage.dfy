/** The disk image that BuildImage.c writes: the bootstrap, then every program padded to whole
    sectors, with a table of the programs growing backward from the end of the bootstrap. */
module BootImage {
  import opened Common

  const SECTOR_SIZE := 512
  const N_INFO := 256
  const TOP := 0x9ffff
  const DRIVE_AT := 508

  datatype Program = Program(data: seq<Byte>, address: int)

  function Zeros(n: nat): (r: seq<Byte>)
    ensures |r| == n
  {
    seq(n, i => 0)
  }

  function Sectors(data: seq<Byte>): (n: nat)
    ensures |data| <= SECTOR_SIZE * n < |data| + SECTOR_SIZE
  {
    (|data| + SECTOR_SIZE - 1) / SECTOR_SIZE
  }

  // copy_file: the contents up to a sector boundary.
  function Padded(data: seq<Byte>): (r: seq<Byte>)
    ensures data <= r && |r| == SECTOR_SIZE * Sectors(data)
    ensures forall i | |data| <= i < |r| :: r[i] == 0
  {
    data + Zeros(SECTOR_SIZE * Sectors(data) - |data|)
  }

  // A conversion to short.
  function Short(n: int): Half { if 0 <= n < 0x1_0000 then n else n % 0x1_0000 }

  // The conversions of a long address to the two shorts of a table entry.
  function SegmentOf(address: int): Half { Short(address / 16) }
  function OffsetOf(address: int): Half { address % 16 }

  predicate Accepted(p: Program) {
    p.address <= TOP && p.address + Sectors(p.data) * SECTOR_SIZE <= TOP
  }

  function TableEntry(p: Program): seq<Half> {
    [OffsetOf(p.address), SegmentOf(p.address), Short(Sectors(p.data))]
  }

  // The table in memory order: the first program's entry is the last.
  function Table(programs: seq<Program>): (t: seq<Half>)
    ensures |t| == 3 * |programs|
  {
    if programs == [] then []
    else TableEntry(programs[|programs| - 1]) + Table(programs[..|programs| - 1])
  }

  function Body(programs: seq<Program>): seq<Byte> {
    if programs == [] then [] else Padded(programs[0].data) + Body(programs[1..])
  }

  // Words as an x86 stores them.
  function Bytes(words: seq<Half>): (b: seq<Byte>)
    ensures |b| == 2 * |words|
  {
    if words == [] then [] else [words[0] % 0x100, words[0] / 0x100] + Bytes(words[1..])
  }

  function WordAt(bytes: seq<Byte>, at: nat): Half
    requires at + 1 < |bytes|
  {
    var high: int := bytes[at + 1];
    bytes[at] + 0x100 * high
  }

  function Placed<T>(s: seq<T>, at: nat, data: seq<T>): (r: seq<T>)
    requires at + |data| <= |s|
    ensures |r| == |s|
  {
    s[..at] + data + s[at + |data|..]
  }

  // The image before the table goes in, or a refusal of some program.
  predicate Listed(programs: seq<Program>) {
    (forall p | p in programs :: Accepted(p)) && 3 * |programs| < N_INFO
  }

  function Unmarked(bootstrap: seq<Byte>, programs: seq<Program>): seq<Byte> {
    Padded(bootstrap) + Body(programs)
  }

  // Whether there is a table and only zeros lie where it goes.
  predicate RoomFor(boot: seq<Byte>, programs: seq<Program>) {
    var n := 6 * |programs|;
    0 < n <= |boot| && boot[|boot| - n..] == Zeros(n)
  }

  // The table goes to this place of the unmarked image, and then the drive word.
  function Marked(unmarked: seq<Byte>, at: nat, table: seq<Byte>, drive: Half): (r: seq<Byte>)
    requires at + |table| <= |unmarked| && DRIVE_AT + 2 <= |unmarked|
    ensures |r| == |unmarked|
  {
    Placed(Placed(unmarked, at, table), DRIVE_AT, Bytes([drive]))
  }

  // The image of programs that there is room for.
  function Image(bootstrap: seq<Byte>, programs: seq<Program>, drive: Half): (r: seq<Byte>)
    requires RoomFor(Padded(bootstrap), programs)
  {
    var boot := Padded(bootstrap);
    Marked(Unmarked(bootstrap, programs), |boot| - 6 * |programs|, Bytes(Table(programs)), drive)
  }

  // Panic stands for every way of quitting without an image.
  function Build(bootstrap: seq<Byte>, programs: seq<Program>, drive: Half): Outcome<seq<Byte>> {
    if Listed(programs) && RoomFor(Padded(bootstrap), programs) then Ok(Image(bootstrap, programs, drive)) else Panic
  }

  // The table of a longer list is the old one with an entry in front.
  lemma TableGrows(programs: seq<Program>, p: Program)
    ensures Table(programs + [p]) == TableEntry(p) + Table(programs)
  {
    assert (programs + [p])[..|programs|] == programs;
  }

  lemma {:induction false} BodyGrows(programs: seq<Program>, p: Program)
    ensures Body(programs + [p]) == Body(programs) + Padded(p.data)
  {
    if programs == [] {
      assert (programs + [p])[1..] == [];
      assert Body([]) == [];
    } else {
      assert (programs + [p])[1..] == programs[1..] + [p];
      BodyGrows(programs[1..], p);
    }
  }

  lemma {:induction false} TableHolds(programs: seq<Program>, i: nat, j: nat)
    requires i < |programs| && j < 3
    ensures Table(programs)[3 * (|programs| - 1 - i) + j] == TableEntry(programs[i])[j]
  {
    if i < |programs| - 1 {
      TableHolds(programs[..|programs| - 1], i, j);
    }
  }

  lemma {:induction false} BytesHold(words: seq<Half>, k: nat)
    requires k < |words|
    ensures WordAt(Bytes(words), 2 * k) == words[k]
  {
    if k > 0 {
      BytesHold(words[1..], k - 1);
      var b := Bytes(words[1..]);
      assert Bytes(words)[2 * k] == b[2 * (k - 1)] && Bytes(words)[2 * k + 1] == b[2 * (k - 1) + 1];
    }
  }

  lemma PlacedAt<T>(s: seq<T>, at: nat, data: seq<T>, k: nat)
    requires at + |data| <= |s| && k < |s|
    ensures Placed(s, at, data)[k] == if at <= k < at + |data| then data[k - at] else s[k]
  {}

  lemma BuildFits(bootstrap: seq<Byte>, programs: seq<Program>, drive: Half)
    requires Build(bootstrap, programs, drive).Ok? && |Padded(bootstrap)| == 1024
    ensures 0 < |programs| <= 85 && Listed(programs) && RoomFor(Padded(bootstrap), programs)
  {}

  // The whole sectors that a program takes end in the first 640K.
  ghost predicate EndsInTime(p: Program) {
    p.address <= 0x9FFFF
    && forall n: nat :: |p.data| <= 512 * n < |p.data| + 512 ==> p.address + 512 * n <= 0x9FFFF
  }

  lemma AcceptedExactly(p: Program)
    ensures Accepted(p) <==> EndsInTime(p)
  {
    forall n: nat | |p.data| <= 512 * n < |p.data| + 512
      ensures n == Sectors(p.data)
    {}
  }

  // An image is written if and only if there are up to 85 programs, all of which end in time,
  // and only zeros at the end of the bootstrap's last sector, where their table goes.
  lemma BuildExactly(bootstrap: seq<Byte>, programs: seq<Program>, drive: Half)
    ensures var boot := Padded(bootstrap);
      Build(bootstrap, programs, drive).Ok? <==>
        && 0 < |programs| <= 85 && 6 * |programs| <= |boot|
        && (forall i | 0 <= i < |programs| :: EndsInTime(programs[i]))
        && forall k | |boot| - 6 * |programs| <= k < |boot| :: boot[k] == 0
  {
    var boot, n := Padded(bootstrap), 6 * |programs|;
    forall i | 0 <= i < |programs|
      ensures Accepted(programs[i]) <==> EndsInTime(programs[i])
    {
      AcceptedExactly(programs[i]);
    }
    if 0 < n <= |boot| {
      var end := boot[|boot| - n..];
      assert forall k | |boot| - n <= k < |boot| :: boot[k] == end[k - (|boot| - n)];
    }
  }

  lemma ImageIs(bootstrap: seq<Byte>, programs: seq<Program>, drive: Half)
    requires RoomFor(Padded(bootstrap), programs) && |Padded(bootstrap)| == 1024
    ensures 6 * |programs| <= 1024 && |Unmarked(bootstrap, programs)| == 1024 + |Body(programs)|
    ensures Image(bootstrap, programs, drive)
         == Marked(Unmarked(bootstrap, programs), 1024 - 6 * |programs|, Bytes(Table(programs)), drive)
  {}

  // The image behind a bootstrap of two sectors.
  lemma BuildIs(bootstrap: seq<Byte>, programs: seq<Program>, drive: Half)
    requires Build(bootstrap, programs, drive).Ok? && |Padded(bootstrap)| == 1024
    ensures 0 < |programs| <= 85 && |Unmarked(bootstrap, programs)| == 1024 + |Body(programs)|
    ensures Build(bootstrap, programs, drive).value
         == Marked(Unmarked(bootstrap, programs), 1024 - 6 * |programs|, Bytes(Table(programs)), drive)
  {
    BuildFits(bootstrap, programs, drive);
    ImageIs(bootstrap, programs, drive);
  }

  // The byte of the image at each place: the drive, the table, or what was there.
  lemma ImageByte(bootstrap: seq<Byte>, programs: seq<Program>, drive: Half, k: nat)
    requires Build(bootstrap, programs, drive).Ok?
    requires |Padded(bootstrap)| == 1024 && k < 1024 + |Body(programs)|
    ensures 0 < |programs| <= 85
    ensures |Build(bootstrap, programs, drive).value| == 1024 + |Body(programs)|
    ensures Build(bootstrap, programs, drive).value[k]
         == if DRIVE_AT <= k < DRIVE_AT + 2 then Bytes([drive])[k - DRIVE_AT]
            else if 1024 - 6 * |programs| <= k < 1024 then Bytes(Table(programs))[k - (1024 - 6 * |programs|)]
            else Unmarked(bootstrap, programs)[k]
  {
    BuildIs(bootstrap, programs, drive);
    TwicePlaced(Unmarked(bootstrap, programs), 1024 - 6 * |programs|, Bytes(Table(programs)), DRIVE_AT,
                Bytes([drive]), k);
  }

  lemma TwicePlaced<T>(s: seq<T>, a: nat, x: seq<T>, b: nat, y: seq<T>, k: nat)
    requires a + |x| <= |s| && b + |y| <= |s| && k < |s|
    ensures Placed(Placed(s, a, x), b, y)[k]
         == if b <= k < b + |y| then y[k - b] else if a <= k < a + |x| then x[k - a] else s[k]
  {
    PlacedAt(s, a, x, k);
    PlacedAt(Placed(s, a, x), b, y, k);
  }

  // Behind a bootstrap of two sectors come all programs in order, and nothing of the
  // bootstrap but the table and the drive word has changed.
  lemma ImageHolds(bootstrap: seq<Byte>, programs: seq<Program>, drive: Half)
    requires |Padded(bootstrap)| == 1024 && Build(bootstrap, programs, drive).Ok?
    ensures var image := Build(bootstrap, programs, drive).value;
            && |image| == 1024 + |Body(programs)| && image[1024..] == Body(programs)
            && 0 < |programs| <= 85
            && WordAt(image, 508) == drive
    ensures forall k {:trigger Padded(bootstrap)[k]} | 0 <= k < 1024 - 6 * |programs| && k / 2 != 254 ::
              Build(bootstrap, programs, drive).value[k] == Padded(bootstrap)[k]
  {
    var image := Build(bootstrap, programs, drive).value;
    ImageByte(bootstrap, programs, drive, 508);
    ImageByte(bootstrap, programs, drive, 509);
    BytesHold([drive], 0);
    forall k {:trigger image[k]} | 0 <= k < |image|
      ensures image[k] == if DRIVE_AT <= k < DRIVE_AT + 2 then Bytes([drive])[k - DRIVE_AT]
                  else if 1024 - 6 * |programs| <= k < 1024 then Bytes(Table(programs))[k - (1024 - 6 * |programs|)]
                  else Unmarked(bootstrap, programs)[k]
    {
      ImageByte(bootstrap, programs, drive, k);
    }
    assert image[1024..] == Body(programs);
  }

  // The table's words end where the bootstrap does.
  predicate Carries(image: seq<Byte>, t: seq<Half>) {
    2 * |t| <= 1024 <= |image| && forall k | 0 <= k < |t| :: CarriesWord(image, t, k)
  }

  predicate CarriesWord(image: seq<Byte>, t: seq<Half>, k: nat)
    requires 2 * |t| <= 1024 <= |image| && k < |t|
  {
    WordAt(image, 1024 - 2 * |t| + 2 * k) == t[k]
  }

  lemma TableByte(bootstrap: seq<Byte>, programs: seq<Program>, drive: Half, i: nat)
    requires |Padded(bootstrap)| == 1024 && Build(bootstrap, programs, drive).Ok? && i < 2 * |Table(programs)|
    ensures 2 * |Table(programs)| <= 510 && 1024 <= |Build(bootstrap, programs, drive).value|
    ensures Build(bootstrap, programs, drive).value[1024 - 2 * |Table(programs)| + i] == Bytes(Table(programs))[i]
  {
    ImageByte(bootstrap, programs, drive, 0);
    ImageByte(bootstrap, programs, drive, 1024 - 6 * |programs| + i);
  }

  lemma ImageWord(bootstrap: seq<Byte>, programs: seq<Program>, drive: Half, k: nat)
    requires |Padded(bootstrap)| == 1024 && Build(bootstrap, programs, drive).Ok? && k < |Table(programs)|
    ensures 2 * |Table(programs)| <= 1024 <= |Build(bootstrap, programs, drive).value|
    ensures CarriesWord(Build(bootstrap, programs, drive).value, Table(programs), k)
  {
    TableByte(bootstrap, programs, drive, 2 * k);
    TableByte(bootstrap, programs, drive, 2 * k + 1);
    BytesHold(Table(programs), k);
  }

  lemma ImageCarries(bootstrap: seq<Byte>, programs: seq<Program>, drive: Half)
    requires |Padded(bootstrap)| == 1024 && Build(bootstrap, programs, drive).Ok?
    ensures Carries(Build(bootstrap, programs, drive).value, Table(programs))
  {
    var image, t := Build(bootstrap, programs, drive).value, Table(programs);
    ImageByte(bootstrap, programs, drive, 0);
    forall k {:trigger CarriesWord(image, t, k)} | 0 <= k < |t|
      ensures CarriesWord(image, t, k)
    {
      ImageWord(bootstrap, programs, drive, k);
    }
  }

  // The entry of program i is counted from the end.
  predicate Row(t: seq<Half>, programs: seq<Program>, i: nat)
    requires |t| == 3 * |programs| && i < |programs|
  {
    forall j | 0 <= j < 3 :: t[3 * (|programs| - 1 - i) + j] == TableEntry(programs[i])[j]
  }

  predicate Rows(t: seq<Half>, programs: seq<Program>) {
    |t| == 3 * |programs| && forall i | 0 <= i < |programs| :: Row(t, programs, i)
  }

  lemma TableRows(programs: seq<Program>)
    ensures Rows(Table(programs), programs)
  {
    forall i, j | 0 <= i < |programs| && 0 <= j < 3
      ensures Table(programs)[3 * (|programs| - 1 - i) + j] == TableEntry(programs[i])[j]
    {
      TableHolds(programs, i, j);
    }
  }

  lemma EntryHolds(image: seq<Byte>, t: seq<Half>, programs: seq<Program>, i: nat, j: nat)
    requires Carries(image, t) && Rows(t, programs) && i < |programs| && j < 3
    ensures 1018 - 6 * i >= 0 && WordAt(image, 1018 - 6 * i + 2 * j) == TableEntry(programs[i])[j]
  {
    assert Row(t, programs, i);
    assert CarriesWord(image, t, 3 * (|programs| - 1 - i) + j);
  }

  // Every address below the top of memory survives the split unless it is negative, and a
  // negative one is accepted.
  lemma SplitExactly(address: int)
    requires address <= TOP
    ensures SegmentOf(address) * 16 + OffsetOf(address) == address <==> 0 <= address
  {}

  lemma NegativeAccepted()
    ensures Accepted(Program([0xF4], -16))
    ensures SegmentOf(-16) * 16 + OffsetOf(-16) == 0xFFFF0
  {
    assert Padded([0xF4]) == [0xF4] + Zeros(511);
  }
}
