/** Blocks that are handed out twice: what a write to one file does to another. */
module FileBlocks {
  import opened Common
  import opened FileSpec
  import opened FileTree
  import opened FileMap
  import opened FileTheorems

  // A write that starts in block `dest`, with `next` to be handed out next, goes over block b.
  predicate TakesBlock(dest: nat, next: nat, data: seq<Byte>, b: nat)
    decreases |data|
  {
    data != []
    && (b == dest || (|data| > BLOCK_DATA && TakesBlock(next, (next + 1) % 0x100, data[BLOCK_DATA..], b)))
  }

  lemma {:induction false} OtherBlocksStay(fs: Fs, dest: nat, data: seq<Byte>, b: nat)
    requires Sized(fs) && dest < 256 && b < NUM_BLOCKS && !TakesBlock(dest, fs.location, data, b)
    ensures WriteBlocks(fs, dest, data).blocks[b] == fs.blocks[b]
    decreases |data|
  {
    if |data| > BLOCK_DATA {
      var block := fs.blocks[dest].(data := data[..BLOCK_DATA] + fs.blocks[dest].data[BLOCK_DATA..]);
      var fs1 := fs.(blocks := fs.blocks[dest := block]);
      OtherBlocksStay(fs1.(location := (fs1.location + 1) % 0x100, handed := fs1.handed + 1), fs1.location,
                      data[BLOCK_DATA..], b);
    }
  }

  // The entry that a write to this name finds.
  function Target(fs: Fs, name: string): nat
    requires Sized(fs)
  {
    Find(fs.entries, Adjust(fs.directory, name), FILE, 0)
  }

  // In every table, good or not: a write of any length leaves the other files alone whose block
  // it does not take.
  lemma WriteLeavesApart(fs: Fs, name: string, data: seq<Byte>, f: nat)
    requires Sized(fs) && |data| < 0x1_0000 && f < NUM_ENTRIES && f != Target(fs, name)
    requires !TakesBlock(fs.entries[Target(fs, name)].payload, fs.location, data, fs.entries[f].payload)
    ensures Stored(Write(fs, name, data).0, f) == Stored(fs, f)
  {
    var e := Target(fs, name);
    var sized := fs.(entries := fs.entries[e := fs.entries[e].(size := |data|)]);
    OtherBlocksStay(sized, fs.entries[e].payload, data, fs.entries[f].payload);
  }

  // What is read of both is the same as far as the shorter one goes.
  predicate Agree(a: seq<Byte>, b: seq<Byte>) {
    forall i | 0 <= i < |a| && i < |b| :: a[i] == b[i]
  }

  // Of two files a write within one block to the first leaves the second alone if and only if
  // they have different blocks, or it writes what the second holds.
  lemma WriteLeavesExactly(fs: Fs, name: string, data: seq<Byte>, f: nat)
    requires Sized(fs) && |data| <= BLOCK_DATA && Write(fs, name, data).1 == 0
    requires f < NUM_ENTRIES && f != Target(fs, name)
    ensures Stored(Write(fs, name, data).0, f) == Stored(fs, f) <==>
      fs.entries[f].payload != fs.entries[Target(fs, name)].payload || Agree(data, Stored(fs, f))
  {
    var e, r := Target(fs, name), Write(fs, name, data).0;
    var sized := fs.(entries := fs.entries[e := fs.entries[e].(size := |data|)]);
    var p := fs.entries[e].payload;
    OneBlock(sized, p, data);
    if fs.entries[f].payload == p {
      BlockStored(fs.blocks[p].data, r.blocks[p].data, data, Min(fs.entries[f].size, BLOCK_DATA));
    }
  }

  // A block whose first bytes are written.
  lemma BlockStored(before: seq<Byte>, after: seq<Byte>, data: seq<Byte>, n: nat)
    requires |before| == |after| == BLOCK_DATA && n <= BLOCK_DATA && |data| <= BLOCK_DATA
    requires after[..|data|] == data && after[|data|..] == before[|data|..]
    ensures after[..n] == before[..n] <==> Agree(data, before[..n])
  {
    assert forall i | 0 <= i < |data| :: after[i] == after[..|data|][i] == data[i];
    assert forall i | |data| <= i < BLOCK_DATA :: after[i] == after[|data|..][i - |data|] == before[i];
    assert after[..n] == before[..n] ==> forall i | 0 <= i < n :: after[..n][i] == before[..n][i];
  }

  // When 256 blocks have been handed out, the next file gets the first block again.

  function Again(fs: Fs): (r: Fs)
    requires Sized(fs)
    ensures Sized(r)
  {
    Delete(Create(fs, "/b", FILE).0, "/b").0
  }

  function Agains(fs: Fs, n: nat): (r: Fs)
    requires Sized(fs)
    ensures Sized(r)
    decreases n
  {
    if n == 0 then fs else Again(Agains(fs, n - 1))
  }

  const OneFile := Store(map[(ROOT, DIRECTORY) := [], ("/a", FILE) := []], ROOT)

  function With(name: string): Store { OneFile.(files := OneFile.files[(name, FILE) := []]) }

  lemma MapGoesRound(name: string)
    requires name == "/b" || name == "/c"
    ensures MapCreate(OneFile, name, FILE) == (With(name), 0)
    ensures MapDelete(With(name), name) == (OneFile, 0) && InStore(With(name), name, FILE)
  {
    assert HasParents(OneFile, name) && !InStore(OneFile, name, FILE) && |OneFile.files| == 2;
    assert OneFile.files[(name, FILE) := []] - {(name, FILE)} == OneFile.files;
  }

  // A file that is created takes the next block and a free entry; one that is deleted leaves
  // the others.
  lemma CreateKeepsEntry(fs: Fs, name: string, e: nat)
    requires Sized(fs) && name != "" && e < NUM_ENTRIES && fs.entries[e].name != "" && Create(fs, name, FILE).1 == 0
    ensures var r := Create(fs, name, FILE).0; r.handed == fs.handed + 1 && r.entries[e] == fs.entries[e]
  {}

  lemma DeleteKeepsEntry(fs: Fs, name: string, e: nat)
    requires Good(fs) && Absolute(name) && e < NUM_ENTRIES && fs.entries[e].name != name
    requires InStore(View(fs), name, FILE)
    ensures Delete(fs, name).0.handed == fs.handed && Delete(fs, name).0.entries[e] == fs.entries[e]
  {
    ExistsInView(fs, name, FILE);
  }

  // The only file is /a, with the first block; n blocks have been handed out.
  ghost predicate HoldingParts(fs: Fs, e: nat, n: nat) {
    && Good(fs) && fs.handed == n && View(fs) == OneFile
    && e < NUM_ENTRIES && fs.entries[e] == Entry("/a", 0, 0, FILE)
  }

  ghost predicate Holding(fs: Fs, e: nat, n: nat) {
    forall g {:trigger HoldingParts(g, e, n)} | g == fs :: HoldingParts(g, e, n)
  }

  lemma NewFile(fs: Fs, name: string, e: nat, n: nat)
    requires HoldingParts(fs, e, n) && n < 256 && (name == "/b" || name == "/c")
    ensures var r := Create(fs, name, FILE);
      && r.1 == 0 && Good(r.0) && r.0.handed == n + 1 && r.0.entries[e] == fs.entries[e] && View(r.0) == With(name)
  {
    MapGoesRound(name);
    CreateRefines(fs, name, FILE);
    CreateKeepsEntry(fs, name, e);
  }

  lemma OldFile(fs: Fs, e: nat, n: nat)
    requires Good(fs) && fs.handed == n && View(fs) == With("/b")
    requires e < NUM_ENTRIES && fs.entries[e] == Entry("/a", 0, 0, FILE)
    ensures HoldingParts(Delete(fs, "/b").0, e, n)
  {
    MapGoesRound("/b");
    DeleteRefines(fs, "/b");
    DeleteKeepsEntry(fs, "/b", e);
  }

  lemma AgainKeeps(fs: Fs, e: nat, n: nat)
    requires Sized(fs) && Holding(fs, e, n) && n < 256
    ensures Holding(Again(fs), e, n + 1)
  {
    assert HoldingParts(fs, e, n);
    NewFile(fs, "/b", e, n);
    OldFile(Create(fs, "/b", FILE).0, e, n + 1);
  }

  lemma {:induction false} AgainsKeep(fs: Fs, e: nat, k: nat)
    requires Sized(fs) && Holding(fs, e, 1) && k <= 255
    ensures Holding(Agains(fs, k), e, 1 + k)
    decreases k
  {
    if k > 0 {
      AgainsKeep(fs, e, k - 1);
      AgainKeeps(Agains(fs, k - 1), e, k);
    }
  }

  // The first file.
  lemma FirstFile() returns (e: nat)
    ensures HoldingParts(Create(Formatted(), "/a", FILE).0, e, 1)
  {
    FormattedIsGood();
    var fs := Formatted();
    NewFileWritable(fs);
    e := FreeSlot(fs.entries, 0);
    assert OneFile == Store(map[(ROOT, DIRECTORY) := [], ("/a", FILE) := []], ROOT);
  }

  // The table in which the first file and the 257th share a block.
  function Crowded(): (fs: Fs)
    ensures Sized(fs)
  {
    Create(Agains(Create(Formatted(), "/a", FILE).0, 255), "/c", FILE).0
  }

  lemma CrowdedHolds() returns (e: nat, f: nat)
    ensures var fs := Crowded();
      && e < NUM_ENTRIES && f < NUM_ENTRIES && e != f && Unique(fs.entries) && fs.directory == ROOT
      && fs.entries[e] == Entry("/a", 0, 0, FILE) && fs.entries[f] == Entry("/c", 0, 0, FILE)
  {
    e := FirstFile();
    var fs1 := Create(Formatted(), "/a", FILE).0;
    assert Holding(fs1, e, 1);
    AgainsKeep(fs1, e, 255);
    var fs2 := Agains(fs1, 255);
    assert HoldingParts(fs2, e, 256);
    f := LastFile(fs2, e);
  }

  lemma LastFile(fs: Fs, e: nat) returns (f: nat)
    requires HoldingParts(fs, e, 256)
    ensures var r := Create(fs, "/c", FILE).0;
      && f < NUM_ENTRIES && e != f && Unique(r.entries) && r.directory == ROOT
      && r.entries[e] == fs.entries[e] && r.entries[f] == Entry("/c", 0, 0, FILE)
  {
    NothingBars(fs);
    f := FreeSlot(fs.entries, 0);
    CreateKeepsEntry(fs, "/c", e);
    FittingNamesStayUnique(fs, "/c", FILE);
  }

  lemma NothingBars(fs: Fs)
    requires Good(fs) && View(fs) == OneFile
    ensures Create(fs, "/c", FILE).1 == 0 && FreeSlot(fs.entries, 0) < NUM_ENTRIES
  {
    ExistsInView(fs, "/c", FILE);
    ParentsInView(fs, "/c");
    RoomInView(fs);
    MapGoesRound("/c");
  }

  // There a write to the one changes the other.
  lemma SharedBlock()
    ensures var fs := Write(Crowded(), "/a", [1]).0;
      Read(fs, "/a") == [1] && Write(fs, "/c", [2]).1 == 0 && Read(Write(fs, "/c", [2]).0, "/a") == [2]
  {
    var e, f := CrowdedHolds();
    var fs := Crowded();
    OneByte(fs, "/a", e, f, 1);
    var fs1 := Write(fs, "/a", [1]).0;
    ReadsByte(fs1, "/a", e, 1);
    OneByte(fs1, "/c", f, e, 2);
    ReadsByte(Write(fs1, "/c", [2]).0, "/a", e, 2);
  }

  // Reading where the block holds one byte.
  lemma ReadsByte(fs: Fs, name: string, e: nat, b: Byte)
    requires Sized(fs) && Unique(fs.entries) && Absolute(name) && name != ROOT && e < NUM_ENTRIES
    requires fs.entries[e] == Entry(name, 1, 0, FILE) && fs.blocks[0].data[..1] == [b]
    ensures Read(fs, name) == [b]
  {
    FindOnly(fs.entries, e);
  }

  // A write of one byte where two files share block 0.
  lemma OneByte(fs: Fs, name: string, e: nat, f: nat, b: Byte)
    requires Sized(fs) && Unique(fs.entries) && Absolute(name) && name != ROOT
    requires e < NUM_ENTRIES && f < NUM_ENTRIES && e != f
    requires Is(fs.entries[e], name, FILE) && fs.entries[e].payload == fs.entries[f].payload == 0
    ensures var r := Write(fs, name, [b]);
      && r.1 == 0 && Unique(r.0.entries) && r.0.directory == fs.directory
      && r.0.entries == fs.entries[e := fs.entries[e].(size := 1)] && r.0.blocks[0].data[..1] == [b]
  {
    FindOnly(fs.entries, e);
    OneBlock(fs.(entries := fs.entries[e := fs.entries[e].(size := 1)]), 0, [b]);
    UniqueReplaced(fs.entries, e, fs.entries[e].(size := 1));
  }
}
