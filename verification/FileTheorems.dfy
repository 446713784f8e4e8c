/** What the file system promises over whole sequences of calls, and where it falls short. */
module FileTheorems {
  import opened Common
  import opened FileSpec
  import opened FileTree
  import opened FileMap

  ghost predicate AllFit(fs: Fs, calls: seq<Call>)
    requires Sized(fs)
    decreases |calls|
  {
    calls == [] || (CallOk(calls[0]) && Fits(fs, calls[0]) && AllFit(After(fs, calls[0]).0, calls[1..]))
  }

  ghost function MapAfterAll(a: Store, calls: seq<Call>): Store
    decreases |calls|
  {
    if calls == [] then a else MapAfterAll(MapAfter(a, calls[0]).0, calls[1..])
  }

  lemma {:induction false} AllFitOk(fs: Fs, calls: seq<Call>)
    requires Sized(fs) && AllFit(fs, calls)
    ensures forall i | 0 <= i < |calls| :: CallOk(calls[i])
    decreases |calls|
  {
    if calls != [] {
      AllFitOk(After(fs, calls[0]).0, calls[1..]);
      forall i | 0 < i < |calls|
        ensures CallOk(calls[i])
      { assert calls[1..][i - 1] == calls[i]; }
    }
  }

  // The freshly formatted table holds just the root.
  lemma FormattedIsGood()
    ensures Good(Formatted()) && Formatted().handed == 0
    ensures View(Formatted()) == Store(map[(ROOT, DIRECTORY) := []], ROOT)
  {
    FormattedTree();
    var fs := Formatted();
    var entries := seq(NUM_ENTRIES, e => FREE_ENTRY);
    NothingFound(entries, 0);
    assert fs.entries == entries[0 := FREE_ENTRY.(name := ROOT, kind := DIRECTORY)];
    assert KeyOf(fs.entries[0]) == (ROOT, DIRECTORY);
    assert forall e | 0 < e < NUM_ENTRIES :: fs.entries[e].name == "";
    ViewAt(fs, 0);
    assert Keys(fs.entries) == {(ROOT, DIRECTORY)};
  }

  // On every sequence of calls that fit, table and map stay in step.
  lemma {:induction false} RunRefines(fs: Fs, calls: seq<Call>)
    requires Good(fs) && AllFit(fs, calls)
    ensures forall i | 0 <= i < |calls| :: CallOk(calls[i])
    ensures Good(AfterAll(fs, calls)) && View(AfterAll(fs, calls)) == MapAfterAll(View(fs), calls)
    decreases |calls|
  {
    AllFitOk(fs, calls);
    if calls != [] {
      CallRefines(fs, calls[0]);
      RunRefines(After(fs, calls[0]).0, calls[1..]);
    }
  }

  // Storage.

  // The call writes, or removes, the file with this path.
  predicate Touches(dir: string, c: Call, path: string) {
    match c
    case Put(name, _) => Adjust(dir, name) == path
    case Remove(name) => Adjust(dir, name) == path
    case _ => false
  }

  ghost predicate Untouched(fs: Fs, calls: seq<Call>, path: string)
    requires Sized(fs)
    decreases |calls|
  {
    calls == [] || (CallOk(calls[0]) && !Touches(fs.directory, calls[0], path) &&
                    Untouched(After(fs, calls[0]).0, calls[1..], path))
  }

  // What was written last is read back, whatever calls on other files come in between.
  lemma ReadBack(fs: Fs, name: string, data: seq<Byte>, calls: seq<Call>)
    requires Good(fs) && |data| <= BLOCK_DATA && Write(fs, name, data).1 == 0
    requires var path := Adjust(fs.directory, name);
      AllFit(Write(fs, name, data).0, calls) && Untouched(Write(fs, name, data).0, calls, path)
    ensures var path := Adjust(fs.directory, name);
      && (forall i | 0 <= i < |calls| :: CallOk(calls[i]))
      && Read(AfterAll(Write(fs, name, data).0, calls), path) == if data == [] then [SPACE] else data
  {
    var path := Adjust(fs.directory, name);
    var fs1 := Write(fs, name, data).0;
    WriteRefines(fs, name, data);
    AdjustIsAbsolute(fs.directory, name);
    AllFitOk(fs1, calls);
    OthersKeepFile(fs1, calls, path);
    RunRefines(fs1, calls);
    ReadRefines(AfterAll(fs1, calls), path);
  }

  lemma CallKeepsFile(a: Store, c: Call, path: string)
    requires !Touches(a.dir, c, path) && InStore(a, path, FILE)
    ensures var r := MapAfter(a, c).0;
      InStore(r, path, FILE) && r.files[(path, FILE)] == a.files[(path, FILE)]
  {}

  // Calls on other paths leave a stored file as it is.
  lemma {:induction false} OthersKeepFile(fs: Fs, calls: seq<Call>, path: string)
    requires Good(fs) && AllFit(fs, calls) && Untouched(fs, calls, path) && InStore(View(fs), path, FILE)
    ensures var a := MapAfterAll(View(fs), calls);
      InStore(a, path, FILE) && a.files[(path, FILE)] == View(fs).files[(path, FILE)]
    decreases |calls|
  {
    if calls != [] {
      var fs1 := After(fs, calls[0]).0;
      CallRefines(fs, calls[0]);
      CallKeepsFile(View(fs), calls[0], path);
      assert View(fs1) == MapAfter(View(fs), calls[0]).0;
      OthersKeepFile(fs1, calls[1..], path);
    }
  }

  // Writes beyond one block.

  // The blocks below m are not written, as long as the block counter does not come round.
  lemma {:induction false} LowerBlocksStay(fs: Fs, dest: nat, data: seq<Byte>, m: nat)
    requires Sized(fs) && m <= dest < 256 && m <= fs.handed <= 256 && fs.location == fs.handed % 256
    requires |data| <= (257 - fs.handed) * BLOCK_DATA
    ensures forall b | 0 <= b < m :: WriteBlocks(fs, dest, data).blocks[b] == fs.blocks[b]
    decreases |data|
  {
    if |data| > BLOCK_DATA {
      var block := fs.blocks[dest].(data := data[..BLOCK_DATA]);
      assert data[..BLOCK_DATA] + fs.blocks[dest].data[BLOCK_DATA..] == data[..BLOCK_DATA];
      var fs1 := fs.(blocks := fs.blocks[dest := block]);
      LowerBlocksStay(fs1.(location := (fs.location + 1) % 0x100, handed := fs.handed + 1), fs.location,
                      data[BLOCK_DATA..], m);
    }
  }

  // The entry that a write fills, and the table after its size is set.
  lemma WriteFinds(fs: Fs, name: string, data: seq<Byte>) returns (e: nat, sized: Fs)
    requires Good(fs) && |data| < 0x1_0000 && Write(fs, name, data).1 == 0
    ensures e < NUM_ENTRIES && IsFile(fs.entries[e]) && fs.entries[e].name != ROOT
    ensures sized == fs.(entries := fs.entries[e := fs.entries[e].(size := |data|)]) && Sized(sized)
    ensures Write(fs, name, data).0 == WriteBlocks(sized, fs.entries[e].payload, data)
    ensures Find(sized.entries, Adjust(fs.directory, name), FILE, 0) == e
  {
    var path := Adjust(fs.directory, name);
    e := Find(fs.entries, path, FILE, 0);
    ExistsInView(fs, path, FILE);
    sized := fs.(entries := fs.entries[e := fs.entries[e].(size := |data|)]);
    SizeKeepsFind(fs.entries, e, |data|, path, 0);
  }

  // A read gives back what was written if and only if it fits one block and is not empty.
  lemma WriteReadExactly(fs: Fs, name: string, data: seq<Byte>)
    requires Good(fs) && |data| < 0x1_0000 && Write(fs, name, data).1 == 0
    ensures Read(Write(fs, name, data).0, name) == data <==> 0 < |data| <= 511
  {
    var e, sized := WriteFinds(fs, name, data);
    var r := Write(fs, name, data).0;
    if |data| <= BLOCK_DATA {
      OneBlock(sized, fs.entries[e].payload, data);
      assert Stored(r, e) == data;
    } else {
      assert |Stored(r, e)| == BLOCK_DATA;
    }
  }

  // Of a longer write the first 511 bytes are found again, unless it takes so many blocks that
  // the counter comes round.
  lemma LongWriteCut(fs: Fs, name: string, data: seq<Byte>)
    requires Good(fs) && BLOCK_DATA < |data| < 0x1_0000 && Write(fs, name, data).1 == 0
    requires |data| <= (257 - fs.handed) * BLOCK_DATA
    ensures Read(Write(fs, name, data).0, name) == data[..511]
  {
    var e, sized := WriteFinds(fs, name, data);
    FirstBlockStays(sized, fs.entries[e].payload, data);
    assert Stored(Write(fs, name, data).0, e) == data[..BLOCK_DATA];
  }

  // The first block of a long write, behind which the counter does not come round.
  lemma FirstBlockStays(fs: Fs, p: nat, data: seq<Byte>)
    requires Sized(fs) && p < fs.handed <= 256 && fs.location == fs.handed % 256
    requires BLOCK_DATA < |data| <= (257 - fs.handed) * BLOCK_DATA
    ensures WriteBlocks(fs, p, data).blocks[p].data == data[..BLOCK_DATA]
  {
    var block := fs.blocks[p].(data := data[..BLOCK_DATA] + fs.blocks[p].data[BLOCK_DATA..]);
    assert block.data == data[..BLOCK_DATA];
    var fs1 := fs.(blocks := fs.blocks[p := block]);
    var fs2 := fs1.(location := (fs.location + 1) % 0x100, handed := fs.handed + 1);
    LowerBlocksStay(fs2, fs.location, data[BLOCK_DATA..], fs.handed);
    assert WriteBlocks(fs, p, data) == WriteBlocks(fs2, fs.location, data[BLOCK_DATA..]);
  }

  // One byte too many, and none at all.
  lemma LimitsOfWrites(fs: Fs, name: string)
    requires Good(fs) && fs.handed < 256 && Write(fs, name, []).1 == 0
    ensures var long := seq(BLOCK_DATA + 1, i => SPACE);
      Write(fs, name, long).1 == 0 && Read(Write(fs, name, long).0, name) == long[..BLOCK_DATA] != long
    ensures Read(Write(fs, name, []).0, name) == [SPACE] != []
  {
    LongWriteCut(fs, name, seq(BLOCK_DATA + 1, i => SPACE));
    var e, sized := WriteFinds(fs, name, []);
  }

  // A new file, on any table with just the root.
  lemma NewFileWritable(fs: Fs)
    requires Good(fs) && fs.handed == 0 && View(fs) == Store(map[(ROOT, DIRECTORY) := []], ROOT)
    ensures var fs1 := Create(fs, "/a", FILE).0;
      && Good(fs1) && fs1.handed == 1 && Write(fs1, "/a", []).1 == 0
      && View(fs1) == Store(map[(ROOT, DIRECTORY) := [], ("/a", FILE) := []], ROOT)
  {
    MapTakesFile();
    CreateRefines(fs, "/a", FILE);
    FileIsThere(Create(fs, "/a", FILE).0);
  }

  lemma MapTakesFile()
    ensures MapCreate(Store(map[(ROOT, DIRECTORY) := []], ROOT), "/a", FILE)
         == (Store(map[(ROOT, DIRECTORY) := [], ("/a", FILE) := []], ROOT), 0)
  {
    var a := Store(map[(ROOT, DIRECTORY) := []], ROOT);
    assert HasParents(a, "/a") && |a.files| == 1;
    assert a.files[("/a", FILE) := []] == map[(ROOT, DIRECTORY) := [], ("/a", FILE) := []];
  }

  lemma FileIsThere(fs: Fs)
    requires Good(fs) && View(fs) == Store(map[(ROOT, DIRECTORY) := [], ("/a", FILE) := []], ROOT)
    ensures Write(fs, "/a", []).1 == 0
  {
    ExistsInView(fs, "/a", FILE);
  }

  // The file /a of a freshly formatted system.
  lemma WriteLimits()
    ensures var fs, long := Create(Formatted(), "/a", FILE).0, seq(BLOCK_DATA + 1, i => SPACE);
      && Write(fs, "/a", long).1 == 0 && Read(Write(fs, "/a", long).0, "/a") == long[..BLOCK_DATA] != long
      && Write(fs, "/a", []).1 == 0 && Read(Write(fs, "/a", []).0, "/a") == [SPACE] != []
  {
    FormattedIsGood();
    NewFileWritable(Formatted());
    LimitsOfWrites(Create(Formatted(), "/a", FILE).0, "/a");
  }

  lemma {:induction false} SizeKeepsFind(entries: seq<Entry>, e: nat, size: Half, path: string, from: nat)
    requires e < |entries| && from <= |entries|
    ensures Find(entries[e := entries[e].(size := size)], path, FILE, from) == Find(entries, path, FILE, from)
    decreases |entries| - from
  {
    if from < |entries| { SizeKeepsFind(entries, e, size, path, from + 1); }
  }

  // Unique keys.

  // A successful creation keeps the keys unique if and only if the name as it is stored,
  // cut to 255 characters, is new with its type.
  lemma CreateKeepsUniqueExactly(fs: Fs, name: string, kind: Byte)
    requires Sized(fs) && Tree(fs.entries) && Absolute(fs.directory) && Unique(fs.entries)
    requires Create(fs, name, kind).1 == 0
    ensures Unique(Create(fs, name, kind).0.entries) <==>
      !Has(fs.entries, Clip(Adjust(fs.directory, name), 255), kind)
  {
    var path := Adjust(fs.directory, name);
    AdjustIsAbsolute(fs.directory, name);
    FilledUnique(fs.entries, FreeSlot(fs.entries, 0), NewEntry(fs, path, kind));
  }

  lemma FilledUnique(entries: seq<Entry>, e: nat, x: Entry)
    requires Unique(entries) && e < |entries| && entries[e].name == "" && x.name != ""
    ensures Unique(entries[e := x]) <==> !Has(entries, x.name, x.kind)
  {
    KeyIs(entries, x.name, x.kind);
    if Has(entries, x.name, x.kind) {
      var f :| 0 <= f < |entries| && Is(entries[f], x.name, x.kind);
      assert KeyOf(entries[e := x][e]) == KeyOf(entries[e := x][f]);
    } else {
      UniqueReplaced(entries, e, x);
    }
  }

  // For paths that fit a name, other than "/", the check of the code itself is enough.
  lemma FittingNamesStayUnique(fs: Fs, name: string, kind: Byte)
    requires Sized(fs) && Tree(fs.entries) && Absolute(fs.directory) && Unique(fs.entries)
    requires Create(fs, name, kind).1 == 0
    requires Adjust(fs.directory, name) != ROOT && |Adjust(fs.directory, name)| < 256
    ensures Unique(Create(fs, name, kind).0.entries)
  {
    CreateKeepsUniqueExactly(fs, name, kind);
    ExistsIs(fs.entries, Adjust(fs.directory, name), kind);
  }

  // A file named "/" can be created again and again: the second time the keys collide.
  lemma RootFileTwice(fs: Fs)
    requires Good(fs) && |View(fs).files| + 2 <= NUM_ENTRIES
    ensures var fs1 := Create(fs, ROOT, FILE).0;
      && Create(fs, ROOT, FILE).1 == 0 && Create(fs1, ROOT, FILE).1 == 0
      && !Unique(Create(fs1, ROOT, FILE).0.entries)
  {
    var fs1, code := Create(fs, ROOT, FILE).0, Create(fs, ROOT, FILE).1;
    ExistsIs(fs.entries, ROOT, FILE);
    RoomInView(fs);
    assert code == 0 && View(fs).files.Keys == Keys(fs.entries);
    var e := FreeSlot(fs.entries, 0);
    CreateKeepsTree(fs, ROOT, FILE);
    ExistsIs(fs1.entries, ROOT, FILE);
    assert Is(fs1.entries[e], ROOT, FILE);
    if FreeSlot(fs1.entries, 0) == NUM_ENTRIES {
      assert forall f | 0 <= f < NUM_ENTRIES && f != e :: fs1.entries[f] == fs.entries[f];
      OneFreeSlot(fs.entries, e);
      assert false;
    }
    if Unique(fs1.entries) { CreateKeepsUniqueExactly(fs1, ROOT, FILE); }
    else { StaysCollided(fs1.entries, FreeSlot(fs1.entries, 0), NewEntry(fs1, ROOT, FILE)); }
  }

  lemma StaysCollided(entries: seq<Entry>, e: nat, x: Entry)
    requires !Unique(entries) && e < |entries| && entries[e].name == ""
    ensures !Unique(entries[e := x])
  {
    var f, g :| 0 <= f < g < |entries| && entries[f].name != "" && entries[g].name != ""
                && KeyOf(entries[f]) == KeyOf(entries[g]);
    assert KeyOf(entries[e := x][f]) == KeyOf(entries[e := x][g]);
  }

  // The table without one slot that is free.
  lemma WithoutSlot(entries: seq<Entry>, e: nat, rest: seq<Entry>)
    requires e < |entries| && entries[e].name == "" && rest == entries[..e] + entries[e + 1..]
    ensures forall f | 0 <= f < |rest| :: rest[f] == entries[if f < e then f else f + 1]
    ensures Keys(rest) == Keys(entries)
  {
    forall k
      ensures k in Keys(rest) <==> k in Keys(entries)
    {
      if k in Keys(entries) {
        var f :| 0 <= f < |entries| && entries[f].name != "" && KeyOf(entries[f]) == k;
        assert rest[if f < e then f else f - 1] == entries[f];
      }
    }
  }

  // With all slots but one in use there are that many keys.
  lemma OneFreeSlot(entries: seq<Entry>, e: nat)
    requires Unique(entries) && e < |entries| && entries[e].name == ""
    requires forall f | 0 <= f < |entries| && f != e :: entries[f].name != ""
    ensures |Keys(entries)| == |entries| - 1
  {
    var rest := entries[..e] + entries[e + 1..];
    WithoutSlot(entries, e, rest);
    KeyCount(rest);
    assert FreeSlot(rest, 0) == |rest|;
  }

  // Deleting directories.

  ghost predicate Inside(a: Store, path: string) {
    exists k :: k in a.files && path + [DIR_SEPERATOR] <= k.0
  }

  // A stored directory is deleted if and only if it has nothing inside and no stored path
  // merely begins with its name.
  lemma DeleteDirectoryExactly(fs: Fs, name: string)
    requires Good(fs)
    requires var path := Adjust(fs.directory, name);
      InStore(View(fs), path, DIRECTORY) && !InStore(View(fs), path, FILE)
    ensures var path := Adjust(fs.directory, name);
      Delete(fs, name).1 == 0 <==>
        && !Inside(View(fs), path)
        && forall k | k in View(fs).files && |k.0| > |path| && path <= k.0 :: k.0[|path|] == DIR_SEPERATOR
  {
    DeleteRefines(fs, name);
    var a, path := View(fs), Adjust(fs.directory, name);
    forall k | k in a.files
      ensures path + [DIR_SEPERATOR] <= k.0 <==>
                |k.0| > |path| && path <= k.0 && k.0[|path|] == DIR_SEPERATOR
    { BeginsWith(path, k.0); }
  }

  lemma BeginsWith(path: string, name: string)
    ensures path + [DIR_SEPERATOR] <= name <==>
              |name| > |path| && path <= name && name[|path|] == DIR_SEPERATOR
  {
    if |name| > |path| {
      assert name[..|path| + 1] == name[..|path|] + [name[|path|]];
    }
  }

  // With /a a directory and /ab a file, /a is empty and yet cannot be deleted.

  lemma SiblingStores()
    ensures var a0 := Store(map[(ROOT, DIRECTORY) := []], ROOT);
      var a1 := Store(map[(ROOT, DIRECTORY) := [], ("/a", DIRECTORY) := []], ROOT);
      && MapCreate(a0, "/a", DIRECTORY) == (a1, 0)
      && MapCreate(a1, "/ab", FILE) == (a1.(files := a1.files[("/ab", FILE) := []]), 0)
  {
    var a0 := Store(map[(ROOT, DIRECTORY) := []], ROOT);
    var a1 := Store(map[(ROOT, DIRECTORY) := [], ("/a", DIRECTORY) := []], ROOT);
    assert a1.files == a0.files[("/a", DIRECTORY) := []];
    assert HasParents(a0, "/a") && HasParents(a1, "/ab");
    assert |a0.files| == 1 && |a1.files| == 2;
  }

  lemma SiblingKeepsDirectory(fs: Fs)
    requires Good(fs) && fs.handed < 256 && View(fs) == Store(map[(ROOT, DIRECTORY) := []], ROOT)
    ensures var fs2 := Create(Create(fs, "/a", DIRECTORY).0, "/ab", FILE).0;
      Good(fs2) && !Inside(View(fs2), "/a") && Delete(fs2, "/a").1 == 2
  {
    SiblingStores();
    CreateRefines(fs, "/a", DIRECTORY);
    var fs1 := Create(fs, "/a", DIRECTORY).0;
    CreateRefines(fs1, "/ab", FILE);
    var fs2 := Create(fs1, "/ab", FILE).0;
    SiblingStore(View(fs2));
    DeleteRefines(fs2, "/a");
  }

  lemma SiblingStore(a: Store)
    requires a == Store(map[(ROOT, DIRECTORY) := [], ("/a", DIRECTORY) := []][("/ab", FILE) := []], ROOT)
    ensures !Inside(a, "/a") && MapDelete(a, "/a").1 == 2
  {
    forall k | k in a.files
      ensures !("/a" + [DIR_SEPERATOR] <= k.0)
    { BeginsWith("/a", k.0); }
    var k := ("/ab", FILE);
    assert k in a.files && |k.0| > |"/a"| && "/a" <= k.0;
  }
}
