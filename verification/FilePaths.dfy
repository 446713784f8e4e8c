/** Relative names: every call works on the path that the current directory and the name make. */
module FilePaths {
  import opened Common
  import opened FileSpec
  import opened FileTree
  import opened FileMap
  import opened FileTheorems

  predicate Relative(name: string) { name != "" && name[0] != '/' }

  // With a current directory d, a relative name n means d/n; in the root directory it means /n.
  function PathOf(dir: string, name: string): string {
    if dir == "/" then "/" + name else dir + "/" + name
  }

  lemma AdjustIsPath(dir: string, name: string)
    requires Absolute(dir) && Relative(name)
    ensures Adjust(dir, name) == PathOf(dir, name) == Adjust(dir, PathOf(dir, name)) && |PathOf(dir, name)| > 1
  {}

  lemma RelativeCalls(fs: Fs, name: string, kind: Byte, data: seq<Byte>)
    requires Sized(fs) && Absolute(fs.directory) && Relative(name) && |data| < 0x1_0000
    ensures Create(fs, name, kind) == Create(fs, PathOf(fs.directory, name), kind)
    ensures Delete(fs, name) == Delete(fs, PathOf(fs.directory, name))
    ensures Write(fs, name, data) == Write(fs, PathOf(fs.directory, name), data)
    ensures Read(fs, name) == Read(fs, PathOf(fs.directory, name))
    ensures SetDirectory(fs, name) == SetDirectory(fs, PathOf(fs.directory, name))
  {
    AdjustIsPath(fs.directory, name);
  }

  // The same table with another current directory.
  function Moved(fs: Fs, dir: string): Fs { fs.(directory := dir) }

  lemma {:induction false} WriteBlocksMoved(fs: Fs, dest: nat, data: seq<Byte>, dir: string)
    requires Sized(fs) && dest < 256
    ensures WriteBlocks(Moved(fs, dir), dest, data) == Moved(WriteBlocks(fs, dest, data), dir)
    decreases |data|
  {
    if |data| > BLOCK_DATA {
      var block := fs.blocks[dest].(data := data[..BLOCK_DATA] + fs.blocks[dest].data[BLOCK_DATA..]);
      var fs1 := fs.(blocks := fs.blocks[dest := block]);
      var fs2 := fs1.(location := (fs1.location + 1) % 0x100, handed := fs1.handed + 1);
      WriteBlocksMoved(fs2, fs1.location, data[BLOCK_DATA..], dir);
    }
  }

  lemma WriteMoved(fs: Fs, name: string, data: seq<Byte>, dir: string)
    requires Sized(fs) && Absolute(name) && |data| < 0x1_0000
    ensures Write(Moved(fs, dir), name, data) == (Moved(Write(fs, name, data).0, dir), Write(fs, name, data).1)
  {
    var e := Find(fs.entries, name, FILE, 0);
    WriteBlocksMoved(fs.(entries := fs.entries[e := fs.entries[e].(size := |data|)]), fs.entries[e].payload, data, dir);
  }

  // An absolute name means the same in every directory.
  lemma AbsoluteCalls(fs: Fs, dir: string, name: string, kind: Byte, data: seq<Byte>)
    requires Sized(fs) && Absolute(name) && |data| < 0x1_0000
    ensures Create(Moved(fs, dir), name, kind) == (Moved(Create(fs, name, kind).0, dir), Create(fs, name, kind).1)
    ensures Delete(Moved(fs, dir), name) == (Moved(Delete(fs, name).0, dir), Delete(fs, name).1)
    ensures Write(Moved(fs, dir), name, data) == (Moved(Write(fs, name, data).0, dir), Write(fs, name, data).1)
    ensures Read(Moved(fs, dir), name) == Read(fs, name)
    ensures SetDirectory(Moved(fs, dir), name) ==
      if SetDirectory(fs, name).1 == 0 then SetDirectory(fs, name) else (Moved(fs, dir), 0x100 - 1)
  {
    WriteMoved(fs, name, data, dir);
  }

  // A change to a stored directory succeeds, and makes exactly this path the current directory
  // if and only if it has at most 222 characters; the rest is cut off.
  lemma EnterExactly(fs: Fs, path: string)
    requires Sized(fs) && Tree(fs.entries) && Absolute(path)
    ensures var (r, code) := SetDirectory(fs, path);
      && (code == 0 <==> Has(fs.entries, path, DIRECTORY)) && r == Moved(fs, r.directory)
      && (code == 0 ==> (r.directory == path <==> |path| <= 222) && r.directory <= path
                        && (|path| > 222 ==> |r.directory| == 222))
      && (code != 0 ==> r == fs)
  {
    ExistsIs(fs.entries, path, DIRECTORY);
    assert Is(fs.entries[0], ROOT, DIRECTORY);
  }

  // In a stored directory.

  ghost predicate Simple(base: string) {
    base != "" && forall i | 0 <= i < |base| :: base[i] != '/'
  }

  lemma ParentsInside(entries: seq<Entry>, dir: string, base: string)
    requires Tree(entries) && Has(entries, dir, DIRECTORY) && Absolute(dir) && Simple(base)
    ensures ParentsExist(entries, PathOf(dir, base), 1)
  {
    var path := PathOf(dir, base);
    ParentsAre(entries, path, 1);
    forall j | 1 <= j < |path| && path[j] == DIR_SEPERATOR
      ensures path[..j] != ROOT && Has(entries, path[..j], DIRECTORY)
    {
      if j == |dir| {
        assert path[..j] == dir;
      } else {
        assert path[..j] == dir[..j] && dir[j] == DIR_SEPERATOR;
        var e :| 0 <= e < |entries| && Is(entries[e], dir, DIRECTORY);
        assert Closed(entries, entries[e].name);
      }
    }
  }

  // After a change to a stored directory, a simple name is created under the path of that
  // directory, unless it is there already or the table is full.
  lemma CreatedInside(fs: Fs, dir: string, base: string, kind: Byte)
    requires Sized(fs) && Tree(fs.entries) && Has(fs.entries, dir, DIRECTORY) && Absolute(dir) && |dir| <= 222
    requires Simple(base) && |dir| + 1 + |base| < MAX_NAME_LENGTH
    ensures SetDirectory(fs, dir).1 == 0
    ensures var (r, code) := Create(SetDirectory(fs, dir).0, base, kind); var path := PathOf(dir, base);
      && code == (if Has(fs.entries, path, kind) then 1
                  else if forall e | 0 <= e < NUM_ENTRIES :: fs.entries[e].name != "" then 0x100 - 1 else 0)
      && (code == 0 ==> Has(r.entries, path, kind) && r.directory == dir)
      && forall p, k :: Has(fs.entries, p, k) && p != "" ==> Has(r.entries, p, k)
  {
    var fs1, path := SetDirectory(fs, dir).0, PathOf(dir, base);
    EnterExactly(fs, dir);
    AdjustIsPath(dir, base);
    ParentsInside(fs.entries, dir, base);
    ExistsIs(fs.entries, path, kind);
    var e, r := FreeSlot(fs.entries, 0), Create(fs1, base, kind).0;
    forall p, k | Has(fs.entries, p, k) && p != ""
      ensures Has(r.entries, p, k)
    {
      var f :| 0 <= f < NUM_ENTRIES && Is(fs.entries[f], p, k);
      assert r.entries[f] == fs.entries[f];
    }
    if Create(fs1, base, kind).1 == 0 {
      assert Is(r.entries[e], path, kind);
    }
  }

  // The directory test that _init runs at the end.

  lemma PartsBelow(a: Store, dir: string, base: string)
    requires dir == "/" || (InStore(a, dir, DIRECTORY) && HasParents(a, dir) && Absolute(dir))
    requires Simple(base)
    ensures HasParents(a, PathOf(dir, base))
  {
    var path := PathOf(dir, base);
    forall j | 1 <= j < |path| && path[j] == DIR_SEPERATOR
      ensures InStore(a, path[..j], DIRECTORY)
    {
      if j == |dir| { assert path[..j] == dir; } else { assert path[..j] == dir[..j] && dir[j] == DIR_SEPERATOR; }
    }
  }

  // A create that succeeds, by the path it stores.
  lemma StoresPath(fs: Fs, name: string, kind: Byte, dir: string, base: string)
    requires Good(fs) && name != "" && Adjust(fs.directory, name) == PathOf(dir, base) && Simple(base)
    requires dir == "/" || (InStore(View(fs), dir, DIRECTORY) && HasParents(View(fs), dir) && Absolute(dir))
    requires |PathOf(dir, base)| < MAX_NAME_LENGTH && fs.handed < 256
    requires (PathOf(dir, base), kind) !in View(fs).files && |View(fs).files| < NUM_ENTRIES
    ensures var (r, code) := Create(fs, name, kind);
      && code == 0 && Good(r) && r.handed == fs.handed + (if kind == FILE then 1 else 0)
      && View(r) == View(fs).(files := View(fs).files[(PathOf(dir, base), kind) := []])
  {
    PartsBelow(View(fs), dir, base);
    CreateRefines(fs, name, kind);
  }

  // A table with these keys, all empty.

  ghost function Empties(keys: set<Key>): map<Key, seq<Byte>> { map k | k in keys :: [] }

  ghost predicate HoldsParts(fs: Fs, keys: set<Key>, dir: string, handed: nat) {
    Good(fs) && fs.handed == handed && View(fs) == Store(Empties(keys), dir)
  }

  ghost predicate Holds(fs: Fs, keys: set<Key>, dir: string, handed: nat) {
    Sized(fs) && forall t {:trigger HoldsParts(t, keys, dir, handed)} | t == fs :: HoldsParts(t, keys, dir, handed)
  }

  lemma HoldsView(fs: Fs, keys: set<Key>, dir: string, handed: nat)
    requires Holds(fs, keys, dir, handed)
    ensures View(fs).files.Keys == keys && fs.directory == dir
  {
    assert HoldsParts(fs, keys, dir, handed);
  }

  lemma OneMore(keys: set<Key>, key: Key)
    ensures Empties(keys)[key := []] == Empties(keys + {key}) && |Empties(keys)| == |keys|
  {
    assert Empties(keys).Keys == keys;
  }

  lemma Stores(fs: Fs, keys: set<Key>, here: string, handed: nat, name: string, kind: Byte, dir: string, base: string)
    requires Holds(fs, keys, here, handed) && name != "" && Adjust(here, name) == PathOf(dir, base) && Simple(base)
    requires dir == "/" || ((dir, DIRECTORY) in keys && HasParents(View(fs), dir) && Absolute(dir) && |dir| > 1)
    requires |PathOf(dir, base)| < MAX_NAME_LENGTH && handed < 256
    requires (PathOf(dir, base), kind) !in keys && |keys| < NUM_ENTRIES
    ensures Create(fs, name, kind).1 == 0
    ensures Holds(Create(fs, name, kind).0, keys + {(PathOf(dir, base), kind)}, here,
                  handed + if kind == FILE then 1 else 0)
  {
    assert HoldsParts(fs, keys, here, handed);
    OneMore(keys, (PathOf(dir, base), kind));
    StoresPath(fs, name, kind, dir, base);
  }

  const HELLO: Key := ("/hello", DIRECTORY)
  const TEST1: Key := ("/hello/test1.t", FILE)
  const TEST2: Key := ("/test2.t", FILE)
  const TEST3: Key := ("/hello/test3.t", FILE)
  const FOLDER: Key := ("/hello/folder", DIRECTORY)
  const TEST5: Key := ("/hello/folder/test5.t", FILE)

  lemma TestPaths()
    ensures HELLO == (PathOf("/", "hello"), DIRECTORY) && TEST1 == (PathOf("/hello", "test1.t"), FILE)
    ensures TEST2 == (PathOf("/", "test2.t"), FILE) && TEST3 == (PathOf("/hello", "test3.t"), FILE)
    ensures FOLDER == (PathOf("/hello", "folder"), DIRECTORY) && TEST5 == (PathOf("/hello/folder", "test5.t"), FILE)
  {
    assert "/hello" == "/" + "hello" && "/test2.t" == "/" + "test2.t";
    assert "/hello/test1.t" == "/hello" + "/" + "test1.t" && "/hello/test3.t" == "/hello" + "/" + "test3.t";
    assert "/hello/folder" == "/hello" + "/" + "folder";
    assert "/hello/folder/test5.t" == "/hello/folder" + "/" + "test5.t";
  }

  // The directories of the test.

  lemma HelloParents(a: Store)
    ensures HasParents(a, "/hello") && Absolute("/hello")
  {
    TestPaths();
    PartsBelow(a, "/", "hello");
  }

  lemma FolderParents(a: Store)
    requires HELLO in a.files
    ensures HasParents(a, "/hello/folder") && Absolute("/hello/folder")
  {
    TestPaths();
    HelloParents(a);
    PartsBelow(a, "/hello", "folder");
  }

  lemma InHello(fs: Fs, keys: set<Key>, handed: nat, name: string, kind: Byte, base: string)
    requires Holds(fs, keys, "/hello", handed) && HELLO in keys && Simple(base) && |base| < 20 && handed < 256
    requires name == base || name == PathOf("/hello", base)
    requires (PathOf("/hello", base), kind) !in keys && |keys| < NUM_ENTRIES
    ensures Create(fs, name, kind).1 == 0
    ensures Holds(Create(fs, name, kind).0, keys + {(PathOf("/hello", base), kind)}, "/hello",
                  handed + if kind == FILE then 1 else 0)
  {
    HelloParents(View(fs));
    Stores(fs, keys, "/hello", handed, name, kind, "/hello", base);
  }

  lemma InFolder(fs: Fs, keys: set<Key>, handed: nat, base: string)
    requires Holds(fs, keys, "/hello", handed) && HELLO in keys && FOLDER in keys && Simple(base) && |base| < 20
    requires (PathOf("/hello/folder", base), FILE) !in keys && |keys| < NUM_ENTRIES && handed < 256
    ensures Create(fs, PathOf("/hello/folder", base), FILE).1 == 0
    ensures Holds(Create(fs, PathOf("/hello/folder", base), FILE).0, keys + {(PathOf("/hello/folder", base), FILE)},
                  "/hello", handed + 1)
  {
    HoldsView(fs, keys, "/hello", handed);
    FolderParents(View(fs));
    Stores(fs, keys, "/hello", handed, PathOf("/hello/folder", base), FILE, "/hello/folder", base);
  }

  const ROOT_KEY: Key := (ROOT, DIRECTORY)
  const STORED := {ROOT_KEY, HELLO, TEST1, TEST2, TEST3, FOLDER, TEST5}

  lemma KeysDiffer()
    ensures HELLO != ROOT_KEY && TEST1 !in {ROOT_KEY, HELLO} && TEST2 !in {ROOT_KEY, HELLO, TEST1}
    ensures TEST3 !in {ROOT_KEY, HELLO, TEST1, TEST2} && FOLDER !in {ROOT_KEY, HELLO, TEST1, TEST2, TEST3}
    ensures TEST5 !in {ROOT_KEY, HELLO, TEST1, TEST2, TEST3, FOLDER}
  {
    assert TEST1.0[11] != TEST3.0[11];
  }

  lemma TestBegins(fs: Fs, handed: nat)
    requires Holds(fs, {ROOT_KEY}, ROOT, handed) && handed < 256
    ensures var (fs1, z) := Create(fs, "/hello", DIRECTORY); var (fs2, x) := SetDirectory(fs1, "/hello");
      z == 0 && x == 0 && Holds(fs2, {ROOT_KEY, HELLO}, "/hello", handed)
  {
    assert HoldsParts(fs, {ROOT_KEY}, ROOT, handed);
    KeysDiffer();
    TestPaths();
    Stores(fs, {ROOT_KEY}, ROOT, handed, "/hello", DIRECTORY, "/", "hello");
    assert {ROOT_KEY} + {HELLO} == {ROOT_KEY, HELLO};
    var fs1 := Create(fs, "/hello", DIRECTORY).0;
    assert HoldsParts(fs1, {ROOT_KEY, HELLO}, ROOT, handed);
    EnterRefines(fs1, "/hello");
    assert InStore(View(fs1), "/hello", DIRECTORY);
  }

  lemma TestTwoFiles(fs: Fs, handed: nat)
    requires Holds(fs, {ROOT_KEY, HELLO}, "/hello", handed) && handed + 2 <= 256
    ensures var (fs3, t1) := Create(fs, "test1.t", FILE);
      var (fs4, t2) := Create(fs3, "/test2.t", FILE);
      t1 == t2 == 0 && Holds(fs4, {ROOT_KEY, HELLO, TEST1, TEST2}, "/hello", handed + 2)
  {
    KeysDiffer();
    TestPaths();
    var keys := {ROOT_KEY, HELLO};
    InHello(fs, keys, handed, "test1.t", FILE, "test1.t");
    assert keys + {TEST1} == {ROOT_KEY, HELLO, TEST1};
    Stores(Create(fs, "test1.t", FILE).0, keys + {TEST1}, "/hello", handed + 1, "/test2.t", FILE, "/", "test2.t");
    assert keys + {TEST1} + {TEST2} == {ROOT_KEY, HELLO, TEST1, TEST2};
  }

  lemma TestThirdFile(fs: Fs, handed: nat)
    requires Holds(fs, {ROOT_KEY, HELLO, TEST1, TEST2}, "/hello", handed) && handed < 256
    ensures Create(fs, "/hello/test3.t", FILE).1 == 0
    ensures Holds(Create(fs, "/hello/test3.t", FILE).0, {ROOT_KEY, HELLO, TEST1, TEST2, TEST3}, "/hello", handed + 1)
  {
    KeysDiffer();
    TestPaths();
    InHello(fs, {ROOT_KEY, HELLO, TEST1, TEST2}, handed, "/hello/test3.t", FILE, "test3.t");
    assert {ROOT_KEY, HELLO, TEST1, TEST2} + {TEST3} == {ROOT_KEY, HELLO, TEST1, TEST2, TEST3};
  }

  lemma TestFolder(fs: Fs, handed: nat)
    requires Holds(fs, {ROOT_KEY, HELLO, TEST1, TEST2, TEST3}, "/hello", handed) && handed < 256
    ensures var (fs6, t4) := Create(fs, "folder", DIRECTORY);
      var (fs7, t5) := Create(fs6, "/hello/folder/test5.t", FILE);
      t4 == t5 == 0 && Holds(fs7, STORED, "/hello", handed + 1)
  {
    KeysDiffer();
    TestPaths();
    var keys := {ROOT_KEY, HELLO, TEST1, TEST2, TEST3};
    InHello(fs, keys, handed, "folder", DIRECTORY, "folder");
    InFolder(Create(fs, "folder", DIRECTORY).0, keys + {FOLDER}, handed, "test5.t");
    assert keys + {FOLDER} + {TEST5} == STORED;
  }

  // The parent of the last file is missing.
  lemma TestOrphan(fs: Fs, handed: nat)
    requires Holds(fs, STORED, "/hello", handed) && handed < 256
    ensures Create(fs, "/DNE/test6.t", FILE) == (fs, 2)
  {
    assert HoldsParts(fs, STORED, "/hello", handed);
    var a, path := View(fs), "/DNE/test6.t";
    assert path[..4] == "/DNE" && path[4] == '/';
    assert ("/DNE", DIRECTORY) !in STORED by { assert "/DNE" != "/" && "/DNE" != "/hello"; }
    assert (path, FILE) !in STORED by { assert path[1] == 'D'; }
    assert !InStore(a, path[..4], DIRECTORY);
    CreateAnswers(fs, path, FILE);
  }

  // The directory is not empty.
  lemma NotEmptied(a: Store)
    requires HELLO in a.files && TEST1 in a.files && (HELLO.0, FILE) !in a.files
    ensures MapDelete(a, "/hello") == (a, 2)
  {
    assert "/hello" <= TEST1.0 && |TEST1.0| > 6;
  }

  lemma TestFull(fs: Fs, handed: nat)
    requires Holds(fs, STORED, "/hello", handed)
    ensures Delete(fs, "/hello") == (fs, 2)
  {
    assert HoldsParts(fs, STORED, "/hello", handed);
    KeysDiffer();
    NotEmptied(View(fs));
    DeleteRefines(fs, "/hello");
  }

  // A directory with a name of 223 characters.
  function LongName(): (s: string)
    ensures |s| == 223 && s[0] == '/' && forall i | 1 <= i < 223 :: s[i] == 'a'
  {
    "/" + seq(222, i => 'a')
  }

  // It can be created and entered, and then nothing can be created in it: the name that is
  // kept has lost its last character.
  lemma LongDirectoryLost(fs: Fs)
    requires Holds(fs, {ROOT_KEY}, ROOT, 0)
    ensures var (fs1, c) := Create(fs, LongName(), DIRECTORY); var (fs2, x) := SetDirectory(fs1, LongName());
      && c == x == 0 && fs2.directory == LongName()[..222]
      && Create(fs2, "b", FILE).1 == 2
  {
    var base := LongName()[1..];
    assert LongName() == PathOf("/", base);
    Stores(fs, {ROOT_KEY}, ROOT, 0, LongName(), DIRECTORY, "/", base);
    var fs1 := Create(fs, LongName(), DIRECTORY).0;
    HoldsView(fs1, {ROOT_KEY} + {(LongName(), DIRECTORY)}, ROOT, 0);
    assert HoldsParts(fs1, {ROOT_KEY} + {(LongName(), DIRECTORY)}, ROOT, 0);
    EnterRefines(fs1, LongName());
    var fs2 := SetDirectory(fs1, LongName()).0;
    assert InStore(View(fs1), LongName(), DIRECTORY);
    NothingBelow(fs2);
  }

  lemma NothingBelow(fs: Fs)
    requires Good(fs) && fs.handed == 0 && fs.directory == LongName()[..222]
    requires View(fs).files.Keys == {ROOT_KEY, (LongName(), DIRECTORY)}
    ensures Create(fs, "b", FILE).1 == 2
  {
    var dir, path := fs.directory, fs.directory + "/" + "b";
    assert path[..222] == dir && path[222] == '/' && |dir| == 222;
    assert (dir, DIRECTORY) !in View(fs).files && (path, FILE) !in View(fs).files;
    assert !InStore(View(fs), path[..222], DIRECTORY);
    CreateRefines(fs, "b", FILE);
  }

  // The file test before it leaves the table as it was.
  lemma InitFileTest(fs: Fs, handed: nat, data: seq<Byte>)
    requires Holds(fs, {ROOT_KEY}, ROOT, handed) && handed < 256 && 0 < |data| <= 511
    ensures var (fs1, c) := Create(fs, "/TEST.txt", FILE);
      var (fs2, w) := Write(fs1, "/TEST.txt", data);
      var (fs3, g) := Write(fs2, "/ST.txt", data);
      var (fs4, d) := Delete(fs3, "/TEST.txt");
      && c == w == d == 0 && g == 1 && Read(fs3, "/TEST.txt") == data
      && Holds(fs4, {ROOT_KEY}, ROOT, handed + 1)
  {
    var key: Key := ("/TEST.txt", FILE);
    assert key.0 == PathOf("/", "TEST.txt");
    Stores(fs, {ROOT_KEY}, ROOT, handed, "/TEST.txt", FILE, "/", "TEST.txt");
    assert {ROOT_KEY} + {key} == {ROOT_KEY, key};
    var fs1 := Create(fs, "/TEST.txt", FILE).0;
    FileComesAndGoes(fs1, handed + 1, data);
  }

  lemma FileComesAndGoes(fs: Fs, handed: nat, data: seq<Byte>)
    requires Holds(fs, {ROOT_KEY, ("/TEST.txt", FILE)}, ROOT, handed) && 0 < |data| <= 511
    ensures var (fs2, w) := Write(fs, "/TEST.txt", data);
      var (fs3, g) := Write(fs2, "/ST.txt", data);
      var (fs4, d) := Delete(fs3, "/TEST.txt");
      && w == d == 0 && g == 1 && Read(fs3, "/TEST.txt") == data && Holds(fs4, {ROOT_KEY}, ROOT, handed)
  {
    assert HoldsParts(fs, {ROOT_KEY, ("/TEST.txt", FILE)}, ROOT, handed);
    assert "/TEST.txt" != "/ST.txt";
    WriteRefines(fs, "/TEST.txt", data);
    FileGoes(Write(fs, "/TEST.txt", data).0, handed, data);
  }

  lemma FileGoes(fs: Fs, handed: nat, data: seq<Byte>)
    requires Good(fs) && fs.handed == handed && 0 < |data| <= 511
    requires View(fs) == Store(Empties({ROOT_KEY, ("/TEST.txt", FILE)})[("/TEST.txt", FILE) := data], ROOT)
    ensures Write(fs, "/ST.txt", data) == (fs, 1) && Read(fs, "/TEST.txt") == data
    ensures Delete(fs, "/TEST.txt").1 == 0 && Holds(Delete(fs, "/TEST.txt").0, {ROOT_KEY}, ROOT, handed)
  {
    ReadRefines(fs, "/TEST.txt");
    ExistsInView(fs, "/ST.txt", FILE);
    FileDeleted(fs, handed, data);
  }

  lemma FileDeleted(fs: Fs, handed: nat, data: seq<Byte>)
    requires Good(fs) && fs.handed == handed
    requires View(fs) == Store(Empties({ROOT_KEY, ("/TEST.txt", FILE)})[("/TEST.txt", FILE) := data], ROOT)
    ensures Delete(fs, "/TEST.txt").1 == 0 && Holds(Delete(fs, "/TEST.txt").0, {ROOT_KEY}, ROOT, handed)
  {
    DeleteRefines(fs, "/TEST.txt");
    assert View(Delete(fs, "/TEST.txt").0).files == Empties({ROOT_KEY});
  }

  // The test on any table with just the root: relative and absolute names end up where they
  // belong, and the answers are those that _init prints.
  lemma InitDirectoryTest(fs: Fs, handed: nat)
    requires Holds(fs, {ROOT_KEY}, ROOT, handed) && handed + 4 < 256
    ensures var (fs1, z) := Create(fs, "/hello", DIRECTORY);
      var (fs2, x) := SetDirectory(fs1, "/hello");
      var (fs3, t1) := Create(fs2, "test1.t", FILE);
      var (fs4, t2) := Create(fs3, "/test2.t", FILE);
      var (fs5, t3) := Create(fs4, "/hello/test3.t", FILE);
      var (fs6, t4) := Create(fs5, "folder", DIRECTORY);
      var (fs7, t5) := Create(fs6, "/hello/folder/test5.t", FILE);
      var (fs8, t6) := Create(fs7, "/DNE/test6.t", FILE);
      var (fs9, t7) := Delete(fs8, "/hello");
      && [z, x, t1, t2, t3, t4, t5, t6, t7] == [0, 0, 0, 0, 0, 0, 0, 2, 2]
      && Holds(fs9, STORED, "/hello", handed + 4)
  {
    TestBegins(fs, handed);
    var fs2 := SetDirectory(Create(fs, "/hello", DIRECTORY).0, "/hello").0;
    TestTwoFiles(fs2, handed);
    var fs4 := Create(Create(fs2, "test1.t", FILE).0, "/test2.t", FILE).0;
    TestThirdFile(fs4, handed + 2);
    var fs5 := Create(fs4, "/hello/test3.t", FILE).0;
    TestFolder(fs5, handed + 3);
    var fs7 := Create(Create(fs5, "folder", DIRECTORY).0, "/hello/folder/test5.t", FILE).0;
    TestOrphan(fs7, handed + 4);
    TestFull(fs7, handed + 4);
  }

  // Both start from the table that _sfs_init makes.
  lemma FormattedHoldsRoot()
    ensures Holds(Formatted(), {ROOT_KEY}, ROOT, 0)
  {
    FormattedIsGood();
    assert Empties({ROOT_KEY}) == map[ROOT_KEY := []];
    assert HoldsParts(Formatted(), {ROOT_KEY}, ROOT, 0);
  }
}
