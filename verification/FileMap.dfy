/** The file system refines a finite map from (path, type) to contents. */
module FileMap {
  import opened Common
  import opened FileSpec
  import opened FileTree

  type Key = (string, Byte)

  // The abstract file system: the stored keys with their contents, and a current directory.
  datatype Store = Store(files: map<Key, seq<Byte>>, dir: string)

  function KeyOf(entry: Entry): Key { (entry.name, entry.kind) }

  ghost function Keys(entries: seq<Entry>): set<Key> {
    set e | 0 <= e < |entries| && entries[e].name != "" :: KeyOf(entries[e])
  }

  function Content(fs: Fs, e: nat): seq<Byte>
    requires Sized(fs) && e < NUM_ENTRIES
  {
    if fs.entries[e].kind == FILE then Stored(fs, e) else []
  }

  ghost function View(fs: Fs): Store
    requires Sized(fs)
  {
    Store(map k | k in Keys(fs.entries) :: Content(fs, Find(fs.entries, k.0, k.1, 0)), fs.directory)
  }

  // No two entries have the same path and type.
  ghost predicate Unique(entries: seq<Entry>) {
    forall e, f | 0 <= e < f < |entries| && entries[e].name != "" && entries[f].name != "" ::
      KeyOf(entries[e]) != KeyOf(entries[f])
  }

  predicate IsFile(entry: Entry) { entry.name != "" && entry.kind == FILE }

  // No block has been handed out twice yet: every file has its own.
  ghost predicate OwnBlocks(fs: Fs) {
    && fs.handed <= 256 && fs.location == fs.handed % 256
    && (forall e | 0 <= e < |fs.entries| && IsFile(fs.entries[e]) :: fs.entries[e].payload < fs.handed)
    && forall e, f | 0 <= e < f < |fs.entries| && IsFile(fs.entries[e]) && IsFile(fs.entries[f]) ::
         fs.entries[e].payload != fs.entries[f].payload
  }

  ghost predicate Good(fs: Fs) {
    Sized(fs) && Tree(fs.entries) && Absolute(fs.directory) && Unique(fs.entries) && OwnBlocks(fs)
  }

  lemma FindOnly(entries: seq<Entry>, e: nat)
    requires Unique(entries) && e < |entries| && entries[e].name != ""
    ensures Find(entries, entries[e].name, entries[e].kind, 0) == e
  {
    FindIs(entries, entries[e].name, entries[e].kind, 0);
  }

  lemma ViewAt(fs: Fs, e: nat)
    requires Sized(fs) && Unique(fs.entries) && e < NUM_ENTRIES && fs.entries[e].name != ""
    ensures KeyOf(fs.entries[e]) in View(fs).files && View(fs).files[KeyOf(fs.entries[e])] == Content(fs, e)
  {
    FindOnly(fs.entries, e);
  }

  lemma KeyIs(entries: seq<Entry>, path: string, kind: Byte)
    requires path != ""
    ensures (path, kind) in Keys(entries) <==> Has(entries, path, kind)
  {
    if Has(entries, path, kind) {
      var e :| 0 <= e < |entries| && Is(entries[e], path, kind);
      assert KeyOf(entries[e]) == (path, kind);
    }
  }

  // The abstract operations.

  ghost predicate InStore(a: Store, path: string, kind: Byte) {
    path != ROOT && (path, kind) in a.files
  }

  ghost predicate HasParents(a: Store, path: string) {
    forall j | 1 <= j < |path| && path[j] == DIR_SEPERATOR :: InStore(a, path[..j], DIRECTORY)
  }

  // The answer 0 exactly if the key is new, all its parents are stored, and there is room.
  ghost function MapCreate(a: Store, name: string, kind: Byte): (Store, Byte) {
    var path := Adjust(a.dir, name);
    if name == ROOT && kind == DIRECTORY then (a, 0x100 - 7)
    else if name == "" then (a, 0x100 - 2)
    else if InStore(a, path, kind) then (a, 1)
    else if !HasParents(a, path) then (a, 2)
    else if |a.files| >= 512 then (a, 0x100 - 1)
    else (a.(files := a.files[(path, kind) := []]), 0)
  }

  // A directory is kept as long as some stored path properly extends its own.
  ghost function MapDelete(a: Store, name: string): (Store, Byte) {
    var path := Adjust(a.dir, name);
    if InStore(a, path, FILE) then (a.(files := a.files - {(path, FILE)}), 0)
    else if !InStore(a, path, DIRECTORY) then (a, 1)
    else if exists k :: k in a.files && |k.0| > |path| && path <= k.0 then (a, 2)
    else (a.(files := a.files - {(path, DIRECTORY)}), 0)
  }

  ghost function MapWrite(a: Store, name: string, data: seq<Byte>): (Store, Byte) {
    var path := Adjust(a.dir, name);
    if InStore(a, path, FILE) then (a.(files := a.files[(path, FILE) := data]), 0) else (a, 1)
  }

  ghost function MapEnter(a: Store, name: string): (Store, Byte) {
    var path := Adjust(a.dir, name);
    if name == ROOT then (a.(dir := ROOT), 0)
    else if InStore(a, path, DIRECTORY) then (a.(dir := Clip(path, 222)), 0)
    else (a, 0x100 - 1)
  }

  ghost function MapRead(a: Store, name: string): seq<Byte> {
    var path := Adjust(a.dir, name);
    if !InStore(a, path, FILE) then []
    else if a.files[(path, FILE)] == [] then [32] else a.files[(path, FILE)]
  }

  ghost function MapAfter(a: Store, c: Call): (Store, Byte) {
    match c
    case MakeEntry(name, kind) => MapCreate(a, name, kind)
    case Remove(name) => MapDelete(a, name)
    case Put(name, data) => MapWrite(a, name, data)
    case Enter(name) => MapEnter(a, name)
  }

  // The calls that the map describes: paths that fit a name, no entry named "/" beside the
  // root, writes that fit a block, and a block counter that has not come round.
  ghost predicate Fits(fs: Fs, c: Call) {
    match c
    case MakeEntry(name, kind) =>
      && |Adjust(fs.directory, name)| < 256
      && (Adjust(fs.directory, name) == ROOT ==> name == ROOT && kind == DIRECTORY)
      && (kind == FILE ==> fs.handed < 256)
    case Put(_, data) => |data| <= 511
    case _ => true
  }

  // Membership on both sides.

  lemma ExistsInView(fs: Fs, path: string, kind: Byte)
    requires Good(fs) && path != ""
    ensures Exists(fs.entries, path, kind) <==> InStore(View(fs), path, kind)
    ensures Exists(fs.entries, path, kind) ==> Is(fs.entries[Find(fs.entries, path, kind, 0)], path, kind)
  {
    ExistsIs(fs.entries, path, kind);
    KeyIs(fs.entries, path, kind);
    FindIs(fs.entries, path, kind, 0);
  }

  lemma ParentsInView(fs: Fs, path: string)
    requires Good(fs) && path != ""
    ensures ParentsExist(fs.entries, path, 1) <==> HasParents(View(fs), path)
  {
    ParentsAre(fs.entries, path, 1);
    forall j | 1 <= j < |path|
      ensures (path[..j], DIRECTORY) in Keys(fs.entries) <==> Has(fs.entries, path[..j], DIRECTORY)
    { KeyIs(fs.entries, path[..j], DIRECTORY); }
  }

  // The number of keys is the number of slots in use.

  lemma KeysGrow(rest: seq<Entry>, x: Entry)
    requires Unique(rest + [x])
    ensures Unique(rest)
    ensures Keys(rest + [x]) == if x.name == "" then Keys(rest) else Keys(rest) + {KeyOf(x)}
    ensures x.name != "" ==> KeyOf(x) !in Keys(rest)
  {
    var entries := rest + [x];
    assert entries[|rest|] == x && forall i | 0 <= i < |rest| :: entries[i] == rest[i];
    forall k
      ensures k in Keys(entries) <==> k in Keys(rest) || (x.name != "" && k == KeyOf(x))
    {
      if k in Keys(rest) {
        var i :| 0 <= i < |rest| && rest[i].name != "" && KeyOf(rest[i]) == k;
        assert entries[i] == rest[i];
      }
      if k in Keys(entries) {
        var i :| 0 <= i < |entries| && entries[i].name != "" && KeyOf(entries[i]) == k;
        assert i < |rest| ==> rest[i] == entries[i];
      }
    }
  }

  lemma {:induction false} KeyCount(entries: seq<Entry>)
    requires Unique(entries)
    ensures |Keys(entries)| <= |entries|
    ensures |Keys(entries)| == |entries| <==> FreeSlot(entries, 0) == |entries|
  {
    if entries != [] {
      var n := |entries| - 1;
      var rest := entries[..n];
      assert entries == rest + [entries[n]];
      KeysGrow(rest, entries[n]);
      KeyCount(rest);
      FreeSlotSnoc(rest, entries[n], 0);
    }
  }

  lemma {:induction false} FreeSlotSnoc(entries: seq<Entry>, x: Entry, from: nat)
    requires from <= |entries|
    ensures FreeSlot(entries + [x], from) ==
      if FreeSlot(entries, from) == |entries| && x.name != "" then |entries| + 1 else FreeSlot(entries, from)
    decreases |entries| - from
  {
    if from < |entries| {
      FreeSlotSnoc(entries, x, from + 1);
    }
  }

  // Simulation, operation by operation.

  lemma ViewEquals(fs: Fs, files: map<Key, seq<Byte>>)
    requires Sized(fs) && Unique(fs.entries)
    requires forall k :: k in files <==> k in Keys(fs.entries)
    requires forall e | 0 <= e < NUM_ENTRIES && fs.entries[e].name != "" && KeyOf(fs.entries[e]) in files ::
               files[KeyOf(fs.entries[e])] == Content(fs, e)
    ensures View(fs).files == files
  {
    forall k | k in files
      ensures View(fs).files[k] == files[k]
    {
      var e :| 0 <= e < NUM_ENTRIES && fs.entries[e].name != "" && KeyOf(fs.entries[e]) == k;
      ViewAt(fs, e);
    }
  }

  ghost function KeySet(entry: Entry): set<Key> {
    if entry.name == "" then {} else {KeyOf(entry)}
  }

  lemma KeysReplaced(entries: seq<Entry>, e: nat, x: Entry)
    requires Unique(entries) && e < |entries|
    ensures Keys(entries[e := x]) == Keys(entries) - KeySet(entries[e]) + KeySet(x)
  {
    var r := entries[e := x];
    forall k | k in Keys(entries) && k !in KeySet(entries[e])
      ensures k in Keys(r)
    {
      var f :| 0 <= f < |entries| && entries[f].name != "" && KeyOf(entries[f]) == k;
      assert r[f] == entries[f];
    }
    forall k | k in Keys(r) && k !in KeySet(x)
      ensures k in Keys(entries) && k !in KeySet(entries[e])
    {
      var f :| 0 <= f < |r| && r[f].name != "" && KeyOf(r[f]) == k;
      assert f != e && r[f] == entries[f];
    }
    if x.name != "" { assert KeyOf(r[e]) == KeyOf(x); }
  }

  lemma UniqueReplaced(entries: seq<Entry>, e: nat, x: Entry)
    requires Unique(entries) && e < |entries|
    requires x.name == "" || KeyOf(x) !in Keys(entries) || KeySet(x) == KeySet(entries[e])
    ensures Unique(entries[e := x])
  {
    forall f | 0 <= f < |entries| && f != e && entries[f].name != "" && x.name != ""
      ensures KeyOf(entries[f]) != KeyOf(x)
    { assert KeyOf(entries[f]) in Keys(entries); }
  }

  // Replacing one entry, while all other entries keep their contents.
  lemma ViewReplaced(fs: Fs, e: nat, x: Entry, r: Fs)
    requires Sized(fs) && Sized(r) && e < NUM_ENTRIES && r.entries == fs.entries[e := x]
    requires Unique(fs.entries) && Unique(r.entries)
    requires if x.name == "" then fs.entries[e].name != ""
             else fs.entries[e].name == "" || KeyOf(fs.entries[e]) == KeyOf(x)
    requires forall f | 0 <= f < NUM_ENTRIES && f != e && fs.entries[f].name != "" :: Content(r, f) == Content(fs, f)
    ensures View(r).files ==
      if x.name == "" then View(fs).files - {KeyOf(fs.entries[e])} else View(fs).files[KeyOf(x) := Content(r, e)]
  {
    var files :=
      if x.name == "" then View(fs).files - {KeyOf(fs.entries[e])} else View(fs).files[KeyOf(x) := Content(r, e)];
    KeysReplaced(fs.entries, e, x);
    forall f | 0 <= f < NUM_ENTRIES && r.entries[f].name != "" && KeyOf(r.entries[f]) in files
      ensures files[KeyOf(r.entries[f])] == Content(r, f)
    {
      if f != e {
        ViewAt(fs, f);
        assert x.name != "" ==> KeyOf(r.entries[f]) != KeyOf(r.entries[e]);
      }
    }
    ViewEquals(r, files);
  }

  lemma AddView(fs: Fs, e: nat, x: Entry, r: Fs)
    requires Good(fs) && e < NUM_ENTRIES && fs.entries[e].name == "" && x.name != "" && x.size == 0
    requires KeyOf(x) !in Keys(fs.entries)
    requires r.entries == fs.entries[e := x] && r.blocks == fs.blocks && Sized(r)
    ensures Unique(r.entries) && View(r).files == View(fs).files[KeyOf(x) := []]
  {
    UniqueReplaced(fs.entries, e, x);
    assert Content(r, e) == [];
    ViewReplaced(fs, e, x, r);
  }

  // The checks of a create, on both sides.
  lemma CreateAnswers(fs: Fs, name: string, kind: Byte)
    requires Good(fs) && Fits(fs, MakeEntry(name, kind)) && name != "" && !(name == ROOT && kind == DIRECTORY)
    ensures Create(fs, name, kind).1 == MapCreate(View(fs), name, kind).1
    ensures Create(fs, name, kind).1 != 0 ==>
      Create(fs, name, kind).0 == fs && MapCreate(View(fs), name, kind).0 == View(fs)
    ensures Create(fs, name, kind).1 == 0 ==> !Has(fs.entries, Adjust(fs.directory, name), kind)
  {
    var path := Adjust(fs.directory, name);
    ExistsInView(fs, path, kind);
    ExistsIs(fs.entries, path, kind);
    AdjustIsAbsolute(fs.directory, name);
    ParentsInView(fs, path);
    RoomInView(fs);
  }

  lemma CreateAdds(fs: Fs, name: string, kind: Byte)
    requires Good(fs) && Fits(fs, MakeEntry(name, kind)) && name != "" && !(name == ROOT && kind == DIRECTORY)
    requires Create(fs, name, kind).1 == 0 && MapCreate(View(fs), name, kind).1 == 0
    requires !Has(fs.entries, Adjust(fs.directory, name), kind)
    ensures Unique(Create(fs, name, kind).0.entries) && OwnBlocks(Create(fs, name, kind).0)
    ensures View(Create(fs, name, kind).0) == MapCreate(View(fs), name, kind).0
  {
    AdjustIsAbsolute(fs.directory, name);
    AddKeepsGood(fs, Adjust(fs.directory, name), kind, Create(fs, name, kind).0);
  }

  lemma CreateRefines(fs: Fs, name: string, kind: Byte)
    requires Good(fs) && Fits(fs, MakeEntry(name, kind))
    ensures Good(Create(fs, name, kind).0)
    ensures (View(Create(fs, name, kind).0), Create(fs, name, kind).1) == MapCreate(View(fs), name, kind)
  {
    CreateKeepsTree(fs, name, kind);
    if name != "" && !(name == ROOT && kind == DIRECTORY) {
      CreateAnswers(fs, name, kind);
      if Create(fs, name, kind).1 == 0 {
        CreateAdds(fs, name, kind);
      }
    }
  }

  lemma RoomInView(fs: Fs)
    requires Good(fs)
    ensures |View(fs).files| >= NUM_ENTRIES <==> FreeSlot(fs.entries, 0) == NUM_ENTRIES
  {
    KeyCount(fs.entries);
    assert View(fs).files.Keys == Keys(fs.entries);
    assert |View(fs).files| == |View(fs).files.Keys|;
  }

  lemma AddKeepsGood(fs: Fs, path: string, kind: Byte, r: Fs)
    requires Good(fs) && Absolute(path) && |path| < MAX_NAME_LENGTH && !Has(fs.entries, path, kind)
    requires FreeSlot(fs.entries, 0) < NUM_ENTRIES && (kind == FILE ==> fs.handed < 256)
    requires r.entries == fs.entries[FreeSlot(fs.entries, 0) := NewEntry(fs, path, kind)]
    requires r == (if kind == FILE then fs.(location := (fs.location + 1) % 0x100, handed := fs.handed + 1) else fs)
                    .(entries := r.entries)
    ensures Sized(r) && Unique(r.entries) && OwnBlocks(r)
    ensures View(r) == View(fs).(files := View(fs).files[(path, kind) := []])
  {
    KeyIs(fs.entries, path, kind);
    AddView(fs, FreeSlot(fs.entries, 0), NewEntry(fs, path, kind), r);
  }

  lemma RemoveView(fs: Fs, e: nat, r: Fs)
    requires Good(fs) && e < NUM_ENTRIES && fs.entries[e].name != ""
    requires r == fs.(entries := fs.entries[e := fs.entries[e].(name := "", size := 0)])
    ensures Sized(r) && Unique(r.entries) && OwnBlocks(r)
    ensures View(r) == View(fs).(files := View(fs).files - {KeyOf(fs.entries[e])})
  {
    var x := fs.entries[e].(name := "", size := 0);
    UniqueReplaced(fs.entries, e, x);
    ViewReplaced(fs, e, x, r);
    BlocksStayOwned(fs, e, x, r);
  }

  lemma DeleteRefines(fs: Fs, name: string)
    requires Good(fs)
    ensures Good(Delete(fs, name).0)
    ensures (View(Delete(fs, name).0), Delete(fs, name).1) == MapDelete(View(fs), name)
  {
    DeleteKeepsTree(fs, name);
    var path := Adjust(fs.directory, name);
    ExistsInView(fs, path, FILE);
    ExistsInView(fs, path, DIRECTORY);
    var e := Victim(fs.entries, path);
    if fs.entries[e].name != ROOT {
      assert fs.entries[e].name == path;
      ExtensionInView(fs, path);
      if Delete(fs, name).1 == 0 { RemoveView(fs, e, Delete(fs, name).0); }
    }
  }

  lemma ExtensionInView(fs: Fs, path: string)
    requires Sized(fs)
    ensures HasExtension(fs.entries, path, 0) <==>
      exists k :: k in View(fs).files && |k.0| > |path| && path <= k.0
  {
    ExtensionIs(fs.entries, path, 0);
    if HasExtension(fs.entries, path, 0) {
      var e :| 0 <= e < |fs.entries| && |fs.entries[e].name| > |path| && path <= fs.entries[e].name;
      assert KeyOf(fs.entries[e]) in View(fs).files;
    }
  }

  // A write that fits its block.
  lemma OneBlock(fs: Fs, dest: nat, data: seq<Byte>)
    requires Sized(fs) && dest < 256 && |data| <= BLOCK_DATA
    ensures var r := WriteBlocks(fs, dest, data);
      && r == fs.(blocks := r.blocks) && r.blocks[dest].data[..|data|] == data
      && forall b | 0 <= b < NUM_BLOCKS && b != dest :: r.blocks[b] == fs.blocks[b]
  {}

  // A block is written for one file only.
  lemma OthersKeepContent(fs: Fs, e: nat, r: Fs, f: nat)
    requires Good(fs) && Sized(r) && e < NUM_ENTRIES && IsFile(fs.entries[e]) && f < NUM_ENTRIES && f != e
    requires r.entries[f] == fs.entries[f] && fs.entries[f].name != ""
    requires forall b | 0 <= b < NUM_BLOCKS && b != fs.entries[e].payload :: r.blocks[b] == fs.blocks[b]
    ensures Content(r, f) == Content(fs, f)
  {}

  lemma PutView(fs: Fs, e: nat, data: seq<Byte>, r: Fs)
    requires Good(fs) && e < NUM_ENTRIES && IsFile(fs.entries[e]) && |data| <= BLOCK_DATA
    requires var sized := fs.(entries := fs.entries[e := fs.entries[e].(size := |data|)]);
      r == WriteBlocks(sized, fs.entries[e].payload, data)
    ensures Unique(r.entries) && OwnBlocks(r)
    ensures View(r) == View(fs).(files := View(fs).files[KeyOf(fs.entries[e]) := data])
  {
    var x := fs.entries[e].(size := |data|);
    OneBlock(fs.(entries := fs.entries[e := x]), fs.entries[e].payload, data);
    assert r.entries == fs.entries[e := x];
    UniqueReplaced(fs.entries, e, x);
    forall f | 0 <= f < NUM_ENTRIES && f != e && fs.entries[f].name != ""
      ensures Content(r, f) == Content(fs, f)
    { OthersKeepContent(fs, e, r, f); }
    assert Content(r, e) == data;
    ViewReplaced(fs, e, x, r);
    BlocksStayOwned(fs, e, x, r);
  }

  lemma BlocksStayOwned(fs: Fs, e: nat, x: Entry, r: Fs)
    requires OwnBlocks(fs) && e < |fs.entries| && r.entries == fs.entries[e := x]
    requires r.handed == fs.handed && r.location == fs.location
    requires IsFile(x) ==> IsFile(fs.entries[e]) && x.payload == fs.entries[e].payload
    ensures OwnBlocks(r)
  {}

  lemma WriteRefines(fs: Fs, name: string, data: seq<Byte>)
    requires Good(fs) && |data| <= BLOCK_DATA
    ensures Good(Write(fs, name, data).0)
    ensures (View(Write(fs, name, data).0), Write(fs, name, data).1) == MapWrite(View(fs), name, data)
  {
    WriteKeepsTree(fs, name, data);
    var path := Adjust(fs.directory, name);
    ExistsInView(fs, path, FILE);
    if Exists(fs.entries, path, FILE) {
      PutView(fs, Find(fs.entries, path, FILE, 0), data, Write(fs, name, data).0);
    }
  }

  lemma EnterRefines(fs: Fs, name: string)
    requires Good(fs)
    ensures Good(SetDirectory(fs, name).0)
    ensures (View(SetDirectory(fs, name).0), SetDirectory(fs, name).1) == MapEnter(View(fs), name)
  {
    SetDirectoryKeepsTree(fs, name);
    ExistsInView(fs, Adjust(fs.directory, name), DIRECTORY);
    SameFiles(fs, SetDirectory(fs, name).0);
  }

  lemma SameFiles(fs: Fs, r: Fs)
    requires Sized(fs) && Sized(r) && r == fs.(directory := r.directory)
    ensures View(r).files == View(fs).files
  {
    forall e | 0 <= e < NUM_ENTRIES
      ensures Content(r, e) == Content(fs, e)
    {}
  }

  // A read returns the contents that the map holds.
  lemma ReadRefines(fs: Fs, name: string)
    requires Good(fs)
    ensures Read(fs, name) == MapRead(View(fs), name)
  {
    var path := Adjust(fs.directory, name);
    ExistsInView(fs, path, FILE);
    if Exists(fs.entries, path, FILE) { ViewAt(fs, Find(fs.entries, path, FILE, 0)); }
  }

  lemma CallRefines(fs: Fs, c: Call)
    requires Good(fs) && Fits(fs, c)
    ensures CallOk(c) && Good(After(fs, c).0)
    ensures (View(After(fs, c).0), After(fs, c).1) == MapAfter(View(fs), c)
  {
    match c
    case MakeEntry(name, kind) => CreateRefines(fs, name, kind);
    case Remove(name) => DeleteRefines(fs, name);
    case Put(name, data) => WriteRefines(fs, name, data);
    case Enter(name) => EnterRefines(fs, name);
  }
}
