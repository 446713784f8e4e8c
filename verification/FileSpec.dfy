/** The Simple File System of fileSystem.c as functions on its table: a flat array of absolute
    path names.  Strings are C strings, given by the characters before their terminator. */
module FileSpec {
  import opened Common

  const MAX_NAME_LENGTH := 256
  const MAX_FILE_NAME_LENGTH := 32
  const NUM_ENTRIES := 512
  const DATA_BLOCK_SIZE := 512
  const BLOCK_DATA := DATA_BLOCK_SIZE - 1
  const NUM_BLOCKS := 65273
  const DIRECTORY: Byte := 1
  const FILE: Byte := 2
  const DIR_SEPERATOR := '/'
  const ROOT := "/"

  datatype Entry = Entry(name: string, size: Half, payload: Half, kind: Byte)
  datatype Block = Block(next: Byte, data: seq<Byte>)

  const FREE_ENTRY := Entry("", 0, 0, 0)

  // `handed` counts the blocks that were handed out since the start; the table itself only
  // keeps it modulo 256, in `location`.
  datatype Fs = Fs(entries: seq<Entry>, location: Byte, handed: nat, blocks: seq<Block>, directory: string)

  ghost predicate Sized(fs: Fs) {
    && |fs.entries| == NUM_ENTRIES && |fs.blocks| == NUM_BLOCKS
    && (forall b | 0 <= b < NUM_BLOCKS :: |fs.blocks[b].data| == BLOCK_DATA && fs.blocks[b].next == 0)
    && forall e | 0 <= e < NUM_ENTRIES :: fs.entries[e].payload < 256
  }

  function Absolute(name: string): bool {
    name != "" && name[0] == DIR_SEPERATOR
  }

  // _adjust_filename
  function Adjust(dir: string, name: string): (r: string)
    ensures |name| <= |r|
  {
    if Absolute(name) then name
    else dir + (if dir != ROOT then [DIR_SEPERATOR] else "") + name
  }

  function Clip(s: string, n: nat): (r: string)
    ensures |r| <= n && r <= s && (|s| <= n ==> r == s)
  {
    if |s| <= n then s else s[..n]
  }

  predicate Is(entry: Entry, path: string, kind: Byte) {
    entry.name == path && entry.kind == kind
  }

  // _sfs_exists on an adjusted name: the first entry with this name and type, or slot 0.
  function Find(entries: seq<Entry>, path: string, kind: Byte, from: nat): (e: nat)
    requires from <= |entries|
    ensures e == 0 || (from <= e < |entries| && Is(entries[e], path, kind))
    decreases |entries| - from
  {
    if from == |entries| then 0
    else if Is(entries[from], path, kind) then from
    else Find(entries, path, kind, from + 1)
  }

  // The callers take an answer named "/" as "not found".
  predicate Exists(entries: seq<Entry>, path: string, kind: Byte)
    requires |entries| > 0
  {
    entries[Find(entries, path, kind, 0)].name != ROOT
  }

  // The walk over the separators of a path from position i on.
  predicate ParentsExist(entries: seq<Entry>, path: string, i: nat)
    requires |entries| > 0 && i <= |path|
    decreases |path| - i
  {
    i == |path|
    || ((path[i] == DIR_SEPERATOR ==> Exists(entries, path[..i], DIRECTORY)) && ParentsExist(entries, path, i + 1))
  }

  // The first entry with an empty name, or the table size.
  function FreeSlot(entries: seq<Entry>, from: nat): (e: nat)
    requires from <= |entries|
    ensures from <= e <= |entries|
    ensures e < |entries| ==> entries[e].name == ""
    ensures forall i | from <= i < e :: entries[i].name != ""
    decreases |entries| - from
  {
    if from == |entries| || entries[from].name == "" then from else FreeSlot(entries, from + 1)
  }

  function CreateRoot(fs: Fs, kind: Byte): (Fs, Byte)
    requires Sized(fs)
  {
    var e := Find(fs.entries, ROOT, kind, 0);
    if fs.entries[e].name == ""
    then (fs.(entries := fs.entries[e := fs.entries[e].(name := ROOT, kind := kind)]), 7)
    else (fs, 0x100 - 7)
  }

  function NewEntry(fs: Fs, path: string, kind: Byte): Entry {
    Entry(Clip(path, MAX_NAME_LENGTH - 1), 0, if kind == FILE then fs.location else 0, kind)
  }

  // The table with entry e set up for a create; a file takes the next block.
  function Filled(fs: Fs, e: nat, path: string, kind: Byte): (r: Fs)
    requires Sized(fs) && e < NUM_ENTRIES
    ensures Sized(r)
  {
    var fs1 := fs.(entries := fs.entries[e := NewEntry(fs, path, kind)]);
    if kind == FILE then fs1.(location := (fs.location + 1) % 0x100, handed := fs.handed + 1) else fs1
  }

  function Create(fs: Fs, name: string, kind: Byte): (r: (Fs, Byte))
    requires Sized(fs)
    ensures Sized(r.0)
  {
    if name == ROOT && kind == DIRECTORY then CreateRoot(fs, kind)
    else if name == "" then (fs, 0x100 - 2)
    else
      var path := Adjust(fs.directory, name);
      if Exists(fs.entries, path, kind) then (fs, 1)
      else if !ParentsExist(fs.entries, path, 1) then (fs, 2)
      else
        var e := FreeSlot(fs.entries, 0);
        if e == NUM_ENTRIES then (fs, 0x100 - 1)
        else (Filled(fs, e, path, kind), 0)
  }

  // Whether some entry's name properly extends the given one.
  predicate HasExtension(entries: seq<Entry>, name: string, from: nat)
    requires from <= |entries|
    decreases |entries| - from
  {
    from < |entries|
    && ((|entries[from].name| > |name| && name <= entries[from].name) || HasExtension(entries, name, from + 1))
  }

  // The entry that a delete of this path finds: a file first, else a directory, else slot 0.
  function Victim(entries: seq<Entry>, path: string): (e: nat)
    requires |entries| > 0
    ensures e < |entries|
  {
    if Exists(entries, path, FILE) then Find(entries, path, FILE, 0) else Find(entries, path, DIRECTORY, 0)
  }

  function Delete(fs: Fs, name: string): (r: (Fs, Byte))
    requires Sized(fs)
    ensures Sized(r.0)
  {
    var path := Adjust(fs.directory, name);
    var e := Victim(fs.entries, path);
    if fs.entries[e].name == ROOT then (fs, 1)
    else if fs.entries[e].kind == DIRECTORY && HasExtension(fs.entries, fs.entries[e].name, 0) then (fs, 2)
    else (fs.(entries := fs.entries[e := fs.entries[e].(name := "", size := 0)]), 0)
  }

  function Min(a: nat, b: nat): nat { if a < b then a else b }

  // The bytes that a read of a file entry returns: at most one block.
  function Stored(fs: Fs, e: nat): seq<Byte>
    requires Sized(fs) && e < NUM_ENTRIES
  {
    fs.blocks[fs.entries[e].payload].data[..Min(fs.entries[e].size, BLOCK_DATA)]
  }

  const SPACE: Byte := 32

  // Nothing for a missing file, one space for an empty one.
  function Read(fs: Fs, name: string): seq<Byte>
    requires Sized(fs)
  {
    var e := Find(fs.entries, Adjust(fs.directory, name), FILE, 0);
    if fs.entries[e].name == ROOT then []
    else if Stored(fs, e) == [] then [SPACE] else Stored(fs, e)
  }

  // The copy loop of a write that does not append: what does not fit goes to the next
  // blocks, which are never linked to the first.
  function WriteBlocks(fs: Fs, dest: nat, data: seq<Byte>): (r: Fs)
    requires Sized(fs) && dest < 256
    ensures Sized(r) && r.entries == fs.entries && r.directory == fs.directory
    decreases |data|
  {
    if data == [] then fs
    else
      var n := Min(|data|, BLOCK_DATA);
      var block := fs.blocks[dest].(data := data[..n] + fs.blocks[dest].data[n..]);
      var fs1 := fs.(blocks := fs.blocks[dest := block]);
      if n == |data| then fs1
      else WriteBlocks(fs1.(location := (fs1.location + 1) % 0x100, handed := fs1.handed + 1), fs1.location, data[n..])
  }

  function Write(fs: Fs, name: string, data: seq<Byte>): (r: (Fs, Byte))
    requires Sized(fs) && |data| < 0x1_0000
    ensures Sized(r.0)
  {
    var e := Find(fs.entries, Adjust(fs.directory, name), FILE, 0);
    if fs.entries[e].name == ROOT then (fs, 1)
    else (WriteBlocks(fs.(entries := fs.entries[e := fs.entries[e].(size := |data|)]), fs.entries[e].payload, data), 0)
  }

  const DIRECTORY_CHARS := MAX_NAME_LENGTH - MAX_FILE_NAME_LENGTH - 2

  function SetDirectory(fs: Fs, name: string): (r: (Fs, Byte))
    requires Sized(fs)
    ensures Sized(r.0)
  {
    if name == ROOT then (fs.(directory := ROOT), 0)
    else
      var path := Adjust(fs.directory, name);
      if !Exists(fs.entries, path, DIRECTORY) then (fs, 0x100 - 1)
      else (fs.(directory := Clip(path, DIRECTORY_CHARS)), 0)
  }

  // _sfs_init
  function Formatted(): (fs: Fs)
    ensures Sized(fs)
  {
    var blank := Fs(seq(NUM_ENTRIES, e => FREE_ENTRY), 0, 0,
                    seq(NUM_BLOCKS, b => Block(0, seq(BLOCK_DATA, i => 0))), "");
    SetDirectory(Create(blank, ROOT, DIRECTORY).0, ROOT).0
  }
}
