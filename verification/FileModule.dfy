/** The file system as it runs: fileSystem.c over its table in memory, each call proved to do
    what FileSpec describes. */
module FileModule {
  import opened Common
  import opened FileSpec

  class FileSystem {
    const entries: array<Entry>
    const blocks: array<Block>
    var location: Byte           // current_location
    var directory: string
    ghost var handed: nat        // blocks handed out, not reduced modulo 256

    ghost function Abs(): Fs
      reads this, entries, blocks
    {
      Fs(entries[..], location, handed, blocks[..], directory)
    }

    ghost predicate Valid()
      reads this, entries, blocks
    {
      && entries.Length == NUM_ENTRIES && blocks.Length == NUM_BLOCKS && Sized(Abs())
      && (directory == "" || Absolute(directory))
    }

    // _sfs_init
    constructor ()
      ensures Valid() && fresh(entries) && fresh(blocks) && Abs() == Formatted()
    {
      entries := new Entry[NUM_ENTRIES](_ => FREE_ENTRY);
      blocks := new Block[NUM_BLOCKS](_ => Block(0, seq(BLOCK_DATA, _ => 0)));
      location, directory, handed := 0, "", 0;
      new;
      ghost var blank := Fs(seq(NUM_ENTRIES, e => FREE_ENTRY), 0, 0,
                            seq(NUM_BLOCKS, b => Block(0, seq(BLOCK_DATA, i => 0))), "");
      assert entries[..] == blank.entries && blocks[..] == blank.blocks;
      var created := CreateEntry(ROOT, DIRECTORY);
      var entered := ChangeDirectory(ROOT);
    }

    // _adjust_filename
    method AdjustFilename(filename: string) returns (result: string)
      requires Valid()
      ensures result == Adjust(directory, filename) && Absolute(result)
    {
      if filename != "" && filename[0] == DIR_SEPERATOR {
        return filename;
      }
      result := "";
      for i := 0 to |directory|
        invariant result == directory[..i]
      {
        result := result + [directory[i]];
      }
      if directory != ROOT {
        result := result + [DIR_SEPERATOR];
      }
      ghost var prefix := result;
      for j := 0 to |filename|
        invariant result == prefix + filename[..j]
      {
        result := result + [filename[j]];
      }
      assert filename[..|filename|] == filename;
    }

    // _sfs_exists
    method FindEntry(name: string, kind: Byte) returns (entry: nat)
      requires Valid()
      ensures entry < NUM_ENTRIES && entry == Find(Abs().entries, Adjust(directory, name), kind, 0)
      ensures entries[entry] == Abs().entries[entry]
    {
      var filename := AdjustFilename(name);
      for i := 0 to NUM_ENTRIES
        invariant Find(entries[..], filename, kind, 0) == Find(entries[..], filename, kind, i)
      {
        if filename != entries[i].name || entries[i].kind != kind {
          continue;
        }
        return i;
      }
      entry := 0;
    }

    // The name-copying loop of _sfs_create.
    method CopyName(entry: nat, name: string, limit: nat)
      requires Valid() && entry < NUM_ENTRIES && entries[entry].name == ""
      modifies entries
      ensures Abs() == old(Abs()).(entries :=
        old(entries[..])[entry := old(entries[entry]).(name := Clip(name, limit))])
    {
      var i := 0;
      ghost var before := entries[..];
      assert before[entry].(name := name[..0]) == before[entry];
      while i < limit && i < |name|
        invariant 0 <= i <= |name| && i <= limit
        invariant entries[..] == before[entry := before[entry].(name := name[..i])]
      {
        assert entries[..][entry].name == name[..i] && name[..i][..i] == name[..i];
        entries[entry] := entries[entry].(name := entries[entry].name[..i] + [name[i]]);
        assert name[..i + 1] == name[..i] + [name[i]];
        i := i + 1;
      }
      assert name[..i] == Clip(name, limit);
    }

    // Whether all directories of an adjusted path exist.
    method CheckParents(path: string) returns (ok: bool)
      requires Valid() && Absolute(path)
      ensures ok <==> ParentsExist(entries[..], path, 1)
    {
      var checkName := [DIR_SEPERATOR];
      var i := 1;
      while i < |path|
        invariant 1 <= i <= |path| && checkName == path[..i]
        invariant ParentsExist(entries[..], path, 1) <==> ParentsExist(entries[..], path, i)
      {
        if path[i] == DIR_SEPERATOR {
          var entry := FindEntry(checkName, DIRECTORY);
          if entries[entry].name == ROOT {
            return false;
          }
        }
        checkName := checkName + [path[i]];
        i := i + 1;
      }
      ok := true;
    }

    // Sets up the free entry that a create takes.
    method FillEntry(i: nat, path: string, kind: Byte)
      requires Valid() && i < NUM_ENTRIES && entries[i].name == ""
      modifies this, entries
      ensures Valid()
      ensures Abs() == Filled(old(Abs()), i, path, kind)
    {
      ghost var before := Abs();
      CopyName(i, path, MAX_NAME_LENGTH - 1);
      if kind == FILE {
        entries[i] := entries[i].(payload := location);
        location, handed := (location + 1) % 0x100, handed + 1;
      } else {
        entries[i] := entries[i].(payload := 0);
      }
      entries[i] := entries[i].(size := 0);
      entries[i] := entries[i].(kind := kind);
      assert entries[..] == before.entries[i := NewEntry(before, path, kind)];
    }

    // _sfs_create
    method CreateEntry(name: string, kind: Byte) returns (code: Byte)
      requires Valid()
      modifies this, entries
      ensures Valid() && (Abs(), code) == Create(old(Abs()), name, kind)
    {
      if name == ROOT && kind == DIRECTORY {
        var entry := FindEntry(name, kind);
        if entries[entry].name == "" {
          CopyName(entry, name, MAX_FILE_NAME_LENGTH - 1);
          entries[entry] := entries[entry].(kind := kind);
          assert entries[..] == old(entries[..])[entry := old(entries[entry]).(name := ROOT, kind := kind)];
          return 7;
        }
        return 0x100 - 7;
      }
      if |name| <= 0 {
        return 0x100 - 2;
      }
      var entryName := AdjustFilename(name);
      var entry := FindEntry(entryName, kind);
      if entries[entry].name != ROOT {
        return 1;
      }
      var parents := CheckParents(entryName);
      if !parents {
        return 2;
      }
      for i := 0 to NUM_ENTRIES
        invariant Abs() == old(Abs())
        invariant FreeSlot(entries[..], 0) == FreeSlot(entries[..], i)
      {
        if entries[i].name != "" {
          continue;
        }
        FillEntry(i, entryName, kind);
        return 0;
      }
      code := 0x100 - 1;
    }

    // The search of _sfs_delete for anything that extends the directory's name.
    method FindExtension(entry: nat) returns (found: bool)
      requires Valid() && entry < NUM_ENTRIES
      ensures found <==> HasExtension(entries[..], entries[entry].name, 0)
    {
      var delete := entries[entry].name;
      for j := 0 to NUM_ENTRIES
        invariant HasExtension(entries[..], delete, 0) <==> HasExtension(entries[..], delete, j)
      {
        var nameCheck := entries[j].name;
        if |nameCheck| > |delete| {
          var flag := 2;
          for i := 0 to |delete|
            invariant flag == if delete[..i] <= nameCheck then 2 else 1
          {
            if delete[i] != nameCheck[i] {
              flag := 1;
            }
            assert delete[..i + 1] == delete[..i] + [delete[i]];
            assert nameCheck[..i + 1] == nameCheck[..i] + [nameCheck[i]];
          }
          assert delete[..|delete|] == delete;
          if flag == 2 {
            return true;
          }
        }
      }
      found := false;
    }

    // _sfs_delete; the clearing of blocks and names asks for a length of 0 and does nothing.
    method DeleteEntry(name: string) returns (code: Byte)
      requires Valid()
      modifies entries
      ensures Valid() && (Abs(), code) == Delete(old(Abs()), name)
    {
      var filename := AdjustFilename(name);
      var entry := FindEntry(filename, FILE);
      if entries[entry].name == ROOT {
        entry := FindEntry(filename, DIRECTORY);
        if entries[entry].name == ROOT {
          return 1;
        }
      }
      if entries[entry].kind == DIRECTORY {
        var found := FindExtension(entry);
        if found {
          return 2;
        }
      }
      entries[entry] := entries[entry].(name := "");
      entries[entry] := entries[entry].(size := 0);
      assert entries[..] == old(entries[..])[entry := old(entries[entry]).(name := "", size := 0)];
      code := 0;
    }

    // _sfs_read: walks the chain of blocks, of which there is one.
    method ReadFile(name: string) returns (result: seq<Byte>)
      requires Valid()
      ensures result == Read(Abs(), name)
    {
      result := [];
      var filename := AdjustFilename(name);
      var entry := FindEntry(filename, FILE);
      if entries[entry].name == ROOT {
        return;
      }
      var source: int := entries[entry].payload;
      var totalToRead: nat := entries[entry].size;
      var emptyFile := true;
      assert forall b | 0 <= b < NUM_BLOCKS :: blocks[..][b].next == 0;
      var more := true;
      while more
        invariant source == entries[entry].payload
        invariant more ==> result == [] && emptyFile && totalToRead == entries[entry].size
        invariant !more ==> result == Stored(Abs(), entry) && emptyFile == (result == [])
        decreases more
      {
        var readSize := if totalToRead > BLOCK_DATA then BLOCK_DATA else totalToRead;
        for j := 0 to readSize
          invariant result == blocks[source].data[..j] && emptyFile == (j == 0)
        {
          emptyFile := false;
          result := result + [blocks[source].data[j]];
        }
        totalToRead := totalToRead - readSize;
        var next: int := blocks[..][source].next;
        more := next != 0;
        if more {
          source := next;
        }
      }
      if emptyFile {
        result := result + [SPACE];
      }
    }

    static lemma ByteMore(data: seq<Byte>, rest: seq<Byte>, i: nat)
      requires i < |data| <= |rest|
      ensures (data[..i] + rest[i..])[i := data[i]] == data[..i + 1] + rest[i + 1..]
    {}

    // Copies bytes to the front of a block.
    method FillBlock(block: nat, data: seq<Byte>)
      requires Valid() && block < 256 && |data| <= BLOCK_DATA
      modifies blocks
      ensures Valid()
      ensures Abs() == old(Abs()).(blocks := old(blocks[..])[block :=
        old(blocks[block]).(data := data + old(blocks[block].data)[|data|..])])
    {
      ghost var before := blocks[block];
      assert before.data[0..] == before.data;
      for i := 0 to |data|
        invariant blocks[block] == before.(data := data[..i] + before.data[i..])
        invariant blocks[..] == old(blocks[..])[block := blocks[block]]
      {
        ByteMore(data, before.data, i);
        blocks[block] := blocks[block].(data := blocks[block].data[i := data[i]]);
      }
      assert data[..|data|] == data;
    }

    // The copy loop of _sfs_write.
    method CopyIn(first: nat, data: seq<Byte>)
      requires Valid() && first < 256 && |data| < 0x1_0000
      modifies this, blocks
      ensures Valid() && Abs() == WriteBlocks(old(Abs()), first, data)
    {
      var destination: nat, totalToWrite, buffer := first, |data|, 0;
      assert data[0..] == data;
      while totalToWrite != 0
        invariant Valid() && 0 <= buffer <= |data| && totalToWrite == |data| - buffer && destination < 256
        invariant WriteBlocks(old(Abs()), first, data) == WriteBlocks(Abs(), destination, data[buffer..])
      {
        var writeSize := if totalToWrite > BLOCK_DATA then BLOCK_DATA else totalToWrite;
        ghost var rest := data[buffer..];
        assert rest[..writeSize] == data[buffer..buffer + writeSize];
        assert rest[writeSize..] == data[buffer + writeSize..];
        FillBlock(destination, data[buffer..buffer + writeSize]);
        buffer := buffer + writeSize;
        totalToWrite := totalToWrite - writeSize;
        if totalToWrite != 0 {
          destination := location;
          location, handed := (location + 1) % 0x100, handed + 1;
        }
      }
    }

    // _sfs_write without appending
    method WriteFile(name: string, data: seq<Byte>) returns (code: Byte)
      requires Valid() && |data| < 0x1_0000
      modifies this, entries, blocks
      ensures Valid() && (Abs(), code) == Write(old(Abs()), name, data)
    {
      var filename := AdjustFilename(name);
      var entry := FindEntry(filename, FILE);
      if entries[entry].name == ROOT {
        return 1;
      }
      entries[entry] := entries[entry].(size := |data|);
      CopyIn(entries[entry].payload, data);
      code := 0;
    }

    // _set_directory
    method ChangeDirectory(name: string) returns (code: Byte)
      requires Valid()
      modifies this
      ensures Valid() && (Abs(), code) == SetDirectory(old(Abs()), name)
    {
      if name == ROOT {
        CopyDirectory(ROOT);
        return 0;
      }
      var entry := FindEntry(name, DIRECTORY);
      if entries[entry].name == ROOT {
        return 0x100 - 1;
      }
      var path := AdjustFilename(name);
      CopyDirectory(path);
      code := 0;
    }

    // The copy loop of _set_directory.
    method CopyDirectory(path: string)
      requires path != ""
      modifies `directory
      ensures directory == Clip(path, DIRECTORY_CHARS)
    {
      var i := 0;
      while i < DIRECTORY_CHARS && i < |path|
        invariant 0 <= i <= |path| && i <= DIRECTORY_CHARS
        invariant i > 0 ==> directory == path[..i]
      {
        directory := (if i == 0 then "" else directory) + [path[i]];
        i := i + 1;
      }
      assert path[..i] == Clip(path, DIRECTORY_CHARS);
    }
  }
}
