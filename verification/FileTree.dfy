/** The flat table of the file system always describes a tree of directories. */
module FileTree {
  import opened Common
  import opened FileSpec

  ghost predicate Has(entries: seq<Entry>, path: string, kind: Byte) {
    exists e :: 0 <= e < |entries| && Is(entries[e], path, kind)
  }

  // Slot 0 holds the root directory, and every stored path is absolute.
  ghost predicate Rooted(entries: seq<Entry>) {
    && |entries| == NUM_ENTRIES && Is(entries[0], ROOT, DIRECTORY)
    && forall e | 0 <= e < |entries| && entries[e].name != "" :: Absolute(entries[e].name)
  }

  // For every separator inside a stored path, the path up to it is a stored directory, and
  // not the root itself: no path begins with two separators.
  ghost predicate Closed(entries: seq<Entry>, name: string) {
    forall i | 1 <= i < |name| && name[i] == DIR_SEPERATOR :: name[..i] != ROOT && Has(entries, name[..i], DIRECTORY)
  }

  ghost predicate Tree(entries: seq<Entry>) {
    && Rooted(entries)
    && forall e | 0 <= e < |entries| :: Closed(entries, entries[e].name)
  }

  lemma {:induction false} FindIs(entries: seq<Entry>, path: string, kind: Byte, from: nat)
    requires from <= |entries|
    ensures var e := Find(entries, path, kind, from);
      (exists i :: from <= i < |entries| && Is(entries[i], path, kind)) ==> e < |entries| && Is(entries[e], path, kind)
    decreases |entries| - from
  {
    if from < |entries| && !Is(entries[from], path, kind) {
      FindIs(entries, path, kind, from + 1);
    }
  }

  // The answer of _sfs_exists, read as its callers read it: the root itself never exists.
  lemma ExistsIs(entries: seq<Entry>, path: string, kind: Byte)
    requires Rooted(entries)
    ensures Exists(entries, path, kind) <==> path != ROOT && Has(entries, path, kind)
  {
    FindIs(entries, path, kind, 0);
  }

  lemma {:induction false} ParentsAre(entries: seq<Entry>, path: string, i: nat)
    requires Rooted(entries) && i <= |path|
    ensures ParentsExist(entries, path, i) <==>
      forall j | i <= j < |path| && path[j] == DIR_SEPERATOR :: path[..j] != ROOT && Has(entries, path[..j], DIRECTORY)
    decreases |path| - i
  {
    if i < |path| {
      ExistsIs(entries, path[..i], DIRECTORY);
      ParentsAre(entries, path, i + 1);
    }
  }

  lemma AdjustIsAbsolute(dir: string, name: string)
    requires Absolute(dir)
    ensures Absolute(Adjust(dir, name))
    ensures forall d :: Adjust(d, Adjust(dir, name)) == Adjust(dir, name)
  {}

  lemma CreateKeepsTree(fs: Fs, name: string, kind: Byte)
    requires Sized(fs) && Tree(fs.entries) && Absolute(fs.directory)
    ensures Tree(Create(fs, name, kind).0.entries) && Absolute(Create(fs, name, kind).0.directory)
  {
    var r := Create(fs, name, kind);
    if name == ROOT && kind == DIRECTORY {
      assert r.0 == fs;
    } else if name != "" && r.1 == 0 {
      var path := Adjust(fs.directory, name);
      var e := FreeSlot(fs.entries, 0);
      var x := NewEntry(fs, path, kind);
      AdjustIsAbsolute(fs.directory, name);
      ParentsAre(fs.entries, path, 1);
      AddKeepsTree(fs.entries, e, x, path);
    }
  }

  lemma AddKeepsTree(entries: seq<Entry>, e: nat, x: Entry, path: string)
    requires Tree(entries) && e < |entries| && entries[e].name == "" && Absolute(x.name) && x.name <= path
    requires Closed(entries, path)
    ensures Tree(entries[e := x])
  {
    var r := entries[e := x];
    forall f, i | 0 <= f < |r| && 1 <= i < |r[f].name| && r[f].name[i] == DIR_SEPERATOR
      ensures r[f].name[..i] != ROOT && Has(r, r[f].name[..i], DIRECTORY)
    {
      var parent := r[f].name[..i];
      if f == e { assert parent == path[..i] && path[i] == x.name[i]; }
      var d :| 0 <= d < |entries| && Is(entries[d], parent, DIRECTORY);
      assert r[d] == entries[d];
    }
    forall f | 0 <= f < |r|
      ensures Closed(r, r[f].name)
    {}
  }

  lemma {:induction false} ExtensionIs(entries: seq<Entry>, name: string, from: nat)
    requires from <= |entries|
    ensures HasExtension(entries, name, from) <==>
      exists e :: from <= e < |entries| && |entries[e].name| > |name| && name <= entries[e].name
    decreases |entries| - from
  {
    if from < |entries| { ExtensionIs(entries, name, from + 1); }
  }

  lemma RemoveKeepsTree(entries: seq<Entry>, e: nat, x: Entry)
    requires Tree(entries) && e < |entries| && x.name == "" && entries[e].name != ROOT
    requires entries[e].kind != DIRECTORY ||
      forall f | 0 <= f < |entries| && |entries[f].name| > |entries[e].name| :: !(entries[e].name <= entries[f].name)
    ensures Tree(entries[e := x])
  {
    var r := entries[e := x];
    forall f, i | 0 <= f < |r| && 1 <= i < |r[f].name| && r[f].name[i] == DIR_SEPERATOR
      ensures r[f].name[..i] != ROOT && Has(r, r[f].name[..i], DIRECTORY)
    {
      assert Closed(entries, entries[f].name);
      var d :| 0 <= d < |entries| && Is(entries[d], r[f].name[..i], DIRECTORY);
      assert entries[d].name <= entries[f].name && |entries[f].name| > |entries[d].name|;
      assert r[d] == entries[d];
    }
    forall f | 0 <= f < |r|
      ensures Closed(r, r[f].name)
    {}
  }

  lemma DeleteKeepsTree(fs: Fs, name: string)
    requires Sized(fs) && Tree(fs.entries) && Absolute(fs.directory)
    ensures Tree(Delete(fs, name).0.entries) && Absolute(Delete(fs, name).0.directory)
  {
    var r := Delete(fs, name);
    if r.1 == 0 {
      var e := Victim(fs.entries, Adjust(fs.directory, name));
      ExtensionIs(fs.entries, fs.entries[e].name, 0);
      RemoveKeepsTree(fs.entries, e, r.0.entries[e]);
    }
  }

  lemma ResizeKeepsTree(entries: seq<Entry>, e: nat, x: Entry)
    requires Tree(entries) && e < |entries| && x.name == entries[e].name && x.kind == entries[e].kind
    ensures Tree(entries[e := x])
  {
    var r := entries[e := x];
    forall f | 0 <= f < |r|
      ensures Closed(r, r[f].name)
    {
      forall i | 1 <= i < |r[f].name| && r[f].name[i] == DIR_SEPERATOR
        ensures r[f].name[..i] != ROOT && Has(r, r[f].name[..i], DIRECTORY)
      {
        assert Closed(entries, entries[f].name);
        var d :| 0 <= d < |entries| && Is(entries[d], r[f].name[..i], DIRECTORY);
        assert Is(r[d], r[f].name[..i], DIRECTORY);
      }
    }
  }

  lemma WriteKeepsTree(fs: Fs, name: string, data: seq<Byte>)
    requires Sized(fs) && Tree(fs.entries) && Absolute(fs.directory) && |data| < 0x1_0000
    ensures Tree(Write(fs, name, data).0.entries) && Absolute(Write(fs, name, data).0.directory)
  {
    var e := Find(fs.entries, Adjust(fs.directory, name), FILE, 0);
    ResizeKeepsTree(fs.entries, e, fs.entries[e].(size := |data|));
  }

  lemma SetDirectoryKeepsTree(fs: Fs, name: string)
    requires Sized(fs) && Tree(fs.entries) && Absolute(fs.directory)
    ensures Tree(SetDirectory(fs, name).0.entries) && Absolute(SetDirectory(fs, name).0.directory)
  {
    AdjustIsAbsolute(fs.directory, name);
  }

  lemma FormattedTree()
    ensures Tree(Formatted().entries) && Formatted().directory == ROOT
  {
    var entries := seq(NUM_ENTRIES, e => FREE_ENTRY);
    NothingFound(entries, 0);
    assert Formatted().entries == entries[0 := FREE_ENTRY.(name := ROOT, kind := DIRECTORY)];
  }

  lemma {:induction false} NothingFound(entries: seq<Entry>, from: nat)
    requires from <= |entries| && forall e | 0 <= e < |entries| :: entries[e] == FREE_ENTRY
    ensures Find(entries, ROOT, DIRECTORY, from) == 0
    decreases |entries| - from
  {
    if from < |entries| { NothingFound(entries, from + 1); }
  }

  // The calls that change the table.
  datatype Call = MakeEntry(name: string, kind: Byte) | Remove(name: string)
                | Put(name: string, data: seq<Byte>) | Enter(name: string)

  predicate CallOk(c: Call) { c.Put? ==> |c.data| < 0x1_0000 }

  function After(fs: Fs, c: Call): (r: (Fs, Byte))
    requires Sized(fs) && CallOk(c)
    ensures Sized(r.0)
  {
    match c
    case MakeEntry(name, kind) => Create(fs, name, kind)
    case Remove(name) => Delete(fs, name)
    case Put(name, data) => Write(fs, name, data)
    case Enter(name) => SetDirectory(fs, name)
  }

  function AfterAll(fs: Fs, calls: seq<Call>): (r: Fs)
    requires Sized(fs) && forall i | 0 <= i < |calls| :: CallOk(calls[i])
    ensures Sized(r)
    decreases |calls|
  {
    if calls == [] then fs else AfterAll(After(fs, calls[0]).0, calls[1..])
  }

  // Whatever calls are made, with whatever names, the table stays a closed tree and the
  // current directory an absolute path.
  lemma {:induction false} AlwaysTree(fs: Fs, calls: seq<Call>)
    requires Sized(fs) && Tree(fs.entries) && Absolute(fs.directory)
    requires forall i | 0 <= i < |calls| :: CallOk(calls[i])
    ensures Tree(AfterAll(fs, calls).entries) && Absolute(AfterAll(fs, calls).directory)
    decreases |calls|
  {
    if calls != [] {
      match calls[0] {
        case MakeEntry(name, kind) => CreateKeepsTree(fs, name, kind);
        case Remove(name) => DeleteKeepsTree(fs, name);
        case Put(name, data) => WriteKeepsTree(fs, name, data);
        case Enter(name) => SetDirectoryKeepsTree(fs, name);
      }
      AlwaysTree(After(fs, calls[0]).0, calls[1..]);
    }
  }
}
