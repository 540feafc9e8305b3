/** The mock virtual-filesystem handler the search tests run on: a dictionary
    from absolute paths to either a directory's list of child names or a
    file's bytes, with stat, listing and a reader that keeps an offset. */
module MockVfs {
  import opened Common
  import opened Bytes
  import opened PathSpecs

  /** A mapped value: a list of child names (a directory) or a byte string
      (a file). The mock tells them apart by the value's Python type. */
  datatype Node = Dir(names: seq<string>) | File(content: seq<Byte>)

  type Filesystem = map<string, Node>

  /** st_mode of a mapped file, octal 0100664. */
  const FileMode: int := 0x81B4
  /** st_mode of a mapped directory, octal 040775. */
  const DirMode: int := 0x41FD

  /** The S_IFMT field of a mode, in units of octal 010000. */
  function FileType(mode: int): int { (mode / 0x1000) % 16 }

  /** S_ISDIR. */
  predicate IsDirMode(mode: int) { FileType(mode) == 4 }

  /** S_ISREG. */
  predicate IsRegMode(mode: int) { FileType(mode) == 8 }

  /** Paths under this prefix live on device 1, every other path on device 2. */
  const OtherDevicePrefix: string := "/mock2/directory3"

  datatype StatEntry = StatEntry(stDev: int, stMode: int, stSize: nat, pathspec: PathSpec)

  /** Python's len() of a mapped value: children for a directory, bytes for a file. */
  function NodeLength(n: Node): nat
  {
    match n
    case Dir(names) => |names|
    case File(content) => |content|
  }

  /** Python's truth value of a mapped value: it is non-empty. */
  predicate Truthy(n: Node)
  {
    match n
    case Dir(names) => names != []
    case File(content) => content != []
  }

  /** The stat of a mapped path (None where the dictionary lookup fails). The
      type bits come from the mapped value's type, the size is its len(), the
      device from the path prefix; the path specification is left empty for
      the caller to fill in. */
  function DoStat(fs: Filesystem, path: string): (r: Option<StatEntry>)
    ensures r.Some? <==> path in fs
    ensures r.Some? ==> (IsDirMode(r.value.stMode) <==> fs[path].Dir?)
    ensures r.Some? ==> (IsRegMode(r.value.stMode) <==> fs[path].File?)
    ensures r.Some? ==> (r.value.stDev == 1 <==> StartsWith(path, OtherDevicePrefix))
    ensures r.Some? ==> (r.value.stDev == 2 <==> !StartsWith(path, OtherDevicePrefix))
    ensures r.Some? ==> r.value.stSize == NodeLength(fs[path]) && r.value.pathspec == []
  {
    if path !in fs then None
    else
      var node := fs[path];
      Some(StatEntry(
        if StartsWith(path, OtherDevicePrefix) then 1 else 2,
        if node.File? then FileMode else DirMode,
        NodeLength(node),
        []))
  }

  /** What iterating over a mapped value yields: the child names of a
      directory, or the one-character strings of a file's bytes. */
  function Names(n: Node): (r: seq<string>)
    ensures n.Dir? ==> r == n.names
    ensures |r| == NodeLength(n)
  {
    match n
    case Dir(names) => names
    case File(content) => seq(|content|, i requires 0 <= i < |content| => [CharOf(content[i])])
  }

  /** A listed child: the path the listing stats and the stat it returns. */
  datatype Entry = Entry(path: string, stat: StatEntry)

  /** The entries a listing of `parent` yields for `names`, in order, up to
      the first child whose path is not mapped (where the listing raises). */
  function ListingFrom(fs: Filesystem, parent: string, ps: PathSpec, names: seq<string>): (r: seq<Entry>)
    ensures |r| <= |names|
    ensures forall i :: 0 <= i < |r| ==>
      && r[i].path == parent + "/" + names[i]
      && r[i].path in fs
      && DoStat(fs, r[i].path) == Some(r[i].stat.(pathspec := []))
      && r[i].stat.pathspec == Append(ps, names[i])
    ensures |r| < |names| ==> parent + "/" + names[|r|] !in fs
  {
    if names == [] || parent + "/" + names[0] !in fs then []
    else [ChildEntry(fs, parent, ps, names[0])] + ListingFrom(fs, parent, ps, names[1..])
  }

  /** The entry the listing of `parent` yields for a mapped child `name`. */
  function ChildEntry(fs: Filesystem, parent: string, ps: PathSpec, name: string): Entry
    requires parent + "/" + name in fs
  {
    var childPath := parent + "/" + name;
    Entry(childPath, DoStat(fs, childPath).value.(pathspec := Append(ps, name)))
  }

  /** A mapped child at index `i` extends the entries listed so far. */
  lemma ListingFromExtend(fs: Filesystem, parent: string, ps: PathSpec, names: seq<string>, i: nat, done: seq<Entry>)
    requires i < |names| && parent + "/" + names[i] in fs
    requires ListingFrom(fs, parent, ps, names) == done + ListingFrom(fs, parent, ps, names[i..])
    ensures ListingFrom(fs, parent, ps, names)
      == (done + [ChildEntry(fs, parent, ps, names[i])]) + ListingFrom(fs, parent, ps, names[i + 1..])
  {
    assert names[i..][0] == names[i] && names[i..][1..] == names[i + 1..];
  }

  /** An unmapped child at index `i` ends the listing. */
  lemma ListingFromStop(fs: Filesystem, parent: string, ps: PathSpec, names: seq<string>, i: nat, done: seq<Entry>)
    requires i < |names| && parent + "/" + names[i] !in fs
    requires ListingFrom(fs, parent, ps, names) == done + ListingFrom(fs, parent, ps, names[i..])
    ensures ListingFrom(fs, parent, ps, names) == done
  {
    assert names[i..][0] == names[i];
  }

  /** The entries listing the node at `path` yields; an unmapped path lists nothing. */
  function Listing(fs: Filesystem, path: string, ps: PathSpec): seq<Entry>
  {
    if path in fs then ListingFrom(fs, path, ps, Names(fs[path])) else []
  }

  /** Python slicing `s[offset:offset+length]`, clipped to the data. */
  function PySlice(s: seq<Byte>, offset: nat, length: nat): (r: seq<Byte>)
    ensures offset <= |s| ==> r == s[offset..Min(|s|, offset + length)]
    ensures offset > |s| ==> r == []
  {
    if offset >= |s| then [] else s[offset..Min(|s|, offset + length)]
  }

  /** A handle on one node of a mock filesystem. Everything but the read
      offset is fixed when the handle is opened. */
  class MockHandler {
    const fs: Filesystem
    const pathspec: PathSpec
    const path: string
    const content: Node
    const size: nat
    var offset: nat

    ghost predicate Valid()
    {
      && path == CollapsePath(pathspec)
      && path in fs
      && content == fs[path]
      && size == (if content.File? then |content.content| else 0)
    }

    /** Opens the node `pathspec` collapses to; the caller has checked that
        the path is mapped (see Open). The size of a directory handle is the
        base handler's default, 0. */
    constructor (fs: Filesystem, pathspec: PathSpec)
      requires CollapsePath(pathspec) in fs
      ensures Valid() && this.fs == fs && this.pathspec == pathspec && offset == 0
    {
      this.fs := fs;
      this.pathspec := pathspec;
      var path := CollapsePath(pathspec);
      this.path := path;
      this.content := fs[path];
      this.size := if fs[path].File? then |fs[path].content| else 0;
      this.offset := 0;
    }

    /** Opening an unmapped path fails (null plays the raised IOError). */
    static method Open(fs: Filesystem, pathspec: PathSpec) returns (h: MockHandler?)
      ensures h == null <==> CollapsePath(pathspec) !in fs
      ensures h != null ==> fresh(h) && h.Valid() && h.fs == fs && h.pathspec == pathspec && h.offset == 0
    {
      if CollapsePath(pathspec) in fs {
        h := new MockHandler(fs, pathspec);
      } else {
        h := null;
      }
    }

    /** Moves the read offset (inherited from the base handler). */
    method Seek(o: nat)
      modifies this
      ensures offset == o
    {
      offset := o;
    }

    /** Reads up to `length` bytes at the offset and advances the offset by
        what was read, never past the size. Reading a directory fails. */
    method Read(length: nat) returns (r: Option<seq<Byte>>)
      requires Valid()
      modifies this
      ensures content.Dir? ==> r == None && offset == old(offset)
      ensures content.File? ==> r == Some(PySlice(content.content, old(offset), length))
      ensures content.File? ==> offset == Min(size, old(offset) + |r.value|) && offset <= size
    {
      if content.Dir? {
        return None;
      }
      var result := PySlice(content.content, offset, length);
      offset := Min(size, offset + |result|);
      r := Some(result);
    }

    /** The raw mapped value, as the dictionary holds it for this path. */
    function ListNames(): (r: Node)
      requires Valid()
      ensures r == fs[path] && NodeLength(r) == NodeLength(fs[CollapsePath(pathspec)])
    {
      content
    }

    /** Lists the children in listing order. Each entry is stat'ed at the
        joined path and carries a copy of this handle's path specification
        with the child appended; `complete` is false where a child is not
        mapped and the listing raises after yielding the entries before it. */
    method ListFiles() returns (entries: seq<Entry>, complete: bool)
      requires Valid()
      ensures entries == Listing(fs, path, pathspec)
      ensures complete <==> |entries| == |Names(content)|
    {
      var names := Names(content);
      assert names[0..] == names;
      entries := [];
      var i := 0;
      while i < |names|
        invariant 0 <= i <= |names|
        invariant |entries| == i
        invariant ListingFrom(fs, path, pathspec, names) == entries + ListingFrom(fs, path, pathspec, names[i..])
      {
        if path + "/" + names[i] !in fs {
          ListingFromStop(fs, path, pathspec, names, i, entries);
          complete := false;
          return;
        }
        ListingFromExtend(fs, path, pathspec, names, i, entries);
        entries := entries + [ChildEntry(fs, path, pathspec, names[i])];
        i := i + 1;
      }
      assert names[i..] == [];
      complete := true;
    }

    /** Python's bool() of the mapped value: true for any non-empty file as
        well as for a non-empty directory, so it is no directory test. */
    function IsDirectory(): (r: bool)
      requires Valid()
      ensures r <==> NodeLength(content) > 0
    {
      Truthy(content)
    }

    /** The stat of this handle's own path, carrying its path specification. */
    function Stat(): (r: StatEntry)
      requires Valid()
      ensures DoStat(fs, path) == Some(r.(pathspec := [])) && r.pathspec == pathspec
      ensures IsDirMode(r.stMode) <==> content.Dir?
    {
      DoStat(fs, path).value.(pathspec := pathspec)
    }
  }

  /** The dictionary the tests install: two directories on device 2 holding a
      third directory and four small files, and one directory on device 1
      holding a small file and a 600 KB file whose only "Secret" is at its end. */
  function MockFilesystem(): (r: Filesystem)
    ensures forall p :: p in r ==> Truthy(r[p])
  {
    map[
      "/" := Dir(["mock2"]),
      "/mock2" := Dir(["directory1", "directory3"]),
      "/mock2/directory1" := Dir(["file1.txt", "file2.txt", "directory2"]),
      "/mock2/directory1/file1.txt" := File(Ascii("Secret 1")),
      "/mock2/directory1/file2.txt" := File(Ascii("Another file")),
      "/mock2/directory1/directory2" := Dir(["file.jpg", "file.mp3"]),
      "/mock2/directory1/directory2/file.jpg" := File(Ascii("JPEG")),
      "/mock2/directory1/directory2/file.mp3" := File(Ascii("MP3 movie")),
      "/mock2/directory3" := Dir(["file1.txt", "long_file.text"]),
      "/mock2/directory3/file1.txt" := File(Ascii("A text file")),
      "/mock2/directory3/long_file.text" := File(LongFileContent())
    ]
  }

  /** "space " * 100000 + "A Secret". */
  function LongFileContent(): (r: seq<Byte>)
    ensures |r| == 600008
  {
    Repeat(Ascii("space "), 100000) + Ascii("A Secret")
  }

  /** IsDirectory is no type test: a non-empty file of the fixture is truthy
      while its stat says regular file, and an empty directory is falsy. */
  lemma IsDirectoryIsNotATypeTest()
    ensures var jpg := "/mock2/directory1/directory2/file.jpg";
      && Truthy(MockFilesystem()[jpg])
      && IsRegMode(DoStat(MockFilesystem(), jpg).value.stMode)
      && !IsDirMode(DoStat(MockFilesystem(), jpg).value.stMode)
    ensures !Truthy(Dir([])) && IsDirMode(DoStat(map["/empty" := Dir([])], "/empty").value.stMode)
  {
    var jpg := "/mock2/directory1/directory2/file.jpg";
    assert MockFilesystem()[jpg] == File(Ascii("JPEG"));
  }
}
