/** The walks the find tests make over the mock filesystem. */
module FindFixtures {
  import opened Common
  import opened Bytes
  import opened Patterns
  import opened PathSpecs
  import opened MockVfs
  import opened Find
  import Grep

  // ---------------------------------------------------------------------
  // The shape of the mock filesystem below "/mock2".

  predicate Shaped(fs: Filesystem)
  {
    && "/mock2" in fs && fs["/mock2"] == Dir(["directory1", "directory3"])
    && "/mock2/directory1" in fs && fs["/mock2/directory1"] == Dir(["file1.txt", "file2.txt", "directory2"])
    && "/mock2/directory1/file1.txt" in fs && fs["/mock2/directory1/file1.txt"] == File(Ascii("Secret 1"))
    && "/mock2/directory1/file2.txt" in fs && fs["/mock2/directory1/file2.txt"] == File(Ascii("Another file"))
    && "/mock2/directory1/directory2" in fs && fs["/mock2/directory1/directory2"] == Dir(["file.jpg", "file.mp3"])
    && "/mock2/directory1/directory2/file.jpg" in fs && fs["/mock2/directory1/directory2/file.jpg"] == File(Ascii("JPEG"))
    && "/mock2/directory1/directory2/file.mp3" in fs && fs["/mock2/directory1/directory2/file.mp3"] == File(Ascii("MP3 movie"))
    && "/mock2/directory3" in fs && fs["/mock2/directory3"] == Dir(["file1.txt", "long_file.text"])
    && "/mock2/directory3/file1.txt" in fs && fs["/mock2/directory3/file1.txt"] == File(Ascii("A text file"))
    && "/mock2/directory3/long_file.text" in fs && fs["/mock2/directory3/long_file.text"] == File(LongFileContent())
  }

  lemma Lookup1() ensures MockFilesystem()["/mock2"] == Dir(["directory1", "directory3"]) {}
  lemma Lookup2() ensures MockFilesystem()["/mock2/directory1"] == Dir(["file1.txt", "file2.txt", "directory2"]) {}
  lemma Lookup3() ensures MockFilesystem()["/mock2/directory1/file1.txt"] == File(Ascii("Secret 1")) {}
  lemma Lookup4() ensures MockFilesystem()["/mock2/directory1/file2.txt"] == File(Ascii("Another file")) {}
  lemma Lookup5() ensures MockFilesystem()["/mock2/directory1/directory2"] == Dir(["file.jpg", "file.mp3"]) {}
  lemma Lookup6() ensures MockFilesystem()["/mock2/directory1/directory2/file.jpg"] == File(Ascii("JPEG")) {}
  lemma Lookup7() ensures MockFilesystem()["/mock2/directory1/directory2/file.mp3"] == File(Ascii("MP3 movie")) {}
  lemma Lookup8() ensures MockFilesystem()["/mock2/directory3"] == Dir(["file1.txt", "long_file.text"]) {}
  lemma Lookup9() ensures MockFilesystem()["/mock2/directory3/file1.txt"] == File(Ascii("A text file")) {}
  lemma Lookup10() ensures MockFilesystem()["/mock2/directory3/long_file.text"] == File(LongFileContent()) {}

  lemma MockShaped()
    ensures Shaped(MockFilesystem())
  {
    Lookup1(); Lookup2(); Lookup3(); Lookup4(); Lookup5();
    Lookup6(); Lookup7(); Lookup8(); Lookup9(); Lookup10();
  }

  lemma Lookup0() ensures MockFilesystem()["/"] == Dir(["mock2"]) {}

  /** The keys of the mock filesystem. */
  lemma MockKeys(k: string)
    requires k in MockFilesystem()
    ensures || k == "/" || k == "/mock2" || k == "/mock2/directory1"
            || k == "/mock2/directory1/file1.txt" || k == "/mock2/directory1/file2.txt"
            || k == "/mock2/directory1/directory2" || k == "/mock2/directory1/directory2/file.jpg"
            || k == "/mock2/directory1/directory2/file.mp3" || k == "/mock2/directory3"
            || k == "/mock2/directory3/file1.txt" || k == "/mock2/directory3/long_file.text"
  {
  }

  /** No byte of a file is the separator. */
  predicate NoSeparator(s: seq<Byte>)
  {
    forall i :: 0 <= i < |s| ==> s[i] != ByteOf('/')
  }

  lemma RepeatNoSeparator(s: seq<Byte>, n: nat)
    requires NoSeparator(s)
    ensures NoSeparator(Repeat(s, n))
  {
    if n > 0 {
      RepeatNoSeparator(s, n - 1);
      assert Repeat(s, n) == Repeat(s, n - 1) + s;
    }
  }

  /** A string without separators gives bytes without the separator byte. */
  lemma AsciiNoSeparator(s: string)
    requires forall i :: 0 <= i < |s| ==> s[i] != '/'
    ensures NoSeparator(Ascii(s))
  {
    forall i | 0 <= i < |s|
      ensures Ascii(s)[i] != ByteOf('/')
    {
      if s[i] as int < 256 {
        assert ByteOf(s[i]) == s[i] as int as Byte;
      }
    }
  }

  /** A node lists only plain names. */
  predicate NodePlain(node: Node)
  {
    forall n :: n in Names(node) ==> IsName(n)
  }

  lemma FilePlain(c: seq<Byte>)
    requires NoSeparator(c)
    ensures NodePlain(File(c))
  {
    forall n | n in Names(File(c))
      ensures IsName(n)
    {
      var i :| 0 <= i < |c| && Names(File(c))[i] == n;
      assert c[i] != ByteOf('/');
    }
  }

  lemma DirsPlain()
    ensures NodePlain(Dir(["mock2"]))
    ensures NodePlain(Dir(["directory1", "directory3"]))
    ensures NodePlain(Dir(["file1.txt", "file2.txt", "directory2"]))
    ensures NodePlain(Dir(["file.jpg", "file.mp3"]))
    ensures NodePlain(Dir(["file1.txt", "long_file.text"]))
  {
    DirsPlainShort();
    DirsPlainLong();
  }

  lemma DirsPlainShort()
    ensures NodePlain(Dir(["mock2"]))
    ensures NodePlain(Dir(["directory1", "directory3"]))
    ensures NodePlain(Dir(["file1.txt", "file2.txt", "directory2"]))
  {
  }

  lemma DirsPlainLong()
    ensures NodePlain(Dir(["file.jpg", "file.mp3"]))
    ensures NodePlain(Dir(["file1.txt", "long_file.text"]))
  {
  }

  lemma FilesPlain()
    ensures NodePlain(File(Ascii("Secret 1")))
    ensures NodePlain(File(Ascii("Another file")))
    ensures NodePlain(File(Ascii("JPEG")))
    ensures NodePlain(File(Ascii("MP3 movie")))
    ensures NodePlain(File(Ascii("A text file")))
    ensures NodePlain(File(LongFileContent()))
  {
    AsciiNoSeparator("Secret 1");
    FilePlain(Ascii("Secret 1"));
    AsciiNoSeparator("Another file");
    FilePlain(Ascii("Another file"));
    AsciiNoSeparator("JPEG");
    FilePlain(Ascii("JPEG"));
    AsciiNoSeparator("MP3 movie");
    FilePlain(Ascii("MP3 movie"));
    AsciiNoSeparator("A text file");
    FilePlain(Ascii("A text file"));
    AsciiNoSeparator("space ");
    RepeatNoSeparator(Ascii("space "), 100000);
    AsciiNoSeparator("A Secret");
    FilePlain(LongFileContent());
  }

  lemma MockNodePlain(k: string)
    requires k in MockFilesystem()
    ensures NodePlain(MockFilesystem()[k])
    ensures !(|k| >= 2 && k[0] == '/' && k[1] == '/')
  {
    MockKeys(k);
    if k == "/" || k == "/mock2" || k == "/mock2/directory1" || k == "/mock2/directory1/directory2" || k == "/mock2/directory3" {
      MockDirectoryPlain(k);
    } else {
      MockFilePlain(k);
    }
  }

  lemma MockDirectoryPlain(k: string)
    requires k == "/" || k == "/mock2" || k == "/mock2/directory1" || k == "/mock2/directory1/directory2" || k == "/mock2/directory3"
    ensures k in MockFilesystem() && NodePlain(MockFilesystem()[k])
    ensures !(|k| >= 2 && k[0] == '/' && k[1] == '/')
  {
    MockShaped();
    DirsPlain();
    Lookup0();
  }

  lemma MockFilePlain(k: string)
    requires || k == "/mock2/directory1/file1.txt" || k == "/mock2/directory1/file2.txt"
             || k == "/mock2/directory1/directory2/file.jpg" || k == "/mock2/directory1/directory2/file.mp3"
             || k == "/mock2/directory3/file1.txt" || k == "/mock2/directory3/long_file.text"
    ensures k in MockFilesystem() && NodePlain(MockFilesystem()[k])
    ensures !(|k| >= 2 && k[0] == '/' && k[1] == '/')
  {
    MockShaped();
    FilesPlain();
  }

  /** The mock filesystem is one the walk terminates on. */
  lemma MockWellFormed()
    ensures WellFormed(MockFilesystem())
  {
    forall k | k in MockFilesystem()
      ensures !(|k| >= 2 && k[0] == '/' && k[1] == '/')
      ensures NodePlain(MockFilesystem()[k])
    {
      MockNodePlain(k);
    }
  }

  // ---------------------------------------------------------------------
  // The entries of the walk from "/mock2/".

  /** The root the find tests walk from. */
  const Root: PathSpec := ["/mock2/"]

  lemma RootCollapses()
    ensures CollapsePath(Root) == "/mock2"
  {
    RootComponents();
    assert Root[..0] == [];
    assert SegmentComponents(Root) == ["mock2"];
  }

  /** The root's only segment names the single component "mock2". */
  lemma RootComponents()
    ensures Components("/mock2/") == ["mock2"]
  {
    assert "/mock2/"[0] == '/' && "/mock2/"[1..] == "mock2/";
    NameLengthAt("mock2", "/");
    assert "mock2" + "/" == "mock2/";
    assert "mock2/"[..5] == "mock2" && "mock2/"[5..] == "/";
    assert Components("/") == [];
  }

  /** A child's path specification collapses to the parent's path, a
      separator and the name. */
  lemma ChildPath(ps: PathSpec, p: string, n: string)
    requires CollapsePath(ps) == p && p != "/" && IsName(n)
    ensures CollapsePath(Append(ps, n)) == p + "/" + n && Basename(Append(ps, n)) == n
  {
    assert SegmentComponents(ps) == [] ==> CollapsePath(ps) == "/";
    CollapseAppend(ps, n);
  }

  lemma ListingTwo(fs: Filesystem, p: string, ps: PathSpec, a: string, b: string)
    requires p in fs && fs[p] == Dir([a, b]) && p + "/" + a in fs && p + "/" + b in fs
    ensures Listing(fs, p, ps) == [ChildEntry(fs, p, ps, a), ChildEntry(fs, p, ps, b)]
  {
    assert [a, b][1..] == [b] && [b][1..] == [];
  }

  lemma ListingThree(fs: Filesystem, p: string, ps: PathSpec, a: string, b: string, c: string)
    requires p in fs && fs[p] == Dir([a, b, c]) && p + "/" + a in fs && p + "/" + b in fs && p + "/" + c in fs
    ensures Listing(fs, p, ps) == [ChildEntry(fs, p, ps, a), ChildEntry(fs, p, ps, b), ChildEntry(fs, p, ps, c)]
  {
    assert [a, b, c][1..] == [b, c] && [b, c][1..] == [c] && [c][1..] == [];
  }

  lemma RootPathsJoin()
    ensures "/mock2" + "/" + "directory1" == "/mock2/directory1"
    ensures "/mock2" + "/" + "directory3" == "/mock2/directory3"
  {
  }

  lemma Directory1PathsJoin()
    ensures "/mock2/directory1" + "/" + "file1.txt" == "/mock2/directory1/file1.txt"
    ensures "/mock2/directory1" + "/" + "file2.txt" == "/mock2/directory1/file2.txt"
    ensures "/mock2/directory1" + "/" + "directory2" == "/mock2/directory1/directory2"
  {
  }

  lemma Directory2PathsJoin()
    ensures "/mock2/directory1/directory2" + "/" + "file.jpg" == "/mock2/directory1/directory2/file.jpg"
    ensures "/mock2/directory1/directory2" + "/" + "file.mp3" == "/mock2/directory1/directory2/file.mp3"
  {
  }

  lemma Directory3PathsJoin()
    ensures "/mock2/directory3" + "/" + "file1.txt" == "/mock2/directory3/file1.txt"
    ensures "/mock2/directory3" + "/" + "long_file.text" == "/mock2/directory3/long_file.text"
  {
  }

  /** The walk's path specifications, below a root that collapses to
      "/mock2" (a parameter, so that the prover reasons about them by the
      lemmas above rather than by evaluation). */
  predicate IsRoot(root: PathSpec)
  {
    CollapsePath(root) == "/mock2"
  }

  function Spec1(root: PathSpec): PathSpec { Append(root, "directory1") }
  function Spec2(root: PathSpec): PathSpec { Append(Spec1(root), "directory2") }
  function Spec3(root: PathSpec): PathSpec { Append(root, "directory3") }

  function Directory1(fs: Filesystem, root: PathSpec): Entry
    requires Shaped(fs)
  {
    RootPathsJoin();
    ChildEntry(fs, "/mock2", root, "directory1")
  }

  function Directory3(fs: Filesystem, root: PathSpec): Entry
    requires Shaped(fs)
  {
    RootPathsJoin();
    ChildEntry(fs, "/mock2", root, "directory3")
  }

  function File1(fs: Filesystem, root: PathSpec): Entry
    requires Shaped(fs)
  {
    Directory1PathsJoin();
    ChildEntry(fs, "/mock2/directory1", Spec1(root), "file1.txt")
  }

  function File2(fs: Filesystem, root: PathSpec): Entry
    requires Shaped(fs)
  {
    Directory1PathsJoin();
    ChildEntry(fs, "/mock2/directory1", Spec1(root), "file2.txt")
  }

  function Directory2(fs: Filesystem, root: PathSpec): Entry
    requires Shaped(fs)
  {
    Directory1PathsJoin();
    ChildEntry(fs, "/mock2/directory1", Spec1(root), "directory2")
  }

  function Jpg(fs: Filesystem, root: PathSpec): Entry
    requires Shaped(fs)
  {
    Directory2PathsJoin();
    ChildEntry(fs, "/mock2/directory1/directory2", Spec2(root), "file.jpg")
  }

  function Mp3(fs: Filesystem, root: PathSpec): Entry
    requires Shaped(fs)
  {
    Directory2PathsJoin();
    ChildEntry(fs, "/mock2/directory1/directory2", Spec2(root), "file.mp3")
  }

  function TextFile(fs: Filesystem, root: PathSpec): Entry
    requires Shaped(fs)
  {
    Directory3PathsJoin();
    ChildEntry(fs, "/mock2/directory3", Spec3(root), "file1.txt")
  }

  function LongFile(fs: Filesystem, root: PathSpec): Entry
    requires Shaped(fs)
  {
    Directory3PathsJoin();
    ChildEntry(fs, "/mock2/directory3", Spec3(root), "long_file.text")
  }

  /** The listings the walk makes. */
  lemma RootListing(fs: Filesystem, root: PathSpec)
    requires Shaped(fs)
    ensures Listing(fs, "/mock2", root) == [Directory1(fs, root), Directory3(fs, root)]
  {
    RootPathsJoin();
    ListingTwo(fs, "/mock2", root, "directory1", "directory3");
  }

  lemma Directory1Listing(fs: Filesystem, root: PathSpec)
    requires Shaped(fs)
    ensures Listing(fs, "/mock2/directory1", Spec1(root)) == [File1(fs, root), File2(fs, root), Directory2(fs, root)]
  {
    Directory1PathsJoin();
    ListingThree(fs, "/mock2/directory1", Spec1(root), "file1.txt", "file2.txt", "directory2");
  }

  lemma Directory2Listing(fs: Filesystem, root: PathSpec)
    requires Shaped(fs)
    ensures Listing(fs, "/mock2/directory1/directory2", Spec2(root)) == [Jpg(fs, root), Mp3(fs, root)]
  {
    Directory2PathsJoin();
    ListingTwo(fs, "/mock2/directory1/directory2", Spec2(root), "file.jpg", "file.mp3");
  }

  lemma Directory3Listing(fs: Filesystem, root: PathSpec)
    requires Shaped(fs)
    ensures Listing(fs, "/mock2/directory3", Spec3(root)) == [TextFile(fs, root), LongFile(fs, root)]
  {
    Directory3PathsJoin();
    ListingTwo(fs, "/mock2/directory3", Spec3(root), "file1.txt", "long_file.text");
  }

  lemma NamesPlain()
    ensures IsName("directory1") && IsName("directory2") && IsName("directory3")
    ensures IsName("file1.txt") && IsName("file2.txt") && IsName("file.jpg") && IsName("file.mp3")
    ensures IsName("long_file.text")
  {
    DirsPlain();
    assert "directory1" in ["directory1", "directory3"];
    assert "directory3" in ["directory1", "directory3"];
    assert "directory2" in ["file1.txt", "file2.txt", "directory2"];
    assert "file1.txt" in ["file1.txt", "file2.txt", "directory2"];
    assert "file2.txt" in ["file1.txt", "file2.txt", "directory2"];
    assert "file.jpg" in ["file.jpg", "file.mp3"];
    assert "file.mp3" in ["file.jpg", "file.mp3"];
    assert "long_file.text" in ["file1.txt", "long_file.text"];
  }

  /** Where the directories' path specifications collapse to. */
  lemma Spec1Collapses(root: PathSpec)
    requires IsRoot(root)
    ensures CollapsePath(Spec1(root)) == "/mock2/directory1"
  {
    NamesPlain();
    ChildPath(root, "/mock2", "directory1");
    RootPathsJoin();
  }

  lemma Spec2Collapses(root: PathSpec)
    requires IsRoot(root)
    ensures CollapsePath(Spec2(root)) == "/mock2/directory1/directory2"
  {
    Spec1Collapses(root);
    NamesPlain();
    ChildPath(Spec1(root), "/mock2/directory1", "directory2");
    Directory1PathsJoin();
  }

  lemma Spec3Collapses(root: PathSpec)
    requires IsRoot(root)
    ensures CollapsePath(Spec3(root)) == "/mock2/directory3"
  {
    NamesPlain();
    ChildPath(root, "/mock2", "directory3");
    RootPathsJoin();
  }

  // ---------------------------------------------------------------------
  // The preorder.

  lemma VisitLeaf(fs: Filesystem, rootDev: int, crossDevs: bool, e: Entry)
    requires WellFormed(fs) && GoodEntry(fs, e) && !Descends(e, rootDev, crossDevs)
    ensures Visit(fs, rootDev, crossDevs, e) == [e]
  {
  }

  lemma VisitInner(fs: Filesystem, rootDev: int, crossDevs: bool, e: Entry)
    requires WellFormed(fs) && GoodEntry(fs, e) && Descends(e, rootDev, crossDevs)
    ensures AllGood(fs, Children(fs, e))
    ensures Visit(fs, rootDev, crossDevs, e) == [e] + Pending(fs, rootDev, crossDevs, Children(fs, e))
  {
    ChildrenBelow(fs, e);
    VisitAllIsPending(fs, rootDev, crossDevs, Children(fs, e), Above(fs, e.path));
  }

  lemma PendingCons(fs: Filesystem, rootDev: int, crossDevs: bool, a: Entry, rest: seq<Entry>)
    requires WellFormed(fs) && GoodEntry(fs, a) && AllGood(fs, rest)
    ensures AllGood(fs, [a] + rest)
    ensures Pending(fs, rootDev, crossDevs, [a] + rest) == Visit(fs, rootDev, crossDevs, a) + Pending(fs, rootDev, crossDevs, rest)
  {
    var s := [a] + rest;
    assert AllGood(fs, [a]);
    AllGoodConcat(fs, [a], rest);
    assert s != [] && s[0] == a && s[1..] == rest;
  }

  lemma PendingTwo(fs: Filesystem, rootDev: int, crossDevs: bool, a: Entry, b: Entry)
    requires WellFormed(fs) && GoodEntry(fs, a) && GoodEntry(fs, b)
    ensures Pending(fs, rootDev, crossDevs, [a, b]) == Visit(fs, rootDev, crossDevs, a) + Visit(fs, rootDev, crossDevs, b)
  {
    PendingCons(fs, rootDev, crossDevs, b, []);
    assert [b] + [] == [b];
    assert Visit(fs, rootDev, crossDevs, b) + [] == Visit(fs, rootDev, crossDevs, b);
    PendingCons(fs, rootDev, crossDevs, a, [b]);
    assert [a] + [b] == [a, b];
  }

  lemma PendingThree(fs: Filesystem, rootDev: int, crossDevs: bool, a: Entry, b: Entry, c: Entry)
    requires WellFormed(fs) && GoodEntry(fs, a) && GoodEntry(fs, b) && GoodEntry(fs, c)
    ensures Pending(fs, rootDev, crossDevs, [a, b, c])
         == Visit(fs, rootDev, crossDevs, a) + Visit(fs, rootDev, crossDevs, b) + Visit(fs, rootDev, crossDevs, c)
  {
    PendingTwo(fs, rootDev, crossDevs, b, c);
    assert AllGood(fs, [b, c]);
    PendingCons(fs, rootDev, crossDevs, a, [b, c]);
    assert [a] + [b, c] == [a, b, c];
    ConcatAssoc(Visit(fs, rootDev, crossDevs, a), Visit(fs, rootDev, crossDevs, b), Visit(fs, rootDev, crossDevs, c));
  }

  /** A listed child of a directory whose specification collapses to its
      path is a good entry. */
  lemma ChildGood(fs: Filesystem, parent: string, ps: PathSpec, name: string)
    requires CollapsePath(ps) == parent && parent != "/" && IsName(name)
    requires parent + "/" + name in fs
    ensures GoodEntry(fs, ChildEntry(fs, parent, ps, name))
  {
    ChildPath(ps, parent, name);
  }

  /** The entries of the walk are good: each came from a listing. */
  lemma RootEntriesGood(fs: Filesystem, root: PathSpec)
    requires Shaped(fs) && IsRoot(root)
    ensures GoodEntry(fs, Directory1(fs, root)) && GoodEntry(fs, Directory3(fs, root))
  {
    NamesPlain();
    RootPathsJoin();
    ChildGood(fs, "/mock2", root, "directory1");
    ChildGood(fs, "/mock2", root, "directory3");
  }

  lemma Directory1EntriesGood(fs: Filesystem, root: PathSpec)
    requires Shaped(fs) && IsRoot(root)
    ensures GoodEntry(fs, File1(fs, root)) && GoodEntry(fs, File2(fs, root)) && GoodEntry(fs, Directory2(fs, root))
  {
    NamesPlain();
    Directory1PathsJoin();
    Spec1Collapses(root);
    ChildGood(fs, "/mock2/directory1", Spec1(root), "file1.txt");
    ChildGood(fs, "/mock2/directory1", Spec1(root), "file2.txt");
    ChildGood(fs, "/mock2/directory1", Spec1(root), "directory2");
  }

  lemma Directory2EntriesGood(fs: Filesystem, root: PathSpec)
    requires Shaped(fs) && IsRoot(root)
    ensures GoodEntry(fs, Jpg(fs, root)) && GoodEntry(fs, Mp3(fs, root))
  {
    NamesPlain();
    Directory2PathsJoin();
    Spec2Collapses(root);
    ChildGood(fs, "/mock2/directory1/directory2", Spec2(root), "file.jpg");
    ChildGood(fs, "/mock2/directory1/directory2", Spec2(root), "file.mp3");
  }

  lemma Directory3EntriesGood(fs: Filesystem, root: PathSpec)
    requires Shaped(fs) && IsRoot(root)
    ensures GoodEntry(fs, TextFile(fs, root)) && GoodEntry(fs, LongFile(fs, root))
  {
    NamesPlain();
    Directory3PathsJoin();
    Spec3Collapses(root);
    ChildGood(fs, "/mock2/directory3", Spec3(root), "file1.txt");
    ChildGood(fs, "/mock2/directory3", Spec3(root), "long_file.text");
  }

  // ---------------------------------------------------------------------
  // Devices: directory3 lies on another device than the rest.

  lemma Devices()
    ensures !StartsWith("/mock2", OtherDevicePrefix)
    ensures !StartsWith("/mock2/directory1", OtherDevicePrefix)
    ensures !StartsWith("/mock2/directory1/directory2", OtherDevicePrefix)
    ensures StartsWith("/mock2/directory3", OtherDevicePrefix)
    ensures forall p :: p in MockFilesystem() ==>
      (StartsWith(p, OtherDevicePrefix) <==> p in OtherDevicePaths())
  {
    assert "/mock2/directory1"[16] != OtherDevicePrefix[16];
    assert "/mock2/directory1/directory2"[16] != OtherDevicePrefix[16];
    forall p | p in MockFilesystem()
      ensures StartsWith(p, OtherDevicePrefix) <==> p in OtherDevicePaths()
    {
      DevicesOfPaths(p);
    }
  }

  /** One mocked path's device, decided by its 17th character. */
  lemma DevicesOfPaths(p: string)
    requires p in MockFilesystem()
    ensures StartsWith(p, OtherDevicePrefix) <==> p in OtherDevicePaths()
  {
    MockKeys(p);
    if p in OtherDevicePaths() {
      assert p[..17] == OtherDevicePrefix;
    } else {
      assert |p| < 17 || p[16] == '1';
      assert OtherDevicePrefix[16] == '3';
    }
  }

  /** The fixture paths on device 1: directory3 and its two files. */
  function OtherDevicePaths(): set<string>
  {
    {"/mock2/directory3", "/mock2/directory3/file1.txt", "/mock2/directory3/long_file.text"}
  }

  // ---------------------------------------------------------------------
  // The preorder of small trees, whatever their entries.

  /** A directory entered with two leaves below it. */
  lemma VisitTwoLeaves(fs: Filesystem, rootDev: int, crossDevs: bool, d: Entry, a: Entry, b: Entry)
    requires WellFormed(fs) && GoodEntry(fs, d) && Descends(d, rootDev, crossDevs)
    requires Children(fs, d) == [a, b]
    requires GoodEntry(fs, a) && !Descends(a, rootDev, crossDevs)
    requires GoodEntry(fs, b) && !Descends(b, rootDev, crossDevs)
    ensures Visit(fs, rootDev, crossDevs, d) == [d, a, b]
  {
    VisitInner(fs, rootDev, crossDevs, d);
    PendingTwo(fs, rootDev, crossDevs, a, b);
    VisitLeaf(fs, rootDev, crossDevs, a);
    VisitLeaf(fs, rootDev, crossDevs, b);
    calc {
      Visit(fs, rootDev, crossDevs, d);
      [d] + Pending(fs, rootDev, crossDevs, [a, b]);
      [d] + ([a] + [b]);
      [d, a, b];
    }
  }

  /** A directory entered with two leaves and then a subtree below it. */
  lemma VisitLeavesThenTree(fs: Filesystem, rootDev: int, crossDevs: bool, d: Entry, a: Entry, b: Entry, c: Entry)
    requires WellFormed(fs) && GoodEntry(fs, d) && Descends(d, rootDev, crossDevs)
    requires Children(fs, d) == [a, b, c]
    requires GoodEntry(fs, a) && !Descends(a, rootDev, crossDevs)
    requires GoodEntry(fs, b) && !Descends(b, rootDev, crossDevs)
    requires GoodEntry(fs, c)
    ensures Visit(fs, rootDev, crossDevs, d) == [d, a, b] + Visit(fs, rootDev, crossDevs, c)
  {
    VisitInner(fs, rootDev, crossDevs, d);
    VisitLeaf(fs, rootDev, crossDevs, a);
    VisitLeaf(fs, rootDev, crossDevs, b);
    PendingThree(fs, rootDev, crossDevs, a, b, c);
    ConsThree(d, a, b, Visit(fs, rootDev, crossDevs, c));
  }

  lemma ConsThree<T>(d: T, a: T, b: T, v: seq<T>)
    ensures [d] + ([a] + [b] + v) == [d, a, b] + v
  {
    ConcatAssoc([a], [b], v);
    ConcatAssoc([d], [a] + [b], v);
    assert [d] + ([a] + [b]) == [d, a, b];
  }

  /** A directory not entered. */
  lemma VisitClosed(fs: Filesystem, rootDev: int, crossDevs: bool, d: Entry)
    requires WellFormed(fs) && GoodEntry(fs, d) && !Descends(d, rootDev, crossDevs)
    ensures Visit(fs, rootDev, crossDevs, d) == [d]
  {
    VisitLeaf(fs, rootDev, crossDevs, d);
  }

  // ---------------------------------------------------------------------
  // The subtrees.

  lemma Directory2Descends(fs: Filesystem, root: PathSpec, crossDevs: bool)
    requires Shaped(fs)
    ensures Descends(Directory2(fs, root), 2, crossDevs)
  {
    Devices();
    Directory1PathsJoin();
  }

  lemma Directory2Children(fs: Filesystem, root: PathSpec)
    requires Shaped(fs) && IsRoot(root)
    ensures Children(fs, Directory2(fs, root)) == [Jpg(fs, root), Mp3(fs, root)]
  {
    Spec2Collapses(root);
    Directory2Listing(fs, root);
  }

  lemma Directory2Leaves(fs: Filesystem, root: PathSpec, crossDevs: bool)
    requires Shaped(fs)
    ensures !Descends(Jpg(fs, root), 2, crossDevs) && !Descends(Mp3(fs, root), 2, crossDevs)
  {
    Directory2PathsJoin();
  }

  /** directory2 holds two files and lies on the root's device. */
  lemma Directory2Subtree(fs: Filesystem, root: PathSpec, crossDevs: bool)
    requires WellFormed(fs) && Shaped(fs) && IsRoot(root)
    ensures GoodEntry(fs, Directory2(fs, root))
    ensures Visit(fs, 2, crossDevs, Directory2(fs, root)) == [Directory2(fs, root), Jpg(fs, root), Mp3(fs, root)]
  {
    Directory1EntriesGood(fs, root);
    Directory2EntriesGood(fs, root);
    Directory2Descends(fs, root, crossDevs);
    Directory2Children(fs, root);
    Directory2Leaves(fs, root, crossDevs);
    VisitTwoLeaves(fs, 2, crossDevs, Directory2(fs, root), Jpg(fs, root), Mp3(fs, root));
  }

  lemma Directory1Descends(fs: Filesystem, root: PathSpec, crossDevs: bool)
    requires Shaped(fs)
    ensures Descends(Directory1(fs, root), 2, crossDevs)
  {
    Devices();
    RootPathsJoin();
  }

  lemma Directory1Children(fs: Filesystem, root: PathSpec)
    requires Shaped(fs) && IsRoot(root)
    ensures Children(fs, Directory1(fs, root)) == [File1(fs, root), File2(fs, root), Directory2(fs, root)]
  {
    Spec1Collapses(root);
    Directory1Listing(fs, root);
  }

  lemma Directory1Leaves(fs: Filesystem, root: PathSpec, crossDevs: bool)
    requires Shaped(fs)
    ensures !Descends(File1(fs, root), 2, crossDevs) && !Descends(File2(fs, root), 2, crossDevs)
  {
    Directory1PathsJoin();
  }

  /** The preorder below directory1: its two files, then directory2's subtree. */
  function Tree1(fs: Filesystem, root: PathSpec): seq<Entry>
    requires Shaped(fs)
  {
    [Directory1(fs, root), File1(fs, root), File2(fs, root)] + [Directory2(fs, root), Jpg(fs, root), Mp3(fs, root)]
  }

  lemma Directory1Subtree(fs: Filesystem, root: PathSpec, crossDevs: bool)
    requires WellFormed(fs) && Shaped(fs) && IsRoot(root)
    ensures GoodEntry(fs, Directory1(fs, root))
    ensures Visit(fs, 2, crossDevs, Directory1(fs, root)) == Tree1(fs, root)
  {
    RootEntriesGood(fs, root);
    Directory1EntriesGood(fs, root);
    Directory1Descends(fs, root, crossDevs);
    Directory1Children(fs, root);
    Directory1Leaves(fs, root, crossDevs);
    VisitLeavesThenTree(fs, 2, crossDevs, Directory1(fs, root), File1(fs, root), File2(fs, root), Directory2(fs, root));
    Directory2Subtree(fs, root, crossDevs);
  }

  lemma Directory3Device(fs: Filesystem, root: PathSpec)
    requires Shaped(fs)
    ensures Directory3(fs, root).stat.stDev == 1 && IsDirMode(Directory3(fs, root).stat.stMode)
  {
    Devices();
    RootPathsJoin();
  }

  lemma Directory3Children(fs: Filesystem, root: PathSpec)
    requires Shaped(fs) && IsRoot(root)
    ensures Children(fs, Directory3(fs, root)) == [TextFile(fs, root), LongFile(fs, root)]
  {
    Spec3Collapses(root);
    Directory3Listing(fs, root);
  }

  lemma Directory3Leaves(fs: Filesystem, root: PathSpec, crossDevs: bool)
    requires Shaped(fs)
    ensures !Descends(TextFile(fs, root), 2, crossDevs) && !Descends(LongFile(fs, root), 2, crossDevs)
  {
    Directory3PathsJoin();
  }

  /** The preorder below directory3, which lies on another device: entered
      only when crossing devices is asked for. */
  function Tree3(fs: Filesystem, root: PathSpec, crossDevs: bool): seq<Entry>
    requires Shaped(fs)
  {
    if crossDevs then [Directory3(fs, root), TextFile(fs, root), LongFile(fs, root)]
    else [Directory3(fs, root)]
  }

  lemma Directory3Subtree(fs: Filesystem, root: PathSpec, crossDevs: bool)
    requires WellFormed(fs) && Shaped(fs) && IsRoot(root)
    ensures GoodEntry(fs, Directory3(fs, root))
    ensures Visit(fs, 2, crossDevs, Directory3(fs, root)) == Tree3(fs, root, crossDevs)
  {
    RootEntriesGood(fs, root);
    Directory3Device(fs, root);
    if crossDevs {
      Directory3EntriesGood(fs, root);
      Directory3Children(fs, root);
      Directory3Leaves(fs, root, crossDevs);
      VisitTwoLeaves(fs, 2, crossDevs, Directory3(fs, root), TextFile(fs, root), LongFile(fs, root));
    } else {
      VisitClosed(fs, 2, crossDevs, Directory3(fs, root));
    }
  }

  /** The whole walk from "/mock2/": directory1's subtree, then directory3's. */
  lemma MockWalk(fs: Filesystem, root: PathSpec, crossDevs: bool)
    requires WellFormed(fs) && Shaped(fs) && IsRoot(root)
    ensures AllGood(fs, Listing(fs, "/mock2", root))
    ensures Pending(fs, 2, crossDevs, Listing(fs, "/mock2", root)) == Tree1(fs, root) + Tree3(fs, root, crossDevs)
  {
    ListingGood(fs, root);
    RootListing(fs, root);
    Directory1Subtree(fs, root, crossDevs);
    Directory3Subtree(fs, root, crossDevs);
    PendingTwo(fs, 2, crossDevs, Directory1(fs, root), Directory3(fs, root));
  }

  // ---------------------------------------------------------------------
  // A fresh request from "/mock2/".

  lemma RootDevice(fs: Filesystem, root: PathSpec)
    requires Shaped(fs) && IsRoot(root)
    ensures DoStat(fs, CollapsePath(root)).Some? && DoStat(fs, CollapsePath(root)).value.stDev == 2
  {
    Devices();
  }

  /** A fresh request starts from the root's listing, on the root's device. */
  lemma FreshStart(fs: Filesystem, req: FindRequest, number: nat)
    requires Shaped(fs) && IsRoot(req.pathspec) && req.cursor == NewIterator(number)
    ensures ValidCursor(fs, req.cursor) && req.cursor.state == Running
    ensures CollapsePath(req.pathspec) in fs && RootDev(fs, req) == 2
    ensures StartStack(fs, req) == Listing(fs, "/mock2", req.pathspec)
  {
    RootDevice(fs, req.pathspec);
  }

  lemma FreshPending(fs: Filesystem, cfg: Grep.SearchConfig, req: FindRequest, number: nat)
    requires WellFormed(fs) && Shaped(fs) && IsRoot(req.pathspec) && req.cursor == NewIterator(number)
    ensures ValidCursor(fs, req.cursor) && AllGood(fs, Listing(fs, "/mock2", req.pathspec))
    ensures Remaining(fs, cfg, req) == HitsOf(fs, cfg, FilterOf(req), Pending(fs, 2, req.crossDevs, Listing(fs, "/mock2", req.pathspec)))
  {
    FreshStart(fs, req, number);
    FreshIsListing(fs, cfg, req, number);
  }

  /** What a fresh request from the root has to report: the hits among
      directory1's subtree and directory3's. */
  lemma FreshRemaining(fs: Filesystem, cfg: Grep.SearchConfig, req: FindRequest, number: nat)
    requires WellFormed(fs) && Shaped(fs) && IsRoot(req.pathspec) && req.cursor == NewIterator(number)
    ensures ValidCursor(fs, req.cursor)
    ensures Remaining(fs, cfg, req) == HitsOf(fs, cfg, FilterOf(req), Tree1(fs, req.pathspec) + Tree3(fs, req.pathspec, req.crossDevs))
  {
    FreshPending(fs, cfg, req, number);
    MockWalk(fs, req.pathspec, req.crossDevs);
  }

  /** Without filters, a fresh walk has every entry it visits to report. */
  lemma UnfilteredRemaining(fs: Filesystem, cfg: Grep.SearchConfig, req: FindRequest, number: nat)
    requires WellFormed(fs) && Shaped(fs) && IsRoot(req.pathspec) && req.cursor == NewIterator(number)
    requires req.pathRegex == [] && req.dataRegex == []
    ensures ValidCursor(fs, req.cursor)
    ensures |Remaining(fs, cfg, req)| == if req.crossDevs then 9 else 7
  {
    var es := Tree1(fs, req.pathspec) + Tree3(fs, req.pathspec, req.crossDevs);
    FreshRemaining(fs, cfg, req, number);
    assert FilterOf(req) == Filter([], []);
    UnfilteredHitsAll(fs, cfg, es);
  }

  /** Without filters, every entry below the root is reported in one call:
      nine when crossing devices, seven otherwise. */
  lemma UnfilteredCounts(fs: Filesystem, cfg: Grep.SearchConfig, req: FindRequest)
    requires WellFormed(fs) && Shaped(fs) && IsRoot(req.pathspec) && req.cursor == NewIterator(200)
    requires req.pathRegex == [] && req.dataRegex == []
    ensures ValidCursor(fs, req.cursor)
    ensures |FindOutcome(fs, cfg, req).hits| == if req.crossDevs then 9 else 7
    ensures FindOutcome(fs, cfg, req).cursor == Iterator(200, Finished, map[])
  {
    UnfilteredRemaining(fs, cfg, req, 200);
    OneShot(fs, cfg, req);
  }

  /** Paging through a fresh walk one hit at a time yields what one call
      with room for 200 hits and the path filter "." yields. */
  lemma FreshPaging(fs: Filesystem, cfg: Grep.SearchConfig, root: PathSpec)
    requires WellFormed(fs) && Shaped(fs) && IsRoot(root)
    ensures PageAll(fs, cfg, FindRequest(root, cursor := NewIterator(1)))
         == FindOutcome(fs, cfg, FindRequest(root, pathRegex := DotFilter(), cursor := NewIterator(200))).hits
  {
    var req := FindRequest(root);
    var large := req.(cursor := NewIterator(200));
    UnfilteredRemaining(fs, cfg, large, 200);
    UnfilteredRemaining(fs, cfg, req.(cursor := NewIterator(1)), 1);
    PagingIsOneShot(fs, cfg, req, 1, 200);
    DotIsNoFilter(fs, cfg, large);
    assert large.(pathRegex := DotFilter()) == FindRequest(root, pathRegex := DotFilter(), cursor := NewIterator(200));
  }

  // ---------------------------------------------------------------------
  // Hits of short lists.

  /** What one entry contributes to the hits. */
  function HitOf(fs: Filesystem, cfg: Grep.SearchConfig, f: Filter, e: Entry): seq<StatEntry>
  {
    if Matches(fs, cfg, f, e) then [e.stat] else []
  }

  lemma HitsOfOne(fs: Filesystem, cfg: Grep.SearchConfig, f: Filter, a: Entry)
    ensures HitsOf(fs, cfg, f, [a]) == HitOf(fs, cfg, f, a)
  {
    assert [a][1..] == [];
  }

  lemma HitsOfThree(fs: Filesystem, cfg: Grep.SearchConfig, f: Filter, a: Entry, b: Entry, c: Entry)
    ensures HitsOf(fs, cfg, f, [a, b, c]) == HitOf(fs, cfg, f, a) + HitOf(fs, cfg, f, b) + HitOf(fs, cfg, f, c)
  {
    assert [a, b, c][1..] == [b, c] && [b, c][1..] == [c];
    HitsOfOne(fs, cfg, f, c);
  }

  // ---------------------------------------------------------------------
  // The paths of the walk's entries.

  lemma Tree1Paths(fs: Filesystem, root: PathSpec)
    requires WellFormed(fs) && Shaped(fs) && IsRoot(root)
    ensures CollapsePath(Directory1(fs, root).stat.pathspec) == "/mock2/directory1"
    ensures CollapsePath(File1(fs, root).stat.pathspec) == "/mock2/directory1/file1.txt"
    ensures CollapsePath(File2(fs, root).stat.pathspec) == "/mock2/directory1/file2.txt"
    ensures CollapsePath(Directory2(fs, root).stat.pathspec) == "/mock2/directory1/directory2"
  {
    RootEntriesGood(fs, root);
    Directory1EntriesGood(fs, root);
    RootPathsJoin();
    Directory1PathsJoin();
  }

  lemma Tree2Paths(fs: Filesystem, root: PathSpec)
    requires WellFormed(fs) && Shaped(fs) && IsRoot(root)
    ensures CollapsePath(Jpg(fs, root).stat.pathspec) == "/mock2/directory1/directory2/file.jpg"
    ensures CollapsePath(Mp3(fs, root).stat.pathspec) == "/mock2/directory1/directory2/file.mp3"
  {
    Directory2EntriesGood(fs, root);
    Directory2PathsJoin();
  }

  lemma Tree3Paths(fs: Filesystem, root: PathSpec)
    requires WellFormed(fs) && Shaped(fs) && IsRoot(root)
    ensures CollapsePath(Directory3(fs, root).stat.pathspec) == "/mock2/directory3"
    ensures CollapsePath(TextFile(fs, root).stat.pathspec) == "/mock2/directory3/file1.txt"
    ensures CollapsePath(LongFile(fs, root).stat.pathspec) == "/mock2/directory3/long_file.text"
  {
    RootEntriesGood(fs, root);
    Directory3EntriesGood(fs, root);
    RootPathsJoin();
    Directory3PathsJoin();
  }

  // ---------------------------------------------------------------------
  // The path filter ".*mp3": a search for "mp3" anywhere in the path.

  function Mp3Filter(): seq<CharClass<char>>
  {
    [OneOf({'m'}), OneOf({'p'}), OneOf({'3'})]
  }

  lemma NoMp3(s: string)
    requires 'p' !in s || '3' !in s
    ensures !Found(s, Regex(Mp3Filter()))
  {
    forall o | 0 <= o && o + 3 <= |s|
      ensures !MatchAt(s, Regex(Mp3Filter()), o)
    {
      assert s[o + 1] in s && s[o + 2] in s;
      assert ClassMatches(Mp3Filter()[1], s[o + 1]) ==> s[o + 1] == 'p';
      assert ClassMatches(Mp3Filter()[2], s[o + 2]) ==> s[o + 2] == '3';
    }
  }

  lemma Mp3PathsShort()
    ensures !Found("/mock2/directory1", Regex(Mp3Filter()))
    ensures !Found("/mock2/directory3", Regex(Mp3Filter()))
    ensures !Found("/mock2/directory1/directory2", Regex(Mp3Filter()))
  {
    NoMp3("/mock2/directory1");
    NoMp3("/mock2/directory3");
    NoMp3("/mock2/directory1/directory2");
  }

  lemma Mp3PathsFiles()
    ensures !Found("/mock2/directory1/file1.txt", Regex(Mp3Filter()))
    ensures !Found("/mock2/directory1/file2.txt", Regex(Mp3Filter()))
  {
    NoMp3("/mock2/directory1/file1.txt");
    NoMp3("/mock2/directory1/file2.txt");
  }

  lemma Mp3PathsDirectory2()
    ensures !Found("/mock2/directory1/directory2/file.jpg", Regex(Mp3Filter()))
    ensures Found("/mock2/directory1/directory2/file.mp3", Regex(Mp3Filter()))
  {
    NoMp3("/mock2/directory1/directory2/file.jpg");
    assert MatchAt("/mock2/directory1/directory2/file.mp3", Regex(Mp3Filter()), 34);
  }

  /** Of the entries a walk that stays on the root's device visits, only
      the mp3 file's path contains "mp3". */
  lemma Mp3Matches(fs: Filesystem, cfg: Grep.SearchConfig, root: PathSpec)
    requires WellFormed(fs) && Shaped(fs) && IsRoot(root)
    ensures var f := Filter(Mp3Filter(), []);
      && !Matches(fs, cfg, f, Directory1(fs, root)) && !Matches(fs, cfg, f, File1(fs, root))
      && !Matches(fs, cfg, f, File2(fs, root)) && !Matches(fs, cfg, f, Directory2(fs, root))
      && !Matches(fs, cfg, f, Jpg(fs, root)) && Matches(fs, cfg, f, Mp3(fs, root))
      && !Matches(fs, cfg, f, Directory3(fs, root))
  {
    Tree1Paths(fs, root);
    Tree2Paths(fs, root);
    Tree3Paths(fs, root);
    Mp3PathsShort();
    Mp3PathsFiles();
    Mp3PathsDirectory2();
  }

  /** The mp3 file's stat names it as its last path component. */
  lemma Mp3Basename(fs: Filesystem, root: PathSpec)
    requires Shaped(fs) && IsRoot(root)
    ensures Basename(Mp3(fs, root).stat.pathspec) == "file.mp3"
  {
    Spec2Collapses(root);
    NamesPlain();
    ChildPath(Spec2(root), "/mock2/directory1/directory2", "file.mp3");
  }

  /** The hits of a walk that stays on the root's device. */
  lemma SameDeviceHits(fs: Filesystem, cfg: Grep.SearchConfig, f: Filter, root: PathSpec)
    requires Shaped(fs)
    ensures HitsOf(fs, cfg, f, Tree1(fs, root) + Tree3(fs, root, false))
         == HitOf(fs, cfg, f, Directory1(fs, root)) + HitOf(fs, cfg, f, File1(fs, root)) + HitOf(fs, cfg, f, File2(fs, root))
          + (HitOf(fs, cfg, f, Directory2(fs, root)) + HitOf(fs, cfg, f, Jpg(fs, root)) + HitOf(fs, cfg, f, Mp3(fs, root)))
          + HitOf(fs, cfg, f, Directory3(fs, root))
  {
    var top := [Directory1(fs, root), File1(fs, root), File2(fs, root)];
    var below := [Directory2(fs, root), Jpg(fs, root), Mp3(fs, root)];
    HitsOfConcat(fs, cfg, f, top + below, [Directory3(fs, root)]);
    HitsOfConcat(fs, cfg, f, top, below);
    HitsOfThree(fs, cfg, f, Directory1(fs, root), File1(fs, root), File2(fs, root));
    HitsOfThree(fs, cfg, f, Directory2(fs, root), Jpg(fs, root), Mp3(fs, root));
    HitsOfOne(fs, cfg, f, Directory3(fs, root));
  }

  /** The path filter ".*mp3" from the root finds one entry, the mp3 file. */
  lemma FreshMp3(fs: Filesystem, cfg: Grep.SearchConfig, root: PathSpec)
    requires WellFormed(fs) && Shaped(fs) && IsRoot(root)
    ensures var hits := FindOutcome(fs, cfg, FindRequest(root, pathRegex := Mp3Filter(), cursor := NewIterator(200))).hits;
      |hits| == 1 && Basename(hits[0].pathspec) == "file.mp3"
  {
    var req := FindRequest(root, pathRegex := Mp3Filter(), cursor := NewIterator(200));
    FreshRemaining(fs, cfg, req, 200);
    Mp3Matches(fs, cfg, root);
    SameDeviceHits(fs, cfg, FilterOf(req), root);
    OneShot(fs, cfg, req);
    Mp3Basename(fs, root);
  }

  // ---------------------------------------------------------------------
  // The content filter "Secret".

  function SecretFilter(): seq<CharClass<Byte>>
  {
    LiteralClasses(Ascii("Secret"))
  }

  lemma NoSecret(d: seq<Byte>)
    requires ByteOf('S') !in d
    ensures !Found(d, Regex(SecretFilter()))
  {
    forall o | 0 <= o && o + 6 <= |d|
      ensures !MatchAt(d, Regex(SecretFilter()), o)
    {
      assert d[o] in d;
      assert SecretFilter()[0] == OneOf({ByteOf('S')});
    }
  }

  /** "Secret" occurs in the bytes of a string wherever it occurs in the string. */
  lemma SecretAt(d: seq<Byte>, o: nat)
    requires o + 6 <= |d| && d[o..o + 6] == Ascii("Secret")
    ensures Found(d, Regex(SecretFilter()))
  {
    LiteralIsRegex(d, Ascii("Secret"), o);
  }

  lemma SmallFilesSecret()
    ensures Found(Ascii("Secret 1"), Regex(SecretFilter()))
    ensures !Found(Ascii("Another file"), Regex(SecretFilter()))
    ensures !Found(Ascii("JPEG"), Regex(SecretFilter()))
    ensures !Found(Ascii("MP3 movie"), Regex(SecretFilter()))
    ensures !Found(Ascii("A text file"), Regex(SecretFilter()))
  {
    assert Ascii("Secret 1")[0..6] == Ascii("Secret");
    SecretAt(Ascii("Secret 1"), 0);
    NoSecret(Ascii("Another file"));
    NoSecret(Ascii("JPEG"));
    NoSecret(Ascii("MP3 movie"));
    NoSecret(Ascii("A text file"));
  }

  /** The long file's only "Secret" starts two bytes into its tail. */
  lemma LongFileSecret()
    ensures OccursAt(LongFileContent(), Ascii("Secret"), 600002)
    ensures Found(LongFileContent(), Regex(SecretFilter()))
  {
    var head, tail := Repeat(Ascii("space "), 100000), Ascii("A Secret");
    assert |head| == 600000;
    assert tail[2..8] == Ascii("Secret");
    SecretInTail(head, tail);
  }

  /** A "Secret" two bytes into the tail is found after any head. */
  lemma SecretInTail(head: seq<Byte>, tail: seq<Byte>)
    requires 8 <= |tail| && tail[2..8] == Ascii("Secret")
    ensures OccursAt(head + tail, Ascii("Secret"), |head| + 2)
    ensures Found(head + tail, Regex(SecretFilter()))
  {
    assert (head + tail)[|head| + 2..|head| + 8] == tail[2..8];
    SecretAt(head + tail, |head| + 2);
  }

  /** The content filter "Secret" with blocks that overlap by at least five bytes. */
  predicate SecretConfig(cfg: Grep.SearchConfig)
  {
    Grep.EnvelopeCovers(cfg, Regex(SecretFilter()))
  }

  /** Under a content filter, a directory is never a hit. */
  lemma DirectoryNoHit(fs: Filesystem, cfg: Grep.SearchConfig, f: Filter, e: Entry)
    requires GoodEntry(fs, e) && fs[e.path].Dir? && f.dataRegex != []
    ensures HitOf(fs, cfg, f, e) == []
  {
  }

  /** Under a content filter alone, a file is a hit exactly when the pattern
      occurs in it. */
  lemma FileHit(fs: Filesystem, cfg: Grep.SearchConfig, f: Filter, e: Entry)
    requires GoodEntry(fs, e) && fs[e.path].File? && f.pathRegex == []
    requires |f.dataRegex| >= 1 && Grep.EnvelopeCovers(cfg, Regex(f.dataRegex))
    ensures HitOf(fs, cfg, f, e) == if Found(fs[e.path].content, Regex(f.dataRegex)) then [e.stat] else []
  {
    FileHasMatchIsFound(fs, cfg, e.stat.pathspec, Regex(f.dataRegex));
  }

  lemma SecretHitsDirectory1(fs: Filesystem, cfg: Grep.SearchConfig, root: PathSpec)
    requires WellFormed(fs) && Shaped(fs) && IsRoot(root) && SecretConfig(cfg)
    ensures var f := Filter([], SecretFilter());
      && HitOf(fs, cfg, f, Directory1(fs, root)) == []
      && HitOf(fs, cfg, f, File1(fs, root)) == [File1(fs, root).stat]
      && HitOf(fs, cfg, f, File2(fs, root)) == []
  {
    var f := Filter([], SecretFilter());
    RootEntriesGood(fs, root);
    Directory1EntriesGood(fs, root);
    RootPathsJoin();
    Directory1PathsJoin();
    SmallFilesSecret();
    DirectoryNoHit(fs, cfg, f, Directory1(fs, root));
    FileHit(fs, cfg, f, File1(fs, root));
    FileHit(fs, cfg, f, File2(fs, root));
  }

  lemma SecretHitsDirectory2(fs: Filesystem, cfg: Grep.SearchConfig, root: PathSpec)
    requires WellFormed(fs) && Shaped(fs) && IsRoot(root) && SecretConfig(cfg)
    ensures var f := Filter([], SecretFilter());
      && HitOf(fs, cfg, f, Directory2(fs, root)) == []
      && HitOf(fs, cfg, f, Jpg(fs, root)) == []
      && HitOf(fs, cfg, f, Mp3(fs, root)) == []
  {
    var f := Filter([], SecretFilter());
    Directory1EntriesGood(fs, root);
    Directory2EntriesGood(fs, root);
    Directory1PathsJoin();
    Directory2PathsJoin();
    SmallFilesSecret();
    DirectoryNoHit(fs, cfg, f, Directory2(fs, root));
    FileHit(fs, cfg, f, Jpg(fs, root));
    FileHit(fs, cfg, f, Mp3(fs, root));
  }

  lemma SecretHitsDirectory3(fs: Filesystem, cfg: Grep.SearchConfig, root: PathSpec)
    requires WellFormed(fs) && Shaped(fs) && IsRoot(root) && SecretConfig(cfg)
    ensures var f := Filter([], SecretFilter());
      && HitOf(fs, cfg, f, Directory3(fs, root)) == []
      && HitOf(fs, cfg, f, TextFile(fs, root)) == []
      && HitOf(fs, cfg, f, LongFile(fs, root)) == [LongFile(fs, root).stat]
  {
    var f := Filter([], SecretFilter());
    RootEntriesGood(fs, root);
    Directory3EntriesGood(fs, root);
    RootPathsJoin();
    Directory3PathsJoin();
    SmallFilesSecret();
    LongFileSecret();
    DirectoryNoHit(fs, cfg, f, Directory3(fs, root));
    FileHit(fs, cfg, f, TextFile(fs, root));
    FileHit(fs, cfg, f, LongFile(fs, root));
  }

  /** The hits of a walk that crosses into directory3. */
  lemma CrossDeviceHits(fs: Filesystem, cfg: Grep.SearchConfig, f: Filter, root: PathSpec)
    requires Shaped(fs)
    ensures HitsOf(fs, cfg, f, Tree1(fs, root) + Tree3(fs, root, true))
         == HitOf(fs, cfg, f, Directory1(fs, root)) + HitOf(fs, cfg, f, File1(fs, root)) + HitOf(fs, cfg, f, File2(fs, root))
          + (HitOf(fs, cfg, f, Directory2(fs, root)) + HitOf(fs, cfg, f, Jpg(fs, root)) + HitOf(fs, cfg, f, Mp3(fs, root)))
          + (HitOf(fs, cfg, f, Directory3(fs, root)) + HitOf(fs, cfg, f, TextFile(fs, root)) + HitOf(fs, cfg, f, LongFile(fs, root)))
  {
    var top := [Directory1(fs, root), File1(fs, root), File2(fs, root)];
    var below := [Directory2(fs, root), Jpg(fs, root), Mp3(fs, root)];
    var other := [Directory3(fs, root), TextFile(fs, root), LongFile(fs, root)];
    HitsOfConcat(fs, cfg, f, top + below, other);
    HitsOfConcat(fs, cfg, f, top, below);
    HitsOfThree(fs, cfg, f, Directory1(fs, root), File1(fs, root), File2(fs, root));
    HitsOfThree(fs, cfg, f, Directory2(fs, root), Jpg(fs, root), Mp3(fs, root));
    HitsOfThree(fs, cfg, f, Directory3(fs, root), TextFile(fs, root), LongFile(fs, root));
  }

  lemma SecretBasenames(fs: Filesystem, root: PathSpec)
    requires Shaped(fs) && IsRoot(root)
    ensures Basename(File1(fs, root).stat.pathspec) == "file1.txt"
    ensures Basename(LongFile(fs, root).stat.pathspec) == "long_file.text"
  {
    Spec1Collapses(root);
    Spec3Collapses(root);
    NamesPlain();
    ChildPath(Spec1(root), "/mock2/directory1", "file1.txt");
    ChildPath(Spec3(root), "/mock2/directory3", "long_file.text");
  }

  /** Crossing devices, "Secret" occurs in file1.txt and long_file.text only. */
  lemma SecretHits(fs: Filesystem, cfg: Grep.SearchConfig, root: PathSpec)
    requires WellFormed(fs) && Shaped(fs) && IsRoot(root) && SecretConfig(cfg)
    ensures HitsOf(fs, cfg, Filter([], SecretFilter()), Tree1(fs, root) + Tree3(fs, root, true))
         == [File1(fs, root).stat, LongFile(fs, root).stat]
  {
    var f := Filter([], SecretFilter());
    CrossDeviceHits(fs, cfg, f, root);
    SecretHitsDirectory1(fs, cfg, root);
    SecretHitsDirectory2(fs, cfg, root);
    SecretHitsDirectory3(fs, cfg, root);
    SecondAndLast(HitOf(fs, cfg, f, Directory1(fs, root)), HitOf(fs, cfg, f, File1(fs, root)), HitOf(fs, cfg, f, File2(fs, root)),
                  HitOf(fs, cfg, f, Directory2(fs, root)), HitOf(fs, cfg, f, Jpg(fs, root)), HitOf(fs, cfg, f, Mp3(fs, root)),
                  HitOf(fs, cfg, f, Directory3(fs, root)), HitOf(fs, cfg, f, TextFile(fs, root)), HitOf(fs, cfg, f, LongFile(fs, root)),
                  File1(fs, root).stat, LongFile(fs, root).stat);
  }

  /** Three groups of three contributions of which only the second and the
      last are non-empty. */
  lemma SecondAndLast<T>(a: seq<T>, b: seq<T>, c: seq<T>, d: seq<T>, e: seq<T>, f: seq<T>,
                         g: seq<T>, h: seq<T>, i: seq<T>, x: T, y: T)
    requires a == [] && b == [x] && c == [] && d == [] && e == [] && f == [] && g == [] && h == [] && i == [y]
    ensures a + b + c + (d + e + f) + (g + h + i) == [x, y]
  {
  }

  /** The content filter "Secret", crossing devices, finds file1.txt and
      then long_file.text, whose match lies 600002 bytes in. */
  lemma FreshSecret(fs: Filesystem, cfg: Grep.SearchConfig, root: PathSpec)
    requires WellFormed(fs) && Shaped(fs) && IsRoot(root) && SecretConfig(cfg)
    ensures var hits := FindOutcome(fs, cfg, FindRequest(root, dataRegex := SecretFilter(), crossDevs := true, cursor := NewIterator(200))).hits;
      && |hits| == 2
      && Basename(hits[0].pathspec) == "file1.txt"
      && Basename(hits[1].pathspec) == "long_file.text"
  {
    var req := FindRequest(root, dataRegex := SecretFilter(), crossDevs := true, cursor := NewIterator(200));
    FreshRemaining(fs, cfg, req, 200);
    SecretHits(fs, cfg, root);
    OneShot(fs, cfg, req);
    SecretBasenames(fs, root);
  }

  // ---------------------------------------------------------------------
  // The find tests, on the mock filesystem.

  /** A request from "/mock2/" for up to 200 hits. */
  function MockRequest(crossDevs: bool): FindRequest
  {
    FindRequest(Root, crossDevs := crossDevs, cursor := NewIterator(200))
  }

  /** Nine entries below "/mock2/" when crossing devices, seven when not,
      and not crossing is the default. */
  lemma MockCrossDevs(cfg: Grep.SearchConfig)
    ensures WellFormed(MockFilesystem())
    ensures |FindOutcome(MockFilesystem(), cfg, MockRequest(true)).hits| == 9
    ensures |FindOutcome(MockFilesystem(), cfg, MockRequest(false)).hits| == 7
    ensures |FindOutcome(MockFilesystem(), cfg, FindRequest(Root, cursor := NewIterator(200))).hits| == 7
  {
    MockWellFormed();
    MockShaped();
    RootCollapses();
    UnfilteredCounts(MockFilesystem(), cfg, MockRequest(true));
    UnfilteredCounts(MockFilesystem(), cfg, MockRequest(false));
  }

  /** Following the cursor one hit at a time from "/mock2/" yields what one
      call with room for 200 hits and the path filter "." yields. */
  lemma MockPaging(cfg: Grep.SearchConfig)
    ensures WellFormed(MockFilesystem())
    ensures PageAll(MockFilesystem(), cfg, FindRequest(Root, cursor := NewIterator(1)))
         == FindOutcome(MockFilesystem(), cfg, FindRequest(Root, pathRegex := DotFilter(), cursor := NewIterator(200))).hits
  {
    MockWellFormed();
    MockShaped();
    RootCollapses();
    FreshPaging(MockFilesystem(), cfg, Root);
  }

  /** The path filter ".*mp3" from "/mock2/" finds one entry, "file.mp3". */
  lemma MockMp3(cfg: Grep.SearchConfig)
    ensures WellFormed(MockFilesystem())
    ensures var hits := FindOutcome(MockFilesystem(), cfg, FindRequest(Root, pathRegex := Mp3Filter(), cursor := NewIterator(200))).hits;
      |hits| == 1 && Basename(hits[0].pathspec) == "file.mp3"
  {
    MockWellFormed();
    MockShaped();
    RootCollapses();
    FreshMp3(MockFilesystem(), cfg, Root);
  }

  /** The content filter "Secret" from "/mock2/", crossing devices, finds
      file1.txt and then long_file.text. */
  lemma MockSecret(cfg: Grep.SearchConfig)
    requires SecretConfig(cfg)
    ensures WellFormed(MockFilesystem())
    ensures var hits := FindOutcome(MockFilesystem(), cfg, FindRequest(Root, dataRegex := SecretFilter(), crossDevs := true, cursor := NewIterator(200))).hits;
      && |hits| == 2
      && Basename(hits[0].pathspec) == "file1.txt"
      && Basename(hits[1].pathspec) == "long_file.text"
  {
    MockWellFormed();
    MockShaped();
    RootCollapses();
    FreshSecret(MockFilesystem(), cfg, Root);
  }
}
