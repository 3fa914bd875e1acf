/**
 * The image that mkfs.tinyfs writes: the root directory with its two files and
 * five directories, well formed from the start.
 */
module FsImage {
  import opened Prelude
  import opened FsTree
  import opened TinyFs
  import opened Vfs
  import opened Paths
  import opened FileOps
  import opened Outcomes
  import TinyfsAdd

  // The root alone.  Blocks up to the root's are marked.
  function RootOnly(): Fs {
    Fs(seq(INODES, i => i == 0),
       seq(INODES, i => if i == 0 then Inode(Dir, 64, ROOT_DATA, 0) else Inode(NoKind, 0, 0, 0)),
       seq(BLOCKS, b => b <= ROOT_DATA),
       seq(BLOCKS, b => if b == ROOT_DATA then Entries(Dots(0, 0)) else Bytes([])),
       0)
  }

  const NAMES: nat := 7

  function NameOf(j: nat): string
    requires j < NAMES
  {
    if j == 0 then "README.txt" else if j == 1 then "hello.txt" else if j == 2 then "bin" else if j == 3 then "tmp"
    else if j == 4 then "dev" else if j == 5 then "home" else "usr"
  }

  // The record and the block of inode j + 1.
  function Record(j: nat): Inode {
    if j == 0 then Inode(File, 25, ROOT_DATA + 1, 0)
    else if j == 1 then Inode(File, 13, ROOT_DATA + 2, 0)
    else Inode(Dir, 64, ROOT_DATA + 1 + j, 0)
  }

  function Contents(j: nat, readme: Content, hello: Content): Content {
    if j == 0 then readme else if j == 1 then hello else Entries(Dots(j + 1, 0))
  }

  // The image after the first n names have been entered in the root.
  function Image(n: nat, readme: Content, hello: Content): (fs: Fs)
    requires n <= NAMES
    ensures |fs.inodes| == INODES
  {
    if n == 0 then RootOnly()
    else
      AddName(Image(n - 1, readme, hello), n - 1, readme, hello)
  }

  function AddName(g: Fs, m: nat, readme: Content, hello: Content): (fs: Fs)
    requires m < NAMES && |g.inodes| == INODES
    ensures |fs.inodes| == INODES
  {
    Enter(g, 0, m + 1, Record(m), ROOT_DATA + m + 1, Contents(m, readme, hello), NameOf(m)).0
  }

  // The entries of the root at that point.
  function Listing(n: nat): seq<Dirent>
    requires n <= NAMES
  {
    seq(SLOTS, k requires 0 <= k < SLOTS =>
      if k == 0 then Dirent(0, ".")
      else if k == 1 then Dirent(0, "..")
      else if k - 2 < n then Dirent(k - 1, NameOf(k - 2))
      else FreeEntry)
  }

  lemma {:induction false} FreeSlotAt(es: seq<Dirent>, i: nat, k: nat)
    requires i <= k < |es| && es[k].name == "" && forall j :: i <= j < k ==> es[j].name != ""
    ensures FreeSlot(es, i) == k
    decreases k - i
  {
    if i < k { FreeSlotAt(es, i + 1, k); }
  }

  lemma NamesDiffer(i: nat, j: nat)
    requires i < j < NAMES
    ensures NameOf(i) != NameOf(j)
  {
    assert NameOf(0)[0] == 'R' && NameOf(1)[0] == 'h' && NameOf(2)[0] == 'b' && NameOf(3)[0] == 't'
        && NameOf(4)[0] == 'd';
    assert NameOf(5)[0] == 'h' && NameOf(6)[0] == 'u' && |NameOf(1)| == 9 && |NameOf(5)| == 4;
  }

  lemma NameProper(i: nat)
    requires i < NAMES
    ensures Proper(NameOf(i)) && 3 <= |NameOf(i)| <= 10 && NoSlash(NameOf(i))
  {
  }

  lemma NameNew(n: nat)
    requires n < NAMES
    ensures !Has(Listing(n), NameOf(n)) && Proper(NameOf(n)) && |NameOf(n)| <= NAME_MAX
  {
    var es := Listing(n);
    NameProper(n);
    forall k | 0 <= k < |es| ensures es[k].name != NameOf(n) {
      if 2 <= k < n + 2 { NamesDiffer(k - 2, n); }
    }
  }

  lemma RootTree()
    ensures BlocksOk(RootOnly()) && View(RootOnly()) == Tree({0}, map[0 := Dots(0, 0)])
  {
    var fs := RootOnly();
    assert Refs(fs, 0) == {ROOT_DATA};
    assert forall i: nat :: Live(fs, i) ==> i == 0;
    assert View(fs).live == {0};
    assert View(fs).dirs == map[0 := Dots(0, 0)];
  }

  lemma RootTreeOk()
    ensures TreeOk(Tree({0}, map[0 := Dots(0, 0)]))
  {
    var es := Dots(0, 0);
    var t := Tree({0}, map[0 := es]);
    assert es[0].name == "." && es[1].name == "..";
    assert forall k :: 2 <= k < SLOTS ==> es[k] == FreeEntry;
    forall k: nat | k < SLOTS ensures SlotOk(t, 0, k) {
    }
    assert DirOk(t, 0);
    forall d: nat, k: nat, e: nat, j: nat, i: nat ensures Alone(t, d, k, e, j, i) {
      assert !Holds(t, d, k, i);
    }
  }

  lemma RootOk()
    ensures Wf(RootOnly()) && EntsAt(RootOnly(), 0) == Listing(0)
  {
    RootTree();
    RootTreeOk();
    WfIff(RootOnly());
    assert Dots(0, 0) == Listing(0);
  }

  function Marks(count: nat, last: nat): seq<bool> { seq(count, i => i <= last) }

  // The image holds the root and its first n entries.
  ghost function CheckImage(fs: Fs, n: nat): Sealed
    requires n <= NAMES
  {
    if && Wf(fs) && IsDir(fs, 0) && EntsAt(fs, 0) == Listing(n) && fs.cwd == 0
       && fs.ibits == Marks(INODES, n) && fs.bbits == Marks(BLOCKS, ROOT_DATA + n)
    then Intact else Broken
  }

  // A directory or file that is entered in a root listing its n predecessors.
  lemma EntersFree(g: Fs, n: nat, rec: Inode, b: nat, c: Content, name: string)
    requires n < NAMES && CheckImage(g, n) == Intact && Entering(g, 0, n + 1, rec, b, c)
    ensures FreeSlot(EntsAt(g, 0), 0) == n + 2 && Enter(g, 0, n + 1, rec, b, c, name).1 == 0
  {
    FreeSlotAt(Listing(n), 0, n + 2);
    EnterDir(g, 0, n + 1, rec, b, c);
    NewNodeOk(g, n + 1, rec, b, c);
    DirLive(NewNode(g, n + 1, rec, b, c), 0);
  }

  lemma MarksGrow(count: nat, last: nat)
    requires last + 1 < count
    ensures Marks(count, last)[last + 1 := true] == Marks(count, last + 1)
  {
  }

  lemma ListingGrows(n: nat)
    requires n < NAMES
    ensures Listing(n)[n + 2 := Dirent(n + 1, NameOf(n))] == Listing(n + 1)
  {
  }

  lemma EntersListing(g: Fs, n: nat, rec: Inode, b: nat, c: Content)
    requires n < NAMES && CheckImage(g, n) == Intact && Entering(g, 0, n + 1, rec, b, c)
    ensures var h := Enter(g, 0, n + 1, rec, b, c, NameOf(n)).0;
            Wf(h) && IsDir(h, 0) && EntsAt(h, 0) == Listing(n + 1)
  {
    NameNew(n);
    EntersFree(g, n, rec, b, c, NameOf(n));
    ListingGrows(n);
    EntersRoot(g, n + 1, rec, b, c, NameOf(n));
  }

  lemma EntersRoot(g: Fs, i: nat, rec: Inode, b: nat, c: Content, name: string)
    requires Wf(g) && IsDir(g, 0) && Entering(g, 0, i, rec, b, c) && Enter(g, 0, i, rec, b, c, name).1 == 0
    requires i != 0 && name != "" && |name| <= NAME_MAX && !Has(EntsAt(g, 0), name)
    ensures var h := Enter(g, 0, i, rec, b, c, name).0;
            && Wf(h) && IsDir(h, 0) && FreeSlot(EntsAt(g, 0), 0) < |EntsAt(g, 0)|
            && EntsAt(h, 0) == EntsAt(g, 0)[FreeSlot(EntsAt(g, 0), 0) := Dirent(i, name)]
  {
    var h := Enter(g, 0, i, rec, b, c, name).0;
    EnterKeepsIff(g, 0, i, rec, b, c, name);
    EnterView(g, 0, i, rec, b, c, name);
    DirLive(g, 0);
    assert 0 in View(h).dirs;
    DirLive(h, 0);
  }

  lemma EntersImage(g: Fs, n: nat, rec: Inode, c: Content)
    requires n < NAMES && CheckImage(g, n) == Intact && Entering(g, 0, n + 1, rec, ROOT_DATA + n + 1, c)
    ensures CheckImage(Enter(g, 0, n + 1, rec, ROOT_DATA + n + 1, c, NameOf(n)).0, n + 1) == Intact
  {
    var b := ROOT_DATA + n + 1;
    EntersListing(g, n, rec, b, c);
    EntersMarks(g, n, rec, b, c);
  }

  lemma EntersMarks(g: Fs, n: nat, rec: Inode, b: nat, c: Content)
    requires n < NAMES && CheckImage(g, n) == Intact && b == ROOT_DATA + n + 1 && Entering(g, 0, n + 1, rec, b, c)
    ensures var h := Enter(g, 0, n + 1, rec, b, c, NameOf(n)).0;
            h.cwd == 0 && h.ibits == Marks(INODES, n + 1) && h.bbits == Marks(BLOCKS, ROOT_DATA + n + 1)
  {
    EntersFree(g, n, rec, b, c, NameOf(n));
    EnterKept(g, 0, n + 1, rec, b, c, NameOf(n));
    EnterBits(g, 0, n + 1, rec, b, c, NameOf(n));
    MarksGrow(INODES, n);
    MarksGrow(BLOCKS, ROOT_DATA + n);
  }

  lemma EnterBits(g: Fs, d: nat, i: nat, rec: Inode, b: nat, c: Content, name: string)
    requires Shape(g) && i < INODES && Enter(g, d, i, rec, b, c, name).1 == 0
    ensures Enter(g, d, i, rec, b, c, name).0.ibits == g.ibits[i := true]
  {
  }

  lemma RootImage()
    ensures CheckImage(RootOnly(), 0) == Intact
  {
    RootOk();
    assert RootOnly().ibits == Marks(INODES, 0);
    assert RootOnly().bbits == Marks(BLOCKS, ROOT_DATA);
  }

  lemma RecordFits(g: Fs, n: nat, readme: Content, hello: Content)
    requires n < NAMES && CheckImage(g, n) == Intact
    ensures Entering(g, 0, n + 1, Record(n), ROOT_DATA + n + 1, Contents(n, readme, hello))
  {
    assert !Marks(INODES, n)[n + 1] && !Marks(BLOCKS, ROOT_DATA + n)[ROOT_DATA + n + 1];
  }

  // The image is well formed after every name.
  lemma {:induction false} ImageOk(n: nat, readme: Content, hello: Content)
    requires n <= NAMES
    ensures CheckImage(Image(n, readme, hello), n) == Intact
  {
    RootImage();
    for m := 0 to n
      invariant CheckImage(Image(m, readme, hello), m) == Intact
    {
      ImageStep(m, readme, hello);
    }
  }

  lemma ImageStep(m: nat, readme: Content, hello: Content)
    requires m < NAMES && CheckImage(Image(m, readme, hello), m) == Intact
    ensures CheckImage(Image(m + 1, readme, hello), m + 1) == Intact
  {
    AddNameOk(Image(m, readme, hello), m, readme, hello);
  }

  lemma AddNameOk(g: Fs, m: nat, readme: Content, hello: Content)
    requires m < NAMES && |g.inodes| == INODES && CheckImage(g, m) == Intact
    ensures CheckImage(AddName(g, m, readme, hello), m + 1) == Intact
  {
    RecordFits(g, m, readme, hello);
    EntersImage(g, m, Record(m), Contents(m, readme, hello));
  }

  // Every state that sound operations reach from a fresh image is well formed.
  lemma FreshRuns(readme: Content, hello: Content, ops: seq<Op>, g: Fs)
    requires Shape(Image(NAMES, readme, hello)) && Reaches(Image(NAMES, readme, hello), ops, g)
    ensures Wf(g)
  {
    ImageOk(NAMES, readme, hello);
    RunKeeps(Image(NAMES, readme, hello), ops, g);
  }

  // ---------------------------------------------------------------- names that are too long

  // A name of 28 characters: the entry made for it gets the first 27.
  const Name28: string := "abcdefghijklmnopqrstuvwxyzab"
  const Name27: string := Name28[..27]

  lemma OneMoreName(es: seq<Dirent>, k: nat, x: Dirent, free: nat)
    requires k < |es| && x.name == Name27 && free < |es| && free != k && es[free].name == ""
    requires forall m :: 0 <= m < |es| ==> es[m].name != Name28
    ensures var r := es[k := x]; Has(r, Name27) && !Has(r, Name28) && HasFree(r)
  {
    var r := es[k := x];
    assert r[k].name == Name27 && r[free].name == "";
    assert |Name27| != |Name28|;
  }

  // The first create, in a directory with two free slots on a disk with two
  // free inodes.
  lemma ShortNameFits(fs: Fs, es: seq<Dirent>, i: nat, j: nat, a: nat, b: nat)
    requires Wf(fs) && IsDir(fs, 0) && EntsAt(fs, 0) == es
    requires 0 < i < j < INODES && !fs.ibits[i] && !fs.ibits[j]
    requires a < b < |es| && es[a].name == "" && es[b].name == ""
    requires forall k :: 0 <= k < |es| ==> es[k].name != Name27 && es[k].name != Name28
    ensures var (g, r) := CreateAt(fs, 0, Name27);
            && r == 0 && Wf(g) && IsDir(g, 0) && Has(EntsAt(g, 0), Name27) && !Has(EntsAt(g, 0), Name28)
            && HasClear(g.ibits, 1) && HasFree(EntsAt(g, 0))
  {
    CreateSucceedsIff(fs, 0, Name27);
    CreateEnters(fs, 0, Name27);
    var g := CreateAt(fs, 0, Name27).0;
    var n := FirstClear(fs.ibits, 1);
    var k :| 0 <= k < |es| && es[k].name == "" && EntsAt(g, 0) == es[k := Dirent(n, Name27)];
    OneMoreName(es, k, Dirent(n, Name27), if k == a then b else a);
    StillClear(fs, Name27, i, j);
  }

  lemma StillClear(fs: Fs, name: string, i: nat, j: nat)
    requires Shape(fs) && CreateAt(fs, 0, name).1 == 0 && 0 < i < j < INODES && !fs.ibits[i] && !fs.ibits[j]
    ensures HasClear(CreateAt(fs, 0, name).0.ibits, 1)
  {
    var g, n := CreateAt(fs, 0, name).0, FirstClear(fs.ibits, 1);
    EnterBits(fs, 0, n, Inode(File, 0, 0, 0), 0, Bytes([]), name);
    assert g.ibits == fs.ibits[n := true];
    assert !g.ibits[if n == i then j else i];
  }

  lemma LongNameBreaksOn(fs: Fs, n: nat)
    requires n <= NAMES && CheckImage(fs, n) == Intact
    ensures var (g, r) := CreateAt(fs, 0, Name27);
            && r == 0 && Wf(g) && CreateAt(g, 0, Name28).1 == 0 && !Wf(CreateAt(g, 0, Name28).0)
  {
    var es := Listing(n);
    forall k | 0 <= k < |es| ensures es[k].name != Name27 && es[k].name != Name28 {
      if 2 <= k < n + 2 { NameProper(k - 2); }
      assert |es[k].name| <= 10;
    }
    assert !Marks(INODES, n)[n + 1] && !Marks(INODES, n)[n + 2];
    ShortNameFits(fs, es, n + 1, n + 2, n + 2, n + 3);
    var g := CreateAt(fs, 0, Name27).0;
    CreateSucceedsIff(g, 0, Name28);
    CreateKeepsIff(g, 0, Name28);
    assert Stored(Name28) == Name27;
  }

  // On a fresh disk, creating Name27 and then Name28 leaves two entries of the
  // same name in the root.
  lemma LongNameBreaks(readme: Content, hello: Content, n: nat)
    requires n == NAMES
    ensures Shape(Image(n, readme, hello))
    ensures var (g, r) := CreateAt(Image(n, readme, hello), 0, Name27);
            && r == 0 && Wf(g) && CreateAt(g, 0, Name28).1 == 0 && !Wf(CreateAt(g, 0, Name28).0)
  {
    ImageOk(n, readme, hello);
    LongNameBreaksOn(Image(n, readme, hello), n);
  }

  lemma Name27New(n: nat)
    requires n <= NAMES
    ensures !Has(Listing(n), Name27) && HasFree(Listing(n)) && NoSlash(Name27) && Proper(Name27)
  {
    var es := Listing(n);
    forall k | 0 <= k < |es| ensures es[k].name != Name27 {
      if 2 <= k < n + 2 { NameProper(k - 2); }
      assert |es[k].name| <= 10;
    }
    assert es[n + 2].name == "";
  }

  lemma ClearBits(count: nat, last: nat, i: nat)
    requires last + 1 < count && i <= last + 1
    ensures FirstClear(Marks(count, last), i) == last + 1
  {
    FirstClearIs(Marks(count, last), i);
    assert !Marks(count, last)[last + 1];
  }

  // A new directory in the root of the image, and what is still free then.
  lemma LongDirectory(fs: Fs, n: nat)
    requires n <= NAMES && CheckImage(fs, n) == Intact
    ensures var (g, r) := MkdirAt(fs, 0, Name27);
            && r == 0 && Wf(g) && Look(g, 0, Name27) == Some(n + 1) && IsDir(g, n + 1)
            && EntsAt(g, n + 1) == Dots(n + 1, 0) && !g.ibits[n + 2] && !g.bbits[ROOT_DATA + n + 2]
  {
    Name27New(n);
    ClearBits(INODES, n, 1);
    ClearBits(BLOCKS, ROOT_DATA + n, 0);
    assert HasClear(fs.ibits, 1) && HasClear(fs.bbits, 0) by {
      assert !fs.ibits[n + 1] && !fs.bbits[ROOT_DATA + n + 1];
    }
    MkdirSucceedsIff(fs, 0, Name27);
    MkdirEnters(fs, 0, Name27);
    LongBits(fs, n);
  }

  lemma LongBits(fs: Fs, n: nat)
    requires n <= NAMES && CheckImage(fs, n) == Intact && MkdirAt(fs, 0, Name27).1 == 0
    requires FirstClear(fs.ibits, 1) == n + 1 && FirstClear(fs.bbits, 0) == ROOT_DATA + n + 1
    ensures var g := MkdirAt(fs, 0, Name27).0;
            |g.ibits| == INODES && |g.bbits| == BLOCKS && !g.ibits[n + 2] && !g.bbits[ROOT_DATA + n + 2]
  {
    var b := ROOT_DATA + n + 1;
    var rec, c := Inode(Dir, 64, b, 0), Entries(Dots(n + 1, 0));
    MkdirIs(fs, 0, Name27, n + 1, b);
    EnterBits(fs, 0, n + 1, rec, b, c, Name27);
    EnterKept(fs, 0, n + 1, rec, b, c, Name27);
    assert !fs.ibits[n + 2] && !fs.bbits[b + 1];
  }

  // On a fresh disk with a directory of 27 characters, tinyfs-add accepts a
  // destination that spells it with 28, and cat does not find the file.
  lemma CutPathOn(fs: Fs, n: nat, file: seq<Byte>, junk: seq<Byte>, cap: nat)
    requires n == NAMES && CheckImage(fs, n) == Intact
    requires 0 < |file| <= BLOCK_SIZE && |junk| == BLOCK_SIZE && cap > |file|
    ensures var g := MkdirAt(fs, 0, Name27).0;
            && Wf(g) && Shape(g)
            && var h := TinyfsAdd.AddAt(g, file, Name28 + "/f", junk);
            h.Some? && Wf(h.value) && Cat(h.value, "/" + Name28 + "/f", cap) == None
  {
    LongDirectory(fs, n);
    CutPathIn(MkdirAt(fs, 0, Name27).0, n, file, junk, cap);
  }

  lemma CutPathIn(g: Fs, n: nat, file: seq<Byte>, junk: seq<Byte>, cap: nat)
    requires n == NAMES && Wf(g) && Shape(g) && Look(g, 0, Name27) == Some(n + 1) && IsDir(g, n + 1)
    requires EntsAt(g, n + 1) == Dots(n + 1, 0) && !g.ibits[n + 2] && !g.bbits[ROOT_DATA + n + 2]
    requires 0 < |file| <= BLOCK_SIZE && |junk| == BLOCK_SIZE && cap > |file|
    ensures var h := TinyfsAdd.AddAt(g, file, Name28 + "/f", junk);
            h.Some? && Wf(h.value) && Cat(h.value, "/" + Name28 + "/f", cap) == None
  {
    Name27New(n);
    DotsHave(n + 1);
    CutNames();
    TinyfsAdd.CutInput(g, file, Name27, 'b', "f", n + 1, junk, cap, n + 2, ROOT_DATA + n + 2);
  }

  lemma CutNames()
    ensures Name27 + ['b'] + "/" + "f" == Name28 + "/f" && "/" + (Name28 + "/f") == "/" + Name28 + "/f"
    ensures |Name27| == NAME_MAX
  {
    assert Name27 + ['b'] == Name28;
  }

  lemma DotsHave(i: nat)
    ensures HasFree(Dots(i, 0)) && !Has(Dots(i, 0), "f")
  {
    var es := Dots(i, 0);
    assert es[2].name == "";
    forall k | 0 <= k < |es| ensures es[k].name != "f" { assert k >= 2 ==> es[k] == FreeEntry; }
  }

  lemma CutPathLost(readme: Content, hello: Content, n: nat, file: seq<Byte>, junk: seq<Byte>, cap: nat)
    requires n == NAMES && 0 < |file| <= BLOCK_SIZE && |junk| == BLOCK_SIZE && cap > |file|
    ensures Shape(Image(n, readme, hello))
    ensures var g := MkdirAt(Image(n, readme, hello), 0, Name27).0;
            && Shape(g)
            && var h := TinyfsAdd.AddAt(g, file, Name28 + "/f", junk);
            h.Some? && Cat(h.value, "/" + Name28 + "/f", cap) == None
  {
    ImageOk(n, readme, hello);
    CutPathOn(Image(n, readme, hello), n, file, junk, cap);
  }

  // ---------------------------------------------------------------- writing to a fresh disk

  // On a fresh disk a write to any new name in the root succeeds, and its data reads back.
  lemma FirstWrite(readme: Content, hello: Content, n: nat, name: string, data: seq<Byte>, cap: nat)
    requires n == NAMES && NoSlash(name) && Proper(name) && |name| <= NAME_MAX && !Has(Listing(n), name) && cap > 0
    ensures Shape(Image(n, readme, hello))
    ensures var (g, r) := WriteFile(Image(n, readme, hello), name, data);
            r == |data| && Cat(g, name, cap) == Some(data[..Min(Min(|data|, cap - 1), BLOCK_SIZE)])
  {
    ImageOk(n, readme, hello);
    FirstWriteOn(Image(n, readme, hello), n, name, data, cap);
  }

  lemma FirstWriteOn(fs: Fs, n: nat, name: string, data: seq<Byte>, cap: nat)
    requires n <= NAMES && CheckImage(fs, n) == Intact && Shape(fs)
    requires NoSlash(name) && Proper(name) && |name| <= NAME_MAX && !Has(Listing(n), name) && cap > 0
    ensures var (g, r) := WriteFile(fs, name, data);
            r == |data| && Cat(g, name, cap) == Some(data[..Min(Min(|data|, cap - 1), BLOCK_SIZE)])
  {
    assert AfterSlash(name) == 0 && name[0..] == name;
    assert !fs.ibits[n + 1] && !fs.bbits[ROOT_DATA + n + 1] && Listing(n)[n + 2].name == "";
    ResolveSplit(fs, name);
    FoundIff(fs, 0, name);
    WriteSucceedsIff(fs, name, data);
    WriteReads(fs, name, data, cap);
  }

  // ---------------------------------------------------------------- paths that end in a dot name

  // Inode j + 1 of the image has its record, and a directory its two dots.
  predicate Recorded(fs: Fs, j: nat) {
    && Live(fs, j + 1) && fs.inodes[j + 1] == Record(j)
    && (j >= 2 ==> EntsAt(fs, j + 1) == Dots(j + 1, 0))
  }

  // What is needed of the image when name m is entered.
  lemma NameEnters(g: Fs, m: nat, readme: Content, hello: Content)
    requires m < NAMES && |g.inodes| == INODES && CheckImage(g, m) == Intact
    ensures BlocksOk(g)
    ensures Entering(g, 0, m + 1, Record(m), ROOT_DATA + m + 1, Contents(m, readme, hello))
    ensures Enter(g, 0, m + 1, Record(m), ROOT_DATA + m + 1, Contents(m, readme, hello), NameOf(m)).1 == 0
  {
    RecordFits(g, m, readme, hello);
    EntersFree(g, m, Record(m), ROOT_DATA + m + 1, Contents(m, readme, hello), NameOf(m));
  }

  lemma EnteredRecord(g: Fs, m: nat, c: Content, name: string)
    requires BlocksOk(g) && Entering(g, 0, m + 1, Record(m), ROOT_DATA + m + 1, c)
    requires m >= 2 ==> c == Entries(Dots(m + 1, 0))
    requires Enter(g, 0, m + 1, Record(m), ROOT_DATA + m + 1, c, name).1 == 0
    ensures Recorded(Enter(g, 0, m + 1, Record(m), ROOT_DATA + m + 1, c, name).0, m)
  {
    EnterKept(g, 0, m + 1, Record(m), ROOT_DATA + m + 1, c, name);
    if m >= 2 { NewDots(g, 0, m + 1, Record(m), ROOT_DATA + m + 1, name); }
  }

  lemma KeptRecord(g: Fs, h: Fs, j: nat, i: nat)
    requires OthersKept(g, h, i, 0) && Recorded(g, j) && j + 1 != i
    ensures Recorded(h, j)
  {
    assert Kept(g, h, j + 1);
    KeptRefs(g, h, j + 1);
  }

  lemma RecordEnters(g: Fs, m: nat, readme: Content, hello: Content)
    requires m < NAMES && |g.inodes| == INODES && CheckImage(g, m) == Intact
    ensures Recorded(AddName(g, m, readme, hello), m)
  {
    NameEnters(g, m, readme, hello);
    EnteredRecord(g, m, Contents(m, readme, hello), NameOf(m));
  }

  lemma RecordStays(g: Fs, m: nat, j: nat, readme: Content, hello: Content)
    requires j < m < NAMES && |g.inodes| == INODES && CheckImage(g, m) == Intact && Recorded(g, j)
    ensures Recorded(AddName(g, m, readme, hello), j)
  {
    NameEnters(g, m, readme, hello);
    EnterKept(g, 0, m + 1, Record(m), ROOT_DATA + m + 1, Contents(m, readme, hello), NameOf(m));
    KeptRecord(g, AddName(g, m, readme, hello), j, m + 1);
  }

  // Both at once; nothing is said of j before its name is entered.
  ghost function CheckHolding(fs: Fs, n: nat, j: nat): Sealed
    requires n <= NAMES
  {
    if CheckImage(fs, n) == Intact && (j < n ==> Recorded(fs, j)) then Intact else Broken
  }

  lemma HoldingStep(g: Fs, m: nat, j: nat, readme: Content, hello: Content)
    requires m < NAMES && |g.inodes| == INODES && CheckHolding(g, m, j) == Intact
    ensures CheckHolding(AddName(g, m, readme, hello), m + 1, j) == Intact
  {
    AddNameOk(g, m, readme, hello);
    if j == m { RecordEnters(g, m, readme, hello); } else if j < m { RecordStays(g, m, j, readme, hello); }
  }

  lemma ImageHolds(m: nat, j: nat, readme: Content, hello: Content)
    requires m < NAMES && CheckHolding(Image(m, readme, hello), m, j) == Intact
    ensures CheckHolding(Image(m + 1, readme, hello), m + 1, j) == Intact
  {
    HoldingStep(Image(m, readme, hello), m, j, readme, hello);
  }

  lemma ImageRecords(j: nat, n: nat, readme: Content, hello: Content)
    requires n <= NAMES
    ensures CheckHolding(Image(n, readme, hello), n, j) == Intact
  {
    RootImage();
    for m := 0 to n
      invariant CheckHolding(Image(m, readme, hello), m, j) == Intact
    {
      ImageHolds(m, j, readme, hello);
    }
  }

  lemma NameSlot(n: nat, j: nat)
    requires j < n <= NAMES
    ensures FindName(Listing(n), NameOf(j), 0) == j + 2
  {
    var es := Listing(n);
    NameProper(j);
    FindNameIs(es, NameOf(j), 0);
    assert es[j + 2].name == NameOf(j);
    var k := FindName(es, NameOf(j), 0);
    if 2 <= k < j + 2 { NamesDiffer(k - 2, j); }
  }

  lemma NameFound(fs: Fs, n: nat, j: nat)
    requires j < n <= NAMES && CheckImage(fs, n) == Intact
    ensures Look(fs, 0, NameOf(j)) == Some(j + 1)
  {
    assert HasBlock(fs, 0) by { DirLive(fs, 0); }
    NameSlot(n, j);
  }

  lemma NameResolves(fs: Fs, n: nat, j: nat)
    requires j < n <= NAMES && CheckImage(fs, n) == Intact
    ensures Resolve(fs, NameOf(j)) == Some(j + 1)
  {
    NameFound(fs, n, j);
    NameProper(j);
    ResolvesTop(fs, NameOf(j), j + 1);
  }

  lemma ResolvesTop(fs: Fs, name: string, t: nat)
    requires fs.cwd == 0 && Look(fs, 0, name) == Some(t) && Proper(name) && |name| <= COMPONENT_MAX && NoSlash(name)
    ensures Resolve(fs, name) == Some(t)
  {
    ResolveTop(fs, name);
  }

  lemma DotsBare(i: nat, p: nat)
    ensures Bare(Dots(i, p))
  {
  }

  lemma RmdirDotOn(fs: Fs, n: nat)
    requires 2 < n <= NAMES && CheckHolding(fs, n, 2) == Intact
    ensures var (g, r) := Rmdir(fs, "bin/."); r == 0 && !Wf(g)
  {
    NameResolves(fs, n, 2);
    DotsBare(3, 0);
    RmdirDot(fs, "bin", 3);
    assert "bin" + "/." == "bin/.";
  }

  // On a fresh disk, removing "bin/." succeeds and leaves the entry "bin" of a
  // directory that is gone.
  lemma RmdirDotBreaks(readme: Content, hello: Content, n: nat)
    requires n == NAMES
    ensures Shape(Image(n, readme, hello))
    ensures var (g, r) := Rmdir(Image(n, readme, hello), "bin/."); r == 0 && !Wf(g)
  {
    ImageRecords(2, n, readme, hello);
    RmdirDotOn(Image(n, readme, hello), n);
  }

  lemma NewInListing(n: nat, name: string)
    requires n <= NAMES && |name| == 1 && name != "."
    ensures !Has(Listing(n), name) && HasFree(Listing(n))
  {
    var es := Listing(n);
    forall k | 0 <= k < |es| ensures es[k].name != name {
      if 2 <= k < n + 2 { NameProper(k - 2); }
    }
    assert es[n + 2].name == "";
  }

  lemma RenameDotOn(fs: Fs, n: nat, p: string, to: string)
    requires 2 < n <= NAMES && CheckHolding(fs, n, 1) == Intact && p == NameOf(1)
    requires |to| == 1 && Proper(to) && NoSlash(to)
    ensures var (g, r) := Rename(fs, p + "/.", to); r == -1 && !Wf(g)
  {
    NameResolves(fs, n, 1);
    NameProper(1);
    NewInListing(n, to);
    RenameDot(fs, p, 2, to);
  }

  lemma HelloDot()
    ensures "hello.txt" + "/." == "hello.txt/." && NameOf(1) == "hello.txt" && Proper("x") && NoSlash("x")
  {
  }

  // There too, renaming "hello.txt/." to "x" fails and leaves the file with two
  // names.
  lemma RenameDotBreaks(readme: Content, hello: Content, n: nat)
    requires n == NAMES
    ensures Shape(Image(n, readme, hello))
    ensures var (g, r) := Rename(Image(n, readme, hello), "hello.txt/.", "x"); r == -1 && !Wf(g)
  {
    ImageRecords(1, n, readme, hello);
    HelloDot();
    RenameDotOn(Image(n, readme, hello), n, "hello.txt", "x");
  }
}
