/** The file operations on paths, and what every run of them keeps. */
module FileOps {
  import opened Prelude
  import opened FsTree
  import opened TinyFs
  import opened Vfs
  import opened Paths

  function Create(fs: Fs, path: string): (Fs, int)
    requires Shape(fs)
  {
    if path == "" || Component(path) == "" then (fs, -1)
    else match ParentOf(fs, path)
      case None => (fs, -1)
      case Some(d) => CreateAt(fs, d, Component(path))
  }

  function Mkdir(fs: Fs, path: string): (Fs, int)
    requires Shape(fs)
  {
    if path == "" || path == "/" || Component(path) == "" then (fs, -1)
    else match ParentOf(fs, path)
      case None => (fs, -1)
      case Some(d) => MkdirAt(fs, d, Component(path))
  }

  function Delete(fs: Fs, path: string): (Fs, int)
    requires Shape(fs)
  {
    if path == "" || Resolve(fs, path).None? || ParentOf(fs, path).None? then (fs, -1)
    else DeleteAt(fs, Resolve(fs, path).value, ParentOf(fs, path).value, Component(path))
  }

  function Rmdir(fs: Fs, path: string): (Fs, int)
    requires Shape(fs)
  {
    if path == "" || path == "/" || Resolve(fs, path).None? || ParentOf(fs, path).None? then (fs, -1)
    else RmdirAt(fs, Resolve(fs, path).value, ParentOf(fs, path).value, Component(path))
  }

  function Rename(fs: Fs, from: string, to: string): (Fs, int)
    requires Shape(fs)
  {
    if || from == "" || to == "" || Resolve(fs, from).None? || Component(from) == "" || ParentOf(fs, from).None?
       || Component(to) == "" || ParentOf(fs, to).None?
    then (fs, -1)
    else RenameAt(fs, Resolve(fs, from).value, ParentOf(fs, from).value, Component(from),
                  ParentOf(fs, to).value, Component(to))
  }

  function Cd(fs: Fs, path: string): (Fs, int) {
    if path == "" || path == "/" then (fs.(cwd := 0), 0)
    else match Resolve(fs, path)
      case None => (fs, -1)
      case Some(d) => if d < |fs.inodes| && fs.inodes[d].kind == Dir then (fs.(cwd := d), 0) else (fs, -1)
  }

  // A file's block is written, a new one if it has none.
  function PutBlock(fs: Fs, i: nat, c: Content, size: nat): (Fs, int)
    requires Shape(fs) && i < INODES
  {
    var b := fs.inodes[i].direct;
    if b == 0 then FillAt(fs, i, c, size)
    else if b >= BLOCKS then (fs, -1)
    else (fs.(blocks := fs.blocks[b := c], inodes := fs.inodes[i := fs.inodes[i].(size := size)]), 0)
  }

  function Copy(fs: Fs, src: string, dst: string): (Fs, int)
    requires Shape(fs)
  {
    var s := Resolve(fs, src);
    if src == "" || dst == "" || s.None? || s.value >= INODES || fs.inodes[s.value].kind != File then (fs, -1)
    else
      var (g, r) := Create(fs, dst);
      if r < 0 || !Shape(g) then (g, -1) else CopyInto(g, Resolve(g, dst), fs.inodes[s.value])
  }

  // The second half of a copy: the contents of the file with record n.
  function CopyInto(g: Fs, t: Option<nat>, n: Inode): (Fs, int)
    requires Shape(g)
  {
    if t.None? || t.value >= INODES || g.inodes[t.value].kind != File then (g, -1)
    else if n.size == 0 then (g, 0)
    else if n.direct >= BLOCKS then (g, -1)
    else PutBlock(g, t.value, BlockAt(g, n.direct), n.size)
  }

  // The block that holds the data, padded with zeros.
  function Padded(data: seq<Byte>): seq<Byte> {
    if |data| >= BLOCK_SIZE then data[..BLOCK_SIZE] else data + seq(BLOCK_SIZE - |data|, _ => 0)
  }

  function WriteFile(fs: Fs, path: string, data: seq<Byte>): (Fs, int)
    requires Shape(fs)
  {
    if path == "" then (fs, -1)
    else
      var g := Delete(fs, path).0;
      if !Shape(g) then (g, -1)
      else
        var (h, r) := Create(g, path);
        if r < 0 || !Shape(h) then (h, -1) else PutData(h, Resolve(h, path), data)
  }

  // The second half of a write: the data of the new file i.
  function PutData(h: Fs, i: Option<nat>, data: seq<Byte>): (Fs, int)
    requires Shape(h)
  {
    if i.None? || i.value >= INODES then (h, -1)
    else if |data| == 0 then (h, 0)
    else
      var (k, q) := FillAt(h, i.value, Bytes(Padded(data)), |data|);
      (k, if q < 0 then -1 else |data|)
  }

  lemma CreateShape(fs: Fs, path: string)
    requires Shape(fs)
    ensures Shape(Create(fs, path).0)
  {
  }

  lemma DeleteShape(fs: Fs, path: string)
    requires Shape(fs)
    ensures Shape(Delete(fs, path).0)
  {
  }

  // ---------------------------------------------------------------- reading

  function Chunk(c: Content, n: nat): seq<Byte> { if n <= |BytesOf(c)| then BytesOf(c)[..n] else BytesOf(c) }

  // The bytes read through the block numbers from the i-th on, `left` at most.
  function Indirect(fs: Fs, nums: seq<nat>, i: nat, left: nat): seq<Byte>
    decreases |nums| - i
  {
    if i >= |nums| || left == 0 || nums[i] == 0 then []
    else
      var n := Min(left, BLOCK_SIZE);
      Chunk(BlockAt(fs, nums[i]), n) + Indirect(fs, nums, i + 1, left - n)
  }

  // What cat puts into a buffer of `cap` bytes.
  function Read(fs: Fs, n: Inode, cap: nat): seq<Byte>
    requires cap > 0
  {
    var size := Min(n.size, cap - 1);
    var first := if n.direct > 0 then Chunk(BlockAt(fs, n.direct), Min(size, BLOCK_SIZE)) else [];
    var got := if n.direct > 0 then Min(size, BLOCK_SIZE) else 0;
    if got < size && n.indirect > 0 then first + Indirect(fs, NumbersOf(BlockAt(fs, n.indirect)), 0, size - got)
    else first
  }

  function Cat(fs: Fs, path: string, cap: nat): Option<seq<Byte>>
    requires cap > 0
  {
    match Resolve(fs, path)
    case None => None
    case Some(i) => if i < |fs.inodes| && fs.inodes[i].kind == File then Some(Read(fs, fs.inodes[i], cap)) else None
  }

  lemma {:induction false} IndirectSame(fs: Fs, g: Fs, nums: seq<nat>, i: nat, left: nat)
    requires forall b :: b in nums && b != 0 ==> BlockAt(g, b) == BlockAt(fs, b)
    ensures Indirect(g, nums, i, left) == Indirect(fs, nums, i, left)
    decreases |nums| - i
  {
    if i < |nums| && left > 0 && nums[i] != 0 {
      assert nums[i] in nums;
      IndirectSame(fs, g, nums, i + 1, left - Min(left, BLOCK_SIZE));
    }
  }

  // A file that is kept reads as before.
  lemma ReadSame(fs: Fs, g: Fs, j: nat, cap: nat)
    requires Kept(fs, g, j) && cap > 0
    ensures Read(g, g.inodes[j], cap) == Read(fs, fs.inodes[j], cap)
  {
    var n := fs.inodes[j];
    assert n.direct != 0 ==> n.direct in Refs(fs, j);
    assert n.indirect != 0 ==> n.indirect in Refs(fs, j);
    if n.indirect != 0 {
      var nums := NumbersOf(BlockAt(fs, n.indirect));
      var size := Min(n.size, cap - 1);
      var got := if n.direct > 0 then Min(size, BLOCK_SIZE) else 0;
      if got < size { IndirectSame(fs, g, nums, 0, size - got); }
    }
  }

  // ---------------------------------------------------------------- create, on a path

  lemma {:induction false} FindNameNew(es: seq<Dirent>, k: nat, x: Dirent, i: nat)
    requires i <= k < |es| && x.name != "" && !Has(es, x.name)
    ensures FindName(es[k := x], x.name, i) == k
    decreases k - i
  {
    if i < k {
      assert es[i].name != x.name;
      FindNameNew(es, k, x, i + 1);
    }
  }

  // The file or directory just entered under a name of at most 27 characters.
  ghost predicate Entered(fs: Fs, g: Fs, d: nat, name: string, i: nat) { CheckEntered(fs, g, d, name, i) == Intact }

  ghost function CheckEntered(fs: Fs, g: Fs, d: nat, name: string, i: nat): Sealed {
    if && Wf(fs) && Wf(g) && IsDir(fs, d) && IsDir(g, d) && i != d && !Live(fs, i) && Live(g, i)
       && OthersKept(fs, g, i, d) && g.cwd == fs.cwd
       && !Has(EntsAt(fs, d), name) && name != ""
       && exists k :: 0 <= k < |EntsAt(fs, d)| && EntsAt(fs, d)[k].name == ""
                      && EntsAt(g, d) == EntsAt(fs, d)[k := Dirent(i, name)]
    then Intact else Broken
  }

  lemma CreateEnters(fs: Fs, d: nat, name: string)
    requires Wf(fs) && IsDir(fs, d) && name != "" && |name| <= NAME_MAX && CreateAt(fs, d, name).1 == 0
    ensures var g := CreateAt(fs, d, name).0;
            var i := FirstClear(fs.ibits, 1);
            Entered(fs, g, d, name, i) && g.inodes[i] == Inode(File, 0, 0, 0)
  {
    var i := FirstClear(fs.ibits, 1);
    var n := Inode(File, 0, 0, 0);
    CreateKeepsIff(fs, d, name);
    FirstClearIs(fs.ibits, 1);
    assert CreateAt(fs, d, name) == Enter(fs, d, i, n, 0, Bytes([]), name);
    NewEntered(fs, d, i, n, 0, Bytes([]), name);
  }

  lemma NewEntered(fs: Fs, d: nat, i: nat, n: Inode, b: nat, c: Content, name: string)
    requires Wf(fs) && Entering(fs, d, i, n, b, c) && name != "" && |name| <= NAME_MAX && !Has(EntsAt(fs, d), name)
    requires Enter(fs, d, i, n, b, c, name).1 == 0 && Wf(Enter(fs, d, i, n, b, c, name).0)
    ensures var g := Enter(fs, d, i, n, b, c, name).0;
            Entered(fs, g, d, name, i) && g.inodes[i] == n
  {
    EnterKept(fs, d, i, n, b, c, name);
    EnterView(fs, d, i, n, b, c, name);
    DirLive(fs, d);
    DirStays(fs, Enter(fs, d, i, n, b, c, name).0, d, i, name, n.kind == Dir);
  }

  // After a successful mkdir the name leads to a new directory with nothing in
  // it but "." and "..".
  lemma MkdirEnters(fs: Fs, d: nat, name: string)
    requires Wf(fs) && IsDir(fs, d) && name != "" && |name| <= NAME_MAX && MkdirAt(fs, d, name).1 == 0
    ensures var g := MkdirAt(fs, d, name).0;
            var i := FirstClear(fs.ibits, 1);
            Entered(fs, g, d, name, i) && Look(g, d, name) == Some(i) && IsDir(g, i) && EntsAt(g, i) == Dots(i, d)
  {
    var i, b := FirstClear(fs.ibits, 1), FirstClear(fs.bbits, 0);
    var n, c := Inode(Dir, 64, b, 0), Entries(Dots(i, d));
    MkdirIs(fs, d, name, i, b);
    NewEntered(fs, d, i, n, b, c, name);
    EnteredLook(fs, MkdirAt(fs, d, name).0, d, name, i);
    NewDots(fs, d, i, n, b, name);
  }

  lemma MkdirIs(fs: Fs, d: nat, name: string, i: nat, b: nat)
    requires Wf(fs) && IsDir(fs, d) && name != "" && |name| <= NAME_MAX && MkdirAt(fs, d, name).1 == 0
    requires i == FirstClear(fs.ibits, 1) && b == FirstClear(fs.bbits, 0)
    ensures i < INODES && Wf(MkdirAt(fs, d, name).0) && !Has(EntsAt(fs, d), name)
    ensures Entering(fs, d, i, Inode(Dir, 64, b, 0), b, Entries(Dots(i, d)))
    ensures MkdirAt(fs, d, name) == Enter(fs, d, i, Inode(Dir, 64, b, 0), b, Entries(Dots(i, d)), name)
  {
    MkdirKeepsIff(fs, d, name);
    FirstClearIs(fs.ibits, 1);
    FirstClearIs(fs.bbits, 0);
  }

  lemma NewDots(fs: Fs, d: nat, i: nat, n: Inode, b: nat, name: string)
    requires BlocksOk(fs) && Entering(fs, d, i, n, b, Entries(Dots(i, d))) && n.kind == Dir
    requires Enter(fs, d, i, n, b, Entries(Dots(i, d)), name).1 == 0
    ensures var g := Enter(fs, d, i, n, b, Entries(Dots(i, d)), name).0; IsDir(g, i) && EntsAt(g, i) == Dots(i, d)
  {
    var g := Enter(fs, d, i, n, b, Entries(Dots(i, d)), name).0;
    EnterView(fs, d, i, n, b, Entries(Dots(i, d)), name);
    assert i in View(g).dirs;
    DirLive(g, i);
  }

  // After an erase the name is gone.
  lemma EraseGone(fs: Fs, t: nat, d: nat, name: string)
    requires Wf(fs) && Leads(fs, d, name, t) && Proper(name) && (IsDir(fs, t) ==> Bare(EntsAt(fs, t)))
    ensures Live(fs, t) && IsDir(Erase(fs, t, d, name), d) && !Has(EntsAt(Erase(fs, t, d, name), d), name)
  {
    var es := EntsAt(fs, d);
    LeadsHolds(fs, d, name, t);
    EraseIs(fs, t, d, name);
    Slots(fs, d);
    FindNameIs(es, name, 0);
    NameGone(es, FindName(es, name, 0), name);
    var g := Erase(fs, t, d, name);
    DirLive(fs, d);
    assert d in View(g).dirs;
    DirLive(g, d);
  }

  // After a rename to a name that is new as stored, that name leads to the
  // inode, and the old one is gone.
  lemma RenameMoves(fs: Fs, t: nat, d: nat, name: string, e: nat, to: string)
    requires Wf(fs) && Leads(fs, d, name, t) && Live(fs, e) && to != ""
    requires Linkable(fs, e, to) && !Has(EntsAt(fs, e), Stored(to))
    ensures var (g, r) := RenameAt(fs, t, d, name, e, to);
            && r == 0 && IsDir(g, d) && IsDir(g, e)
            && Look(g, e, Stored(to)) == Some(t) && !Has(EntsAt(g, d), name)
  {
    var k, j := FindName(EntsAt(fs, d), name, 0), FreeSlot(EntsAt(fs, e), 0);
    RenamedEntries(fs, t, d, name, e, to);
    MovedNames(EntsAt(fs, d), EntsAt(fs, e), k, j, Dirent(t, Stored(to)), name, d == e);
  }

  lemma RenamedEntries(fs: Fs, t: nat, d: nat, name: string, e: nat, to: string)
    requires Wf(fs) && Leads(fs, d, name, t) && Live(fs, e) && to != ""
    requires Linkable(fs, e, to) && !Has(EntsAt(fs, e), Stored(to))
    ensures var (g, r) := RenameAt(fs, t, d, name, e, to);
            var k, j, x := FindName(EntsAt(fs, d), name, 0), FreeSlot(EntsAt(fs, e), 0), Dirent(t, Stored(to));
            && r == 0 && x.name != "" && name != ""
            && Distinct(EntsAt(fs, d)) && k < |EntsAt(fs, d)| && EntsAt(fs, d)[k].name == name
            && j < |EntsAt(fs, e)| && EntsAt(fs, e)[j].name == ""
            && IsDir(g, d) && IsDir(g, e) && HasBlock(g, e)
            && (d == e ==> EntsAt(g, d) == EntsAt(fs, d)[j := x][k := FreeEntry])
            && (d != e ==> EntsAt(g, d) == EntsAt(fs, d)[k := FreeEntry] && EntsAt(g, e) == EntsAt(fs, e)[j := x])
  {
    var g := RenameAt(fs, t, d, name, e, to).0;
    DotLeads(fs, d, name, t);
    Slots(fs, d);
    RenameHalves(fs, t, d, name, e, to);
    DirLive(fs, d);
    DirLive(fs, e);
    LeadsIff(fs, d, name, t);
    FindNameHas(EntsAt(fs, d), name);
    LinkIs(fs, t, e, to);
    RenameIs(fs, t, d, name, e, to);
    assert d in View(g).dirs && e in View(g).dirs;
    DirLive(g, d);
    DirLive(g, e);
  }

  // The two directories after the move; they may be one.
  lemma MovedNames(es: seq<Dirent>, fs: seq<Dirent>, k: nat, j: nat, x: Dirent, name: string, one: bool)
    requires Distinct(es) && k < |es| && es[k].name == name && name != ""
    requires j < |fs| && fs[j].name == "" && !Has(fs, x.name) && x.name != "" && (one ==> es == fs)
    ensures one ==>
        k != j && !Has(es[j := x][k := FreeEntry], name) && FindName(es[j := x][k := FreeEntry], x.name, 0) == j
    ensures !one ==> !Has(es[k := FreeEntry], name) && FindName(fs[j := x], x.name, 0) == j
  {
    NameGone(es, k, name);
    if one {
      assert x.name != name by { assert es[k].name == name; }
      var gs := es[k := FreeEntry];
      assert es[j := x][k := FreeEntry] == gs[j := x];
      assert !Has(gs, x.name);
      FindNameNew(gs, j, x, 0);
      assert !Has(gs[j := x], name);
    } else {
      FindNameNew(fs, j, x, 0);
    }
  }

  lemma DirStays(fs: Fs, g: Fs, d: nat, i: nat, name: string, dir: bool)
    requires BlocksOk(fs) && BlocksOk(g) && IsDir(fs, d) && !Live(fs, i)
    requires var k := FreeSlot(EntsAt(fs, d), 0);
             && d in View(fs).dirs && k < |View(fs).dirs[d]| && View(fs).dirs[d][k].name == ""
             && View(g) == Attach(View(fs), d, k, i, name, dir)
    ensures IsDir(g, d) && i != d
    ensures var k := FreeSlot(EntsAt(fs, d), 0);
            && 0 <= k < |EntsAt(fs, d)| && EntsAt(fs, d)[k].name == ""
            && EntsAt(g, d) == EntsAt(fs, d)[k := Dirent(i, name)]
  {
    DirLive(fs, d);
    assert d in View(g).dirs;
    DirLive(g, d);
  }

  lemma EnteredLook(fs: Fs, g: Fs, d: nat, name: string, i: nat)
    requires Entered(fs, g, d, name, i)
    ensures Look(g, d, name) == Some(i)
  {
    var k :| 0 <= k < |EntsAt(fs, d)| && EntsAt(fs, d)[k].name == ""
        && EntsAt(g, d) == EntsAt(fs, d)[k := Dirent(i, name)];
    FindNameNew(EntsAt(fs, d), k, Dirent(i, name), 0);
    DirLive(g, d);
  }

  // A lookup that leads from a directory to a directory is not affected.
  lemma EnteredKeepsDirs(fs: Fs, g: Fs, d: nat, name: string, i: nat, x: nat, n: string)
    requires Entered(fs, g, d, name, i) && IsDir(fs, x)
    ensures IsDir(g, x)
    ensures Look(fs, x, n).Some? ==> Look(g, x, n) == Look(fs, x, n)
  {
    if x != d {
      assert Kept(fs, g, x);
      KeptLook(fs, g, x, n);
    } else {
      DirLive(g, d);
      var es := EntsAt(fs, d);
      var k :| 0 <= k < |es| && es[k].name == "" && EntsAt(g, d) == es[k := Dirent(i, name)];
      FindNameIs(es, n, 0);
      if n != name { SameLook(es, k, Dirent(i, name), n); }
    }
  }

  lemma KeptLook(fs: Fs, g: Fs, x: nat, n: string)
    requires BlocksOk(fs) && BlocksOk(g) && IsDir(fs, x) && Live(g, x) && Kept(fs, g, x)
    ensures IsDir(g, x) && Look(g, x, n) == Look(fs, x, n)
  {
    DirLive(fs, x);
    KeptRefs(fs, g, x);
    DirLive(g, x);
  }

  // Filling a free slot does not move the entry of another name.
  lemma SameLook(es: seq<Dirent>, k: nat, x: Dirent, n: string)
    requires k < |es| && es[k].name == "" && x.name != n
    ensures var j := FindName(es, n, 0);
            j < |es| ==> FindName(es[k := x], n, 0) == j && es[k := x][j] == es[j]
  {
    FindNameIs(es, n, 0);
    FindNameSet(es, k, x, n, 0);
  }

  // Resolution that ends in a directory only passes through directories, so it
  // ends there still.
  lemma {:induction false} EnteredWalk(fs: Fs, g: Fs, d: nat, name: string, i: nat, cur: nat, path: string,
                                       comp: string)
    requires Entered(fs, g, d, name, i) && Live(fs, cur) && Walk(fs, cur, path, comp).Some?
    requires IsDir(fs, Walk(fs, cur, path, comp).value)
    ensures Walk(g, cur, path, comp) == Walk(fs, cur, path, comp)
    decreases |path|
  {
    if path == "" || path[0] == '/' {
      EnteredClose(fs, g, d, name, i, cur, comp);
      if path != "" {
        CloseLive(fs, cur, comp);
        EnteredWalk(fs, g, d, name, i, Close(fs, cur, comp).value, path[1..], "");
      }
    } else {
      EnteredWalk(fs, g, d, name, i, cur, path[1..], if |comp| < COMPONENT_MAX then comp + [path[0]] else comp);
    }
  }

  lemma EnteredClose(fs: Fs, g: Fs, d: nat, name: string, i: nat, cur: nat, comp: string)
    requires Entered(fs, g, d, name, i) && Live(fs, cur) && Close(fs, cur, comp).Some?
    ensures Close(g, cur, comp) == Close(fs, cur, comp)
  {
    var n := if comp == ".." && cur == 0 then "." else comp;
    LookLive(fs, cur, n);
    if Look(fs, cur, n).Some? { EnteredKeepsDirs(fs, g, d, name, i, cur, n); }
  }

  lemma EnteredParent(fs: Fs, g: Fs, d: nat, name: string, i: nat, path: string)
    requires Entered(fs, g, d, name, i) && ParentOf(fs, path) == Some(d)
    ensures ParentOf(g, path) == Some(d)
  {
    RootLive(fs);
    var p := ParentPath(path);
    if p != "" {
      if p[0] == '/' { EnteredWalk(fs, g, d, name, i, 0, p[1..], ""); }
      else { EnteredWalk(fs, g, d, name, i, fs.cwd, p, ""); }
    }
  }

  // After a successful create the path leads to the new, empty file.
  lemma CreateResolves(fs: Fs, path: string)
    requires Wf(fs) && Plain(path) && Create(fs, path).1 == 0
    ensures var g := Create(fs, path).0;
            var i := Resolve(g, path);
            && ParentOf(fs, path).Some? && i.Some? && Wf(g)
            && Entered(fs, g, ParentOf(fs, path).value, Last(path), i.value)
            && g.inodes[i.value] == Inode(File, 0, 0, 0)
  {
    ResolveSplit(fs, path);
    ResolveLive(fs, path);
    var d := ParentOf(fs, path).value;
    var g := Create(fs, path).0;
    CreateEnters(fs, d, Last(path));
    var i := FirstClear(fs.ibits, 1);
    EnteredParent(fs, g, d, Last(path), i, path);
    EnteredLook(fs, g, d, Last(path), i);
    ResolveSplit(g, path);
  }

  // ---------------------------------------------------------------- every operation keeps the file system well formed

  // The name that a path would get in its parent is not taken yet.
  predicate NewAt(fs: Fs, path: string) {
    match ParentOf(fs, path)
    case None => true
    case Some(d) => d < |fs.inodes| && !Has(EntsAt(fs, d), Stored(Component(path)))
  }

  // A successful create keeps the file system well formed exactly when the name
  // it stores is new; a failing one changes nothing.
  lemma CreatePath(fs: Fs, path: string)
    requires Wf(fs)
    ensures var (g, r) := Create(fs, path);
            && (r == 0 ==> (Wf(g) <==> NewAt(fs, path)))
            && (r != 0 ==> Wf(g) && View(g) == View(fs))
            && (|Last(path)| <= NAME_MAX && r == 0 ==> NewAt(fs, path))
  {
    ResolveLive(fs, path);
    if path != "" && Component(path) != "" && ParentOf(fs, path).Some? {
      var d := ParentOf(fs, path).value;
      if IsDir(fs, d) { CreateKeepsIff(fs, d, Component(path)); }
    }
  }

  lemma MkdirPath(fs: Fs, path: string)
    requires Wf(fs)
    ensures var (g, r) := Mkdir(fs, path);
            && (r == 0 ==> (Wf(g) <==> NewAt(fs, path)))
            && (r != 0 ==> Wf(g) && View(g) == View(fs))
            && (|Last(path)| <= NAME_MAX && r == 0 ==> NewAt(fs, path))
  {
    ResolveLive(fs, path);
    if path != "" && Component(path) != "" && ParentOf(fs, path).Some? {
      var d := ParentOf(fs, path).value;
      if IsDir(fs, d) { MkdirKeepsIff(fs, d, Component(path)); }
    }
  }

  lemma CreateKeeps(fs: Fs, path: string)
    requires Wf(fs) && |Last(path)| <= NAME_MAX
    ensures Wf(Create(fs, path).0)
    ensures Create(fs, path).1 != 0 ==> View(Create(fs, path).0) == View(fs)
  {
    CreatePath(fs, path);
  }

  // The entry that the parent has under the last name is the one the path leads
  // to.
  predicate Aimed(fs: Fs, path: string) {
    && Resolve(fs, path).Some? && ParentOf(fs, path).Some?
    && Leads(fs, ParentOf(fs, path).value, Component(path), Resolve(fs, path).value)
  }

  // It is, when the parent is a directory and its path is not cut.
  lemma AimedWhole(fs: Fs, path: string)
    requires Wf(fs) && ParentFits(path) && Resolve(fs, path).Some? && Component(path) != ""
    ensures ParentOf(fs, path).Some? && Live(fs, ParentOf(fs, path).value)
    ensures IsDir(fs, ParentOf(fs, path).value) || !Dot(Component(path)) ==> Aimed(fs, path)
  {
    ResolveLeads(fs, path);
  }

  lemma FoundIsDir(fs: Fs, d: nat, name: string)
    requires BlocksOk(fs) && Live(fs, d)
    ensures Found(fs, d, name) ==> IsDir(fs, d) && name != ""
  {
    if Found(fs, d, name) { FindNameIs(EntsAt(fs, d), name, 0); }
  }

  // Deleting a path whose parent is not cut keeps every other file, and removes
  // this one exactly when the path leads to a file by a name.
  lemma DeletePath(fs: Fs, path: string)
    requires Wf(fs) && ParentFits(path)
    ensures var (g, r) := Delete(fs, path);
            var t := Resolve(fs, path);
            && Wf(g)
            && (t.Some? ==> Live(fs, t.value))
            && (r == 0 <==> Aimed(fs, path) && fs.inodes[t.value].kind == File)
            && (r != 0 ==> g == fs)
            && (r == 0 ==> IsDir(fs, ParentOf(fs, path).value)
                           && OthersKept(fs, g, t.value, ParentOf(fs, path).value))
  {
    ResolveLive(fs, path);
    if path != "" && Resolve(fs, path).Some? && ParentOf(fs, path).Some? {
      var t, d := Resolve(fs, path).value, ParentOf(fs, path).value;
      FoundIsDir(fs, d, Component(path));
      if Component(path) != "" { AimedWhole(fs, path); }
      DeleteKeepsIff(fs, t, d, Component(path));
    }
  }

  // For every path: a successful delete keeps the file system well formed
  // exactly when the entry it removes is the file's.
  lemma DeleteKeepsPath(fs: Fs, path: string)
    requires Wf(fs)
    ensures var (g, r) := Delete(fs, path);
            (r == 0 ==> (Wf(g) <==> Aimed(fs, path))) && (r != 0 ==> g == fs)
  {
    ResolveLive(fs, path);
    if path != "" && Resolve(fs, path).Some? && ParentOf(fs, path).Some? {
      DeleteKeepsIff(fs, Resolve(fs, path).value, ParentOf(fs, path).value, Component(path));
    }
  }

  // The same for rmdir; it must not be asked for the current directory, nor by
  // a path that ends in a dot name.
  lemma RmdirPath(fs: Fs, path: string)
    requires Wf(fs)
    ensures var (g, r) := Rmdir(fs, path);
            && (r == 0 ==> (Wf(g) <==> Aimed(fs, path) && Proper(Component(path)) && Resolve(fs, path) != Some(fs.cwd)))
            && (r != 0 ==> g == fs)
            && (r == 0 && ParentFits(path) ==> Aimed(fs, path))
  {
    ResolveLive(fs, path);
    if path != "" && path != "/" && Resolve(fs, path).Some? && ParentOf(fs, path).Some? {
      var t, d := Resolve(fs, path).value, ParentOf(fs, path).value;
      FoundIsDir(fs, d, Component(path));
      RmdirKeepsIff(fs, t, d, Component(path));
      if ParentFits(path) && Component(path) != "" { AimedWhole(fs, path); }
    }
  }

  // The exact condition under which a rename that gets as far as entering the
  // new name leaves a well-formed file system.
  predicate RenameOk(fs: Fs, from: string, to: string) {
    && Resolve(fs, from).Some? && ParentOf(fs, from).Some? && ParentOf(fs, to).Some?
    && var t, d, e := Resolve(fs, from).value, ParentOf(fs, from).value, ParentOf(fs, to).value;
       && t < |fs.inodes| && d < |fs.inodes| && e < |fs.inodes|
       && (Linkable(fs, e, Component(to)) ==>
           || Undone(fs, d, Component(from), e, Component(to))
           || Sensible(fs, t, d, Component(from), e, Component(to)))
  }

  // The arguments that fs_rename refuses before it looks at a directory.
  predicate RenameRefused(fs: Fs, from: string, to: string) {
    || from == "" || to == "" || Resolve(fs, from).None? || Component(from) == "" || ParentOf(fs, from).None?
    || Component(to) == "" || ParentOf(fs, to).None?
  }

  lemma RenamePath(fs: Fs, from: string, to: string)
    requires Wf(fs)
    ensures Wf(Rename(fs, from, to).0) <==> RenameRefused(fs, from, to) || RenameOk(fs, from, to)
  {
    ResolveLive(fs, from);
    ResolveLive(fs, to);
    if !RenameRefused(fs, from, to) {
      RenameKeepsIff(fs, Resolve(fs, from).value, ParentOf(fs, from).value, Component(from),
                     ParentOf(fs, to).value, Component(to));
    }
  }

  predicate FileAt(fs: Fs, path: string) {
    Resolve(fs, path).Some? && Resolve(fs, path).value < |fs.inodes| && fs.inodes[Resolve(fs, path).value].kind == File
  }

  lemma CdKeeps(fs: Fs, path: string)
    requires Wf(fs)
    ensures Wf(Cd(fs, path).0)
  {
    RootLive(fs);
    ResolveLive(fs, path);
    CwdMoves(fs, Cd(fs, path).0.cwd);
  }

  lemma CwdMoves(fs: Fs, d: nat)
    requires Wf(fs) && IsDir(fs, d)
    ensures Wf(fs.(cwd := d))
  {
    var g := fs.(cwd := d);
    assert BlocksOk(g) by {
      forall j: nat | Live(g, j) && j != INODES ensures Beside(fs, g, INODES, j) { assert InodeOk(fs, j); }
      AroundKeeps(fs, g, INODES);
    }
    assert View(g) == View(fs);
    WfIff(fs);
    WfIff(g);
    DirLive(fs, d);
  }

  // ---------------------------------------------------------------- paths that end in a dot name

  lemma DotPath(fs: Fs, p: string)
    requires 0 < |p| <= PARENT_MAX
    ensures ParentPath(p + "/.") == p && Component(p + "/.") == "." && ParentFits(p + "/.")
    ensures Resolve(fs, p + "/.") == Resolve(fs, p)
  {
    var path := p + "/.";
    assert path[|p|] == '/' && path[|p| + 1] == '.';
    assert AfterSlash(path) == |p| + 1;
    assert path[..|p|] == p && path[|p| + 1..] == ".";
    assert path == p + "/" + ".";
    ResolveBelow(fs, p, ".");
  }

  // Removing a bare directory by a path that ends in "/." succeeds, and breaks
  // the file system.
  lemma RmdirDot(fs: Fs, p: string, t: nat)
    requires Wf(fs) && 0 < |p| <= PARENT_MAX && Resolve(fs, p) == Some(t) && IsDir(fs, t) && Bare(EntsAt(fs, t))
    ensures Rmdir(fs, p + "/.").1 == 0 && !Wf(Rmdir(fs, p + "/.").0)
  {
    DotPath(fs, p);
    assert |p + "/."| > 1;
    DotsLead(fs, t, ".");
    RmdirKeepsIff(fs, t, t, ".");
  }

  // Renaming a file by a path that ends in "/." fails after it has entered the
  // file a second time.
  lemma RenameDot(fs: Fs, p: string, t: nat, to: string)
    requires Wf(fs) && 0 < |p| <= PARENT_MAX && Resolve(fs, p) == Some(t) && Live(fs, t) && fs.inodes[t].kind == File
    requires NoSlash(to) && Proper(to) && |to| <= NAME_MAX && Linkable(fs, fs.cwd, to)
    ensures Rename(fs, p + "/.", to).1 == -1 && !Wf(Rename(fs, p + "/.", to).0)
  {
    DotPath(fs, p);
    RootLive(fs);
    assert AfterSlash(to) == 0 && to[0..] == to;
    RenameKeepsIff(fs, t, t, ".", fs.cwd, to);
    RenameHalves(fs, t, t, ".", fs.cwd, to);
  }

  // ---------------------------------------------------------------- copy

  // The state after the destination has been created.
  lemma CopyState(fs: Fs, src: string, dst: string)
    requires Wf(fs) && Plain(dst) && FileAt(fs, src) && Create(fs, dst).1 == 0
    ensures var g := Create(fs, dst).0;
            var s := Resolve(fs, src).value;
            var t := Resolve(g, dst);
            && Live(fs, s) && Wf(g) && t.Some? && Live(g, t.value) && s != t.value
            && g.inodes[t.value] == Inode(File, 0, 0, 0)
            && Live(g, s) && Kept(fs, g, s)
  {
    CreateResolves(fs, dst);
    ResolveLive(fs, src);
    assert Kept(fs, Create(fs, dst).0, Resolve(fs, src).value);
  }

  lemma SourceBlock(fs: Fs, g: Fs, s: nat)
    requires BlocksOk(fs) && Live(fs, s) && Kept(fs, g, s) && fs.inodes[s].size > 0
    ensures fs.inodes[s].direct < BLOCKS && BlockAt(g, fs.inodes[s].direct) == BlockAt(fs, fs.inodes[s].direct)
  {
    assert InodeOk(fs, s);
    assert fs.inodes[s].direct in Refs(fs, s);
  }

  lemma CopySteps(fs: Fs, src: string, dst: string)
    requires Wf(fs) && Plain(dst) && FileAt(fs, src) && src != "" && Create(fs, dst).1 == 0
    ensures var g := Create(fs, dst).0;
            var s := Resolve(fs, src).value;
            var t := Resolve(g, dst);
            && Wf(g) && t.Some? && Live(g, t.value) && g.inodes[t.value] == Inode(File, 0, 0, 0)
            && Copy(fs, src, dst) == (if fs.inodes[s].size == 0 then (g, 0)
                                      else FillAt(g, t.value, BlockAt(fs, fs.inodes[s].direct), fs.inodes[s].size))
  {
    CopyState(fs, src, dst);
    CopyIntoIs(fs, Create(fs, dst).0, Resolve(fs, src).value, Resolve(Create(fs, dst).0, dst).value);
  }

  lemma CopyIntoIs(fs: Fs, g: Fs, s: nat, t: nat)
    requires BlocksOk(fs) && Shape(g) && Live(fs, s) && Kept(fs, g, s)
    requires t < INODES && g.inodes[t] == Inode(File, 0, 0, 0)
    ensures var n := fs.inodes[s];
            CopyInto(g, Some(t), n) == if n.size == 0 then (g, 0) else FillAt(g, t, BlockAt(fs, n.direct), n.size)
  {
    if fs.inodes[s].size > 0 { SourceBlock(fs, g, s); }
  }

  lemma CreateFails(fs: Fs, path: string)
    requires Shape(fs)
    ensures Create(fs, path).1 == 0 || Create(fs, path).1 == -1
  {
  }

  // ---------------------------------------------------------------- what is written is read back

  lemma LookSame(fs: Fs, g: Fs, cur: nat, name: string)
    requires Wf(fs) && Wf(g) && View(g) == View(fs) && Live(fs, cur)
    ensures Live(g, cur) && Look(g, cur, name) == Look(fs, cur, name)
  {
    assert cur in View(fs).live;
    if IsDir(fs, cur) { DirLive(fs, cur); }
    if IsDir(g, cur) { DirLive(g, cur); }
    assert cur in View(fs).dirs <==> IsDir(fs, cur);
    assert cur in View(g).dirs <==> IsDir(g, cur);
  }

  lemma {:induction false} WalkSame(fs: Fs, g: Fs, cur: nat, path: string, comp: string)
    requires Wf(fs) && Wf(g) && View(g) == View(fs) && Live(fs, cur)
    ensures Walk(g, cur, path, comp) == Walk(fs, cur, path, comp)
    decreases |path|
  {
    LookSame(fs, g, cur, comp);
    CloseLive(fs, cur, comp);
    if path != "" {
      if path[0] == '/' {
        match Close(fs, cur, comp)
        case None =>
        case Some(next) => WalkSame(fs, g, next, path[1..], "");
      } else {
        WalkSame(fs, g, cur, path[1..], if |comp| < COMPONENT_MAX then comp + [path[0]] else comp);
      }
    }
  }

  // Paths lead to the same inodes when the tree is the same.
  lemma ResolveSame(fs: Fs, g: Fs, path: string)
    requires Wf(fs) && Wf(g) && View(g) == View(fs) && g.cwd == fs.cwd
    ensures Resolve(g, path) == Resolve(fs, path)
  {
    RootLive(fs);
    if path != "" && path[0] == '/' { WalkSame(fs, g, 0, path[1..], ""); } else { WalkSame(fs, g, fs.cwd, path, ""); }
  }

  // A file of one block reads as the beginning of that block, as far as the buffer reaches.
  lemma ReadOneBlock(fs: Fs, n: Inode, cap: nat)
    requires n.direct != 0 && (n.size <= BLOCK_SIZE || n.indirect == 0) && cap > 0
    ensures Read(fs, n, cap) == Chunk(BlockAt(fs, n.direct), Min(Min(n.size, cap - 1), BLOCK_SIZE))
  {
  }

  // The new file at `path` has been given its first block.
  lemma FilledReads(g: Fs, path: string, c: Content, size: nat, cap: nat)
    requires Wf(g) && Resolve(g, path).Some? && Live(g, Resolve(g, path).value)
    requires g.inodes[Resolve(g, path).value] == Inode(File, 0, 0, 0)
    requires cap > 0 && FillAt(g, Resolve(g, path).value, c, size).1 == 0
    ensures Cat(FillAt(g, Resolve(g, path).value, c, size).0, path, cap) ==
            Some(Chunk(c, Min(Min(size, cap - 1), BLOCK_SIZE)))
  {
    var t := Resolve(g, path).value;
    var k := FillAt(g, t, c, size).0;
    FillKeeps(g, t, c, size);
    ResolveSame(g, k, path);
    ReadOneBlock(k, k.inodes[t], cap);
  }

  lemma ReadEmpty(fs: Fs, n: Inode, cap: nat)
    requires n.size == 0 && cap > 0
    ensures Read(fs, n, cap) == []
  {
  }

  // A copy of a file of at most one block reads like the original.
  lemma CopyReads(fs: Fs, src: string, dst: string, cap: nat)
    requires Wf(fs) && Plain(dst) && Copy(fs, src, dst).1 == 0
    requires FileAt(fs, src) && fs.inodes[Resolve(fs, src).value].size <= BLOCK_SIZE && cap > 0
    ensures Cat(fs, src, cap).Some?
    ensures Cat(Copy(fs, src, dst).0, dst, cap) == Cat(fs, src, cap)
  {
    if Create(fs, dst).1 != 0 { CreateFails(fs, dst); }
    CopySteps(fs, src, dst);
    var g := Create(fs, dst).0;
    var s, t := Resolve(fs, src).value, Resolve(g, dst).value;
    var n := fs.inodes[s];
    if n.size > 0 {
      CopyState(fs, src, dst);
      assert InodeOk(fs, s);
      FilledReads(g, dst, BlockAt(fs, n.direct), n.size, cap);
      ReadOneBlock(fs, n, cap);
    } else {
      ReadEmpty(fs, n, cap);
      ReadEmpty(g, g.inodes[t], cap);
    }
  }

  // The original is unchanged.
  lemma CopyKeepsSource(fs: Fs, src: string, dst: string)
    requires Wf(fs) && Plain(dst) && Copy(fs, src, dst).1 == 0 && FileAt(fs, src)
    ensures Kept(fs, Copy(fs, src, dst).0, Resolve(fs, src).value)
  {
    if Create(fs, dst).1 != 0 { CreateFails(fs, dst); }
    CopySteps(fs, src, dst);
    CopyState(fs, src, dst);
    var g, k := Create(fs, dst).0, Copy(fs, src, dst).0;
    var s, t := Resolve(fs, src).value, Resolve(g, dst).value;
    var n := fs.inodes[s];
    if n.size > 0 {
      FillKeeps(g, t, BlockAt(fs, n.direct), n.size);
      assert Kept(g, k, s);
      KeptTwice(fs, g, k, s);
    }
  }

  // Files other than the one at `path`.
  predicate Other(fs: Fs, path: string, j: nat) {
    Live(fs, j) && fs.inodes[j].kind == File && Resolve(fs, path) != Some(j)
  }

  // The state between the create and the write.
  lemma WriteSteps(fs: Fs, path: string, data: seq<Byte>)
    requires Wf(fs) && Plain(path)
    ensures Shape(Delete(fs, path).0) && Shape(Create(Delete(fs, path).0, path).0)
    ensures var g := Delete(fs, path).0;
            var (h, r) := Create(g, path);
            && Wf(g) && Wf(h)
            && (r != 0 ==> WriteFile(fs, path, data) == (h, -1))
            && (r == 0 ==> WriteFile(fs, path, data) == PutData(h, Resolve(h, path), data))
  {
    assert path != "" by { assert Last("") == ""; }
    DeletePath(fs, path);
    var g := Delete(fs, path).0;
    CreateKeeps(g, path);
    if Create(g, path).1 != 0 { CreateFails(g, path); }
  }

  lemma WriteCreates(fs: Fs, path: string)
    requires Wf(fs) && Plain(path) && Wf(Delete(fs, path).0) && Create(Delete(fs, path).0, path).1 == 0
    ensures var h := Create(Delete(fs, path).0, path).0;
            var i := Resolve(h, path);
            && i.Some? && Live(h, i.value) && h.inodes[i.value] == Inode(File, 0, 0, 0)
            && (forall j: nat {:trigger Kept(fs, h, j)} :: Other(fs, path, j) ==>
                  Live(h, j) && Kept(fs, h, j) && j != i.value)
  {
    var g := Delete(fs, path).0;
    var h := Create(g, path).0;
    CreateResolves(g, path);
    var d, i := ParentOf(g, path).value, Resolve(h, path).value;
    forall j: nat | Other(fs, path, j) ensures Live(h, j) && Kept(fs, h, j) && j != i {
      WriteOther(fs, g, h, path, d, i, j);
    }
  }

  lemma WriteOther(fs: Fs, g: Fs, h: Fs, path: string, d: nat, i: nat, j: nat)
    requires Wf(fs) && Plain(path) && g == Delete(fs, path).0 && Other(fs, path, j)
    requires OthersKept(g, h, i, d) && !Live(g, i) && IsDir(g, d)
    ensures Live(h, j) && Kept(fs, h, j) && j != i
  {
    DeletePath(fs, path);
    assert Kept(fs, g, j);
    assert Live(g, j) && g.inodes[j].kind == File;
    assert Kept(g, h, j);
    KeptTwice(fs, g, h, j);
  }

  lemma PutKeeps(h: Fs, i: nat, data: seq<Byte>)
    requires Wf(h) && Live(h, i) && h.inodes[i] == Inode(File, 0, 0, 0)
    ensures var k := PutData(h, Some(i), data).0;
            && Wf(k) && (forall j: nat {:trigger Kept(h, k, j)} :: Live(h, j) && j != i ==> Live(k, j) && Kept(h, k, j))
  {
    var k := PutData(h, Some(i), data).0;
    if |data| > 0 {
      FillKeeps(h, i, Bytes(Padded(data)), |data|);
      forall j: nat | Live(h, j) && j != i ensures Live(k, j) && Kept(h, k, j) { assert Kept(h, k, j); }
    }
  }

  // What a successful write stored is read back exactly: the data's first 4096 bytes, as
  // far as the buffer reaches.
  lemma WriteReads(fs: Fs, path: string, data: seq<Byte>, cap: nat)
    requires Wf(fs) && Plain(path) && cap > 0 && WriteFile(fs, path, data).1 >= 0
    ensures WriteFile(fs, path, data).1 == |data|
    ensures Cat(WriteFile(fs, path, data).0, path, cap) == Some(data[..Min(Min(|data|, cap - 1), BLOCK_SIZE)])
  {
    WriteSteps(fs, path, data);
    WriteCreates(fs, path);
    var h := Create(Delete(fs, path).0, path).0;
    PutReads(h, path, data, cap);
  }

  lemma PutReads(h: Fs, path: string, data: seq<Byte>, cap: nat)
    requires Wf(h) && cap > 0
    requires Resolve(h, path).Some? && Live(h, Resolve(h, path).value)
    requires h.inodes[Resolve(h, path).value] == Inode(File, 0, 0, 0) && PutData(h, Resolve(h, path), data).1 >= 0
    ensures PutData(h, Resolve(h, path), data).1 == |data|
    ensures Cat(PutData(h, Resolve(h, path), data).0, path, cap) ==
            Some(data[..Min(Min(|data|, cap - 1), BLOCK_SIZE)])
  {
    if |data| > 0 {
      var c, n := Bytes(Padded(data)), Min(Min(|data|, cap - 1), BLOCK_SIZE);
      FilledReads(h, path, c, |data|, cap);
      assert Chunk(c, n) == data[..n];
    } else {
      ReadEmpty(h, h.inodes[Resolve(h, path).value], cap);
    }
  }

  // And every file with another inode reads as before.
  lemma WriteKeepsOthers(fs: Fs, path: string, data: seq<Byte>, j: nat, cap: nat)
    requires Wf(fs) && Plain(path) && WriteFile(fs, path, data).1 >= 0 && Other(fs, path, j) && cap > 0
    ensures var k := WriteFile(fs, path, data).0;
            Live(k, j) && Kept(fs, k, j) && Read(k, k.inodes[j], cap) == Read(fs, fs.inodes[j], cap)
  {
    WriteSteps(fs, path, data);
    WriteCreates(fs, path);
    var h := Create(Delete(fs, path).0, path).0;
    var k := WriteFile(fs, path, data).0;
    PutKeeps(h, Resolve(h, path).value, data);
    assert Kept(fs, h, j) && Kept(h, k, j);
    KeptTwice(fs, h, k, j);
    ReadSame(fs, k, j, cap);
  }

  // ---------------------------------------------------------------- copy and write on any path

  lemma PutBlockKeeps(fs: Fs, i: nat, c: Content, size: nat)
    requires Wf(fs) && Live(fs, i) && fs.inodes[i].kind == File
    ensures Wf(PutBlock(fs, i, c, size).0)
  {
    if fs.inodes[i].direct == 0 {
      FillKeeps(fs, i, c, size);
    } else {
      OverwriteOk(fs, i, c, size);
      assert PutBlock(fs, i, c, size).0 == Overwrite(fs, i, c, size);
      SameTree(fs, Overwrite(fs, i, c, size));
    }
  }

  // Every name in a directory in use leads to an inode in use, or to x, and is
  // no longer than an entry can hold.
  predicate Leading(fs: Fs, d: nat, k: nat, x: nat)
    requires d < |fs.inodes|
  {
    var es := EntsAt(fs, d);
    k < |es| && es[k].name != "" ==> |es[k].name| <= NAME_MAX && (Live(fs, es[k].inode) || es[k].inode == x)
  }

  ghost predicate Bounded(fs: Fs, x: nat) {
    && Shape(fs) && (!Live(fs, x) ==> x > 0 && (x < INODES ==> fs.inodes[x].kind != Dir))
    && (forall d: nat, k: nat {:trigger Leading(fs, d, k, x)} :: IsDir(fs, d) ==> Leading(fs, d, k, x))
  }

  predicate Near(fs: Fs, i: nat, x: nat) { Live(fs, i) || i == x }

  lemma LookNear(fs: Fs, x: nat, d: nat, name: string)
    requires Bounded(fs, x) && Near(fs, d, x)
    ensures Look(fs, d, name).Some? ==> IsDir(fs, d) && Near(fs, Look(fs, d, name).value, x) && |name| <= NAME_MAX
  {
    if Found(fs, d, name) {
      FindNameIs(EntsAt(fs, d), name, 0);
      assert Leading(fs, d, FindName(EntsAt(fs, d), name, 0), x);
    }
  }

  lemma CloseNear(fs: Fs, x: nat, cur: nat, comp: string)
    requires Bounded(fs, x) && Near(fs, cur, x)
    ensures Close(fs, cur, comp).Some? ==> Near(fs, Close(fs, cur, comp).value, x) && |comp| <= NAME_MAX
  {
    LookNear(fs, x, cur, comp);
  }

  lemma {:induction false} WalkNear(fs: Fs, x: nat, cur: nat, path: string, comp: string)
    requires Bounded(fs, x) && Near(fs, cur, x)
    ensures Walk(fs, cur, path, comp).Some? ==> Near(fs, Walk(fs, cur, path, comp).value, x)
    decreases |path|
  {
    CloseNear(fs, x, cur, comp);
    if path != "" {
      if path[0] == '/' {
        match Close(fs, cur, comp)
        case None =>
        case Some(next) => WalkNear(fs, x, next, path[1..], "");
      } else {
        WalkNear(fs, x, cur, path[1..], if |comp| < COMPONENT_MAX then comp + [path[0]] else comp);
      }
    }
  }

  lemma ResolveNear(fs: Fs, x: nat, path: string)
    requires Bounded(fs, x) && Live(fs, 0) && Live(fs, fs.cwd)
    ensures Resolve(fs, path).Some? ==> Near(fs, Resolve(fs, path).value, x)
    ensures ParentOf(fs, path).Some? ==> Near(fs, ParentOf(fs, path).value, x)
  {
    if path != "" && path[0] == '/' { WalkNear(fs, x, 0, path[1..], ""); } else { WalkNear(fs, x, fs.cwd, path, ""); }
    var p := ParentPath(path);
    if p != "" && p[0] == '/' { WalkNear(fs, x, 0, p[1..], ""); } else { WalkNear(fs, x, fs.cwd, p, ""); }
  }

  // A last component of 28 characters is never found.
  lemma LongUnresolved(fs: Fs, x: nat, path: string)
    requires Bounded(fs, x) && Live(fs, 0) && Live(fs, fs.cwd) && |Component(path)| > NAME_MAX
    ensures Resolve(fs, path) == None
  {
    var n, c := AfterSlash(path), Last(path);
    ResolveTop(fs, c);
    CloseNear(fs, x, fs.cwd, Component(path));
    CloseNear(fs, x, 0, Component(path));
    if n == 0 {
      assert path == c;
    } else if n == 1 {
      assert path == "/" + c;
    } else {
      var p := path[..n - 1];
      assert path == p + "/" + c;
      ResolveBelow(fs, p, c);
      PrefixNear(fs, x, p);
      if Resolve(fs, p).Some? { CloseNear(fs, x, Resolve(fs, p).value, Component(path)); }
    }
  }

  lemma PrefixNear(fs: Fs, x: nat, p: string)
    requires Bounded(fs, x) && Live(fs, 0) && Live(fs, fs.cwd)
    ensures Resolve(fs, p).Some? ==> Near(fs, Resolve(fs, p).value, x)
  {
    ResolveNear(fs, x, p);
  }

  // What a tree without its uniqueness gives.
  lemma BoundedView(fs: Fs, x: nat)
    requires BlocksOk(fs) && (!Live(fs, x) ==> x > 0 && (x < INODES ==> fs.inodes[x].kind != Dir))
    requires forall d: nat, k: nat :: d in View(fs).dirs && k < |View(fs).dirs[d]| && View(fs).dirs[d][k].name != "" ==>
               |View(fs).dirs[d][k].name| <= NAME_MAX
               && (View(fs).dirs[d][k].inode in View(fs).live || View(fs).dirs[d][k].inode == x)
    ensures Bounded(fs, x)
  {
    forall d: nat, k: nat | IsDir(fs, d) ensures Leading(fs, d, k, x) {
      DirLive(fs, d);
      assert View(fs).dirs[d] == EntsAt(fs, d);
    }
  }

  // The blocks after a create, and the tree: one more inode, or the same.
  lemma CreateChanges(fs: Fs, d: nat, name: string)
    requires BlocksOk(fs) && Live(fs, d) && name != ""
    ensures var (h, r) := CreateAt(fs, d, name);
            var i, k := FirstClear(fs.ibits, 1), FreeSlot(EntsAt(fs, d), 0);
            && BlocksOk(h) && h.cwd == fs.cwd && (r != 0 ==> View(h) == View(fs))
            && (r == 0 ==>
                && i > 0 && i !in View(fs).live && i !in View(fs).dirs && IsDir(fs, d)
                && d in View(fs).dirs && k < |View(fs).dirs[d]| && View(fs).dirs[d][k].name == ""
                && View(h) == Attach(View(fs), d, k, i, Stored(name), false))
  {
    var i := FirstClear(fs.ibits, 1);
    FirstClearIs(fs.ibits, 1);
    if IsDir(fs, d) && !Found(fs, d, name) && i < INODES {
      var n := Inode(File, 0, 0, 0);
      NotInView(fs, i);
      assert CreateAt(fs, d, name) == Enter(fs, d, i, n, 0, Bytes([]), name);
      if CreateAt(fs, d, name).1 == 0 {
        EnterView(fs, d, i, n, 0, Bytes([]), name);
        EnterKept(fs, d, i, n, 0, Bytes([]), name);
      } else {
        DroppedAgain(fs, i, n, 0, Bytes([]));
      }
    }
  }

  lemma DroppedAgain(fs: Fs, i: nat, n: Inode, b: nat, c: Content)
    requires BlocksOk(fs) && Fresh(fs, i, n, b, c)
    ensures BlocksOk(DropNode(NewNode(fs, i, n, b, c), i)) && View(DropNode(NewNode(fs, i, n, b, c), i)) == View(fs)
  {
    NewNodeOk(fs, i, n, b, c);
    DropNodeOk(NewNode(fs, i, n, b, c), i);
    NotInView(fs, i);
    AddedAndRemoved(View(fs), i, n.kind == Dir, EntriesOf(c));
  }

  // All names of a well-formed tree and one more are within bounds.
  lemma AttachedBounds(t: Tree, d: nat, k: nat, i: nat, name: string, e: nat, m: nat)
    requires TreeOk(t) && d in t.dirs && k < |t.dirs[d]| && |name| <= NAME_MAX && i !in t.dirs
    requires var r := Attach(t, d, k, i, name, false); e in r.dirs && m < |r.dirs[e]| && r.dirs[e][m].name != ""
    ensures var r := Attach(t, d, k, i, name, false);
            |r.dirs[e][m].name| <= NAME_MAX && r.dirs[e][m].inode in r.live
  {
    assert DirOk(t, e) && SlotOk(t, e, m);
  }

  lemma CreatedBounds(fs: Fs, d: nat, name: string)
    requires Wf(fs) && Live(fs, d) && name != "" && CreateAt(fs, d, name).1 == 0
    ensures var h := CreateAt(fs, d, name).0; Bounded(h, 0) && Live(h, 0) && Live(h, h.cwd)
  {
    var h := CreateAt(fs, d, name).0;
    var t, i, k := View(fs), FirstClear(fs.ibits, 1), FreeSlot(EntsAt(fs, d), 0);
    CreateChanges(fs, d, name);
    RootLive(fs);
    assert 0 in View(h).live && h.cwd in View(h).live;
    forall e: nat, m: nat | e in View(h).dirs && m < |View(h).dirs[e]| && View(h).dirs[e][m].name != ""
      ensures |View(h).dirs[e][m].name| <= NAME_MAX && View(h).dirs[e][m].inode in View(h).live
    {
      AttachedBounds(t, d, k, i, Stored(name), e, m);
    }
    BoundedView(h, 0);
  }

  // A create that doubles a name leaves a path that does not resolve.
  lemma DoubledUnresolved(fs: Fs, path: string)
    requires Wf(fs) && Create(fs, path).1 == 0 && !NewAt(fs, path)
    ensures Resolve(Create(fs, path).0, path) == None
  {
    CreatePath(fs, path);
    ResolveLive(fs, path);
    CreatedBounds(fs, ParentOf(fs, path).value, Component(path));
    LongUnresolved(Create(fs, path).0, 0, path);
  }

  // The source that fs_copy refuses.
  predicate CopyRefused(fs: Fs, src: string, dst: string) { src == "" || dst == "" || !FileAt(fs, src) }

  lemma CopyIs(fs: Fs, src: string, dst: string)
    requires Shape(fs) && !CopyRefused(fs, src, dst)
    ensures var (g, r) := Create(fs, dst);
            && Shape(g)
            && Copy(fs, src, dst) == if r != 0 then (g, -1)
                                     else CopyInto(g, Resolve(g, dst), fs.inodes[Resolve(fs, src).value])
  {
    CreateShape(fs, dst);
    CreateFails(fs, dst);
  }

  // copy keeps the file system well formed exactly when the create in it does.
  lemma CopyKeepsIff(fs: Fs, src: string, dst: string)
    requires Wf(fs) && Shape(fs)
    ensures Wf(Copy(fs, src, dst).0) <==> CopyRefused(fs, src, dst) || (Create(fs, dst).1 == 0 ==> NewAt(fs, dst))
  {
    if !CopyRefused(fs, src, dst) {
      CopyIs(fs, src, dst);
      CreatePath(fs, dst);
      if Create(fs, dst).1 == 0 {
        if NewAt(fs, dst) { CopyIntoKeeps(Create(fs, dst).0, dst, fs.inodes[Resolve(fs, src).value]); }
        else { DoubledUnresolved(fs, dst); }
      }
    } else {
      ResolveLive(fs, src);
    }
  }

  lemma CopyIntoKeeps(g: Fs, dst: string, n: Inode)
    requires Wf(g) && Shape(g)
    ensures Wf(CopyInto(g, Resolve(g, dst), n).0)
  {
    ResolveLive(g, dst);
    var t := Resolve(g, dst);
    if t.Some? && g.inodes[t.value].kind == File && n.size != 0 && n.direct < BLOCKS {
      PutBlockKeeps(g, t.value, BlockAt(g, n.direct), n.size);
    }
  }

  // A delete that removes the entry of another inode: the tree is damaged, and
  // a name may lead to the inode t that was freed.
  lemma MisaimedDelete(fs: Fs, path: string)
    requires Wf(fs) && Shape(fs) && Delete(fs, path).1 == 0 && !Aimed(fs, path)
    ensures var g := Delete(fs, path).0;
            && Resolve(fs, path).Some? && BlocksOk(g) && Damaged(View(g)) && Bounded(g, Resolve(fs, path).value)
            && !Live(g, Resolve(fs, path).value) && Live(g, 0) && Live(g, g.cwd)
  {
    ResolveLive(fs, path);
    MisaimedAt(fs, Resolve(fs, path).value, ParentOf(fs, path).value, Component(path));
  }

  lemma MisaimedAt(fs: Fs, t: nat, d: nat, name: string)
    requires Wf(fs) && Live(fs, t) && Live(fs, d) && DeleteAt(fs, t, d, name).1 == 0 && !Leads(fs, d, name, t)
    ensures var g := DeleteAt(fs, t, d, name).0;
            BlocksOk(g) && Damaged(View(g)) && Bounded(g, t) && !Live(g, t) && Live(g, 0) && Live(g, g.cwd)
  {
    DeleteKeepsIff(fs, t, d, name);
    FoundIsDir(fs, d, name);
    assert DeleteAt(fs, t, d, name).0 == Erase(fs, t, d, name);
    EraseIs(fs, t, d, name);
    LeadsIff(fs, d, name, t);
    DirLive(fs, d);
    DetachDamages(View(fs), d, FindName(EntsAt(fs, d), name, 0), t);
    ErasedBounds(fs, t, d, name, FindName(EntsAt(fs, d), name, 0));
  }

  lemma ErasedBounds(fs: Fs, t: nat, d: nat, name: string, k: nat)
    requires Wf(fs) && Live(fs, t) && fs.inodes[t].kind == File && IsDir(fs, d)
    requires var g := Erase(fs, t, d, name);
             && BlocksOk(g) && g.cwd == fs.cwd && d in View(fs).dirs && k < |View(fs).dirs[d]|
             && View(g) == Detach(View(fs), d, k, t)
    ensures var g := Erase(fs, t, d, name); Bounded(g, t) && !Live(g, t) && Live(g, 0) && Live(g, g.cwd)
  {
    var g := Erase(fs, t, d, name);
    RootLive(fs);
    assert 0 in View(g).live && g.cwd in View(g).live && t !in View(g).live;
    forall e: nat, m: nat | e in View(g).dirs && m < |View(g).dirs[e]| && View(g).dirs[e][m].name != ""
      ensures |View(g).dirs[e][m].name| <= NAME_MAX
      ensures View(g).dirs[e][m].inode in View(g).live || View(g).dirs[e][m].inode == t
    {
      DetachedBounds(View(fs), d, k, t, e, m);
    }
    ErasedRecord(fs, t, d, name);
    BoundedView(g, t);
  }

  lemma DetachedBounds(v: Tree, d: nat, k: nat, t: nat, e: nat, m: nat)
    requires TreeOk(v) && d in v.dirs && k < |v.dirs[d]|
    requires var r := Detach(v, d, k, t); e in r.dirs && m < |r.dirs[e]| && r.dirs[e][m].name != ""
    ensures var r := Detach(v, d, k, t);
            |r.dirs[e][m].name| <= NAME_MAX && (r.dirs[e][m].inode in r.live || r.dirs[e][m].inode == t)
  {
    assert DirOk(v, e) && SlotOk(v, e, m);
  }

  lemma ErasedRecord(fs: Fs, t: nat, d: nat, name: string)
    requires Shape(fs) && t < INODES && d < INODES && t != d
    ensures Erase(fs, t, d, name).inodes[t] == fs.inodes[t]
  {
  }

  lemma CreateDamaged(g: Fs, x: nat, path: string)
    requires BlocksOk(g) && Damaged(View(g)) && Bounded(g, x) && !Live(g, x) && Live(g, 0) && Live(g, g.cwd)
    ensures var h := Create(g, path).0; BlocksOk(h) && Damaged(View(h))
  {
    ResolveNear(g, x, path);
    if path != "" && Component(path) != "" && ParentOf(g, path).Some? {
      var d := ParentOf(g, path).value;
      if Live(g, d) {
        CreateChanges(g, d, Component(path));
        if CreateAt(g, d, Component(path)).1 == 0 {
          DamagedStays(View(g), d, FreeSlot(EntsAt(g, d), 0), FirstClear(g.ibits, 1), Stored(Component(path)));
        }
      }
    }
  }

  // A directory whose block is taken for data is none any more.
  lemma FillDir(h: Fs, v: nat, b: nat, data: seq<Byte>, size: nat)
    requires BlocksOk(h) && IsDir(h, v) && 0 < b < BLOCKS
    ensures !Wf(Fill(h, v, b, Bytes(data), size))
  {
    var k := Fill(h, v, b, Bytes(data), size);
    if Wf(k) { Slots(k, v); }
  }

  lemma FillElsewhere(h: Fs, v: nat, b: nat, c: Content, size: nat)
    requires BlocksOk(h) && v < INODES && !IsDir(h, v) && 0 < b < BLOCKS && !h.bbits[b]
    ensures View(Fill(h, v, b, c, size)) == View(h)
  {
    var k := Fill(h, v, b, c, size);
    assert View(k).live == View(h).live;
    forall j: nat | j in View(h).dirs ensures j in View(k).dirs && View(k).dirs[j] == View(h).dirs[j] {
      DirLive(h, j);
      Unmarked(h, b, j);
      assert h.inodes[j].direct in Refs(h, j);
    }
    assert View(k).dirs.Keys == View(h).dirs.Keys;
  }

  lemma PutDamaged(h: Fs, i: Option<nat>, data: seq<Byte>)
    requires BlocksOk(h) && Damaged(View(h))
    ensures !Wf(PutData(h, i, data).0)
  {
    var b := FirstClear(h.bbits, 0);
    FirstClearIs(h.bbits, 0);
    DamagedBreaks(View(h));
    WfIff(h);
    if i.Some? && i.value < INODES && |data| > 0 && b < BLOCKS {
      FillDamaged(h, i.value, b, Padded(data), |data|);
    }
  }

  lemma FillDamaged(h: Fs, v: nat, b: nat, data: seq<Byte>, size: nat)
    requires BlocksOk(h) && Damaged(View(h)) && v < INODES && 0 < b < BLOCKS && !h.bbits[b]
    ensures !Wf(Fill(h, v, b, Bytes(data), size))
  {
    DamagedBreaks(View(h));
    if IsDir(h, v) { FillDir(h, v, b, data, size); } else { FillElsewhere(h, v, b, Bytes(data), size); }
  }

  // What fs_write_file needs for the file system to stay well formed: the
  // delete removes the right entry, the create stores a new name, and the path
  // does not lead to a directory that would be taken for the new file.
  predicate WriteOk(fs: Fs, path: string, data: seq<Byte>)
    requires Shape(fs)
  {
    path == "" ||
    (&& (Delete(fs, path).1 == 0 ==> Aimed(fs, path))
     && var g := Delete(fs, path).0;
        Shape(g) && (Create(g, path).1 == 0 ==> NewAt(g, path) && DataFits(Create(g, path).0, path, data)))
  }

  predicate DataFits(h: Fs, path: string, data: seq<Byte>) {
    |data| > 0 && HasClear(h.bbits, 0) && Resolve(h, path).Some? ==> !IsDir(h, Resolve(h, path).value)
  }

  lemma PutKeepsIff(h: Fs, path: string, data: seq<Byte>)
    requires Wf(h) && Shape(h)
    ensures Wf(PutData(h, Resolve(h, path), data).0) <==> DataFits(h, path, data)
  {
    ResolveLive(h, path);
    FirstClearIs(h.bbits, 0);
    if |data| > 0 && HasClear(h.bbits, 0) && Resolve(h, path).Some? {
      var v := Resolve(h, path).value;
      assert InodeOk(h, v);
      if IsDir(h, v) { FillDir(h, v, FirstClear(h.bbits, 0), Padded(data), |data|); }
      else { FillKeeps(h, v, Bytes(Padded(data)), |data|); }
    }
  }

  lemma WriteIs(fs: Fs, path: string, data: seq<Byte>)
    requires Shape(fs) && path != ""
    ensures var g := Delete(fs, path).0;
            && Shape(g)
            && var (h, r) := Create(g, path);
            Shape(h) && WriteFile(fs, path, data).0 == if r != 0 then h else PutData(h, Resolve(h, path), data).0
  {
    DeleteShape(fs, path);
    CreateShape(Delete(fs, path).0, path);
    CreateFails(Delete(fs, path).0, path);
  }

  lemma WriteKeepsIff(fs: Fs, path: string, data: seq<Byte>)
    requires Wf(fs) && Shape(fs)
    ensures Wf(WriteFile(fs, path, data).0) <==> WriteOk(fs, path, data)
  {
    if path != "" {
      WriteIs(fs, path, data);
      DeleteKeepsPath(fs, path);
      if Delete(fs, path).1 == 0 && !Aimed(fs, path) {
        WriteDamaged(fs, path, data);
      } else {
        CreateThenPut(Delete(fs, path).0, path, data);
      }
    }
  }

  lemma CreateThenPut(g: Fs, path: string, data: seq<Byte>)
    requires Wf(g) && Shape(g) && Shape(Create(g, path).0)
    ensures var (h, r) := Create(g, path);
            && (r != 0 ==> Wf(h))
            && (r == 0 ==> (Wf(PutData(h, Resolve(h, path), data).0) <==> NewAt(g, path) && DataFits(h, path, data)))
  {
    CreatePath(g, path);
    if Create(g, path).1 == 0 {
      if NewAt(g, path) { PutKeepsIff(Create(g, path).0, path, data); } else { DoubledUnresolved(g, path); }
    }
  }

  lemma WriteDamaged(fs: Fs, path: string, data: seq<Byte>)
    requires Wf(fs) && Shape(fs) && path != "" && Delete(fs, path).1 == 0 && !Aimed(fs, path)
    ensures !Wf(WriteFile(fs, path, data).0)
  {
    var g := Delete(fs, path).0;
    WriteIs(fs, path, data);
    MisaimedDelete(fs, path);
    CreateDamaged(g, Resolve(fs, path).value, path);
    var h := Create(g, path).0;
    PutDamaged(h, Resolve(h, path), data);
    DamagedBreaks(View(h));
    WfIff(h);
  }

  // ---------------------------------------------------------------- whole runs

  datatype Op =
    | DoCreate(path: string)
    | DoMkdir(path: string)
    | DoDelete(path: string)
    | DoRmdir(path: string)
    | DoRename(path: string, to: string)
    | DoCopy(src: string, path: string)
    | DoWrite(path: string, data: seq<Byte>)
    | DoCd(path: string)

  function Next(fs: Fs, op: Op): Fs
    requires Shape(fs)
  {
    match op
    case DoCreate(p) => Create(fs, p).0
    case DoMkdir(p) => Mkdir(fs, p).0
    case DoDelete(p) => Delete(fs, p).0
    case DoRmdir(p) => Rmdir(fs, p).0
    case DoRename(p, to) => Rename(fs, p, to).0
    case DoCopy(src, p) => Copy(fs, src, p).0
    case DoWrite(p, data) => WriteFile(fs, p, data).0
    case DoCd(p) => Cd(fs, p).0
  }

  // The new name is not taken as it is stored, removal finds the entry that the
  // path leads to and is not asked for the current directory or by a dot name,
  // rename is sensible, and copy and write do no worse than their parts.
  predicate Sound(fs: Fs, op: Op)
    requires Shape(fs)
  {
    match op
    case DoCreate(p) => Create(fs, p).1 == 0 ==> NewAt(fs, p)
    case DoMkdir(p) => Mkdir(fs, p).1 == 0 ==> NewAt(fs, p)
    case DoDelete(p) => Delete(fs, p).1 == 0 ==> Aimed(fs, p)
    case DoRmdir(p) =>
      Rmdir(fs, p).1 == 0 ==> Aimed(fs, p) && Proper(Component(p)) && Resolve(fs, p) != Some(fs.cwd)
    case DoRename(p, to) => RenameRefused(fs, p, to) || RenameOk(fs, p, to)
    case DoCopy(src, p) => CopyRefused(fs, src, p) || (Create(fs, p).1 == 0 ==> NewAt(fs, p))
    case DoWrite(p, data) => WriteOk(fs, p, data)
    case DoCd(_) => true
  }

  // Sound means exactly that the file system stays well formed, for every
  // operation and every path.
  lemma SoundIff(fs: Fs, op: Op)
    requires Wf(fs) && Shape(fs)
    ensures Sound(fs, op) <==> Wf(Next(fs, op))
  {
    match op
    case DoCreate(p) => CreatePath(fs, p);
    case DoMkdir(p) => MkdirPath(fs, p);
    case DoDelete(p) => DeleteKeepsPath(fs, p);
    case DoRmdir(p) => RmdirPath(fs, p);
    case DoRename(p, to) => RenamePath(fs, p, to);
    case DoCopy(src, p) => CopyKeepsIff(fs, src, p);
    case DoWrite(p, data) => WriteKeepsIff(fs, p, data);
    case DoCd(p) => CdKeeps(fs, p);
  }

  // The final state of a run in which every operation is sound.
  ghost predicate Reaches(fs: Fs, ops: seq<Op>, g: Fs)
    requires Shape(fs)
    decreases |ops|
  {
    if ops == [] then g == fs
    else Sound(fs, ops[0]) && Shape(Next(fs, ops[0])) && Reaches(Next(fs, ops[0]), ops[1..], g)
  }

  // Every run keeps the file system well formed.
  lemma {:induction false} RunKeeps(fs: Fs, ops: seq<Op>, g: Fs)
    requires Wf(fs) && Reaches(fs, ops, g)
    ensures Wf(g)
    decreases |ops|
  {
    if ops != [] {
      SoundIff(fs, ops[0]);
      RunKeeps(Next(fs, ops[0]), ops[1..], g);
    }
  }
}
