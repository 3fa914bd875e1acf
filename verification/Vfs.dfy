/**
 * The operations of the virtual file system on a directory and a name: create,
 * mkdir, delete, rmdir, rename, and the first block of a new file.
 */
module Vfs {
  import opened FsTree
  import opened TinyFs

  function FirstClear(m: seq<bool>, i: nat): nat
    decreases |m| - i
  {
    if i >= |m| || !m[i] then i else FirstClear(m, i + 1)
  }

  lemma {:induction false} FirstClearIs(m: seq<bool>, i: nat)
    requires i <= |m|
    ensures i <= FirstClear(m, i) <= |m|
    ensures FirstClear(m, i) < |m| ==> !m[FirstClear(m, i)]
    ensures forall j :: i <= j < FirstClear(m, i) ==> m[j]
    decreases |m| - i
  {
    if i < |m| { FirstClearIs(m, i + 1); }
  }

  // A directory entry keeps at most 27 characters of a name.
  function Stored(name: string): string { if |name| > NAME_MAX then name[..NAME_MAX] else name }

  predicate HasBlock(fs: Fs, d: nat) {
    d < |fs.inodes| && fs.inodes[d].kind == Dir && 0 < fs.inodes[d].direct < |fs.blocks|
  }

  predicate HasFree(es: seq<Dirent>) { exists k :: 0 <= k < |es| && es[k].name == "" }

  // Directory d has an entry of this name.
  predicate Found(fs: Fs, d: nat, name: string) {
    HasBlock(fs, d) && FindName(EntsAt(fs, d), name, 0) < |EntsAt(fs, d)|
  }

  function AddDirent(fs: Fs, d: nat, i: nat, name: string): (Fs, int) {
    if !HasBlock(fs, d) then (fs, -1)
    else
      var es := EntsAt(fs, d);
      var k := FreeSlot(es, 0);
      if k >= |es| then (fs, -2)
      else
        var size := fs.inodes[d].size;
        (WriteDir(fs, d, es[k := Dirent(i, Stored(name))], if (k + 1) * 32 > size then (k + 1) * 32 else size), 0)
  }

  function RemoveDirent(fs: Fs, d: nat, name: string): (Fs, int) {
    if !HasBlock(fs, d) then (fs, -1)
    else
      var es := EntsAt(fs, d);
      var k := FindName(es, name, 0);
      if k >= |es| then (fs, -1) else (WriteDir(fs, d, es[k := FreeEntry], fs.inodes[d].size), 0)
  }

  function CreateAt(fs: Fs, d: nat, name: string): (Fs, int)
    requires Shape(fs)
  {
    var i := FirstClear(fs.ibits, 1);
    if d >= INODES || fs.inodes[d].kind != Dir || Found(fs, d, name) || i >= INODES then (fs, -1)
    else
      var g := NewNode(fs, i, Inode(File, 0, 0, 0), 0, Bytes([]));
      var (h, r) := AddDirent(g, d, i, name);
      if r < 0 then (DropNode(g, i), -1) else (h, 0)
  }

  function MkdirAt(fs: Fs, d: nat, name: string): (Fs, int)
    requires Shape(fs)
  {
    var i := FirstClear(fs.ibits, 1);
    var b := FirstClear(fs.bbits, 0);
    if d >= INODES || fs.inodes[d].kind != Dir || Found(fs, d, name) || i >= INODES then (fs, -1)
    else if b >= BLOCKS then (fs.(inodes := fs.inodes[i := Inode(NoKind, 0, 0, 0)]), -1)
    else
      var g := NewNode(fs, i, Inode(Dir, 64, b, 0), b, Entries(Dots(i, d)));
      var (h, r) := AddDirent(g, d, i, name);
      if r < 0 then (DropNode(g, i), -1) else (h, 0)
  }

  // Deletes the file t, entered as `name` in d.
  function DeleteAt(fs: Fs, t: nat, d: nat, name: string): (Fs, int)
    requires Shape(fs)
  {
    if t >= INODES || fs.inodes[t].kind != File then (fs, -1)
    else
      var (h, r) := RemoveDirent(fs, d, name);
      if r < 0 then (fs, -1) else (DropNode(h, t), 0)
  }

  function RmdirAt(fs: Fs, t: nat, d: nat, name: string): (Fs, int)
    requires Shape(fs)
  {
    if t >= INODES || fs.inodes[t].kind != Dir || !Bare(EntsAt(fs, t)) then (fs, -1)
    else
      var (h, r) := RemoveDirent(fs, d, name);
      if r < 0 then (fs, -1) else (DropNode(h, t), 0)
  }

  // Renames the inode t from `name` in d to `to` in e.
  function RenameAt(fs: Fs, t: nat, d: nat, name: string, e: nat, to: string): (Fs, int)
    requires Shape(fs)
  {
    if t >= INODES || Found(fs, e, to) then (fs, -1)
    else
      var (g, r) := AddDirent(fs, e, t, to);
      if r < 0 then (fs, -1) else RemoveDirent(g, d, name)
  }

  // Gives the empty file i its first block; -1 when the disk is full.
  function FillAt(fs: Fs, i: nat, c: Content, size: nat): (Fs, int)
    requires Shape(fs) && i < INODES
  {
    var b := FirstClear(fs.bbits, 0);
    if b >= BLOCKS then (fs, -1) else (Fill(fs, i, b, c, size), 0)
  }

  // ---------------------------------------------------------------- what they do to the tree

  lemma DirLive(fs: Fs, d: nat)
    requires BlocksOk(fs) && IsDir(fs, d)
    ensures HasBlock(fs, d) && d in View(fs).dirs && View(fs).dirs[d] == EntsAt(fs, d)
  {
    assert InodeOk(fs, d);
    assert fs.inodes[d].direct in Refs(fs, d);
  }

  lemma AddOk(fs: Fs, d: nat, i: nat, name: string)
    requires BlocksOk(fs) && IsDir(fs, d)
    ensures var (g, r) := AddDirent(fs, d, i, name);
            var es := EntsAt(fs, d);
            var k := FreeSlot(es, 0);
            && (r < 0 ==> g == fs)
            && (r >= 0 ==>
                && k < |es| && es[k].name == ""
                && BlocksOk(g) && View(g) == SetEntry(View(fs), d, k, Dirent(i, Stored(name)))
                && g.cwd == fs.cwd && g.ibits == fs.ibits && g.bbits == fs.bbits
                && (forall j: nat {:trigger Kept(fs, g, j)} :: Live(fs, j) && j != d ==> Kept(fs, g, j)))
  {
    DirLive(fs, d);
    var es := EntsAt(fs, d);
    var k := FreeSlot(es, 0);
    FreeSlotIs(es, 0);
    if k < |es| {
      var size := if (k + 1) * 32 > fs.inodes[d].size then (k + 1) * 32 else fs.inodes[d].size;
      WriteDirOk(fs, d, es[k := Dirent(i, Stored(name))], size);
    }
  }

  lemma RemoveOk(fs: Fs, d: nat, name: string)
    requires BlocksOk(fs) && IsDir(fs, d)
    ensures var (g, r) := RemoveDirent(fs, d, name);
            var es := EntsAt(fs, d);
            var k := FindName(es, name, 0);
            && (r < 0 ==> g == fs && k >= |es|)
            && (r >= 0 ==>
                && k < |es| && es[k].name == name && name != ""
                && BlocksOk(g) && View(g) == SetEntry(View(fs), d, k, FreeEntry)
                && g.cwd == fs.cwd && g.ibits == fs.ibits && g.bbits == fs.bbits
                && (forall j: nat {:trigger Kept(fs, g, j)} :: Live(fs, j) && j != d ==> Kept(fs, g, j)))
  {
    DirLive(fs, d);
    var es := EntsAt(fs, d);
    var k := FindName(es, name, 0);
    FindNameIs(es, name, 0);
    if k < |es| { WriteDirOk(fs, d, es[k := FreeEntry], fs.inodes[d].size); }
  }

  // All files and directories of fs but i and the directory d are the same in g.
  predicate OthersKept(fs: Fs, g: Fs, i: nat, d: nat) {
    forall j: nat {:trigger Kept(fs, g, j)} :: j < |fs.inodes| && Live(fs, j) && j != i && j != d ==>
        Live(g, j) && Kept(fs, g, j)
  }

  lemma KeptTwice(fs: Fs, g: Fs, h: Fs, j: nat)
    requires Kept(fs, g, j) && Kept(g, h, j)
    ensures Kept(fs, h, j)
  {
    KeptRefs(fs, g, j);
  }

  // ---------------------------------------------------------------- create and mkdir

  // The tree with one more inode.
  function Added(t: Tree, i: nat, dir: bool, es: seq<Dirent>): Tree {
    Tree(t.live + {i}, if dir then t.dirs[i := es] else t.dirs)
  }

  lemma AddedAndRemoved(t: Tree, i: nat, dir: bool, es: seq<Dirent>)
    requires i !in t.live && i !in t.dirs
    ensures Tree(Added(t, i, dir, es).live - {i}, Added(t, i, dir, es).dirs - {i}) == t
  {
    assert t.live + {i} - {i} == t.live;
  }

  lemma NotInView(fs: Fs, i: nat)
    requires !Live(fs, i)
    ensures i !in View(fs).live && i !in View(fs).dirs
  {
  }

  lemma CwdInView(fs: Fs)
    requires Shape(fs)
    ensures IsDir(fs, fs.cwd) <==> fs.cwd in View(fs).dirs
  {
  }

  // A failed attempt to enter the new inode undoes everything.
  lemma UndoNode(fs: Fs, i: nat, n: Inode, b: nat, c: Content)
    requires Wf(fs) && Fresh(fs, i, n, b, c)
    ensures View(DropNode(NewNode(fs, i, n, b, c), i)) == View(fs)
    ensures Wf(DropNode(NewNode(fs, i, n, b, c), i))
  {
    var g := NewNode(fs, i, n, b, c);
    NewNodeOk(fs, i, n, b, c);
    DropNodeOk(g, i);
    NotInView(fs, i);
    AddedAndRemoved(View(fs), i, n.kind == Dir, EntriesOf(c));
    CwdInView(fs);
    CwdInView(DropNode(g, i));
  }

  // A new inode with record n and, for a directory, block b, entered in d.
  function Enter(fs: Fs, d: nat, i: nat, n: Inode, b: nat, c: Content, name: string): (Fs, int)
    requires i < |fs.inodes|
  {
    var g := NewNode(fs, i, n, b, c);
    var (h, r) := AddDirent(g, d, i, name);
    if r < 0 then (DropNode(g, i), -1) else (h, 0)
  }

  lemma EnterFails(fs: Fs, d: nat, i: nat, n: Inode, b: nat, c: Content, name: string)
    requires Wf(fs) && Fresh(fs, i, n, b, c) && Enter(fs, d, i, n, b, c, name).1 != 0
    ensures var (h, r) := Enter(fs, d, i, n, b, c, name);
            r == -1 && Wf(h) && View(h) == View(fs)
  {
    UndoNode(fs, i, n, b, c);
  }

  predicate Entering(fs: Fs, d: nat, i: nat, n: Inode, b: nat, c: Content) {
    Live(fs, d) && fs.inodes[d].kind == Dir && Fresh(fs, i, n, b, c) && (n.kind == Dir ==> c == Entries(Dots(i, d)))
  }

  // The directory as it stands when the new inode is already marked.
  lemma EnterDir(fs: Fs, d: nat, i: nat, n: Inode, b: nat, c: Content)
    requires BlocksOk(fs) && Entering(fs, d, i, n, b, c)
    ensures var g := NewNode(fs, i, n, b, c);
            && d != i && IsDir(g, d) && EntsAt(g, d) == EntsAt(fs, d) && Live(g, i) && g.inodes[i] == n
  {
    NewNodeOk(fs, i, n, b, c);
    var g := NewNode(fs, i, n, b, c);
    assert Kept(fs, g, d);
    KeptRefs(fs, g, d);
    DirLive(fs, d);
  }

  lemma EnterView(fs: Fs, d: nat, i: nat, n: Inode, b: nat, c: Content, name: string)
    requires BlocksOk(fs) && Entering(fs, d, i, n, b, c) && Enter(fs, d, i, n, b, c, name).1 == 0
    ensures var h := Enter(fs, d, i, n, b, c, name).0;
            var k := FreeSlot(EntsAt(fs, d), 0);
            && d in View(fs).dirs && k < |View(fs).dirs[d]| && View(fs).dirs[d][k].name == ""
            && BlocksOk(h)
            && View(h) == Attach(View(fs), d, k, i, Stored(name), n.kind == Dir)
  {
    var g := NewNode(fs, i, n, b, c);
    NewNodeOk(fs, i, n, b, c);
    DirLive(fs, d);
    EnterDir(fs, d, i, n, b, c);
    AddOk(g, d, i, name);
    AttachIs(View(fs), d, FreeSlot(EntsAt(fs, d), 0), i, Stored(name), n.kind == Dir);
  }

  lemma AttachIs(t: Tree, d: nat, k: nat, i: nat, name: string, dir: bool)
    requires d in t.dirs && k < |t.dirs[d]| && d != i
    ensures SetEntry(Added(t, i, dir, Dots(i, d)), d, k, Dirent(i, name)) == Attach(t, d, k, i, name, dir)
  {
    assert Attach(t, d, k, i, name, dir).dirs == SetEntry(Added(t, i, dir, Dots(i, d)), d, k, Dirent(i, name)).dirs;
  }

  lemma EnterKept(fs: Fs, d: nat, i: nat, n: Inode, b: nat, c: Content, name: string)
    requires BlocksOk(fs) && Entering(fs, d, i, n, b, c) && Enter(fs, d, i, n, b, c, name).1 == 0
    ensures var h := Enter(fs, d, i, n, b, c, name).0;
            && h.cwd == fs.cwd && OthersKept(fs, h, i, d) && Live(h, i) && h.inodes[i] == n
            && h.bbits == NewNode(fs, i, n, b, c).bbits
  {
    var g := NewNode(fs, i, n, b, c);
    NewNodeOk(fs, i, n, b, c);
    EnterDir(fs, d, i, n, b, c);
    AddOk(g, d, i, name);
    var h := Enter(fs, d, i, n, b, c, name).0;
    assert Kept(g, h, i);
    forall j: nat | j < |fs.inodes| && Live(fs, j) && j != i && j != d ensures Live(h, j) && Kept(fs, h, j) {
      assert Kept(fs, g, j) && Kept(g, h, j);
      KeptTwice(fs, g, h, j);
    }
  }

  // The new entry's name, as stored, is not in the directory yet: then, and
  // only then, entering a new inode keeps the file system well formed.
  lemma EnterKeepsIff(fs: Fs, d: nat, i: nat, n: Inode, b: nat, c: Content, name: string)
    requires Wf(fs) && Entering(fs, d, i, n, b, c) && Enter(fs, d, i, n, b, c, name).1 == 0
    requires i != 0 && name != ""
    ensures Wf(Enter(fs, d, i, n, b, c, name).0) <==> !Has(EntsAt(fs, d), Stored(name))
  {
    var h := Enter(fs, d, i, n, b, c, name).0;
    var t, k := View(fs), FreeSlot(EntsAt(fs, d), 0);
    EnterView(fs, d, i, n, b, c, name);
    EnterKept(fs, d, i, n, b, c, name);
    DirLive(fs, d);
    NotInView(fs, i);
    AttachKeepsIff(t, d, k, i, Stored(name), n.kind == Dir);
    CwdInView(fs);
    WfIff(h);
  }

  lemma WfIff(fs: Fs)
    requires BlocksOk(fs)
    ensures Wf(fs) <==> TreeOk(View(fs)) && fs.cwd in View(fs).dirs
  {
    CwdInView(fs);
  }

  lemma AttachKeepsIff(t: Tree, d: nat, k: nat, i: nat, name: string, dir: bool)
    requires TreeOk(t) && d in t.dirs && k < |t.dirs[d]| && t.dirs[d][k].name == ""
    requires i !in t.live && i != 0 && name != "" && |name| <= NAME_MAX
    ensures TreeOk(Attach(t, d, k, i, name, dir)) <==> !Has(t.dirs[d], name)
    ensures forall e :: e in t.dirs ==> e in Attach(t, d, k, i, name, dir).dirs
  {
    if Has(t.dirs[d], name) {
      AttachBreaks(t, d, k, i, name, dir);
    } else {
      assert DirOk(t, d);
      AttachKeeps(t, d, k, i, name, dir);
    }
  }

  // Two entries of the same name.
  lemma AttachBreaks(t: Tree, d: nat, k: nat, i: nat, name: string, dir: bool)
    requires d in t.dirs && k < |t.dirs[d]| && t.dirs[d][k].name == "" && i != d
    requires name != "" && Has(t.dirs[d], name)
    ensures !TreeOk(Attach(t, d, k, i, name, dir))
  {
    var r := Attach(t, d, k, i, name, dir);
    var es := r.dirs[d];
    var m :| 0 <= m < |t.dirs[d]| && t.dirs[d][m].name == name;
    assert es[m].name == es[k].name;
    assert !Differ(es, if m < k then m else k, if m < k then k else m);
    assert TreeOk(r) ==> DirOk(r, d);
  }

  // What happens to a name that is looked up in a directory.
  lemma FoundIff(fs: Fs, d: nat, name: string)
    requires BlocksOk(fs) && IsDir(fs, d) && name != "" && |EntsAt(fs, d)| == SLOTS
    ensures Found(fs, d, name) <==> Has(EntsAt(fs, d), name)
  {
    DirLive(fs, d);
    FindNameHas(EntsAt(fs, d), name);
  }

  lemma Slots(fs: Fs, d: nat)
    requires Wf(fs) && IsDir(fs, d)
    ensures |EntsAt(fs, d)| == SLOTS && NamesOk(EntsAt(fs, d))
  {
    DirLive(fs, d);
    assert DirOk(View(fs), d);
  }

  // create keeps the file system well formed exactly when the name, cut to the
  // 27 characters that are stored, is new in the directory.
  lemma CreateKeepsIff(fs: Fs, d: nat, name: string)
    requires Wf(fs) && IsDir(fs, d) && name != ""
    ensures var (g, r) := CreateAt(fs, d, name);
            && (r != 0 ==> r == -1 && Wf(g) && View(g) == View(fs))
            && (r == 0 ==> !Has(EntsAt(fs, d), name) && (Wf(g) <==> !Has(EntsAt(fs, d), Stored(name))))
  {
    var i := FirstClear(fs.ibits, 1);
    FirstClearIs(fs.ibits, 1);
    Slots(fs, d);
    FoundIff(fs, d, name);
    if !Found(fs, d, name) && i < INODES {
      var n := Inode(File, 0, 0, 0);
      assert CreateAt(fs, d, name) == Enter(fs, d, i, n, 0, Bytes([]), name);
      if CreateAt(fs, d, name).1 == 0 { EnterKeepsIff(fs, d, i, n, 0, Bytes([]), name); }
      else { EnterFails(fs, d, i, n, 0, Bytes([]), name); }
    }
  }

  // A record that is not in use may hold anything.
  lemma IdleRecord(fs: Fs, i: nat, n: Inode)
    requires Wf(fs) && i < INODES && !Live(fs, i)
    ensures View(fs.(inodes := fs.inodes[i := n])) == View(fs)
    ensures Wf(fs.(inodes := fs.inodes[i := n]))
  {
    IdleBlocks(fs, i, n);
    IdleView(fs, i, n);
    WfIff(fs);
    WfIff(fs.(inodes := fs.inodes[i := n]));
  }

  lemma IdleBlocks(fs: Fs, i: nat, n: Inode)
    requires BlocksOk(fs) && i < INODES && !Live(fs, i)
    ensures BlocksOk(fs.(inodes := fs.inodes[i := n]))
  {
    var g := fs.(inodes := fs.inodes[i := n]);
    forall j: nat | Live(g, j) && j != i ensures Beside(fs, g, i, j) { assert InodeOk(fs, j); }
    AroundKeeps(fs, g, i);
  }

  lemma IdleView(fs: Fs, i: nat, n: Inode)
    requires i < |fs.inodes| && !Live(fs, i)
    ensures View(fs.(inodes := fs.inodes[i := n])) == View(fs)
  {
    var g := fs.(inodes := fs.inodes[i := n]);
    assert forall j: nat :: Live(g, j) <==> Live(fs, j);
    assert forall j: nat :: IsDir(g, j) <==> IsDir(fs, j);
    assert View(g).live == View(fs).live;
    assert View(g).dirs == View(fs).dirs;
  }

  lemma MkdirKeepsIff(fs: Fs, d: nat, name: string)
    requires Wf(fs) && IsDir(fs, d) && name != ""
    ensures var (g, r) := MkdirAt(fs, d, name);
            && (r != 0 ==> r == -1 && Wf(g) && View(g) == View(fs))
            && (r == 0 ==> !Has(EntsAt(fs, d), name) && (Wf(g) <==> !Has(EntsAt(fs, d), Stored(name))))
  {
    var i := FirstClear(fs.ibits, 1);
    var b := FirstClear(fs.bbits, 0);
    FirstClearIs(fs.ibits, 1);
    FirstClearIs(fs.bbits, 0);
    Slots(fs, d);
    FoundIff(fs, d, name);
    if !Found(fs, d, name) && i < INODES {
      if b >= BLOCKS {
        IdleRecord(fs, i, Inode(NoKind, 0, 0, 0));
      } else {
        var n, c := Inode(Dir, 64, b, 0), Entries(Dots(i, d));
        assert MkdirAt(fs, d, name) == Enter(fs, d, i, n, b, c, name);
        if MkdirAt(fs, d, name).1 == 0 { EnterKeepsIff(fs, d, i, n, b, c, name); }
        else { EnterFails(fs, d, i, n, b, c, name); }
      }
    }
  }

  // ---------------------------------------------------------------- delete and rmdir

  // Name `name` of directory d leads to inode t.
  predicate Leads(fs: Fs, d: nat, name: string, t: nat) {
    && IsDir(fs, d) && Found(fs, d, name) && EntsAt(fs, d)[FindName(EntsAt(fs, d), name, 0)].inode == t
  }

  lemma LeadsHolds(fs: Fs, d: nat, name: string, t: nat)
    requires Wf(fs) && Leads(fs, d, name, t) && Proper(name)
    ensures Holds(View(fs), d, FindName(EntsAt(fs, d), name, 0), t) && Live(fs, t) && t != 0
  {
    DirLive(fs, d);
    FindNameIs(EntsAt(fs, d), name, 0);
    assert DirOk(View(fs), d) && SlotOk(View(fs), d, FindName(EntsAt(fs, d), name, 0));
  }

  // The entry goes, and then the inode and its block.
  function Erase(fs: Fs, t: nat, d: nat, name: string): Fs
    requires t < |fs.inodes|
  {
    DropNode(RemoveDirent(fs, d, name).0, t)
  }

  lemma EraseIs(fs: Fs, t: nat, d: nat, name: string)
    requires BlocksOk(fs) && IsDir(fs, d) && Found(fs, d, name) && Live(fs, t)
    ensures RemoveDirent(fs, d, name).1 == 0
    ensures var g := Erase(fs, t, d, name);
            var k := FindName(EntsAt(fs, d), name, 0);
            && d in View(fs).dirs && k < |View(fs).dirs[d]|
            && BlocksOk(g) && View(g) == Detach(View(fs), d, k, t)
            && OthersKept(fs, g, t, d) && g.cwd == fs.cwd
  {
    RemoveOk(fs, d, name);
    DirLive(fs, d);
    var h := RemoveDirent(fs, d, name).0;
    DropNodeOk(h, t);
    var g := DropNode(h, t);
    forall j: nat | j < |fs.inodes| && Live(fs, j) && j != t && j != d ensures Live(g, j) && Kept(fs, g, j) {
      assert Kept(fs, h, j) && Kept(h, g, j);
      KeptTwice(fs, h, g, j);
    }
  }

  // A proper name leads to t exactly when the entry found holds t.
  lemma LeadsIff(fs: Fs, d: nat, name: string, t: nat)
    requires BlocksOk(fs) && IsDir(fs, d) && Found(fs, d, name)
    ensures Leads(fs, d, name, t) && Proper(name) <==> Holds(View(fs), d, FindName(EntsAt(fs, d), name, 0), t)
    ensures EntsAt(fs, d)[FindName(EntsAt(fs, d), name, 0)].name == name && name != ""
  {
    DirLive(fs, d);
    FindNameIs(EntsAt(fs, d), name, 0);
  }

  // Erasing a file or a bare directory keeps the file system well formed
  // exactly when the entry that goes is a proper one for it, and it is not the
  // current directory.
  lemma EraseKeepsIff(fs: Fs, t: nat, d: nat, name: string)
    requires Wf(fs) && IsDir(fs, d) && Found(fs, d, name) && Live(fs, t) && (IsDir(fs, t) ==> Bare(EntsAt(fs, t)))
    ensures RemoveDirent(fs, d, name).1 == 0 && OthersKept(fs, Erase(fs, t, d, name), t, d)
    ensures Wf(Erase(fs, t, d, name)) <==> Leads(fs, d, name, t) && Proper(name) && t != fs.cwd
  {
    var v, k := View(fs), FindName(EntsAt(fs, d), name, 0);
    DirLive(fs, d);
    LeadsIff(fs, d, name, t);
    EraseIs(fs, t, d, name);
    if IsDir(fs, t) { DirLive(fs, t); }
    if Holds(v, d, k, t) { DetachKeeps(v, d, k, t); } else { DetachBreaks(v, d, k, t); }
    WfIff(fs);
    WfIff(Erase(fs, t, d, name));
  }

  lemma NotRemoved(fs: Fs, d: nat, name: string)
    requires Wf(fs) && Live(fs, d) && !Found(fs, d, name)
    ensures RemoveDirent(fs, d, name) == (fs, -1)
  {
  }

  // A dot entry leads to a directory.
  lemma DotLeads(fs: Fs, d: nat, name: string, t: nat)
    requires Wf(fs) && Leads(fs, d, name, t)
    ensures Live(fs, t) && (Dot(name) ==> IsDir(fs, t))
    ensures Dot(name) && IsDir(fs, t) && Bare(EntsAt(fs, t)) ==> t == d
  {
    var v, k := View(fs), FindName(EntsAt(fs, d), name, 0);
    DirLive(fs, d);
    FindNameIs(EntsAt(fs, d), name, 0);
    assert DirOk(v, d) && SlotOk(v, d, k);
    if name == ".." && d != 0 {
      DirLive(fs, t);
      var m :| 0 <= m < |v.dirs[t]| && Holds(v, t, m, d);
    }
  }

  lemma FileLeads(fs: Fs, d: nat, name: string, t: nat)
    requires Wf(fs) && Live(fs, t) && fs.inodes[t].kind == File
    ensures Leads(fs, d, name, t) ==> Proper(name)
    ensures t != fs.cwd
  {
    if Leads(fs, d, name, t) { DotLeads(fs, d, name, t); LeadsIff(fs, d, name, t); }
    WfIff(fs);
  }

  // delete of inode t by the entry `name` of d: it succeeds exactly for a file
  // and a name that is there, and then the file system stays well formed
  // exactly when the name leads to that file.
  lemma DeleteKeepsIff(fs: Fs, t: nat, d: nat, name: string)
    requires Wf(fs) && Live(fs, t) && Live(fs, d)
    ensures var (g, r) := DeleteAt(fs, t, d, name);
            && (r == 0 <==> fs.inodes[t].kind == File && Found(fs, d, name))
            && (r == 0 ==> g == Erase(fs, t, d, name) && OthersKept(fs, g, t, d)
                           && (Wf(g) <==> Leads(fs, d, name, t)))
            && (r != 0 ==> r == -1 && g == fs)
  {
    if fs.inodes[t].kind == File {
      if Found(fs, d, name) {
        EraseKeepsIff(fs, t, d, name);
        FileLeads(fs, d, name, t);
      } else {
        NotRemoved(fs, d, name);
      }
    }
  }

  // rmdir of inode t by the entry `name` of d: it succeeds exactly for a bare
  // directory and a name that is there, and then the file system stays well
  // formed exactly when a proper name leads to that directory and it is not the
  // current one.
  lemma RmdirKeepsIff(fs: Fs, t: nat, d: nat, name: string)
    requires Wf(fs) && Live(fs, t) && Live(fs, d)
    ensures var (g, r) := RmdirAt(fs, t, d, name);
            && (r == 0 <==> fs.inodes[t].kind == Dir && Bare(EntsAt(fs, t)) && Found(fs, d, name))
            && (r == 0 ==> OthersKept(fs, g, t, d)
                           && (Wf(g) <==> Leads(fs, d, name, t) && Proper(name) && t != fs.cwd))
            && (r != 0 ==> r == -1 && g == fs)
  {
    if fs.inodes[t].kind == Dir && Bare(EntsAt(fs, t)) {
      if Found(fs, d, name) { EraseKeepsIff(fs, t, d, name); } else { NotRemoved(fs, d, name); }
    }
  }

  // ---------------------------------------------------------------- rename

  // The new entry bears the old name in the same directory and comes before the
  // old one: the second half of the rename takes it away again.
  predicate Undone(fs: Fs, d: nat, name: string, e: nat, to: string)
    requires d < |fs.inodes|
  {
    d == e && Stored(to) == name && FreeSlot(EntsAt(fs, d), 0) < FindName(EntsAt(fs, d), name, 0)
  }

  // The first half of a rename.
  predicate Linked(fs: Fs, t: nat, e: nat, to: string) {
    Live(fs, t) && IsDir(fs, e) && Proper(Stored(to)) && AddDirent(fs, e, t, to).1 == 0
  }

  lemma LinkIs(fs: Fs, t: nat, e: nat, to: string)
    requires Wf(fs) && Linked(fs, t, e, to)
    ensures var h := AddDirent(fs, e, t, to).0;
            var j := FreeSlot(EntsAt(fs, e), 0);
            && Enterable(View(fs), e, j, t, Stored(to)) && BlocksOk(h) && h.cwd == fs.cwd
            && View(h) == SetEntry(View(fs), e, j, Dirent(t, Stored(to)))
            && OthersKept(fs, h, e, e)
  {
    DirLive(fs, e);
    AddOk(fs, e, t, to);
    FreeSlotIs(EntsAt(fs, e), 0);
  }

  // Which entry the second half finds.
  lemma LinkFinds(fs: Fs, t: nat, d: nat, name: string, e: nat, to: string)
    requires Wf(fs) && Linked(fs, t, e, to) && Live(fs, d) && name != ""
    ensures var h := AddDirent(fs, e, t, to).0;
            var k := FindName(EntsAt(fs, d), name, 0);
            && Live(h, d) && (IsDir(h, d) <==> IsDir(fs, d)) && (IsDir(fs, d) <==> HasBlock(h, d))
            && (IsDir(fs, d) ==>
                && |EntsAt(h, d)| == |EntsAt(fs, d)|
                && FindName(EntsAt(h, d), name, 0) ==
                   if Undone(fs, d, name, e, to) then FreeSlot(EntsAt(fs, e), 0) else k)
  {
    var h := AddDirent(fs, e, t, to).0;
    LinkIs(fs, t, e, to);
    assert d in View(h).live;
    assert d in View(fs).dirs <==> d in View(h).dirs;
    if IsDir(fs, d) {
      DirLive(fs, d);
      DirLive(h, d);
      if d == e { FindNameSet(EntsAt(fs, d), FreeSlot(EntsAt(fs, e), 0), Dirent(t, Stored(to)), name, 0); }
    }
  }

  // The second half finds nothing: an inode has two entries.
  lemma RenameAdds(fs: Fs, t: nat, d: nat, name: string, e: nat, to: string)
    requires Wf(fs) && Linked(fs, t, e, to) && Live(fs, d) && name != ""
    requires !Found(fs, d, name) && !Undone(fs, d, name, e, to)
    ensures var (g, r) := RemoveDirent(AddDirent(fs, e, t, to).0, d, name);
            r == -1 && !Wf(g) && OthersKept(fs, g, e, d)
  {
    var h := AddDirent(fs, e, t, to).0;
    LinkIs(fs, t, e, to);
    LinkFinds(fs, t, d, name, e, to);
    if IsDir(fs, d) { DirLive(fs, d); }
    EnteredTwice(View(fs), e, FreeSlot(EntsAt(fs, e), 0), t, Stored(to));
    WfIff(h);
  }

  lemma RenameIs(fs: Fs, t: nat, d: nat, name: string, e: nat, to: string)
    requires Wf(fs) && Linked(fs, t, e, to) && IsDir(fs, d) && name != ""
    requires Found(fs, d, name) || Undone(fs, d, name, e, to)
    ensures var (g, r) := RemoveDirent(AddDirent(fs, e, t, to).0, d, name);
            var v, j, k := View(fs), FreeSlot(EntsAt(fs, e), 0), FindName(EntsAt(fs, d), name, 0);
            var q := if Undone(fs, d, name, e, to) then j else k;
            && d in v.dirs && q < |v.dirs[d]| && e in v.dirs && j < |v.dirs[e]|
            && r == 0 && BlocksOk(g) && g.cwd == fs.cwd && OthersKept(fs, g, e, d)
            && View(g) == Move(v, d, q, e, j, t, Stored(to))
  {
    var h := AddDirent(fs, e, t, to).0;
    LinkIs(fs, t, e, to);
    LinkFinds(fs, t, d, name, e, to);
    DirLive(fs, d);
    RemoveOk(h, d, name);
    DirLive(h, d);
    var g := RemoveDirent(h, d, name).0;
    forall j: nat | j < |fs.inodes| && Live(fs, j) && j != e && j != d ensures Live(g, j) && Kept(fs, g, j) {
      assert Kept(fs, h, j) && Kept(h, g, j);
      KeptTwice(fs, h, g, j);
    }
  }

  // A proper old name leads to what is moved, a directory stays in its parent,
  // and the new name, as stored, is not that of another entry.
  predicate Sensible(fs: Fs, t: nat, d: nat, name: string, e: nat, to: string)
    requires t < |fs.inodes| && e < |fs.inodes|
  {
    && Leads(fs, d, name, t) && Proper(name) && (fs.inodes[t].kind == Dir ==> d == e)
    && (!Has(EntsAt(fs, e), Stored(to)) || (d == e && Stored(to) == name))
  }

  lemma RenamedIff(fs: Fs, t: nat, d: nat, name: string, e: nat, to: string)
    requires Wf(fs) && Linked(fs, t, e, to) && IsDir(fs, d) && name != ""
    requires Found(fs, d, name) || Undone(fs, d, name, e, to)
    ensures Wf(RemoveDirent(AddDirent(fs, e, t, to).0, d, name).0) <==>
            Undone(fs, d, name, e, to) || Sensible(fs, t, d, name, e, to)
  {
    var v, j, k := View(fs), FreeSlot(EntsAt(fs, e), 0), FindName(EntsAt(fs, d), name, 0);
    RenameIs(fs, t, d, name, e, to);
    LinkIs(fs, t, e, to);
    if Undone(fs, d, name, e, to) {
      EnteredAndCleared(v, d, j, t, name);
    } else {
      DirLive(fs, d);
      DirLive(fs, e);
      if IsDir(fs, t) { DirLive(fs, t); }
      LeadsIff(fs, d, name, t);
      MoveKeepsIff(v, d, k, e, j, t, Stored(to));
      Slots(fs, d);
      VacantIff(v, d, k, e, Stored(to));
    }
    WfIff(fs);
    WfIff(RemoveDirent(AddDirent(fs, e, t, to).0, d, name).0);
  }

  // A name that is not found is stored as a proper one.
  lemma NewIsProper(fs: Fs, e: nat, to: string)
    requires Wf(fs) && IsDir(fs, e) && to != "" && !Found(fs, e, to)
    ensures Proper(Stored(to)) && |Stored(to)| <= NAME_MAX
  {
    Slots(fs, e);
    FoundIff(fs, e, to);
  }

  // The first half succeeds exactly when the new name is not found and there is
  // a free slot.
  predicate Linkable(fs: Fs, e: nat, to: string)
    requires e < |fs.inodes|
  {
    IsDir(fs, e) && !Has(EntsAt(fs, e), to) && HasFree(EntsAt(fs, e))
  }

  lemma LinkableIff(fs: Fs, t: nat, e: nat, to: string)
    requires Wf(fs) && Live(fs, t) && Live(fs, e) && to != ""
    ensures Linkable(fs, e, to) <==> !Found(fs, e, to) && AddDirent(fs, e, t, to).1 >= 0
    ensures Linkable(fs, e, to) ==> Linked(fs, t, e, to) && AddDirent(fs, e, t, to).1 == 0
  {
    if IsDir(fs, e) {
      Slots(fs, e);
      FoundIff(fs, e, to);
      DirLive(fs, e);
      FreeSlotIs(EntsAt(fs, e), 0);
      if !Found(fs, e, to) { NewIsProper(fs, e, to); }
    }
  }

  lemma RenameHalves(fs: Fs, t: nat, d: nat, name: string, e: nat, to: string)
    requires Wf(fs) && Live(fs, t) && Live(fs, e) && to != ""
    ensures Linkable(fs, e, to) ==>
              Linked(fs, t, e, to)
              && RenameAt(fs, t, d, name, e, to) == RemoveDirent(AddDirent(fs, e, t, to).0, d, name)
    ensures !Linkable(fs, e, to) ==> RenameAt(fs, t, d, name, e, to) == (fs, -1)
  {
    LinkableIff(fs, t, e, to);
  }

  // rename of inode t from the name `name` of d to the name `to` of e, for all
  // names: when it succeeds, and when it leaves a well-formed file system.
  lemma RenameKeepsIff(fs: Fs, t: nat, d: nat, name: string, e: nat, to: string)
    requires Wf(fs) && Live(fs, t) && Live(fs, d) && Live(fs, e) && name != "" && to != ""
    ensures var (g, r) := RenameAt(fs, t, d, name, e, to);
            && (!Linkable(fs, e, to) ==> r == -1 && g == fs)
            && (r == 0 <==> Linkable(fs, e, to) && (Found(fs, d, name) || Undone(fs, d, name, e, to)))
            && (Linkable(fs, e, to) ==>
                && OthersKept(fs, g, e, d)
                && (Wf(g) <==> Undone(fs, d, name, e, to) || Sensible(fs, t, d, name, e, to)))
  {
    RenameHalves(fs, t, d, name, e, to);
    if Linkable(fs, e, to) {
      if Found(fs, d, name) || Undone(fs, d, name, e, to) {
        RenameIs(fs, t, d, name, e, to);
        RenamedIff(fs, t, d, name, e, to);
      } else {
        RenameAdds(fs, t, d, name, e, to);
      }
    }
  }

  // ---------------------------------------------------------------- file contents

  lemma FillKeeps(fs: Fs, i: nat, c: Content, size: nat)
    requires Wf(fs) && Live(fs, i) && fs.inodes[i].kind == File
    ensures var (g, r) := FillAt(fs, i, c, size);
            && Wf(g) && View(g) == View(fs) && g.cwd == fs.cwd && OthersKept(fs, g, i, i)
            && (r != 0 ==> r == -1 && g == fs)
            && (r == 0 ==>
                && Live(g, i) && g.inodes[i].kind == File && g.inodes[i].size == size
                && g.inodes[i].indirect == fs.inodes[i].indirect
                && g.inodes[i].direct != 0 && BlockAt(g, g.inodes[i].direct) == c)
  {
    var b := FirstClear(fs.bbits, 0);
    FirstClearIs(fs.bbits, 0);
    if b < BLOCKS { FilledKeeps(fs, i, b, c, size); }
  }

  lemma FilledKeeps(fs: Fs, i: nat, b: nat, c: Content, size: nat)
    requires Wf(fs) && Live(fs, i) && fs.inodes[i].kind == File && 0 < b < BLOCKS && !fs.bbits[b]
    ensures var g := Fill(fs, i, b, c, size);
            Wf(g) && View(g) == View(fs) && OthersKept(fs, g, i, i) && BlockAt(g, b) == c
  {
    FillOk(fs, i, b, c, size);
    SameTree(fs, Fill(fs, i, b, c, size));
  }

  lemma SameTree(fs: Fs, g: Fs)
    requires Wf(fs) && BlocksOk(g) && View(g) == View(fs) && g.cwd == fs.cwd
    ensures Wf(g)
  {
    WfIff(fs);
    WfIff(g);
  }

  // ---------------------------------------------------------------- when create and mkdir succeed

  predicate HasClear(m: seq<bool>, i: nat) { exists k :: i <= k < |m| && !m[k] }

  lemma EnterSucceeds(fs: Fs, d: nat, i: nat, n: Inode, b: nat, c: Content, name: string)
    requires Wf(fs) && Entering(fs, d, i, n, b, c)
    ensures Enter(fs, d, i, n, b, c, name).1 == 0 <==> HasFree(EntsAt(fs, d))
  {
    EnterDir(fs, d, i, n, b, c);
    NewNodeOk(fs, i, n, b, c);
    DirLive(NewNode(fs, i, n, b, c), d);
    FreeSlotIs(EntsAt(fs, d), 0);
  }

  // create succeeds exactly when the name is new, an inode is free and the
  // directory has room.
  lemma CreateSucceedsIff(fs: Fs, d: nat, name: string)
    requires Wf(fs) && IsDir(fs, d) && name != ""
    ensures CreateAt(fs, d, name).1 == 0 <==>
            !Has(EntsAt(fs, d), name) && HasClear(fs.ibits, 1) && HasFree(EntsAt(fs, d))
  {
    var i := FirstClear(fs.ibits, 1);
    FirstClearIs(fs.ibits, 1);
    Slots(fs, d);
    FoundIff(fs, d, name);
    if !Found(fs, d, name) && i < INODES {
      assert CreateAt(fs, d, name) == Enter(fs, d, i, Inode(File, 0, 0, 0), 0, Bytes([]), name);
      EnterSucceeds(fs, d, i, Inode(File, 0, 0, 0), 0, Bytes([]), name);
    }
  }

  lemma MkdirSucceedsIff(fs: Fs, d: nat, name: string)
    requires Wf(fs) && IsDir(fs, d) && name != ""
    ensures MkdirAt(fs, d, name).1 == 0 <==>
            !Has(EntsAt(fs, d), name) && HasClear(fs.ibits, 1) && HasClear(fs.bbits, 0) && HasFree(EntsAt(fs, d))
  {
    var i, b := FirstClear(fs.ibits, 1), FirstClear(fs.bbits, 0);
    FirstClearIs(fs.ibits, 1);
    FirstClearIs(fs.bbits, 0);
    Slots(fs, d);
    FoundIff(fs, d, name);
    if !Found(fs, d, name) && i < INODES && b < BLOCKS {
      var n, c := Inode(Dir, 64, b, 0), Entries(Dots(i, d));
      assert MkdirAt(fs, d, name) == Enter(fs, d, i, n, b, c, name);
      EnterSucceeds(fs, d, i, n, b, c, name);
    }
  }
}
