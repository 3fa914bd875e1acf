/**
 * TinyFS on disk: two bitmaps, the inode table and the blocks.
 *
 * A block is modelled by what it holds: a file's bytes, a directory's entries or
 * the block numbers of an indirect block.  Disk transfers and the kernel's
 * temporary buffers are taken to succeed.
 */
module TinyFs {
  import opened Prelude
  import opened FsTree

  const INODES: nat := 64
  const BLOCKS: nat := 16384
  const BLOCK_SIZE: nat := 4096
  const ROOT_DATA: nat := 89      // the root directory's block, the first after the tables
  const POINTERS: nat := 1024   // block numbers in an indirect block

  type Byte = x: int | 0 <= x < 256

  datatype Kind = NoKind | File | Dir

  datatype Inode = Inode(kind: Kind, size: nat, direct: nat, indirect: nat)

  datatype Content = Bytes(data: seq<Byte>) | Entries(es: seq<Dirent>) | Numbers(nums: seq<nat>)

  datatype Fs = Fs(ibits: seq<bool>, inodes: seq<Inode>, bbits: seq<bool>, blocks: seq<Content>, cwd: nat)

  predicate Shape(fs: Fs) {
    |fs.ibits| == INODES && |fs.inodes| == INODES && |fs.bbits| == BLOCKS && |fs.blocks| == BLOCKS
  }

  function BlockAt(fs: Fs, b: nat): Content { if b < |fs.blocks| then fs.blocks[b] else Bytes([]) }

  function EntriesOf(c: Content): seq<Dirent> { if c.Entries? then c.es else [] }
  function NumbersOf(c: Content): seq<nat> { if c.Numbers? then c.nums else [] }
  function BytesOf(c: Content): seq<Byte> { if c.Bytes? then c.data else [] }

  predicate Live(fs: Fs, i: nat) { i < |fs.ibits| && i < |fs.inodes| && fs.ibits[i] }

  function EntsAt(fs: Fs, d: nat): seq<Dirent>
    requires d < |fs.inodes|
  {
    EntriesOf(BlockAt(fs, fs.inodes[d].direct))
  }

  // ---------------------------------------------------------------- well-formedness

  // The blocks that an inode refers to.
  function RefsOf(n: Inode, table: seq<nat>): set<nat> {
    (if n.direct != 0 then {n.direct} else {})
    + (if n.indirect != 0 then {n.indirect} + (set b | b in table && b != 0) else {})
  }

  function Refs(fs: Fs, i: nat): set<nat>
    requires i < |fs.inodes|
  {
    RefsOf(fs.inodes[i], NumbersOf(BlockAt(fs, fs.inodes[i].indirect)))
  }

  predicate InodeOk(fs: Fs, i: nat)
    requires i < |fs.inodes|
  {
    var n := fs.inodes[i];
    && n.kind != NoKind
    && (n.kind == Dir ==> n.direct != 0 && n.indirect == 0 && BlockAt(fs, n.direct).Entries?)
    && (n.size > 0 ==> n.direct != 0)
    && (n.indirect != 0 ==> n.indirect != n.direct)
    && (forall b :: b in Refs(fs, i) ==> 0 < b < |fs.bbits| && fs.bbits[b])
  }

  predicate Apart(fs: Fs, i: nat, j: nat)
    requires i < |fs.inodes| && j < |fs.inodes|
  {
    i != j ==> Refs(fs, i) !! Refs(fs, j)
  }

  // Every block an inode in use refers to is marked, and no other one refers to it.
  ghost predicate BlocksOk(fs: Fs) { CheckBlocks(fs) == Intact }

  ghost function CheckBlocks(fs: Fs): Sealed {
    if && Shape(fs) && fs.bbits[0]
       && (forall i: nat {:trigger InodeOk(fs, i)} :: Live(fs, i) ==> InodeOk(fs, i))
       && (forall i: nat, j: nat {:trigger Apart(fs, i, j)} :: Live(fs, i) && Live(fs, j) ==> Apart(fs, i, j))
    then Intact else Broken
  }

  predicate IsDir(fs: Fs, d: nat) { Live(fs, d) && fs.inodes[d].kind == Dir }

  function View(fs: Fs): Tree {
    Tree(set i: nat | i < |fs.inodes| && Live(fs, i),
         map d: nat | d < |fs.inodes| && IsDir(fs, d) :: EntsAt(fs, d))
  }

  ghost predicate Wf(fs: Fs) { CheckFs(fs) == Intact }

  ghost function CheckFs(fs: Fs): Sealed {
    if BlocksOk(fs) && TreeOk(View(fs)) && IsDir(fs, fs.cwd) then Intact else Broken
  }

  // ---------------------------------------------------------------- frames

  // Inode j and all its blocks are the same.
  predicate Kept(fs: Fs, g: Fs, j: nat) {
    && j < |fs.inodes| && j < |g.inodes| && g.inodes[j] == fs.inodes[j]
    && forall b :: b in Refs(fs, j) ==> BlockAt(g, b) == BlockAt(fs, b)
  }

  lemma KeptRefs(fs: Fs, g: Fs, j: nat)
    requires Kept(fs, g, j)
    ensures Refs(g, j) == Refs(fs, j)
    ensures fs.inodes[j].direct != 0 ==> EntsAt(g, j) == EntsAt(fs, j)
  {
    var n := fs.inodes[j];
    if n.indirect != 0 { assert n.indirect in Refs(fs, j); }
    if n.direct != 0 { assert n.direct in Refs(fs, j); }
  }

  // Inode j is kept, its blocks stay marked, and inode c has none of them.
  predicate Beside(fs: Fs, g: Fs, c: nat, j: nat) {
    && Live(fs, j) && Kept(fs, g, j)
    && (forall b :: b in Refs(fs, j) ==> b < |g.bbits| && g.bbits[b])
    && (Live(g, c) ==> Refs(g, c) !! Refs(fs, j))
  }

  // Everything but inode c is kept, and c has blocks of its own.
  ghost predicate Around(fs: Fs, g: Fs, c: nat) {
    && Shape(g) && g.bbits[0]
    && (forall j: nat {:trigger Beside(fs, g, c, j)} :: Live(g, j) && j != c ==> Beside(fs, g, c, j))
    && (Live(g, c) ==> InodeOk(g, c))
  }

  lemma AroundKeeps(fs: Fs, g: Fs, c: nat)
    requires BlocksOk(fs) && Around(fs, g, c)
    ensures BlocksOk(g)
  {
    forall i: nat | Live(g, i) ensures InodeOk(g, i) {
      if i != c {
        assert Beside(fs, g, c, i);
        KeptRefs(fs, g, i);
        assert InodeOk(fs, i);
        if fs.inodes[i].direct != 0 { assert fs.inodes[i].direct in Refs(fs, i); }
      }
    }
    forall i: nat, j: nat | Live(g, i) && Live(g, j) ensures Apart(g, i, j) {
      if i != c { assert Beside(fs, g, c, i); KeptRefs(fs, g, i); }
      if j != c { assert Beside(fs, g, c, j); KeptRefs(fs, g, j); }
      if i != c && j != c { assert Apart(fs, i, j); }
    }
  }

  // ---------------------------------------------------------------- the primitive changes

  function SetBit(m: seq<bool>, i: nat, v: bool): seq<bool> { if i < |m| then m[i := v] else m }

  // The block of directory d is rewritten and its size field updated.
  function WriteDir(fs: Fs, d: nat, es: seq<Dirent>, size: nat): Fs
    requires d < |fs.inodes| && fs.inodes[d].direct < |fs.blocks|
  {
    fs.(blocks := fs.blocks[fs.inodes[d].direct := Entries(es)],
        inodes := fs.inodes[d := fs.inodes[d].(size := size)])
  }

  lemma WriteDirOk(fs: Fs, d: nat, es: seq<Dirent>, size: nat)
    requires BlocksOk(fs) && IsDir(fs, d)
    ensures fs.inodes[d].direct < BLOCKS
    ensures var g := WriteDir(fs, d, es, size);
            && BlocksOk(g)
            && View(g) == View(fs).(dirs := View(fs).dirs[d := es])
            && (forall j: nat {:trigger Kept(fs, g, j)} :: Live(fs, j) && j != d ==> Kept(fs, g, j))
  {
    var b := fs.inodes[d].direct;
    assert InodeOk(fs, d) && b in Refs(fs, d);
    var g := WriteDir(fs, d, es, size);
    forall j: nat | Live(fs, j) && j != d ensures Kept(fs, g, j) { assert Apart(fs, d, j); }
    assert Refs(g, d) == {b} == Refs(fs, d);
    forall j: nat | Live(g, j) && j != d ensures Beside(fs, g, d, j) {
      assert Kept(fs, g, j) && InodeOk(fs, j) && Apart(fs, d, j);
    }
    AroundKeeps(fs, g, d);
    ViewSame(fs, g, d);
  }

  // The view differs at most in directory d.
  lemma ViewSame(fs: Fs, g: Fs, d: nat)
    requires BlocksOk(fs) && Shape(g) && g.ibits == fs.ibits && IsDir(fs, d) && IsDir(g, d)
    requires forall j: nat {:trigger Kept(fs, g, j)} :: Live(fs, j) && j != d ==> Kept(fs, g, j)
    ensures View(g) == View(fs).(dirs := View(fs).dirs[d := EntsAt(g, d)])
  {
    var v, w := View(fs), View(g);
    assert w.live == v.live;
    forall j: nat | j < INODES && Live(fs, j) && j != d ensures IsDir(g, j) <==> IsDir(fs, j) { assert Kept(fs, g, j); }
    forall j: nat | j in v.dirs && j != d ensures j in w.dirs && w.dirs[j] == v.dirs[j] {
      assert Kept(fs, g, j) && InodeOk(fs, j);
      KeptRefs(fs, g, j);
    }
    assert forall j :: j in w.dirs <==> j in v.dirs;
    assert w.dirs == v.dirs[d := EntsAt(g, d)];
  }

  // Inode i comes into use with record n; block b, if not 0, becomes its block.
  function NewNode(fs: Fs, i: nat, n: Inode, b: nat, c: Content): Fs
    requires i < |fs.inodes|
  {
    fs.(ibits := SetBit(fs.ibits, i, true), inodes := fs.inodes[i := n],
        bbits := if b != 0 then SetBit(fs.bbits, b, true) else fs.bbits,
        blocks := if 0 < b < |fs.blocks| then fs.blocks[b := c] else fs.blocks)
  }

  predicate Fresh(fs: Fs, i: nat, n: Inode, b: nat, c: Content) {
    && i < |fs.ibits| && !fs.ibits[i]
    && n.kind != NoKind && n.direct == b && n.indirect == 0
    && (b == 0 ==> n.kind == File && n.size == 0)
    && (b != 0 ==> b < |fs.bbits| && !fs.bbits[b])
    && (n.kind == Dir ==> c.Entries?)
  }

  // A block that is not marked belongs to nobody.
  lemma Unmarked(fs: Fs, b: nat, j: nat)
    requires BlocksOk(fs) && b < BLOCKS && !fs.bbits[b] && Live(fs, j)
    ensures b !in Refs(fs, j)
  {
    assert InodeOk(fs, j);
  }

  lemma NewNodeOk(fs: Fs, i: nat, n: Inode, b: nat, c: Content)
    requires BlocksOk(fs) && Fresh(fs, i, n, b, c)
    ensures var g := NewNode(fs, i, n, b, c);
            && BlocksOk(g)
            && View(g) == Tree(View(fs).live + {i},
                               if n.kind == Dir then View(fs).dirs[i := EntriesOf(c)] else View(fs).dirs)
            && (forall j: nat {:trigger Kept(fs, g, j)} :: Live(fs, j) ==> Kept(fs, g, j))
  {
    var g := NewNode(fs, i, n, b, c);
    assert Refs(g, i) == if b != 0 then {b} else {};
    forall j: nat | Live(fs, j) ensures Kept(fs, g, j) && Beside(fs, g, i, j) {
      if b != 0 { Unmarked(fs, b, j); }
      assert InodeOk(fs, j);
    }
    AroundKeeps(fs, g, i);
    assert View(g).live == View(fs).live + {i};
    NewNodeView(fs, i, n, b, c);
  }

  lemma NewNodeView(fs: Fs, i: nat, n: Inode, b: nat, c: Content)
    requires BlocksOk(fs) && Fresh(fs, i, n, b, c)
    requires var g := NewNode(fs, i, n, b, c);
             forall j: nat {:trigger Kept(fs, g, j)} :: Live(fs, j) ==> Kept(fs, g, j)
    ensures View(NewNode(fs, i, n, b, c)).dirs ==
            if n.kind == Dir then View(fs).dirs[i := EntriesOf(c)] else View(fs).dirs
  {
    var g := NewNode(fs, i, n, b, c);
    var v, w := View(fs).dirs, View(g).dirs;
    forall j: nat | j < INODES && j != i ensures j in v <==> j in w { assert Live(fs, j) ==> Kept(fs, g, j); }
    forall j: nat | j in v && j in w && j != i ensures v[j] == w[j] {
      assert Kept(fs, g, j) && InodeOk(fs, j);
      KeptRefs(fs, g, j);
    }
    assert i !in v;
  }

  // Inode i goes out of use and its direct block is freed.
  function DropNode(fs: Fs, i: nat): Fs
    requires i < |fs.inodes|
  {
    fs.(ibits := SetBit(fs.ibits, i, false),
        bbits := if fs.inodes[i].direct != 0 then SetBit(fs.bbits, fs.inodes[i].direct, false) else fs.bbits)
  }

  lemma DropNodeOk(fs: Fs, i: nat)
    requires BlocksOk(fs) && Live(fs, i)
    ensures var g := DropNode(fs, i);
            && BlocksOk(g)
            && View(g) == Tree(View(fs).live - {i}, View(fs).dirs - {i})
            && (forall j: nat {:trigger Kept(fs, g, j)} :: Live(fs, j) && j != i ==> Kept(fs, g, j))
  {
    var g := DropNode(fs, i);
    var b := fs.inodes[i].direct;
    assert InodeOk(fs, i) && (b != 0 ==> b in Refs(fs, i));
    forall j: nat | Live(fs, j) && j != i ensures Kept(fs, g, j) && Beside(fs, g, i, j) {
      assert InodeOk(fs, j) && Apart(fs, i, j);
    }
    AroundKeeps(fs, g, i);
    assert View(g).live == View(fs).live - {i};
    forall j | j in View(g).dirs ensures j in View(fs).dirs && View(g).dirs[j] == View(fs).dirs[j] {}
    assert View(g).dirs == View(fs).dirs - {i};
  }

  // A file gets a new first block.
  function Fill(fs: Fs, i: nat, b: nat, c: Content, size: nat): Fs
    requires i < |fs.inodes|
  {
    fs.(bbits := SetBit(fs.bbits, b, true),
        blocks := if b < |fs.blocks| then fs.blocks[b := c] else fs.blocks,
        inodes := fs.inodes[i := fs.inodes[i].(direct := b, size := size)])
  }

  lemma FillOk(fs: Fs, i: nat, b: nat, c: Content, size: nat)
    requires BlocksOk(fs) && Live(fs, i) && fs.inodes[i].kind == File
    requires 0 < b < BLOCKS && !fs.bbits[b]
    ensures var g := Fill(fs, i, b, c, size);
            && BlocksOk(g)
            && View(g) == View(fs)
            && (forall j: nat {:trigger Kept(fs, g, j)} :: Live(fs, j) && j != i ==> Kept(fs, g, j))
  {
    var g := Fill(fs, i, b, c, size);
    FillRefs(fs, i, b, c, size);
    forall j: nat | Live(fs, j) && j != i ensures Kept(fs, g, j) && Beside(fs, g, i, j) {
      Unmarked(fs, b, j);
      assert InodeOk(fs, j) && Apart(fs, i, j);
    }
    AroundKeeps(fs, g, i);
    FillView(fs, g, i);
  }

  // Its other blocks, if any, stay what they were.
  lemma FillRefs(fs: Fs, i: nat, b: nat, c: Content, size: nat)
    requires BlocksOk(fs) && Live(fs, i) && fs.inodes[i].kind == File && 0 < b < BLOCKS && !fs.bbits[b]
    ensures var g := Fill(fs, i, b, c, size); Refs(g, i) <= Refs(fs, i) + {b} && InodeOk(g, i)
  {
    var g, n := Fill(fs, i, b, c, size), fs.inodes[i];
    assert InodeOk(fs, i);
    Unmarked(fs, b, i);
    if n.indirect != 0 {
      assert n.indirect in Refs(fs, i) && BlockAt(g, n.indirect) == BlockAt(fs, n.indirect);
    }
  }

  // The first block of a file is written over.
  function Overwrite(fs: Fs, i: nat, c: Content, size: nat): Fs
    requires i < |fs.inodes| && fs.inodes[i].direct < |fs.blocks|
  {
    fs.(blocks := fs.blocks[fs.inodes[i].direct := c], inodes := fs.inodes[i := fs.inodes[i].(size := size)])
  }

  lemma OverwriteOk(fs: Fs, i: nat, c: Content, size: nat)
    requires BlocksOk(fs) && Live(fs, i) && fs.inodes[i].kind == File && fs.inodes[i].direct != 0
    ensures fs.inodes[i].direct < BLOCKS
    ensures var g := Overwrite(fs, i, c, size);
            && BlocksOk(g) && View(g) == View(fs)
            && (forall j: nat {:trigger Kept(fs, g, j)} :: Live(fs, j) && j != i ==> Kept(fs, g, j))
  {
    var n := fs.inodes[i];
    assert InodeOk(fs, i) && n.direct in Refs(fs, i);
    var g := Overwrite(fs, i, c, size);
    if n.indirect != 0 { assert BlockAt(g, n.indirect) == BlockAt(fs, n.indirect); }
    assert Refs(g, i) == Refs(fs, i);
    forall j: nat | Live(fs, j) && j != i ensures Kept(fs, g, j) && Beside(fs, g, i, j) {
      assert InodeOk(fs, j) && Apart(fs, i, j);
    }
    AroundKeeps(fs, g, i);
    FillView(fs, g, i);
  }

  lemma FillView(fs: Fs, g: Fs, i: nat)
    requires BlocksOk(fs) && Shape(g) && g.ibits == fs.ibits && Live(fs, i)
    requires fs.inodes[i].kind == File && g.inodes[i].kind == File
    requires forall j: nat {:trigger Kept(fs, g, j)} :: Live(fs, j) && j != i ==> Kept(fs, g, j)
    ensures View(g) == View(fs)
  {
    assert View(g).live == View(fs).live;
    var v, w := View(fs).dirs, View(g).dirs;
    forall j: nat | j in v ensures j in w && v[j] == w[j] {
      assert Kept(fs, g, j) && InodeOk(fs, j);
      KeptRefs(fs, g, j);
    }
    forall j | j in w ensures j in v { assert Kept(fs, g, j); }
  }
}
