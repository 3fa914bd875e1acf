/**
 * tinyfs-add: puts a file of up to 1025 blocks into an image, the first block
 * named by the inode and the others by an indirect block, as cat reads them.
 *
 * Where the last block is not filled, the rest of it keeps whatever it held;
 * `junk` stands for these bytes.
 */
module TinyfsAdd {
  import opened Prelude
  import opened FsTree
  import opened TinyFs
  import opened Vfs
  import opened Paths
  import opened FileOps

  const FIRST_INODE: nat := 4
  const FILE_MAX: nat := BLOCK_SIZE + POINTERS * BLOCK_SIZE

  // ---------------------------------------------------------------- choosing blocks

  // The first `need` unmarked blocks from b on; fewer if there are not enough.
  function Pick(bits: seq<bool>, b: nat, need: nat): seq<nat>
    decreases |bits| - b
  {
    if b >= |bits| || need == 0 then []
    else if bits[b] then Pick(bits, b + 1, need)
    else [b] + Pick(bits, b + 1, need - 1)
  }

  function Mark(bits: seq<bool>, bs: seq<nat>): seq<bool>
    decreases |bs|
  {
    if bs == [] then bits else Mark(SetBit(bits, bs[0], true), bs[1..])
  }

  function BlockCount(size: nat): nat { (size + BLOCK_SIZE - 1) / BLOCK_SIZE }

  lemma {:induction false} PickIs(bits: seq<bool>, b: nat, need: nat)
    ensures var bs := Pick(bits, b, need);
            && |bs| <= need
            && (forall i :: 0 <= i < |bs| ==> b <= bs[i] < |bits| && !bits[bs[i]])
            && (forall i, j :: 0 <= i < j < |bs| ==> bs[i] < bs[j])
    decreases |bits| - b
  {
    if b < |bits| && need > 0 { PickIs(bits, b + 1, if bits[b] then need else need - 1); }
  }

  lemma {:induction false} MarkIs(bits: seq<bool>, bs: seq<nat>)
    ensures |Mark(bits, bs)| == |bits|
    ensures forall x :: 0 <= x < |bits| ==> (Mark(bits, bs)[x] <==> bits[x] || x in bs)
    decreases |bs|
  {
    if bs != [] {
      MarkIs(SetBit(bits, bs[0], true), bs[1..]);
      assert forall x :: x in bs <==> x == bs[0] || x in bs[1..];
    }
  }

  // ---------------------------------------------------------------- laying out the data

  // Where the j-th block of a file of this size begins.
  function Pos(size: nat, j: nat): (p: nat)
    ensures p <= size
  {
    Min(j * BLOCK_SIZE, size)
  }

  lemma PosStep(size: nat, j: nat)
    ensures Pos(size, j + 1) == Pos(size, j) + Min(size - Pos(size, j), BLOCK_SIZE)
    ensures j < BlockCount(size) <==> Pos(size, j) < size
  {
  }

  // The part of the file that goes into its j-th block.
  function Part(file: seq<Byte>, j: nat): seq<Byte> {
    PosStep(|file|, j);
    file[Pos(|file|, j)..Pos(|file|, j + 1)]
  }

  function WithJunk(data: seq<Byte>, junk: seq<Byte>): seq<Byte> {
    if |data| < |junk| then data + junk[|data|..] else data
  }

  // The blocks of the file from its j-th on are written.
  function Write(blocks: seq<Content>, bs: seq<nat>, file: seq<Byte>, junk: seq<Byte>, j: nat): seq<Content>
    decreases |bs| - j
  {
    if j >= |bs| then blocks
    else
      var c := Bytes(WithJunk(Part(file, j), junk));
      Write(if bs[j] < |blocks| then blocks[bs[j] := c] else blocks, bs, file, junk, j + 1)
  }

  function Table(bs: seq<nat>): seq<nat>
    requires 1 <= |bs| <= POINTERS + 1
  {
    bs[1..] + seq(POINTERS + 1 - |bs|, _ => 0)
  }

  lemma {:induction false} WriteIs(blocks: seq<Content>, bs: seq<nat>, file: seq<Byte>, junk: seq<Byte>, j: nat)
    requires forall i, k :: 0 <= i < k < |bs| ==> bs[i] < bs[k]
    ensures var r := Write(blocks, bs, file, junk, j);
            && |r| == |blocks|
            && (forall x :: 0 <= x < |blocks| && x !in bs ==> r[x] == blocks[x])
            && (forall i :: 0 <= i < j && i < |bs| && bs[i] < |blocks| ==> r[bs[i]] == blocks[bs[i]])
            && (forall i :: j <= i < |bs| && bs[i] < |blocks| ==> r[bs[i]] == Bytes(WithJunk(Part(file, i), junk)))
    decreases |bs| - j
  {
    if j < |bs| {
      var c := Bytes(WithJunk(Part(file, j), junk));
      WriteIs(if bs[j] < |blocks| then blocks[bs[j] := c] else blocks, bs, file, junk, j + 1);
    }
  }

  // ---------------------------------------------------------------- reading it back

  // The blocks bs hold the parts of the file.
  predicate Laid(fs: Fs, bs: seq<nat>, file: seq<Byte>, junk: seq<Byte>) {
    forall j :: 0 <= j < |bs| ==> bs[j] != 0 && BlockAt(fs, bs[j]) == Bytes(WithJunk(Part(file, j), junk))
  }

  lemma ReadPart(fs: Fs, bs: seq<nat>, file: seq<Byte>, junk: seq<Byte>, j: nat)
    requires Laid(fs, bs, file, junk) && |junk| == BLOCK_SIZE && j < |bs|
    ensures Chunk(BlockAt(fs, bs[j]), Min(|file| - Pos(|file|, j), BLOCK_SIZE)) == Part(file, j)
  {
    PosStep(|file|, j);
    var part := Part(file, j);
    assert WithJunk(part, junk)[..|part|] == part;
  }

  // Through the indirect block the rest of the file is read, part by part.
  lemma {:induction false} ReadRest(fs: Fs, bs: seq<nat>, file: seq<Byte>, junk: seq<Byte>, i: nat)
    requires Laid(fs, bs, file, junk) && |junk| == BLOCK_SIZE
    requires 1 <= |bs| <= POINTERS + 1 && |bs| == BlockCount(|file|) && i < |bs|
    ensures Indirect(fs, Table(bs), i, |file| - Pos(|file|, i + 1)) == file[Pos(|file|, i + 1)..]
    decreases |bs| - i
  {
    PosStep(|file|, i + 1);
    if i + 1 < |bs| {
      ReadPart(fs, bs, file, junk, i + 1);
      ReadRest(fs, bs, file, junk, i + 1);
      ReadStep(fs, Table(bs), i, file, Pos(|file|, i + 1), Pos(|file|, i + 2));
    }
  }

  lemma ReadStep(fs: Fs, nums: seq<nat>, i: nat, file: seq<Byte>, at: nat, next: nat)
    requires i < |nums| && nums[i] != 0 && at < next <= |file| && next - at == Min(|file| - at, BLOCK_SIZE)
    requires Chunk(BlockAt(fs, nums[i]), next - at) == file[at..next]
    requires Indirect(fs, nums, i + 1, |file| - next) == file[next..]
    ensures Indirect(fs, nums, i, |file| - at) == file[at..]
  {
    assert file[at..] == file[at..next] + file[next..];
  }

  lemma ReadsBack(fs: Fs, bs: seq<nat>, x: nat, file: seq<Byte>, junk: seq<Byte>, cap: nat)
    requires Laid(fs, bs, file, junk) && |junk| == BLOCK_SIZE && cap > |file| > 0
    requires 1 <= |bs| <= POINTERS + 1 && |bs| == BlockCount(|file|)
    requires |bs| > 1 ==> x != 0 && BlockAt(fs, x) == Numbers(Table(bs))
    ensures Read(fs, Inode(File, |file|, bs[0], x), cap) == file
  {
    var n := Min(|file|, BLOCK_SIZE);
    PosStep(|file|, 0);
    ReadPart(fs, bs, file, junk, 0);
    assert Part(file, 0) == file[..n];
    if n < |file| {
      ReadRest(fs, bs, file, junk, 0);
      assert file == file[..n] + file[n..];
    }
  }

  // ---------------------------------------------------------------- the new file

  // The image with the file's blocks written and marked and its inode in place,
  // before it is entered in a directory; x is the indirect block or 0.
  function NewFile(fs: Fs, i: nat, bs: seq<nat>, x: nat, file: seq<Byte>, junk: seq<Byte>): Fs
    requires Shape(fs) && i < INODES && 1 <= |bs| <= POINTERS + 1
  {
    var blocks := Write(fs.blocks, bs, file, junk, 0);
    fs.(ibits := fs.ibits[i := true],
        inodes := fs.inodes[i := Inode(File, |file|, bs[0], x)],
        bbits := if x != 0 then SetBit(Mark(fs.bbits, bs), x, true) else Mark(fs.bbits, bs),
        blocks := if 0 < x < |blocks| then blocks[x := Numbers(Table(bs))] else blocks)
  }

  // Blocks for a file that nobody uses yet.
  predicate Spare(fs: Fs, i: nat, bs: seq<nat>, x: nat) {
    && Shape(fs) && i < INODES && !fs.ibits[i] && 1 <= |bs| <= POINTERS + 1
    && (forall j :: 0 <= j < |bs| ==> 0 < bs[j] < BLOCKS && !fs.bbits[bs[j]])
    && (forall j, k :: 0 <= j < k < |bs| ==> bs[j] < bs[k])
    && (x == 0 <==> |bs| == 1)
    && (x != 0 ==> x < BLOCKS && !fs.bbits[x] && x !in bs)
  }

  lemma NewFileBlocks(fs: Fs, i: nat, bs: seq<nat>, x: nat, file: seq<Byte>, junk: seq<Byte>)
    requires Spare(fs, i, bs, x)
    ensures var g := NewFile(fs, i, bs, x, file, junk);
            && Shape(g) && Laid(g, bs, file, junk)
            && (x != 0 ==> BlockAt(g, x) == Numbers(Table(bs)))
            && (forall b: nat :: b < BLOCKS && fs.bbits[b] ==> g.bbits[b] && g.blocks[b] == fs.blocks[b])
            && (forall b: nat :: b < BLOCKS && (b in bs || (b == x && x != 0)) ==> g.bbits[b])
  {
    WriteIs(fs.blocks, bs, file, junk, 0);
    MarkIs(fs.bbits, bs);
  }

  lemma NewFileRefs(fs: Fs, i: nat, bs: seq<nat>, x: nat, file: seq<Byte>, junk: seq<Byte>)
    requires Spare(fs, i, bs, x)
    ensures var g := NewFile(fs, i, bs, x, file, junk);
            forall b :: b in Refs(g, i) ==> 0 < b < BLOCKS && !fs.bbits[b] && (b in bs || b == x)
  {
    var g := NewFile(fs, i, bs, x, file, junk);
    NewFileBlocks(fs, i, bs, x, file, junk);
    forall b | b in Refs(g, i) ensures 0 < b < BLOCKS && !fs.bbits[b] && (b in bs || b == x) {
      if b != bs[0] && b != x { assert b in Table(bs) && b != 0; assert b in bs[1..]; }
    }
  }

  lemma NewFileKept(fs: Fs, i: nat, bs: seq<nat>, x: nat, file: seq<Byte>, junk: seq<Byte>, j: nat)
    requires BlocksOk(fs) && Spare(fs, i, bs, x) && Live(fs, j)
    ensures var g := NewFile(fs, i, bs, x, file, junk); Kept(fs, g, j) && Beside(fs, g, i, j)
  {
    var g := NewFile(fs, i, bs, x, file, junk);
    NewFileBlocks(fs, i, bs, x, file, junk);
    NewFileRefs(fs, i, bs, x, file, junk);
    assert InodeOk(fs, j);
  }

  lemma NewFileOk(fs: Fs, i: nat, bs: seq<nat>, x: nat, file: seq<Byte>, junk: seq<Byte>)
    requires BlocksOk(fs) && Spare(fs, i, bs, x)
    ensures BlocksOk(NewFile(fs, i, bs, x, file, junk))
    ensures View(NewFile(fs, i, bs, x, file, junk)) == Added(View(fs), i, false, [])
  {
    var g := NewFile(fs, i, bs, x, file, junk);
    NewFileBlocks(fs, i, bs, x, file, junk);
    NewFileRefs(fs, i, bs, x, file, junk);
    forall j: nat | Live(g, j) && j != i ensures Beside(fs, g, i, j) { NewFileKept(fs, i, bs, x, file, junk, j); }
    AroundKeeps(fs, g, i);
    NewFileView(fs, i, bs, x, file, junk);
  }

  lemma NewFileView(fs: Fs, i: nat, bs: seq<nat>, x: nat, file: seq<Byte>, junk: seq<Byte>)
    requires BlocksOk(fs) && Spare(fs, i, bs, x)
    ensures View(NewFile(fs, i, bs, x, file, junk)) == Added(View(fs), i, false, [])
  {
    var g := NewFile(fs, i, bs, x, file, junk);
    var v, w := View(fs).dirs, View(g).dirs;
    forall j: nat | j in v ensures j in w && v[j] == w[j] {
      NewFileKept(fs, i, bs, x, file, junk, j);
      assert InodeOk(fs, j);
      KeptRefs(fs, g, j);
    }
    assert forall j :: j in w ==> j in v;
    assert w == v;
    assert View(g).live == View(fs).live + {i};
  }

  // ---------------------------------------------------------------- the tool

  // The image after the file has been added under `name` to directory d, or
  // None.  When the tool gives up it has changed no marked block and no table.
  // (It rewrites the inode table as it was read, so the directory's size field
  // keeps its old value.)
  function AddFile(fs: Fs, file: seq<Byte>, d: nat, name: string, junk: seq<Byte>): Option<Fs>
    requires Shape(fs) && |file| > 0
  {
    var i := FirstClear(fs.ibits, FIRST_INODE);
    var bs := Pick(fs.bbits, ROOT_DATA, BlockCount(|file|));
    var x := if |bs| > 1 then FirstClear(Mark(fs.bbits, bs), ROOT_DATA) else 0;
    if |file| > FILE_MAX || i >= INODES || |bs| < BlockCount(|file|) || x >= BLOCKS || !HasBlock(fs, d) then None
    else
      var es := EntsAt(fs, d);
      var k := FreeSlot(es, 0);
      if k >= |es| || |bs| == 0 || |bs| > POINTERS + 1 then None
      else
        var g := NewFile(fs, i, bs, x, file, junk);
        var b := fs.inodes[d].direct;
        if b >= |g.blocks| then None else Some(g.(blocks := g.blocks[b := Entries(es[k := Dirent(i, Stored(name))])]))
  }

  lemma PickSpare(fs: Fs, size: nat)
    requires Shape(fs) && 0 < size <= FILE_MAX
    requires FirstClear(fs.ibits, FIRST_INODE) < INODES
    requires var bs := Pick(fs.bbits, ROOT_DATA, BlockCount(size));
             |bs| >= BlockCount(size) && (|bs| > 1 ==> FirstClear(Mark(fs.bbits, bs), ROOT_DATA) < BLOCKS)
    ensures var bs := Pick(fs.bbits, ROOT_DATA, BlockCount(size));
            var x := if |bs| > 1 then FirstClear(Mark(fs.bbits, bs), ROOT_DATA) else 0;
            |bs| == BlockCount(size) && Spare(fs, FirstClear(fs.ibits, FIRST_INODE), bs, x)
  {
    var bs := Pick(fs.bbits, ROOT_DATA, BlockCount(size));
    FirstClearIs(fs.ibits, FIRST_INODE);
    PickIs(fs.bbits, ROOT_DATA, BlockCount(size));
    MarkIs(fs.bbits, bs);
    assert 1 <= BlockCount(size) <= POINTERS + 1;
    if |bs| > 1 { FirstClearIs(Mark(fs.bbits, bs), ROOT_DATA); }
  }

  // The same, as a new file followed by a rewritten directory.
  lemma AddFileIs(fs: Fs, file: seq<Byte>, d: nat, name: string, junk: seq<Byte>, i: nat, bs: seq<nat>, x: nat)
    requires BlocksOk(fs) && IsDir(fs, d) && |file| > 0 && AddFile(fs, file, d, name, junk).Some?
    requires i == FirstClear(fs.ibits, FIRST_INODE) && bs == Pick(fs.bbits, ROOT_DATA, BlockCount(|file|))
    requires x == if |bs| > 1 then FirstClear(Mark(fs.bbits, bs), ROOT_DATA) else 0
    ensures |bs| == BlockCount(|file|) && Spare(fs, i, bs, x)
    ensures var g := NewFile(fs, i, bs, x, file, junk);
            var es := EntsAt(fs, d);
            var k := FreeSlot(es, 0);
            && IsDir(g, d) && d != i && g.inodes[d] == fs.inodes[d] && g.inodes[d].direct < |g.blocks|
            && k < |es| && es[k].name == ""
            && AddFile(fs, file, d, name, junk).value == WriteDir(g, d, es[k := Dirent(i, Stored(name))],
               g.inodes[d].size)
  {
    PickSpare(fs, |file|);
    NewFileBlocks(fs, i, bs, x, file, junk);
    FreeSlotIs(EntsAt(fs, d), 0);
    var g := NewFile(fs, i, bs, x, file, junk);
    assert g.inodes[d := g.inodes[d].(size := g.inodes[d].size)] == g.inodes;
  }

  lemma AddFileView(fs: Fs, file: seq<Byte>, d: nat, name: string, junk: seq<Byte>)
    requires BlocksOk(fs) && IsDir(fs, d) && |file| > 0 && AddFile(fs, file, d, name, junk).Some?
    ensures var h := AddFile(fs, file, d, name, junk).value;
            var i, k := FirstClear(fs.ibits, FIRST_INODE), FreeSlot(EntsAt(fs, d), 0);
            && BlocksOk(h) && !Live(fs, i) && i != 0
            && d in View(fs).dirs && k < |View(fs).dirs[d]| && View(fs).dirs[d][k].name == ""
            && View(h) == Attach(View(fs), d, k, i, Stored(name), false)
  {
    var i := FirstClear(fs.ibits, FIRST_INODE);
    var bs := Pick(fs.bbits, ROOT_DATA, BlockCount(|file|));
    var x := if |bs| > 1 then FirstClear(Mark(fs.bbits, bs), ROOT_DATA) else 0;
    AddFileIs(fs, file, d, name, junk, i, bs, x);
    FirstClearIs(fs.ibits, FIRST_INODE);
    var g := NewFile(fs, i, bs, x, file, junk);
    var es, k := EntsAt(fs, d), FreeSlot(EntsAt(fs, d), 0);
    NewFileOk(fs, i, bs, x, file, junk);
    WriteDirOk(g, d, es[k := Dirent(i, Stored(name))], g.inodes[d].size);
    DirLive(fs, d);
    AttachIs(View(fs), d, k, i, Stored(name), false);
    assert Added(View(fs), i, false, []) == Added(View(fs), i, false, Dots(i, d));
  }

  // The new file g, and then the directory's block, give h.
  lemma FileThenEntry(fs: Fs, d: nat, i: nat, bs: seq<nat>, x: nat, file: seq<Byte>, junk: seq<Byte>, g: Fs, h: Fs,
                      es: seq<Dirent>)
    requires BlocksOk(fs) && IsDir(fs, d) && Spare(fs, i, bs, x) && g == NewFile(fs, i, bs, x, file, junk)
    requires IsDir(g, d) && g.inodes[d] == fs.inodes[d] && d != i && g.inodes[d].direct < |g.blocks|
    requires h == WriteDir(g, d, es, g.inodes[d].size)
    ensures BlocksOk(g) && Live(g, i) && Kept(g, h, i) && Live(h, i) && OthersKept(fs, h, i, d) && h.cwd == fs.cwd
    ensures forall b: nat :: b < BLOCKS && fs.bbits[b] && b != fs.inodes[d].direct ==>
              h.bbits[b] && h.blocks[b] == fs.blocks[b]
  {
    NewFileOk(fs, i, bs, x, file, junk);
    NewFileBlocks(fs, i, bs, x, file, junk);
    WriteDirOk(g, d, es, g.inodes[d].size);
    forall j: nat | j < |fs.inodes| && Live(fs, j) && j != i && j != d ensures Live(h, j) && Kept(fs, h, j) {
      NewFileKept(fs, i, bs, x, file, junk, j);
      assert Kept(g, h, j);
      KeptTwice(fs, g, h, j);
    }
    assert Kept(g, h, i);
  }

  // No block that was marked is touched, except the directory's own.
  lemma AddFileKept(fs: Fs, file: seq<Byte>, d: nat, name: string, junk: seq<Byte>)
    requires BlocksOk(fs) && IsDir(fs, d) && |file| > 0 && |junk| == BLOCK_SIZE
             && AddFile(fs, file, d, name, junk).Some?
    ensures var h := AddFile(fs, file, d, name, junk).value;
            var i := FirstClear(fs.ibits, FIRST_INODE);
            && Shape(h) && OthersKept(fs, h, i, d) && h.cwd == fs.cwd && Live(h, i)
            && (forall b: nat :: b < BLOCKS && fs.bbits[b] && b != fs.inodes[d].direct ==>
                  h.bbits[b] && h.blocks[b] == fs.blocks[b])
            && (forall cap: nat :: cap > |file| ==> Read(h, h.inodes[i], cap) == file)
            && h.inodes[i].kind == File
  {
    var i := FirstClear(fs.ibits, FIRST_INODE);
    var bs := Pick(fs.bbits, ROOT_DATA, BlockCount(|file|));
    var x := if |bs| > 1 then FirstClear(Mark(fs.bbits, bs), ROOT_DATA) else 0;
    AddFileIs(fs, file, d, name, junk, i, bs, x);
    var g := NewFile(fs, i, bs, x, file, junk);
    var h := AddFile(fs, file, d, name, junk).value;
    var es := EntsAt(fs, d)[FreeSlot(EntsAt(fs, d), 0) := Dirent(i, Stored(name))];
    FileThenEntry(fs, d, i, bs, x, file, junk, g, h, es);
    NewFileBlocks(fs, i, bs, x, file, junk);
    forall cap: nat | cap > |file| ensures Read(h, h.inodes[i], cap) == file {
      ReadsBack(g, bs, x, file, junk, cap);
      ReadSame(g, h, i, cap);
    }
  }

  // A file added under a new name of at most 27 characters is entered there,
  // and the file system stays well formed.
  lemma AddFileEnters(fs: Fs, file: seq<Byte>, d: nat, name: string, junk: seq<Byte>)
    requires Wf(fs) && IsDir(fs, d) && |file| > 0 && |junk| == BLOCK_SIZE && AddFile(fs, file, d, name, junk).Some?
    requires name != "" && |name| <= NAME_MAX && !Has(EntsAt(fs, d), name)
    ensures Entered(fs, AddFile(fs, file, d, name, junk).value, d, name, FirstClear(fs.ibits, FIRST_INODE))
  {
    var h := AddFile(fs, file, d, name, junk).value;
    var i, k := FirstClear(fs.ibits, FIRST_INODE), FreeSlot(EntsAt(fs, d), 0);
    AddFileView(fs, file, d, name, junk);
    AddFileKept(fs, file, d, name, junk);
    NotInView(fs, i);
    DirLive(fs, d);
    AttachKeepsIff(View(fs), d, k, i, name, false);
    CwdInView(fs);
    WfIff(h);
    DirStays(fs, h, d, i, name, false);
  }

  // What tinyfs-add wrote, cat reads.
  lemma AddedReads(fs: Fs, file: seq<Byte>, path: string, d: nat, junk: seq<Byte>, cap: nat)
    requires Wf(fs) && Plain(path) && ParentOf(fs, path) == Some(d) && IsDir(fs, d)
    requires |file| > 0 && |junk| == BLOCK_SIZE && cap > |file| && !Has(EntsAt(fs, d), Last(path))
    requires AddFile(fs, file, d, Last(path), junk).Some?
    ensures var h := AddFile(fs, file, d, Last(path), junk).value;
            Wf(h) && Cat(h, path, cap) == Some(file)
  {
    var h := AddFile(fs, file, d, Last(path), junk).value;
    var i := FirstClear(fs.ibits, FIRST_INODE);
    AddFileEnters(fs, file, d, Last(path), junk);
    AddFileKept(fs, file, d, Last(path), junk);
    EnteredParent(fs, h, d, Last(path), i, path);
    EnteredLook(fs, h, d, Last(path), i);
    ResolveSplit(h, path);
  }

  // ---------------------------------------------------------------- the tool's own path resolution

  // It skips entries whose inode is 0, looks at 27 characters of a component
  // and always starts at the root.  The blocks of files hold no entries.
  function FindUsed(es: seq<Dirent>, name: string, i: nat): nat
    decreases |es| - i
  {
    if i >= |es| || (es[i].inode != 0 && es[i].name == name) then i else FindUsed(es, name, i + 1)
  }

  function ToolStep(fs: Fs, cur: nat, comp: string): Option<nat> {
    if comp == "" then Some(cur)
    else if !HasBlock(fs, cur) then None
    else
      var es := EntsAt(fs, cur);
      var k := FindUsed(es, comp, 0);
      if k < |es| then Some(es[k].inode) else None
  }

  function ToolWalk(fs: Fs, cur: nat, path: string, comp: string): Option<nat>
    decreases |path|
  {
    if path == "" then ToolStep(fs, cur, comp)
    else if path[0] == '/' then
      match ToolStep(fs, cur, comp)
      case None => None
      case Some(next) => ToolWalk(fs, next, path[1..], "")
    else ToolWalk(fs, cur, path[1..], if |comp| < NAME_MAX then comp + [path[0]] else comp)
  }

  function ResolveDir(fs: Fs, path: string): Option<nat> {
    var r := ToolWalk(fs, 0, path, "");
    if r.Some? && r.value < |fs.inodes| && fs.inodes[r.value].kind == Dir then r else None
  }

  // No component of the path, n characters of the first already read, is cut.
  predicate Uncut(path: string, n: nat)
    decreases |path|
  {
    path == "" || (if path[0] == '/' then Uncut(path[1..], 0) else n < NAME_MAX && Uncut(path[1..], n + 1))
  }

  lemma {:induction false} FindUsedIs(es: seq<Dirent>, name: string, i: nat)
    requires i <= |es|
    ensures var k := FindUsed(es, name, i);
            i <= k <= |es| && (k < |es| ==> es[k].inode != 0 && es[k].name == name)
    decreases |es| - i
  {
    if i < |es| { FindUsedIs(es, name, i + 1); }
  }

  lemma ToolStepAgrees(fs: Fs, cur: nat, comp: string)
    requires Wf(fs) && Live(fs, cur) && ToolStep(fs, cur, comp).Some?
    ensures Close(fs, cur, comp) == ToolStep(fs, cur, comp)
  {
    if comp != "" {
      var es := EntsAt(fs, cur);
      FindUsedIs(es, comp, 0);
      FindNameIs(es, comp, 0);
      var k, m := FindUsed(es, comp, 0), FindName(es, comp, 0);
      DirLive(fs, cur);
      assert DirOk(View(fs), cur) && SlotOk(View(fs), cur, k);
      assert Differ(es, m, k) && Differ(es, k, m);
      assert m == k;
    }
  }

  lemma {:induction false} ToolWalkAgrees(fs: Fs, cur: nat, path: string, comp: string)
    requires Wf(fs) && Live(fs, cur) && Uncut(path, |comp|) && |comp| <= NAME_MAX && ToolWalk(fs, cur, path, comp).Some?
    ensures Walk(fs, cur, path, comp) == ToolWalk(fs, cur, path, comp)
    decreases |path|
  {
    if path == "" || path[0] == '/' {
      ToolStepAgrees(fs, cur, comp);
      CloseLive(fs, cur, comp);
      if path != "" { ToolWalkAgrees(fs, Close(fs, cur, comp).value, path[1..], ""); }
    } else {
      ToolWalkAgrees(fs, cur, path[1..], comp + [path[0]]);
    }
  }

  // ---------------------------------------------------------------- by name

  function ToolParent(dst: string): string {
    var n := AfterSlash(dst);
    if n == 0 then "" else Upto(dst[..n - 1], PARENT_MAX)
  }

  lemma {:induction false} AfterSlashBelow(dst: string)
    ensures AfterSlash("/" + dst) == AfterSlash(dst) + 1
    decreases |dst|
  {
    var path := "/" + dst;
    if dst != "" {
      assert path[|path| - 1] == dst[|dst| - 1];
      AfterSlashBelow(dst[..|dst| - 1]);
      assert path[..|path| - 1] == "/" + dst[..|dst| - 1];
    }
  }

  lemma ParentBelow(fs: Fs, dst: string)
    requires ParentFits("/" + dst)
    ensures ParentOf(fs, "/" + dst) == Walk(fs, 0, ToolParent(dst), "") && Last("/" + dst) == Last(dst)
  {
    var path, n := "/" + dst, AfterSlash(dst);
    AfterSlashBelow(dst);
    assert path[n + 1..] == dst[n..];
    if n <= 1 {
      assert ToolParent(dst) == "";
      assert path[..1] == "/" && "/"[1..] == "";
    } else {
      var p := dst[..n - 1];
      assert path[..n] == "/" + p && ("/" + p)[1..] == p;
    }
  }

  // The kernel finds the parent of "/dst" where the tool found that of dst,
  // exactly when no component of it has more than 27 characters.
  lemma ParentsAgree(fs: Fs, dst: string)
    requires Wf(fs) && ParentFits("/" + dst) && ResolveDir(fs, ToolParent(dst)).Some?
    ensures Last("/" + dst) == Last(dst)
    ensures if Uncut(ToolParent(dst), 0) then ParentOf(fs, "/" + dst) == ResolveDir(fs, ToolParent(dst))
            else ParentOf(fs, "/" + dst) == None
  {
    RootLive(fs);
    ParentBelow(fs, dst);
    if Uncut(ToolParent(dst), 0) {
      ToolWalkAgrees(fs, 0, ToolParent(dst), "");
    } else {
      CutWalk(fs, 0, ToolParent(dst), "");
    }
  }

  // The image after the tool has put the file at dst.
  function AddAt(fs: Fs, file: seq<Byte>, dst: string, junk: seq<Byte>): Option<Fs>
    requires Shape(fs) && |file| > 0
  {
    match ResolveDir(fs, ToolParent(dst))
    case None => None
    case Some(d) => AddFile(fs, file, d, Last(dst), junk)
  }

  // The data blocks that are not marked, from b on.
  function ClearFrom(bits: seq<bool>, b: nat): set<nat> { set x: nat | b <= x < |bits| && !bits[x] }

  lemma {:induction false} PickCount(bits: seq<bool>, b: nat, need: nat)
    ensures |Pick(bits, b, need)| == Min(need, |ClearFrom(bits, b)|)
    decreases |bits| - b
  {
    if b < |bits| {
      PickCount(bits, b + 1, if bits[b] || need == 0 then need else need - 1);
      assert ClearFrom(bits, b) == ClearFrom(bits, b + 1) + (if bits[b] then {} else {b});
    } else {
      assert ClearFrom(bits, b) == {};
    }
  }

  function Elements(bs: seq<nat>): set<nat> { set x | x in bs }

  lemma {:induction false} DistinctCount(bs: seq<nat>)
    requires forall i, j :: 0 <= i < j < |bs| ==> bs[i] < bs[j]
    ensures |Elements(bs)| == |bs|
  {
    if bs != [] {
      var rest := bs[1..];
      DistinctCount(rest);
      assert bs[0] !in Elements(rest);
      assert Elements(bs) == Elements(rest) + {bs[0]};
    }
  }

  lemma SmallerPart(p: set<nat>, c: set<nat>)
    requires p <= c
    ensures |c - p| == |c| - |p|
  {
    assert c == (c - p) + p;
  }

  // One more block is left after those picked exactly when there are more than these.
  lemma OneMoreClear(bits: seq<bool>, b: nat, need: nat)
    requires b <= |bits|
    ensures var bs := Pick(bits, b, need);
            FirstClear(Mark(bits, bs), b) < |bits| <==> |ClearFrom(bits, b)| > |bs|
  {
    var bs := Pick(bits, b, need);
    PickIs(bits, b, need);
    DistinctCount(bs);
    SmallerPart(Elements(bs), ClearFrom(bits, b));
    MarkedRest(bits, b, bs);
  }

  lemma MarkedRest(bits: seq<bool>, b: nat, bs: seq<nat>)
    requires b <= |bits|
    ensures FirstClear(Mark(bits, bs), b) < |bits| <==> |ClearFrom(bits, b) - Elements(bs)| > 0
  {
    var m, rest := Mark(bits, bs), ClearFrom(bits, b) - Elements(bs);
    MarkIs(bits, bs);
    FirstClearIs(m, b);
    if FirstClear(m, b) < |bits| {
      assert FirstClear(m, b) in rest;
    } else {
      assert rest == {};
    }
  }

  lemma BlockCountIs(size: nat)
    requires size > 0
    ensures BlockCount(size) >= 1 && (BlockCount(size) > 1 <==> size > BLOCK_SIZE)
    ensures size <= FILE_MAX <==> BlockCount(size) <= POINTERS + 1
  {
  }

  // What the tool needs for a file: room in the directory, an inode, and blocks enough, one
  // more for the block numbers of a longer file.
  predicate AddFits(fs: Fs, size: nat, d: nat) {
    && d < |fs.inodes| && HasFree(EntsAt(fs, d)) && HasClear(fs.ibits, FIRST_INODE)
    && size <= (POINTERS + 1) * BLOCK_SIZE
    && |ClearFrom(fs.bbits, ROOT_DATA)| >= BlockCount(size) + (if size > BLOCK_SIZE then 1 else 0)
  }

  lemma AddFileSucceeds(fs: Fs, file: seq<Byte>, d: nat, name: string, junk: seq<Byte>)
    requires BlocksOk(fs) && IsDir(fs, d) && |file| > 0
    ensures AddFile(fs, file, d, name, junk).Some? <==> AddFits(fs, |file|, d)
  {
    var need := BlockCount(|file|);
    var bs := Pick(fs.bbits, ROOT_DATA, need);
    DirLive(fs, d);
    FreeSlotIs(EntsAt(fs, d), 0);
    FirstClearIs(fs.ibits, FIRST_INODE);
    PickCount(fs.bbits, ROOT_DATA, need);
    OneMoreClear(fs.bbits, ROOT_DATA, need);
    BlockCountIs(|file|);
    PickIs(fs.bbits, ROOT_DATA, need);
    WriteIs(fs.blocks, bs, file, junk, 0);
  }

  // The tool accepts a file exactly when its parent is a directory and there is room.
  lemma AddSucceedsIff(fs: Fs, file: seq<Byte>, dst: string, junk: seq<Byte>)
    requires Wf(fs) && |file| > 0
    ensures var d := ResolveDir(fs, ToolParent(dst));
            AddAt(fs, file, dst, junk).Some? <==> d.Some? && AddFits(fs, |file|, d.value)
  {
    var d := ResolveDir(fs, ToolParent(dst));
    if d.Some? {
      ToolFindsDir(fs, ToolParent(dst));
      AddFileSucceeds(fs, file, d.value, Last(dst), junk);
    }
  }

  // A file put at a plain path, under a new name, is read back by cat at "/dst".
  lemma PlainReads(fs: Fs, file: seq<Byte>, dst: string, junk: seq<Byte>, cap: nat)
    requires Wf(fs) && Plain("/" + dst) && Uncut(ToolParent(dst), 0)
    requires |file| > 0 && |junk| == BLOCK_SIZE && cap > |file| && AddAt(fs, file, dst, junk).Some?
    requires !Has(EntsAt(fs, ResolveDir(fs, ToolParent(dst)).value), Last(dst))
    ensures var h := AddAt(fs, file, dst, junk).value;
            Wf(h) && Cat(h, "/" + dst, cap) == Some(file)
  {
    ParentsAgree(fs, dst);
    ResolveLive(fs, "/" + dst);
    AddedReads(fs, file, "/" + dst, ResolveDir(fs, ToolParent(dst)).value, junk, cap);
  }

  // ---------------------------------------------------------------- names that one side cuts

  // The kernel looks up 28 characters, and no stored name is that long.
  lemma {:induction false} LongWalk(fs: Fs, cur: nat, path: string, comp: string)
    requires Wf(fs) && Live(fs, cur) && |comp| == COMPONENT_MAX
    ensures Walk(fs, cur, path, comp) == None
    decreases |path|
  {
    if path == "" || path[0] == '/' { LongClose(fs, cur, comp); } else { LongWalk(fs, cur, path[1..], comp); }
  }

  lemma LongClose(fs: Fs, cur: nat, comp: string)
    requires Wf(fs) && Live(fs, cur) && |comp| == COMPONENT_MAX
    ensures Close(fs, cur, comp) == None
  {
    FoundShort(fs, cur, comp);
  }

  lemma FoundShort(fs: Fs, cur: nat, name: string)
    requires Wf(fs) && Live(fs, cur)
    ensures Found(fs, cur, name) ==> |name| <= NAME_MAX
  {
    if Found(fs, cur, name) {
      DirLive(fs, cur);
      FindNameIs(EntsAt(fs, cur), name, 0);
      assert DirOk(View(fs), cur) && SlotOk(View(fs), cur, FindName(EntsAt(fs, cur), name, 0));
    }
  }

  lemma {:induction false} CutWalk(fs: Fs, cur: nat, path: string, comp: string)
    requires Wf(fs) && Live(fs, cur) && |comp| <= NAME_MAX && !Uncut(path, |comp|)
    ensures Walk(fs, cur, path, comp) == None
    decreases |path|
  {
    if path[0] == '/' {
      CloseLive(fs, cur, comp);
      match Close(fs, cur, comp)
      case None =>
      case Some(next) => CutWalk(fs, next, path[1..], "");
    } else if |comp| < NAME_MAX {
      CutWalk(fs, cur, path[1..], comp + [path[0]]);
    } else {
      LongWalk(fs, cur, path[1..], comp + [path[0]]);
    }
  }

  // A path with a component of more than 27 characters cannot be read.
  lemma CutUnreadable(fs: Fs, dst: string, cap: nat)
    requires Wf(fs) && !Uncut(dst, 0) && cap > 0
    ensures Cat(fs, "/" + dst, cap) == None
  {
    RootLive(fs);
    assert ("/" + dst)[1..] == dst;
    CutWalk(fs, 0, dst, "");
  }

  lemma {:induction false} UncutName(name: string, n: nat)
    requires NoSlash(name) && n <= NAME_MAX
    ensures Uncut(name, n) <==> n + |name| <= NAME_MAX
    decreases |name|
  {
    if name != "" {
      assert name[0] != '/';
      if n < NAME_MAX { UncutName(name[1..], n + 1); }
    }
  }

  lemma {:induction false} UncutBoth(p: string, q: string, n: nat)
    ensures Uncut(p + "/" + q, n) <==> Uncut(p, n) && Uncut(q, 0)
    decreases |p|
  {
    var s := p + "/" + q;
    if p == "" {
      assert s[1..] == q;
    } else {
      assert s[0] == p[0] && s[1..] == p[1..] + "/" + q;
      UncutBoth(p[1..], q, if p[0] == '/' then 0 else n + 1);
    }
  }

  lemma UncutSplit(dst: string)
    requires AfterSlash(dst) <= PARENT_MAX + 1
    ensures Uncut(dst, 0) <==> Uncut(ToolParent(dst), 0) && |Last(dst)| <= NAME_MAX
  {
    var n := AfterSlash(dst);
    UncutName(Last(dst), 0);
    if n == 0 {
      assert Last(dst) == dst;
    } else {
      assert ToolParent(dst) == dst[..n - 1] && dst == dst[..n - 1] + "/" + Last(dst);
      UncutBoth(dst[..n - 1], Last(dst), 0);
    }
  }

  lemma ToolStepLive(fs: Fs, cur: nat, comp: string)
    requires Wf(fs) && Live(fs, cur)
    ensures ToolStep(fs, cur, comp).Some? ==> Live(fs, ToolStep(fs, cur, comp).value)
  {
    if ToolStep(fs, cur, comp).Some? {
      ToolStepAgrees(fs, cur, comp);
      CloseLive(fs, cur, comp);
    }
  }

  lemma {:induction false} ToolWalkLive(fs: Fs, cur: nat, path: string, comp: string)
    requires Wf(fs) && Live(fs, cur)
    ensures ToolWalk(fs, cur, path, comp).Some? ==> Live(fs, ToolWalk(fs, cur, path, comp).value)
    decreases |path|
  {
    ToolStepLive(fs, cur, comp);
    if path != "" {
      if path[0] == '/' {
        match ToolStep(fs, cur, comp)
        case None =>
        case Some(next) => ToolWalkLive(fs, next, path[1..], "");
      } else {
        ToolWalkLive(fs, cur, path[1..], if |comp| < NAME_MAX then comp + [path[0]] else comp);
      }
    }
  }

  lemma ToolFindsDir(fs: Fs, path: string)
    requires Wf(fs)
    ensures ResolveDir(fs, path).Some? ==> IsDir(fs, ResolveDir(fs, path).value)
  {
    RootLive(fs);
    ToolWalkLive(fs, 0, path, "");
  }

  // The entry gets the name as it is stored.
  lemma StoredAdd(fs: Fs, file: seq<Byte>, d: nat, name: string, junk: seq<Byte>)
    requires Shape(fs) && |file| > 0
    ensures AddFile(fs, file, d, Stored(name), junk) == AddFile(fs, file, d, name, junk)
    ensures |Stored(name)| <= NAME_MAX
  {
    assert Stored(Stored(name)) == Stored(name);
  }

  lemma AddAtKeeps(fs: Fs, file: seq<Byte>, dst: string, junk: seq<Byte>)
    requires Wf(fs) && |file| > 0 && |junk| == BLOCK_SIZE && AddAt(fs, file, dst, junk).Some?
    requires Last(dst) != "" && !Has(EntsAt(fs, ResolveDir(fs, ToolParent(dst)).value), Stored(Last(dst)))
    ensures Wf(AddAt(fs, file, dst, junk).value)
  {
    var d := ResolveDir(fs, ToolParent(dst)).value;
    ToolFindsDir(fs, ToolParent(dst));
    StoredAdd(fs, file, d, Last(dst), junk);
    AddFileEnters(fs, file, d, Stored(Last(dst)), junk);
  }

  // For every destination that the tool accepts, with a new name and a parent
  // path within the kernel's buffer: cat returns the bytes exactly when no
  // component has more than 27 characters.  The tool cuts a component to 27
  // characters before it looks it up, the kernel to 28.
  lemma AddThenCat(fs: Fs, file: seq<Byte>, dst: string, junk: seq<Byte>, cap: nat)
    requires Wf(fs) && ParentFits("/" + dst) && Last(dst) != ""
    requires |file| > 0 && |junk| == BLOCK_SIZE && cap > |file| && AddAt(fs, file, dst, junk).Some?
    requires !Has(EntsAt(fs, ResolveDir(fs, ToolParent(dst)).value), Stored(Last(dst)))
    ensures var h := AddAt(fs, file, dst, junk).value;
            Wf(h) && (Cat(h, "/" + dst, cap) == Some(file) <==> Uncut(dst, 0))
  {
    AddAtKeeps(fs, file, dst, junk);
    if Uncut(dst, 0) {
      UncutPlain(fs, dst);
      PlainReads(fs, file, dst, junk, cap);
    } else {
      CutUnreadable(AddAt(fs, file, dst, junk).value, dst, cap);
    }
  }

  lemma UncutPlain(fs: Fs, dst: string)
    requires Wf(fs) && ParentFits("/" + dst) && Last(dst) != "" && Uncut(dst, 0)
    requires ResolveDir(fs, ToolParent(dst)).Some?
    requires !Has(EntsAt(fs, ResolveDir(fs, ToolParent(dst)).value), Stored(Last(dst)))
    ensures Plain("/" + dst) && Uncut(ToolParent(dst), 0) && Stored(Last(dst)) == Last(dst)
  {
    AfterSlashBelow(dst);
    UncutSplit(dst);
    ToolFindsDir(fs, ToolParent(dst));
    Slots(fs, ResolveDir(fs, ToolParent(dst)).value);
    ParentBelow(fs, dst);
  }

  lemma {:induction false} ToolWalkName(fs: Fs, cur: nat, name: string, comp: string)
    requires |comp| <= NAME_MAX && NoSlash(name)
    ensures ToolWalk(fs, cur, name, comp) == ToolStep(fs, cur, Upto(comp + name, NAME_MAX))
    decreases |name|
  {
    if name == "" {
      assert comp + name == comp;
    } else {
      assert name[0] != '/';
      var next := if |comp| < NAME_MAX then comp + [name[0]] else comp;
      ToolWalkName(fs, cur, name[1..], next);
      assert Upto(next + name[1..], NAME_MAX) == Upto(comp + name, NAME_MAX);
    }
  }

  lemma ToolStepFinds(fs: Fs, cur: nat, name: string, t: nat)
    requires Wf(fs) && IsDir(fs, cur) && Look(fs, cur, name) == Some(t) && t != 0 && Proper(name)
    ensures ToolStep(fs, cur, name) == Some(t)
  {
    var es := EntsAt(fs, cur);
    var m := FindName(es, name, 0);
    FindNameIs(es, name, 0);
    UsedBefore(es, name, 0, m);
    ToolStepAgrees(fs, cur, name);
  }

  lemma {:induction false} UsedBefore(es: seq<Dirent>, name: string, i: nat, m: nat)
    requires i <= m < |es| && es[m].inode != 0 && es[m].name == name
    ensures FindUsed(es, name, i) <= m
    decreases m - i
  {
    if i < m && !(es[i].inode != 0 && es[i].name == name) { UsedBefore(es, name, i + 1, m); }
  }

  lemma {:induction false} PickSome(bits: seq<bool>, b: nat, x: nat)
    requires b <= x < |bits| && !bits[x]
    ensures |Pick(bits, b, 1)| == 1
    decreases |bits| - b
  {
    if bits[b] { PickSome(bits, b + 1, x); }
  }

  // A file of one block fits wherever there is an inode, a block and a slot.
  lemma OneBlockFits(fs: Fs, file: seq<Byte>, d: nat, name: string, junk: seq<Byte>, i: nat, b: nat)
    requires BlocksOk(fs) && IsDir(fs, d) && HasFree(EntsAt(fs, d)) && 0 < |file| <= BLOCK_SIZE
    requires FIRST_INODE <= i < INODES && !fs.ibits[i] && ROOT_DATA <= b < BLOCKS && !fs.bbits[b]
    ensures AddFile(fs, file, d, name, junk).Some?
  {
    DirLive(fs, d);
    FreeSlotIs(EntsAt(fs, d), 0);
    FirstClearIs(fs.ibits, FIRST_INODE);
    assert BlockCount(|file|) == 1;
    PickSome(fs.bbits, ROOT_DATA, b);
    PickIs(fs.bbits, ROOT_DATA, 1);
    PickSpare(fs, |file|);
    NewFileBlocks(fs, FirstClear(fs.ibits, FIRST_INODE), Pick(fs.bbits, ROOT_DATA, 1), 0, file, junk);
  }

  // With a directory of 27 characters, the tool accepts a destination that
  // spells it with one character more, and cat does not find it.
  lemma CutInput(fs: Fs, file: seq<Byte>, dir: string, x: char, name: string, d: nat, junk: seq<Byte>, cap: nat,
                 i: nat, b: nat)
    requires Wf(fs) && |dir| == NAME_MAX && NoSlash(dir) && x != '/' && NoSlash(name) && 0 < |name| <= NAME_MAX
    requires Look(fs, 0, dir) == Some(d) && d != 0 && IsDir(fs, d) && HasFree(EntsAt(fs, d))
    requires !Has(EntsAt(fs, d), name) && 0 < |file| <= BLOCK_SIZE && |junk| == BLOCK_SIZE && cap > |file|
    requires FIRST_INODE <= i < INODES && !fs.ibits[i] && ROOT_DATA <= b < BLOCKS && !fs.bbits[b]
    ensures var dst := dir + [x] + "/" + name;
            var h := AddAt(fs, file, dst, junk);
            h.Some? && Wf(h.value) && Cat(h.value, "/" + dst, cap) == None
  {
    var dst := dir + [x] + "/" + name;
    CutPath(dir, x, name);
    CutFinds(fs, dir, x, d);
    OneBlockFits(fs, file, d, name, junk, i, b);
    AddAtKeeps(fs, file, dst, junk);
    CutUnreadable(AddAt(fs, file, dst, junk).value, dst, cap);
  }

  lemma CutPath(dir: string, x: char, name: string)
    requires |dir| == NAME_MAX && NoSlash(dir) && x != '/' && NoSlash(name)
    ensures var dst := dir + [x] + "/" + name;
            ToolParent(dst) == dir + [x] && Last(dst) == name && !Uncut(dst, 0)
  {
    var p := dir + [x];
    var dst := p + "/" + name;
    assert dst[|p|] == '/' && forall k :: |p| < k < |dst| ==> dst[k] == name[k - |p| - 1];
    assert AfterSlash(dst) == |p| + 1;
    assert dst[..|p|] == p && dst[|p| + 1..] == name;
    UncutName(p, 0);
    UncutBoth(p, name, 0);
  }

  lemma CutFinds(fs: Fs, dir: string, x: char, d: nat)
    requires Wf(fs) && |dir| == NAME_MAX && NoSlash(dir) && x != '/' && Look(fs, 0, dir) == Some(d) && d != 0
    requires IsDir(fs, d)
    ensures ResolveDir(fs, dir + [x]) == Some(d)
  {
    var p := dir + [x];
    RootLive(fs);
    ToolWalkName(fs, 0, p, "");
    assert "" + p == p && Upto(p, NAME_MAX) == dir;
    ToolStepFinds(fs, 0, dir, d);
  }

  // ---------------------------------------------------------------- the loops of the tool

  method FreeFrom(bits: seq<bool>, start: nat) returns (b: nat)
    requires start <= |bits|
    ensures b == FirstClear(bits, start) && b <= |bits|
  {
    b := start;
    while b < |bits| && bits[b]
      invariant start <= b <= |bits| && FirstClear(bits, start) == FirstClear(bits, b)
    {
      b := b + 1;
    }
  }

  method Collect(bits: seq<bool>, need: nat) returns (bs: seq<nat>)
    requires ROOT_DATA <= |bits|
    ensures bs == Pick(bits, ROOT_DATA, need)
  {
    bs := [];
    var b: nat := ROOT_DATA;
    while b < |bits| && |bs| < need
      invariant ROOT_DATA <= b <= |bits| && |bs| <= need
      invariant Pick(bits, ROOT_DATA, need) == bs + Pick(bits, b, need - |bs|)
    {
      if !bits[b] { bs := bs + [b]; }
      b := b + 1;
    }
  }

  method MarkAll(bits: seq<bool>, bs: seq<nat>) returns (r: seq<bool>)
    requires forall j :: 0 <= j < |bs| ==> bs[j] < |bits|
    ensures r == Mark(bits, bs)
  {
    r := bits;
    var j: nat := 0;
    assert bs[0..] == bs;
    while j < |bs|
      invariant j <= |bs| && |r| == |bits| && Mark(bits, bs) == Mark(r, bs[j..])
    {
      assert bs[j..][1..] == bs[j + 1..];
      r := r[bs[j] := true];
      j := j + 1;
    }
  }

  method MakeTable(bs: seq<nat>) returns (nums: seq<nat>)
    requires 1 <= |bs| <= POINTERS + 1
    ensures nums == Table(bs)
  {
    nums := seq(POINTERS, _ => 0);
    var i: nat := 1;
    while i < |bs|
      invariant 1 <= i <= |bs| && nums == bs[1..i] + seq(POINTERS + 1 - i, _ => 0)
    {
      nums := nums[i - 1 := bs[i]];
      i := i + 1;
    }
  }

  // Writes the file: the first part to the direct block, then, part by part,
  // to the blocks that the indirect block names.
  method WriteParts(blocks: seq<Content>, bs: seq<nat>, file: seq<Byte>, junk: seq<Byte>) returns (r: seq<Content>)
    requires 0 < |file| <= FILE_MAX && |bs| == BlockCount(|file|)
    requires forall j :: 0 <= j < |bs| ==> 0 < bs[j] < |blocks|
    ensures r == Write(blocks, bs, file, junk, 0)
  {
    var chunk := Min(|file|, BLOCK_SIZE);
    r := blocks[bs[0] := Bytes(WithJunk(file[..chunk], junk))];
    var offset := chunk;
    var nums := MakeTable(bs);
    PosStep(|file|, 0);
    assert Part(file, 0) == file[..chunk];
    var i: nat := 0;
    while i < POINTERS && offset < |file|
      invariant i < |bs| && |r| == |blocks| && offset == Pos(|file|, i + 1)
      invariant Write(blocks, bs, file, junk, 0) == Write(r, bs, file, junk, i + 1)
    {
      PosStep(|file|, i + 1);
      chunk := Min(|file| - offset, BLOCK_SIZE);
      assert Part(file, i + 1) == file[offset..offset + chunk];
      r := r[nums[i] := Bytes(WithJunk(file[offset..offset + chunk], junk))];
      offset := offset + chunk;
      i := i + 1;
    }
    PosStep(|file|, i + 1);
  }

  // Chooses the inode, the blocks and the indirect block, and marks the blocks.
  method Reserve(fs: Fs, size: nat) returns (ok: bool, i: nat, bs: seq<nat>, x: nat, bits: seq<bool>)
    requires Shape(fs) && 0 < size <= FILE_MAX
    ensures i == FirstClear(fs.ibits, FIRST_INODE) && bs == Pick(fs.bbits, ROOT_DATA, BlockCount(size))
    ensures x == if |bs| > 1 then FirstClear(Mark(fs.bbits, bs), ROOT_DATA) else 0
    ensures ok <==> i < INODES && |bs| >= BlockCount(size) && x < BLOCKS
    ensures ok ==> Spare(fs, i, bs, x) && |bs| == BlockCount(size)
    ensures ok ==> bits == if x != 0 then SetBit(Mark(fs.bbits, bs), x, true) else Mark(fs.bbits, bs)
  {
    i := FreeFrom(fs.ibits, FIRST_INODE);
    bs := Collect(fs.bbits, BlockCount(size));
    PickIs(fs.bbits, ROOT_DATA, BlockCount(size));
    MarkIs(fs.bbits, bs);
    bits := MarkAll(fs.bbits, bs);
    x := 0;
    if |bs| > 1 { x := FreeFrom(bits, ROOT_DATA); }
    ok := i < INODES && |bs| >= BlockCount(size) && x < BLOCKS;
    if ok {
      PickSpare(fs, size);
      if x != 0 { bits := bits[x := true]; }
    }
  }

  method AddUnder(fs: Fs, file: seq<Byte>, d: nat, name: string, junk: seq<Byte>) returns (r: Option<Fs>)
    requires Shape(fs) && |file| > 0 && HasBlock(fs, d)
    ensures r == AddFile(fs, file, d, name, junk)
  {
    if |file| > FILE_MAX { return None; }
    var ok, i, bs, x, bits := Reserve(fs, |file|);
    if !ok { return None; }
    WriteIs(fs.blocks, bs, file, junk, 0);
    var blocks := WriteParts(fs.blocks, bs, file, junk);
    if x != 0 {
      var nums := MakeTable(bs);
      blocks := blocks[x := Numbers(nums)];
    }
    var es := EntsAt(fs, d);
    var k: nat := 0;
    while k < |es| && es[k].name != ""
      invariant k <= |es| && FreeSlot(es, 0) == FreeSlot(es, k)
    {
      k := k + 1;
    }
    if k >= |es| { return None; }
    blocks := blocks[fs.inodes[d].direct := Entries(es[k := Dirent(i, Stored(name))])];
    return Some(fs.(ibits := fs.ibits[i := true], inodes := fs.inodes[i := Inode(File, |file|, bs[0], x)],
                    bbits := bits, blocks := blocks));
  }

  method FindUsedEntry(es: seq<Dirent>, name: string) returns (k: nat)
    ensures k == FindUsed(es, name, 0) && k <= |es|
  {
    k := 0;
    while k < |es| && (es[k].inode == 0 || es[k].name != name)
      invariant k <= |es| && FindUsed(es, name, 0) == FindUsed(es, name, k)
    {
      k := k + 1;
    }
  }

  // One component: the directory's block is searched.
  method EnterComponent(fs: Fs, cur: nat, comp: string) returns (r: Option<nat>)
    ensures r == ToolStep(fs, cur, comp)
  {
    if comp == "" { return Some(cur); }
    if !HasBlock(fs, cur) { return None; }
    var es := EntsAt(fs, cur);
    var k := FindUsedEntry(es, comp);
    if k >= |es| { return None; }
    return Some(es[k].inode);
  }

  // resolve_dir: the path is read character by character.
  method FindDir(fs: Fs, path: string) returns (r: Option<nat>)
    ensures r == ResolveDir(fs, path)
  {
    var cur: nat, comp: string, p: nat := 0, "", 0;
    assert path[0..] == path;
    while p < |path|
      invariant p <= |path| && ToolWalk(fs, 0, path, "") == ToolWalk(fs, cur, path[p..], comp)
    {
      assert path[p..][1..] == path[p + 1..];
      if path[p] == '/' {
        var next := EnterComponent(fs, cur, comp);
        if next.None? { return None; }
        cur, comp := next.value, "";
      } else if |comp| < NAME_MAX {
        comp := comp + [path[p]];
      }
      p := p + 1;
    }
    r := EnterComponent(fs, cur, comp);
    if r.Some? && (r.value >= |fs.inodes| || fs.inodes[r.value].kind != Dir) { return None; }
  }

  // strrchr: one more than the index of the last '/', or 0.
  method LastSlash(path: string) returns (n: nat)
    ensures n == AfterSlash(path)
  {
    n := |path|;
    while n > 0 && path[n - 1] != '/'
      invariant n <= |path| && forall i :: n <= i < |path| ==> path[i] != '/'
    {
      n := n - 1;
    }
  }

  method AddToImage(fs: Fs, file: seq<Byte>, dst: string, junk: seq<Byte>) returns (r: Option<Fs>)
    requires Shape(fs) && |file| > 0
    ensures r == AddAt(fs, file, dst, junk)
  {
    var n := LastSlash(dst);
    var parent := "";
    if n > 0 { parent := if n - 1 > PARENT_MAX then dst[..PARENT_MAX] else dst[..n - 1]; }
    assert parent == ToolParent(dst);
    var d := FindDir(fs, parent);
    if d.None? || !HasBlock(fs, d.value) { return None; }
    r := AddUnder(fs, file, d.value, dst[n..], junk);
  }
}
