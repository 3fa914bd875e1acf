/**
 * The file system's code as it runs: the loops over bitmaps, directory entries,
 * path characters and block numbers, each proved against the functions that
 * specify it.
 */
module FsKernel {
  import opened Prelude
  import opened FsTree
  import opened TinyFs
  import opened Vfs
  import opened Paths
  import opened FileOps
  import opened Outcomes

  // At most `limit` characters of s, from `start` on.
  method CopyText(s: string, start: nat, limit: nat) returns (r: string)
    requires start <= |s|
    ensures r == Upto(s[start..], limit)
  {
    r := "";
    while start + |r| < |s| && |r| < limit
      invariant start + |r| <= |s| && |r| <= limit && r == s[start..start + |r|]
    {
      r := r + [s[start + |r|]];
    }
  }

  method SplitPath(path: string) returns (parent: string, component: string)
    ensures parent == ParentPath(path) && component == Component(path)
  {
    var after: nat := 0;
    var p: nat := 0;
    while p < |path|
      invariant after <= p <= |path| && after == AfterSlash(path[..p])
    {
      assert path[..p + 1][..p] == path[..p];
      if path[p] == '/' { after := p + 1; }
      p := p + 1;
    }
    assert path[..p] == path;
    component := CopyText(path, after, COMPONENT_MAX);
    if after == 0 {
      parent := "";
    } else if after == 1 {
      parent := "/";
    } else {
      parent := CopyText(path[..after - 1], 0, PARENT_MAX);
      assert path[..after - 1][0..] == path[..after - 1];
    }
  }

  class Disk {
    var fs: Fs

    constructor (image: Fs)
      ensures fs == image
    {
      fs := image;
    }

    method BlockAlloc() returns (b: int)
      requires Shape(fs)
      modifies this
      ensures var i := FirstClear(old(fs).bbits, 0);
              if i < BLOCKS then b == i && fs == old(fs).(bbits := old(fs).bbits[i := true])
              else b == -1 && fs == old(fs)
    {
      var i: nat := 0;
      while i < BLOCKS
        invariant i <= BLOCKS && fs == old(fs) && FirstClear(fs.bbits, 0) == FirstClear(fs.bbits, i)
      {
        if !fs.bbits[i] {
          fs := fs.(bbits := fs.bbits[i := true]);
          return i;
        }
        i := i + 1;
      }
      return -1;
    }

    method InodeAlloc() returns (r: int)
      requires Shape(fs)
      modifies this
      ensures var i := FirstClear(old(fs).ibits, 1);
              if i < INODES
              then r == i && fs == old(fs).(ibits := old(fs).ibits[i := true],
                                            inodes := old(fs).inodes[i := Inode(NoKind, 0, 0, 0)])
              else r == -1 && fs == old(fs)
    {
      var i: nat := 1;
      while i < INODES
        invariant 1 <= i <= INODES && fs == old(fs) && FirstClear(fs.ibits, 1) == FirstClear(fs.ibits, i)
      {
        if !fs.ibits[i] {
          fs := fs.(ibits := fs.ibits[i := true]);
          fs := fs.(inodes := fs.inodes[i := Inode(NoKind, 0, 0, 0)]);
          return i;
        }
        i := i + 1;
      }
      return -1;
    }

    method FindEntry(d: nat, name: string) returns (r: Option<nat>)
      ensures r == Look(fs, d, name)
    {
      if !HasBlock(fs, d) { return None; }
      var es := EntsAt(fs, d);
      var i: nat := 0;
      while i < |es|
        invariant i <= |es| && FindName(es, name, 0) == FindName(es, name, i)
      {
        if es[i].name != "" && es[i].name == name { return Some(es[i].inode); }
        i := i + 1;
      }
      return None;
    }

    method AddEntry(d: nat, i: nat, name: string) returns (r: int)
      modifies this
      ensures (fs, r) == AddDirent(old(fs), d, i, name)
    {
      if !HasBlock(fs, d) { return -1; }
      var es := EntsAt(fs, d);
      var k: nat := 0;
      while k < |es| && es[k].name != ""
        invariant k <= |es| && FreeSlot(es, 0) == FreeSlot(es, k)
      {
        k := k + 1;
      }
      if k >= |es| { return -2; }
      var stored := CopyText(name, 0, NAME_MAX);
      assert name[0..] == name;
      var n := fs.inodes[d];
      var size := (k + 1) * 32;
      if size <= n.size { size := n.size; }
      fs := fs.(blocks := fs.blocks[n.direct := Entries(es[k := Dirent(i, stored)])]);
      fs := fs.(inodes := fs.inodes[d := n.(size := size)]);
      return 0;
    }

    method RemoveEntry(d: nat, name: string) returns (r: int)
      modifies this
      ensures (fs, r) == RemoveDirent(old(fs), d, name)
    {
      if !HasBlock(fs, d) { return -1; }
      var es := EntsAt(fs, d);
      var k: nat := 0;
      while k < |es|
        invariant k <= |es| && fs == old(fs) && FindName(es, name, 0) == FindName(es, name, k)
      {
        if es[k].name != "" && es[k].name == name {
          var n := fs.inodes[d];
          fs := fs.(blocks := fs.blocks[n.direct := Entries(es[k := FreeEntry])]);
          fs := fs.(inodes := fs.inodes[d := n]);
          return 0;
        }
        k := k + 1;
      }
      return -1;
    }

    method ResolvePath(path: string) returns (r: Option<nat>)
      ensures r == Resolve(fs, path)
    {
      var current := fs.cwd;
      var p: nat := 0;
      if path != "" && path[0] == '/' {
        current := 0;
        p := 1;
      }
      ghost var goal := Resolve(fs, path);
      assert path[0..] == path;
      if p == |path| { return Some(current); }
      var component := "";
      while true
        invariant p <= |path| && Walk(fs, current, path[p..], component) == goal
        decreases |path| - p
      {
        if p == |path| || path[p] == '/' {
          if component != "" {
            if component == ".." {
              if current != 0 {
                var up := FindEntry(current, "..");
                if up.None? { return None; }
                current := up.value;
              }
            } else if component != "." {
              var next := FindEntry(current, component);
              if next.None? { return None; }
              current := next.value;
            }
            component := "";
          }
          if p == |path| { break; }
          assert path[p..][1..] == path[p + 1..];
          p := p + 1;
        } else {
          assert path[p..][1..] == path[p + 1..];
          if |component| < COMPONENT_MAX { component := component + [path[p]]; }
          p := p + 1;
        }
      }
      return Some(current);
    }

    // The inode that holds the last component, as create and its fellows find it.
    method ResolveParent(path: string) returns (d: Option<nat>, component: string)
      ensures d == ParentOf(fs, path) && component == Component(path)
    {
      var parent;
      parent, component := SplitPath(path);
      if parent == "" { d := Some(fs.cwd); } else { d := ResolvePath(parent); }
    }

    method FsCreate(path: string) returns (r: int)
      requires Shape(fs)
      modifies this
      ensures (fs, r) == Create(old(fs), path)
    {
      if path == "" { return -1; }
      var d, name := ResolveParent(path);
      if name == "" || d.None? { return -1; }
      if d.value >= INODES || fs.inodes[d.value].kind != Dir { return -1; }
      var existing := FindEntry(d.value, name);
      if existing.Some? { return -1; }
      var i := InodeAlloc();
      if i < 0 { return -1; }
      fs := fs.(inodes := fs.inodes[i := Inode(File, 0, 0, 0)]);
      assert fs == NewNode(old(fs), i, Inode(File, 0, 0, 0), 0, Bytes([]));
      r := AddEntry(d.value, i, name);
      if r < 0 {
        fs := fs.(ibits := fs.ibits[i := false]);
        return -1;
      }
      return 0;
    }

    method FsMkdir(path: string) returns (r: int)
      requires Shape(fs) && fs.bbits[0]
      modifies this
      ensures (fs, r) == Mkdir(old(fs), path)
    {
      if path == "" || path == "/" { return -1; }
      var d, name := ResolveParent(path);
      if name == "" || d.None? { return -1; }
      if d.value >= INODES || fs.inodes[d.value].kind != Dir { return -1; }
      var existing := FindEntry(d.value, name);
      if existing.Some? { return -1; }
      FirstClearIs(fs.ibits, 1);
      FirstClearIs(fs.bbits, 0);
      var i := InodeAlloc();
      if i < 0 { return -1; }
      var b := BlockAlloc();
      if b < 0 {
        fs := fs.(ibits := fs.ibits[i := false]);
        assert fs.ibits == old(fs).ibits;
        return -1;
      }
      fs := fs.(inodes := fs.inodes[i := Inode(Dir, 64, b, 0)]);
      fs := fs.(blocks := fs.blocks[b := Entries(Dots(i, d.value))]);
      assert fs == NewNode(old(fs), i, Inode(Dir, 64, b, 0), b, Entries(Dots(i, d.value)));
      ghost var g := fs;
      r := AddEntry(d.value, i, name);
      if r < 0 {
        assert fs == g;
        fs := fs.(bbits := fs.bbits[b := false]);
        fs := fs.(ibits := fs.ibits[i := false]);
        return -1;
      }
      return 0;
    }

    // Frees the inode's direct block, if any, and the inode.
    method Release(t: nat, direct: nat)
      modifies this
      ensures fs == old(fs).(ibits := SetBit(old(fs).ibits, t, false),
                             bbits := if direct != 0 then SetBit(old(fs).bbits, direct, false) else old(fs).bbits)
    {
      if direct != 0 { fs := fs.(bbits := SetBit(fs.bbits, direct, false)); }
      fs := fs.(ibits := SetBit(fs.ibits, t, false));
    }

    method FsDelete(path: string) returns (r: int)
      requires Shape(fs)
      modifies this
      ensures (fs, r) == Delete(old(fs), path)
    {
      if path == "" { return -1; }
      var t := ResolvePath(path);
      if t.None? { return -1; }
      if t.value >= INODES || fs.inodes[t.value].kind != File { return -1; }
      var direct := fs.inodes[t.value].direct;
      var d, name := ResolveParent(path);
      if d.None? { return -1; }
      r := RemoveEntry(d.value, name);
      if r < 0 { return -1; }
      Release(t.value, direct);
      return 0;
    }

    // Only "." and ".." are in use.
    method IsBare(t: nat) returns (bare: bool)
      requires t < |fs.inodes|
      ensures bare == Bare(EntsAt(fs, t))
    {
      var es := EntsAt(fs, t);
      var i: nat := 0;
      while i < |es|
        invariant i <= |es|
        invariant forall k :: 0 <= k < i && es[k].name != "" ==> Dot(es[k].name)
      {
        if es[i].name != "" && es[i].name != "." && es[i].name != ".." { return false; }
        i := i + 1;
      }
      return true;
    }

    method FsRmdir(path: string) returns (r: int)
      requires Shape(fs)
      modifies this
      ensures (fs, r) == Rmdir(old(fs), path)
    {
      if path == "" || path == "/" { return -1; }
      var t := ResolvePath(path);
      if t.None? { return -1; }
      if t.value >= INODES || fs.inodes[t.value].kind != Dir { return -1; }
      var direct := fs.inodes[t.value].direct;
      var bare := IsBare(t.value);
      if !bare { return -1; }
      var d, name := ResolveParent(path);
      if d.None? { return -1; }
      r := RemoveEntry(d.value, name);
      if r < 0 { return -1; }
      Release(t.value, direct);
      return 0;
    }

    method FsRename(from: string, to: string) returns (r: int)
      requires Shape(fs)
      modifies this
      ensures (fs, r) == Rename(old(fs), from, to)
    {
      if from == "" || to == "" { return -1; }
      var t := ResolvePath(from);
      if t.None? || t.value >= INODES { return -1; }
      var d, name := ResolveParent(from);
      if name == "" || d.None? { return -1; }
      var e, target := ResolveParent(to);
      if target == "" || e.None? { return -1; }
      var existing := FindEntry(e.value, target);
      if existing.Some? { return -1; }
      r := AddEntry(e.value, t.value, target);
      if r < 0 { return -1; }
      r := RemoveEntry(d.value, name);
      if r < 0 { return -1; }
      return 0;
    }

    method FsWriteFile(path: string, data: seq<Byte>) returns (r: int)
      requires Shape(fs)
      modifies this
      ensures (fs, r) == WriteFile(old(fs), path, data)
      ensures old(Wf(fs)) ==> (Wf(fs) <==> WriteOk(old(fs), path, data))
      ensures old(Wf(fs)) && Plain(path) ==> r == if WriteFits(old(fs), path, data) then |data| else -1
    {
      if Wf(fs) {
        WriteKeepsIff(fs, path, data);
        if Plain(path) { WriteSucceedsIff(fs, path, data); }
      }
      if path == "" { return -1; }
      DeleteShape(fs, path);
      CreateShape(Delete(fs, path).0, path);
      r := FsDelete(path);
      r := FsCreate(path);
      if r < 0 { return -1; }
      var i := ResolvePath(path);
      r := StoreData(i, data);
    }

    method StoreData(i: Option<nat>, data: seq<Byte>) returns (r: int)
      requires Shape(fs)
      modifies this
      ensures (fs, r) == PutData(old(fs), i, data)
    {
      if i.None? || i.value >= INODES { return -1; }
      if |data| == 0 { return 0; }
      var b := BlockAlloc();
      if b < 0 { return -1; }
      fs := fs.(blocks := fs.blocks[b := Bytes(Padded(data))]);
      fs := fs.(inodes := fs.inodes[i.value := fs.inodes[i.value].(direct := b, size := |data|)]);
      return |data|;
    }

    method FsCopy(src: string, dst: string) returns (r: int)
      requires Shape(fs)
      modifies this
      ensures (fs, r) == Copy(old(fs), src, dst)
      ensures old(Wf(fs)) ==>
        (Wf(fs) <==> CopyRefused(old(fs), src, dst) || (Create(old(fs), dst).1 == 0 ==> NewAt(old(fs), dst)))
    {
      if Wf(fs) { CopyKeepsIff(fs, src, dst); }
      CreateShape(fs, dst);
      if src == "" || dst == "" { return -1; }
      var s := ResolvePath(src);
      if s.None? || s.value >= INODES || fs.inodes[s.value].kind != File { return -1; }
      var n := fs.inodes[s.value];
      r := FsCreate(dst);
      if r < 0 { return -1; }
      var t := ResolvePath(dst);
      r := CopyContents(t, n);
    }

    method CopyContents(t: Option<nat>, n: Inode) returns (r: int)
      requires Shape(fs)
      modifies this
      ensures (fs, r) == CopyInto(old(fs), t, n)
    {
      if t.None? || t.value >= INODES || fs.inodes[t.value].kind != File { return -1; }
      if n.size == 0 { return 0; }
      if n.direct >= BLOCKS { return -1; }
      var c := BlockAt(fs, n.direct);
      var b: int := fs.inodes[t.value].direct;
      if b == 0 {
        b := BlockAlloc();
        if b < 0 { return -1; }
        fs := fs.(inodes := fs.inodes[t.value := fs.inodes[t.value].(direct := b)]);
      }
      if b >= BLOCKS { return -1; }
      fs := fs.(blocks := fs.blocks[b := c]);
      fs := fs.(inodes := fs.inodes[t.value := fs.inodes[t.value].(size := n.size)]);
      ghost var was := old(fs.inodes);
      assert fs.inodes == was[t.value := was[t.value].(direct := b, size := n.size)];
      return 0;
    }

    method FsCd(path: string) returns (r: int)
      requires Shape(fs)
      modifies this
      ensures (fs, r) == Cd(old(fs), path)
      ensures old(Wf(fs)) ==> Wf(fs)
    {
      if Wf(fs) { CdKeeps(fs, path); }
      if path == "" || path == "/" {
        fs := fs.(cwd := 0);
        return 0;
      }
      var d := ResolvePath(path);
      if d.None? || d.value >= INODES || fs.inodes[d.value].kind != Dir { return -1; }
      fs := fs.(cwd := d.value);
      return 0;
    }

    method FsCat(path: string, cap: nat) returns (r: Option<seq<Byte>>)
      requires cap > 0
      ensures r == Cat(fs, path, cap)
    {
      var t := ResolvePath(path);
      if t.None? || t.value >= |fs.inodes| || fs.inodes[t.value].kind != File { return None; }
      var data := ReadFile(fs.inodes[t.value], cap);
      return Some(data);
    }

    method ReadFile(n: Inode, cap: nat) returns (out: seq<Byte>)
      requires cap > 0
      ensures out == Read(fs, n, cap)
    {
      var size := n.size;
      if size > cap - 1 { size := cap - 1; }
      out := [];
      var pos: nat := 0;
      if n.direct > 0 {
        var chunk := Min(size, BLOCK_SIZE);
        out := Chunk(BlockAt(fs, n.direct), chunk);
        pos := chunk;
      }
      if pos < size && n.indirect > 0 {
        var nums := NumbersOf(BlockAt(fs, n.indirect));
        ghost var all := out + Indirect(fs, nums, 0, size - pos);
        var i: nat := 0;
        while i < |nums| && pos < size && nums[i] != 0
          invariant i <= |nums| && pos <= size && out + Indirect(fs, nums, i, size - pos) == all
        {
          var chunk := Min(size - pos, BLOCK_SIZE);
          out := out + Chunk(BlockAt(fs, nums[i]), chunk);
          pos := pos + chunk;
          i := i + 1;
        }
        assert out == all;
      }
    }
  }
}
