/**
 * When write, copy and cd succeed, in terms of the file system before the call, and what
 * the current directory and a small buffer mean to later calls.
 */
module Outcomes {
  import opened Prelude
  import opened FsTree
  import opened TinyFs
  import opened Vfs
  import opened Paths
  import opened FileOps

  // ---------------------------------------------------------------- a file that is gone

  // File t is gone, and with it its entry, of this name in d.
  ghost predicate Erased(fs: Fs, g: Fs, d: nat, name: string, t: nat) { CheckErased(fs, g, d, name, t) == Intact }

  ghost function CheckErased(fs: Fs, g: Fs, d: nat, name: string, t: nat): Sealed {
    if && Wf(fs) && Wf(g) && Shape(fs) && Leads(fs, d, name, t) && Proper(name) && t != 0 && t < INODES
       && fs.inodes[t].kind == File && OthersKept(fs, g, t, d) && g.cwd == fs.cwd && IsDir(g, d)
       && EntsAt(g, d) == EntsAt(fs, d)[FindName(EntsAt(fs, d), name, 0) := FreeEntry]
    then Intact else Broken
  }

  lemma DeleteErases(fs: Fs, t: nat, d: nat, name: string)
    requires Wf(fs) && Leads(fs, d, name, t) && Live(fs, t) && fs.inodes[t].kind == File
    ensures DeleteAt(fs, t, d, name).1 == 0 && Erased(fs, DeleteAt(fs, t, d, name).0, d, name, t)
    ensures !Has(EntsAt(DeleteAt(fs, t, d, name).0, d), name)
  {
    DirLive(fs, d);
    FileLeads(fs, d, name, t);
    DeleteKeepsIff(fs, t, d, name);
    LeadsHolds(fs, d, name, t);
    EraseIs(fs, t, d, name);
    EraseGone(fs, t, d, name);
    var g := DeleteAt(fs, t, d, name).0;
    assert d in View(g).dirs;
    DirLive(g, d);
  }

  lemma {:induction false} FindNameCleared(es: seq<Dirent>, k: nat, name: string, i: nat)
    requires k < |es| && es[k].name != name
    ensures FindName(es[k := FreeEntry], name, i) == FindName(es, name, i)
    decreases |es| - i
  {
    if i < |es| { FindNameCleared(es, k, name, i + 1); }
  }

  // A lookup that does not lead to the file leads where it did.
  lemma ErasedLook(fs: Fs, g: Fs, d: nat, name: string, t: nat, x: nat, n: string)
    requires Erased(fs, g, d, name, t) && IsDir(fs, x) && Look(fs, x, n).Some? && Look(fs, x, n) != Some(t)
    ensures IsDir(g, x) && Look(g, x, n) == Look(fs, x, n)
  {
    if x != d {
      assert Kept(fs, g, x);
      KeptLook(fs, g, x, n);
    } else {
      DirLive(g, d);
      var es := EntsAt(fs, d);
      FindNameIs(es, name, 0);
      FindNameIs(es, n, 0);
      FindNameCleared(es, FindName(es, name, 0), n, 0);
    }
  }

  // A walk that reaches a file stays there.
  lemma {:induction false} FileStays(fs: Fs, t: nat, path: string, comp: string)
    requires t != 0 && t < |fs.inodes| && fs.inodes[t].kind == File
    ensures Walk(fs, t, path, comp).Some? ==> Walk(fs, t, path, comp) == Some(t)
    decreases |path|
  {
    if path != "" {
      FileStays(fs, t, path[1..],
                if path[0] == '/' then "" else if |comp| < COMPONENT_MAX then comp + [path[0]] else comp);
    }
  }

  // A walk that ends in a directory ends there still.
  lemma {:induction false} ErasedWalk(fs: Fs, g: Fs, d: nat, name: string, t: nat, cur: nat, path: string,
                                      comp: string)
    requires Erased(fs, g, d, name, t) && Live(fs, cur) && cur != t && Walk(fs, cur, path, comp).Some?
    requires IsDir(fs, Walk(fs, cur, path, comp).value)
    ensures Walk(g, cur, path, comp) == Walk(fs, cur, path, comp)
    decreases |path|
  {
    if path == "" {
      ErasedClose(fs, g, d, name, t, cur, comp);
    } else if path[0] == '/' {
      var next := Close(fs, cur, comp).value;
      if next == t { FileStays(fs, t, path[1..], ""); }
      ErasedClose(fs, g, d, name, t, cur, comp);
      CloseLive(fs, cur, comp);
      ErasedWalk(fs, g, d, name, t, next, path[1..], "");
    } else {
      ErasedWalk(fs, g, d, name, t, cur, path[1..], if |comp| < COMPONENT_MAX then comp + [path[0]] else comp);
    }
  }

  lemma ErasedClose(fs: Fs, g: Fs, d: nat, name: string, t: nat, cur: nat, comp: string)
    requires Erased(fs, g, d, name, t) && Live(fs, cur) && Close(fs, cur, comp).Some? && Close(fs, cur, comp) != Some(t)
    ensures Close(g, cur, comp) == Close(fs, cur, comp)
  {
    LookLive(fs, cur, comp);
    if IsDir(fs, cur) && Look(fs, cur, comp).Some? && Look(fs, cur, comp) != Some(t) {
      ErasedLook(fs, g, d, name, t, cur, comp);
    }
  }

  lemma ErasedParent(fs: Fs, g: Fs, d: nat, name: string, t: nat, path: string)
    requires Erased(fs, g, d, name, t) && ParentOf(fs, path) == Some(d)
    ensures ParentOf(g, path) == Some(d)
  {
    RootLive(fs);
    var p := ParentPath(path);
    if p != "" {
      if p[0] == '/' { ErasedWalk(fs, g, d, name, t, 0, p[1..], ""); }
      else { ErasedWalk(fs, g, d, name, t, fs.cwd, p, ""); }
    }
  }

  // ---------------------------------------------------------------- create, on a path

  // create of a plain path succeeds exactly when the parent is a directory with room in
  // which the name is new, and an inode is free; it marks no block.
  lemma CreateOnPath(fs: Fs, path: string)
    requires Wf(fs) && Plain(path)
    ensures Create(fs, path).1 == 0 <==>
              && ParentOf(fs, path).Some? && IsDir(fs, ParentOf(fs, path).value)
              && Resolve(fs, path).None? && HasClear(fs.ibits, 1) && HasFree(EntsAt(fs, ParentOf(fs, path).value))
    ensures Create(fs, path).1 == 0 ==> Create(fs, path).0.bbits == fs.bbits
  {
    assert path != "" by { assert Last("") == ""; }
    ResolveSplit(fs, path);
    ResolveLive(fs, path);
    if ParentOf(fs, path).Some? {
      var d := ParentOf(fs, path).value;
      if IsDir(fs, d) { CreateInDir(fs, d, Last(path)); }
    }
  }

  lemma CreateInDir(fs: Fs, d: nat, name: string)
    requires Wf(fs) && IsDir(fs, d) && name != ""
    ensures CreateAt(fs, d, name).1 == 0 <==>
              Look(fs, d, name).None? && HasClear(fs.ibits, 1) && HasFree(EntsAt(fs, d))
    ensures CreateAt(fs, d, name).1 == 0 ==> CreateAt(fs, d, name).0.bbits == fs.bbits
  {
    Slots(fs, d);
    FoundIff(fs, d, name);
    CreateSucceedsIff(fs, d, name);
    if CreateAt(fs, d, name).1 == 0 {
      var i, n := FirstClear(fs.ibits, 1), Inode(File, 0, 0, 0);
      FirstClearIs(fs.ibits, 1);
      CreateKeepsIff(fs, d, name);
      EnterKept(fs, d, i, n, 0, Bytes([]), name);
    }
  }

  // mkdir also needs a block.
  lemma MkdirOnPath(fs: Fs, path: string)
    requires Wf(fs) && Plain(path)
    ensures Mkdir(fs, path).1 == 0 <==>
              && ParentOf(fs, path).Some? && IsDir(fs, ParentOf(fs, path).value) && Resolve(fs, path).None?
              && HasClear(fs.ibits, 1) && HasClear(fs.bbits, 0) && HasFree(EntsAt(fs, ParentOf(fs, path).value))
  {
    assert path != "" && path != "/" by { assert Last("") == "" && Last("/") == ""; }
    ResolveSplit(fs, path);
    ResolveLive(fs, path);
    if ParentOf(fs, path).Some? && IsDir(fs, ParentOf(fs, path).value) {
      var d := ParentOf(fs, path).value;
      Slots(fs, d);
      FoundIff(fs, d, Last(path));
      MkdirSucceedsIff(fs, d, Last(path));
    }
  }

  // rmdir of a plain path succeeds exactly when it leads to a directory with nothing in it
  // but its dots.
  lemma RmdirOnPath(fs: Fs, path: string)
    requires Wf(fs) && Plain(path)
    ensures Rmdir(fs, path).1 == 0 <==>
              && Resolve(fs, path).Some? && IsDir(fs, Resolve(fs, path).value)
              && Bare(EntsAt(fs, Resolve(fs, path).value))
  {
    assert path != "" && path != "/" by { assert Last("") == "" && Last("/") == ""; }
    ResolveSplit(fs, path);
    ResolveLive(fs, path);
    if Resolve(fs, path).Some? {
      RmdirKeepsIff(fs, Resolve(fs, path).value, ParentOf(fs, path).value, Last(path));
    }
  }

  // rename between plain paths succeeds exactly when the old one leads somewhere, and the new
  // one's parent is a directory with room in which the name is new.
  lemma RenameOnPath(fs: Fs, path: string, to: string)
    requires Wf(fs) && Plain(path) && Plain(to)
    ensures Rename(fs, path, to).1 == 0 <==>
              && Resolve(fs, path).Some? && ParentOf(fs, to).Some? && IsDir(fs, ParentOf(fs, to).value)
              && Resolve(fs, to).None? && HasFree(EntsAt(fs, ParentOf(fs, to).value))
  {
    assert path != "" && to != "" by { assert Last("") == ""; }
    ResolveSplit(fs, path);
    ResolveSplit(fs, to);
    ResolveLive(fs, path);
    ResolveLive(fs, to);
    if Resolve(fs, path).Some? && ParentOf(fs, to).Some? {
      var t, d, e := Resolve(fs, path).value, ParentOf(fs, path).value, ParentOf(fs, to).value;
      RenameKeepsIff(fs, t, d, Last(path), e, Last(to));
      if IsDir(fs, e) {
        Slots(fs, e);
        FoundIff(fs, e, Last(to));
      }
    }
  }

  // ---------------------------------------------------------------- write

  // What a write of data needs of the file system before it: the parent is a directory, and
  // either the name is free there, with a slot, an inode and a block left, or it is a file's,
  // whose inode, slot and block are free once it is gone.
  predicate WriteFits(fs: Fs, path: string, data: seq<Byte>) {
    && ParentOf(fs, path).Some? && IsDir(fs, ParentOf(fs, path).value)
    && match Resolve(fs, path)
       case None =>
         && HasClear(fs.ibits, 1) && HasFree(EntsAt(fs, ParentOf(fs, path).value))
         && (data == [] || HasClear(fs.bbits, 0))
       case Some(t) =>
         && t < |fs.inodes| && fs.inodes[t].kind == File
         && (data == [] || HasClear(fs.bbits, 0) || fs.inodes[t].direct != 0)
  }

  // A write succeeds exactly then, and returns the length of the data.
  lemma WriteSucceedsIff(fs: Fs, path: string, data: seq<Byte>)
    requires Wf(fs) && Plain(path)
    ensures WriteFile(fs, path, data).1 == if WriteFits(fs, path, data) then |data| else -1
  {
    WriteSteps(fs, path, data);
    DeletePath(fs, path);
    ResolveSplit(fs, path);
    if Delete(fs, path).1 == 0 { WriteOver(fs, path, data); } else { WriteNew(fs, path, data); }
  }

  // The data goes in exactly when there is a block for it.
  lemma PutSucceedsIff(h: Fs, i: nat, data: seq<Byte>)
    requires Shape(h) && i < INODES
    ensures PutData(h, Some(i), data).1 == if data == [] || HasClear(h.bbits, 0) then |data| else -1
  {
    FirstClearIs(h.bbits, 0);
  }

  lemma WriteNew(fs: Fs, path: string, data: seq<Byte>)
    requires Wf(fs) && Plain(path) && Delete(fs, path).1 != 0 && Delete(fs, path).0 == fs
    requires Shape(Create(fs, path).0)
    ensures var (h, r) := Create(fs, path);
            WriteFits(fs, path, data) <==> r == 0 && PutData(h, Resolve(h, path), data).1 == |data|
    ensures var (h, r) := Create(fs, path);
            r == 0 && !WriteFits(fs, path, data) ==> PutData(h, Resolve(h, path), data).1 == -1
  {
    DeletePath(fs, path);
    CreateOnPath(fs, path);
    if Resolve(fs, path).Some? { ResolveLeads(fs, path); ResolveSplit(fs, path); }
    if Create(fs, path).1 == 0 {
      CreateResolves(fs, path);
      var h := Create(fs, path).0;
      PutSucceedsIff(h, Resolve(h, path).value, data);
    }
  }

  lemma WriteOver(fs: Fs, path: string, data: seq<Byte>)
    requires Wf(fs) && Plain(path) && Delete(fs, path).1 == 0
    ensures Shape(Delete(fs, path).0) && Shape(Create(Delete(fs, path).0, path).0)
    ensures var (h, r) := Create(Delete(fs, path).0, path);
            && r == 0
            && PutData(h, Resolve(h, path), data).1 == if WriteFits(fs, path, data) then |data| else -1
  {
    DeletePath(fs, path);
    ResolveSplit(fs, path);
    var g := Delete(fs, path).0;
    var d, t := ParentOf(fs, path).value, Resolve(fs, path).value;
    DeleteErases(fs, t, d, Last(path));
    ErasedParent(fs, g, d, Last(path), t, path);
    SpaceFreed(fs, t, d, Last(path));
    ResolveSplit(g, path);
    Slots(g, d);
    FoundIff(g, d, Last(path));
    CreateOnPath(g, path);
    CreateResolves(g, path);
    var h := Create(g, path).0;
    PutSucceedsIff(h, Resolve(h, path).value, data);
  }

  // Deleting a file frees its inode, its slot and its block.
  lemma SpaceFreed(fs: Fs, t: nat, d: nat, name: string)
    requires Wf(fs) && Erased(fs, DeleteAt(fs, t, d, name).0, d, name, t) && DeleteAt(fs, t, d, name).1 == 0
    ensures var g := DeleteAt(fs, t, d, name).0;
            && HasClear(g.ibits, 1) && HasFree(EntsAt(g, d))
            && (HasClear(g.bbits, 0) <==> HasClear(fs.bbits, 0) || fs.inodes[t].direct != 0)
  {
    var g := DeleteAt(fs, t, d, name).0;
    var b := fs.inodes[t].direct;
    LeadsHolds(fs, d, name, t);
    assert InodeOk(fs, t);
    RemoveOk(fs, d, name);
    FindNameIs(EntsAt(fs, d), name, 0);
    assert EntsAt(g, d)[FindName(EntsAt(fs, d), name, 0)].name == "";
    assert !g.ibits[t];
    assert g.bbits == if b != 0 then fs.bbits[b := false] else fs.bbits by { assert b != 0 ==> b in Refs(fs, t); }
    if b != 0 { assert !g.bbits[b]; }
  }

  // ---------------------------------------------------------------- copy

  lemma FillSucceedsIff(g: Fs, i: nat, c: Content, size: nat)
    requires Shape(g) && i < INODES
    ensures FillAt(g, i, c, size).1 == if HasClear(g.bbits, 0) then 0 else -1
  {
    FirstClearIs(g.bbits, 0);
  }

  lemma CopyOutcome(fs: Fs, src: string, dst: string)
    requires Wf(fs) && Shape(fs) && Plain(dst) && FileAt(fs, src) && src != ""
    ensures Copy(fs, src, dst).1 == 0 <==>
              Create(fs, dst).1 == 0 && (fs.inodes[Resolve(fs, src).value].size == 0 || HasClear(fs.bbits, 0))
    ensures Copy(fs, src, dst).1 == 0 || Copy(fs, src, dst).1 == -1
  {
    CreateFails(fs, dst);
    if Create(fs, dst).1 == 0 {
      var g, n := Create(fs, dst).0, fs.inodes[Resolve(fs, src).value];
      CreateOnPath(fs, dst);
      CopySteps(fs, src, dst);
      FillSucceedsIff(g, Resolve(g, dst).value, BlockAt(fs, n.direct), n.size);
    }
  }

  // A copy to a plain path succeeds exactly when the source is a file, the parent of the
  // destination a directory with room in which the name is new, an inode is free and,
  // unless the file is empty, a block.
  lemma CopySucceedsIff(fs: Fs, src: string, dst: string)
    requires Wf(fs) && Shape(fs) && Plain(dst)
    ensures Copy(fs, src, dst).1 == 0 <==>
              && src != "" && FileAt(fs, src)
              && ParentOf(fs, dst).Some? && IsDir(fs, ParentOf(fs, dst).value) && Resolve(fs, dst).None?
              && HasClear(fs.ibits, 1) && HasFree(EntsAt(fs, ParentOf(fs, dst).value))
              && (fs.inodes[Resolve(fs, src).value].size == 0 || HasClear(fs.bbits, 0))
    ensures Copy(fs, src, dst).1 == 0 || Copy(fs, src, dst).1 == -1
  {
    assert dst != "" by { assert Last("") == ""; }
    CreateOnPath(fs, dst);
    if src != "" && FileAt(fs, src) { CopyOutcome(fs, src, dst); }
  }

  // ---------------------------------------------------------------- cd

  lemma CdSame(fs: Fs, path: string)
    requires Wf(fs)
    ensures Cd(fs, path).0 == fs.(cwd := Cd(fs, path).0.cwd) && View(Cd(fs, path).0) == View(fs)
  {
  }

  // cd succeeds exactly when the path leads to a directory, "" leading to the root, and then
  // a relative path leads where it leads below that directory; otherwise nothing changes.
  lemma CdMoves(fs: Fs, path: string, rest: string)
    requires Wf(fs) && (rest != "" ==> rest[0] != '/')
    ensures var (g, r) := Cd(fs, path);
            && (r == 0 <==> path == "" || (Resolve(fs, path).Some? && IsDir(fs, Resolve(fs, path).value)))
            && (r == 0 ==> Resolve(g, rest) == Resolve(fs, path + "/" + rest))
            && (r != 0 ==> r == -1 && g == fs)
  {
    var (g, r) := Cd(fs, path);
    CdKeeps(fs, path);
    CdSame(fs, path);
    RootLive(fs);
    RootLive(g);
    ResolveLive(fs, path);
    ResolveTop(fs, "");
    if r == 0 {
      WalkSame(fs, g, g.cwd, rest, "");
      WalkBeyond(fs, path, rest);
    }
  }

  lemma WalkBeyond(fs: Fs, path: string, rest: string)
    ensures Resolve(fs, path + "/" + rest) ==
            if path == "" then Walk(fs, 0, rest, "")
            else match Resolve(fs, path)
                 case None => None
                 case Some(d) => Walk(fs, d, rest, "")
  {
    var whole := path + "/" + rest;
    if path == "" {
      assert whole == "/" + rest && whole[1..] == rest;
    } else if path[0] == '/' {
      assert whole[1..] == path[1..] + "/" + rest;
      WalkSplit(fs, 0, path[1..], rest, "");
    } else {
      WalkSplit(fs, fs.cwd, path, rest, "");
    }
  }

  // ---------------------------------------------------------------- small buffers

  // The block holds as many bytes as a disk block does.
  predicate Full(fs: Fs, b: nat) { |BytesOf(BlockAt(fs, b))| >= BLOCK_SIZE }

  lemma {:induction false} IndirectPrefix(fs: Fs, nums: seq<nat>, i: nat, left: nat, more: nat)
    requires left <= more && forall b :: b in nums && b != 0 ==> Full(fs, b)
    ensures var long := Indirect(fs, nums, i, more);
            Indirect(fs, nums, i, left) == long[..Min(left, |long|)]
    decreases |nums| - i
  {
    if i < |nums| && left > 0 && nums[i] != 0 {
      var n, m := Min(left, BLOCK_SIZE), Min(more, BLOCK_SIZE);
      assert nums[i] in nums && Full(fs, nums[i]);
      IndirectPrefix(fs, nums, i + 1, left - n, more - m);
    }
  }

  function FromDirect(n: Inode, size: nat): nat { if n.direct > 0 then Min(size, BLOCK_SIZE) else 0 }

  // What is read of a file of which `size` bytes fit, in two parts.
  function Parts(fs: Fs, n: Inode, size: nat): (seq<Byte>, seq<Byte>) {
    var got := FromDirect(n, size);
    (if n.direct > 0 then Chunk(BlockAt(fs, n.direct), got) else [],
     if got < size && n.indirect > 0 then Indirect(fs, NumbersOf(BlockAt(fs, n.indirect)), 0, size - got) else [])
  }

  lemma ReadIsParts(fs: Fs, n: Inode, cap: nat)
    requires cap > 0
    ensures var (a, b) := Parts(fs, n, Min(n.size, cap - 1)); Read(fs, n, cap) == a + b
  {
    var (a, b) := Parts(fs, n, Min(n.size, cap - 1));
    assert b == [] ==> a + b == a;
  }

  lemma PartsPrefix(fs: Fs, n: Inode, size: nat, more: nat)
    requires size <= more && (n.direct != 0 ==> Full(fs, n.direct))
    requires forall b :: b in NumbersOf(BlockAt(fs, n.indirect)) && b != 0 ==> Full(fs, b)
    ensures var (a, b) := Parts(fs, n, size);
            var (c, d) := Parts(fs, n, more);
            && |a| <= size && a == c[..Min(|a|, |c|)] && b == d[..Min(size - |a|, |d|)]
            && (a != c ==> |a| == size)
  {
    var x, y := FromDirect(n, size), FromDirect(n, more);
    DirectPrefix(fs, n, size, more);
    if x < size && n.indirect > 0 { IndirectPrefix(fs, NumbersOf(BlockAt(fs, n.indirect)), 0, size - x, more - y); }
  }

  lemma DirectPrefix(fs: Fs, n: Inode, size: nat, more: nat)
    requires size <= more && (n.direct != 0 ==> Full(fs, n.direct))
    ensures var a, c := Parts(fs, n, size).0, Parts(fs, n, more).0;
            && |a| == FromDirect(n, size) <= |c| == FromDirect(n, more) && a == c[..|a|]
  {
  }

  lemma JoinPrefix(a: seq<Byte>, b: seq<Byte>, c: seq<Byte>, d: seq<Byte>, size: nat)
    requires |a| <= size && a == c[..Min(|a|, |c|)] && b == d[..Min(size - |a|, |d|)] && (a != c ==> |a| == size)
    ensures a + b == (c + d)[..Min(size, |c + d|)]
  {
  }

  // A smaller buffer receives the beginning of what a larger one does.
  lemma ReadPrefix(fs: Fs, n: Inode, cap: nat, more: nat)
    requires 0 < cap <= more && (n.direct != 0 ==> Full(fs, n.direct))
    requires forall b :: b in NumbersOf(BlockAt(fs, n.indirect)) && b != 0 ==> Full(fs, b)
    ensures var long := Read(fs, n, more);
            Read(fs, n, cap) == long[..Min(cap - 1, |long|)]
  {
    var size, most := Min(n.size, cap - 1), Min(n.size, more - 1);
    ReadIsParts(fs, n, cap);
    ReadIsParts(fs, n, more);
    PartsPrefix(fs, n, size, most);
    var (a, b) := Parts(fs, n, size);
    var (c, d) := Parts(fs, n, most);
    JoinPrefix(a, b, c, d, size);
    if size < cap - 1 { assert most == size; }
    PartsLength(fs, n, most);
  }

  lemma PartsLength(fs: Fs, n: Inode, size: nat)
    ensures var (a, b) := Parts(fs, n, size); |a| + |b| <= size
  {
    var got := if n.direct > 0 then Min(size, BLOCK_SIZE) else 0;
    if got < size { IndirectLength(fs, NumbersOf(BlockAt(fs, n.indirect)), 0, size - got); }
  }

  lemma {:induction false} IndirectLength(fs: Fs, nums: seq<nat>, i: nat, left: nat)
    ensures |Indirect(fs, nums, i, left)| <= left
    decreases |nums| - i
  {
    if i < |nums| && left > 0 && nums[i] != 0 { IndirectLength(fs, nums, i + 1, left - Min(left, BLOCK_SIZE)); }
  }
}
