/**
 * kernel/memory.c: the page allocator, the table walk and the operations on one address
 * space (map, unmap, the fault handlers), written as the code is and proved against the
 * translation of PageTables.
 */
module Paging {
  import opened Prelude
  import opened PageTables
  import opened PagingSteps
  import opened CowModel

  // Every page other than page v of root translates as before.
  ghost predicate OtherXlat(s: Vm, t: Vm, root: nat, v: Path) {
    && t.roots == s.roots
    && forall k, u: Path :: 0 <= k < |s.roots| && |u| == 4 && !(s.roots[k] == root && u == v) ==>
         Translate(s.mem, s.roots[k], u) == Translate(t.mem, s.roots[k], u)
  }

  // Page v leads to the frame; user mode may use it when the flags say so and the page
  // lies in a user slot, and then it is writable.
  ghost predicate MapsTo(m: Ram, root: nat, slots: set<Path>, v: Path, frame: nat, flags: Flags) {
    && |v| == 4
    && var x := Translate(m, root, v);
    && x.Hit? && x.frame == frame && x.cow == flags.cow
    && (x.user <==> flags.user && v[..3] in slots)
    && (v[..3] in slots ==> x.rw)
  }

  lemma LeafAfterQuiet(s: Vm, a: Vm, t: Vm, f: nat, i: Index, w: Word)
    requires Wf(s) && Wf(t) && f in a.owner && |a.owner[f].path| == 3
    requires Quiet(s, a, a.owner[f].root) && t == SetLeaf(a, f, i, w)
    requires OnlyLeaf(a, t, f, i, w) && OnlyUserLeaf(a, t, a.owner[f].root, a.owner[f].path, i, w)
    ensures Extends(s, t, {a.owner[f].root})
    ensures OtherXlat(s, t, a.owner[f].root, a.owner[f].path + [i])
    ensures OnlyUserLeaf(s, t, a.owner[f].root, a.owner[f].path, i, w)
  {
    var root, v := a.owner[f].root, a.owner[f].path + [i];
    LeafExtends(a, f, i, w);
    ExtendsTrans(s, a, t, {root});
    forall k, u: Path | 0 <= k < |s.roots| && |u| == 4 && !(s.roots[k] == root && u == v)
      ensures Translate(s.mem, s.roots[k], u) == Translate(t.mem, s.roots[k], u)
    {
      assert Translate(s.mem, s.roots[k], u) == Translate(a.mem, a.roots[k], u);
    }
    forall k, p | 0 <= k < |s.roots| && p in s.slots
      ensures forall j: Index :: At(s.mem, s.roots[k], p, j) == At(a.mem, s.roots[k], p, j)
    {
      assert SlotKept(s.mem, a.mem, s.roots[k], p);
    }
  }

  // The rights of a leaf: full in a slot, none for user mode elsewhere.
  lemma LeafRights(a: Vm, t: Vm, f: nat, i: Index, w: Word)
    requires Wf(a) && OnWalk(a, f) && |a.owner[f].path| == 3 && OnlyLeaf(a, t, f, i, w) && w.flags.present
    requires w.flags.rw
    ensures MapsTo(t.mem, a.owner[f].root, a.slots, a.owner[f].path + [i], w.frame, w.flags)
  {
    var root, p := a.owner[f].root, a.owner[f].path;
    assert (p + [i])[..3] == p && IsRoot(a, root) && p == p[..2] + [p[2]];
    TabOwned(a, root, p[..2]);
    if p in a.slots {
      assert SlotOk(a.mem, root, p);
    }
  }

  // Page v of root has a page table.
  ghost predicate HasEntry(s: Vm, root: nat, v: Path) {
    |v| == 4 && Tab(s.mem, root, v[..3]).Some? && Tab(s.mem, root, v[..3]).value.frame < NFRAMES
  }

  ghost function Entry(s: Vm, root: nat, v: Path): Word {
    if HasEntry(s, root, v) then s.mem[Tab(s.mem, root, v[..3]).value.frame][v[3]] else ZERO
  }

  ghost predicate Faulting(s: Vm, root: nat, v: Path) {
    HasEntry(s, root, v) && Entry(s, root, v).flags.present && Entry(s, root, v).flags.cow
  }

  // Writing the contents of a frame that is not a table is invisible to every walk.
  lemma DataWrite(s: Vm, n: nat, page: Page)
    requires Wf(s) && n < s.cur && n !in s.owner
    ensures var t := s.(mem := s.mem[n := page]);
      Wf(t) && SameXlat(s, t) && SameLeaves(s, t)
  {
    var t := s.(mem := s.mem[n := page]);
    forall k, v: Path | 0 <= k < |s.roots| && |v| == 4
      ensures Translate(s.mem, s.roots[k], v) == Translate(t.mem, s.roots[k], v)
    {
      SameTranslate(s, t, s.roots[k], v);
    }
    forall k, p | 0 <= k < |s.roots| && p in s.slots ensures SlotKept(s.mem, t.mem, s.roots[k], p) {
      assert SlotOk(s.mem, s.roots[k], p);
      SameSlot(s, t, s.roots[k], p);
    }
    LeavesData(s, t);
  }

  // Taking a page and copying frame src to it.
  ghost function AllocCopy(s: Vm, src: nat): Vm
    requires s.cur < POOL_END && src < NFRAMES
  {
    var a := Alloc(s);
    a.(mem := a.mem[s.cur := a.mem[src]])
  }

  lemma AllocCopyStep(s: Vm, src: nat, root: nat)
    requires Wf(s) && s.cur < POOL_END && src < NFRAMES
    ensures Quiet(s, AllocCopy(s, src), root)
  {
    AllocStep(s);
    var a := Alloc(s);
    DataWrite(a, s.cur, a.mem[src]);
    SameTrans(s, a, AllocCopy(s, src));
  }

  // The entry that serves a copy-on-write fault on word i of table f: a private copy while
  // the frame's count says it is shared, otherwise the same frame made writable.
  ghost function CowServed(s: Vm, refc: seq<nat>, f: nat, i: Index): Vm
    requires f < NFRAMES && |refc| == POOL_END - POOL_START
    requires RefGet(refc, s.mem[f][i].frame) > 1 ==> s.cur < POOL_END
  {
    var w := s.mem[f][i];
    if RefGet(refc, w.frame) > 1
    then SetLeaf(AllocCopy(s, w.frame), f, i, Word(s.cur, w.flags.(cow := false, rw := true)))
    else SetLeaf(s, f, i, Word(w.frame, w.flags.(cow := false, rw := true)))
  }

  lemma CowServedStep(s: Vm, refc: seq<nat>, f: nat, i: Index)
    requires Wf(s) && OnWalk(s, f) && |s.owner[f].path| == 3 && |refc| == POOL_END - POOL_START
    requires s.mem[f][i].flags.present && (RefGet(refc, s.mem[f][i].frame) > 1 ==> s.cur < POOL_END)
    ensures var t := CowServed(s, refc, f, i);
      var root, p := s.owner[f].root, s.owner[f].path;
      && Wf(t) && Extends(s, t, {root}) && OtherXlat(s, t, root, p + [i])
      && OnlyUserLeaf(s, t, root, p, i, t.mem[f][i])
  {
    var w, root, p := s.mem[f][i], s.owner[f].root, s.owner[f].path;
    var a := if RefGet(refc, w.frame) > 1 then AllocCopy(s, w.frame) else s;
    if RefGet(refc, w.frame) > 1 {
      AllocCopyStep(s, w.frame, root);
      assert IsRoot(s, root);
      SameTab(s, a, root, p);
    } else {
      assert Quiet(s, a, root);
    }
    var x := CowServed(s, refc, f, i).mem[f][i];
    assert p in s.slots ==> At(s.mem, root, p, i) == w by {
      assert p in s.slots ==> SlotOk(s.mem, root, p);
      assert IsRoot(s, root);
      TabOwned(s, root, p);
      assert p == p[..2] + [p[2]];
    }
    LeafStep(a, f, i, x);
    LeafAfterQuiet(s, a, SetLeaf(a, f, i, x), f, i, x);
  }

  // The state at boot: three tables at 0x1000, 0x2000 and 0x3000, one slot open to user mode.
  ghost function BootVm(ram: Ram): Vm {
    Vm(ram, POOL_START, map[1 := Pos(BOOT, []), 2 := Pos(BOOT, [0]), 3 := Pos(BOOT, [0, 0])], [BOOT], {[0, 0, 2]})
  }

  class Memory {
    var mem: Ram             // physical memory
    var cur: nat             // page_alloc_cur, in frames
    var refc: seq<nat>       // page_refcounts
    ghost var owner: map<nat, Pos>
    ghost var roots: seq<nat>
    ghost var slots: set<Path>

    // memory_page_init and page_ref_init, over the tables that boot/stage2.asm left.
    constructor (ram: Ram)
      ensures State() == BootVm(ram) && refc == seq(POOL_END - POOL_START, _ => 0)
    {
      mem := ram;
      cur := POOL_START;
      refc := seq(POOL_END - POOL_START, _ => 0);
      owner := BootVm(ram).owner;
      roots := BootVm(ram).roots;
      slots := BootVm(ram).slots;
    }

    ghost function State(): Vm
      reads this
    {
      Vm(mem, cur, owner, roots, slots)
    }

    // memory_alloc_page; frame 0 stands for NULL.
    method AllocPage() returns (f: nat)
      requires POOL_START <= cur <= POOL_END
      modifies `mem, `cur
      ensures old(cur) < POOL_END ==> f == old(cur) && State() == Alloc(old(State()))
      ensures old(cur) == POOL_END ==> f == 0 && State() == old(State())
    {
      if cur >= POOL_END {
        return 0;
      }
      f := cur;
      mem := mem[f := ZeroPage()];
      cur := cur + 1;
    }

    // One upper level of paging_walk_4kb: enter the table below entry i of f, making it first if need be.
    method Descend(root: nat, ghost path: Path, f: nat, i: Index, alloc: bool) returns (ok: bool, next: nat)
      requires Wf(State()) && root in roots && |path| < 2 && OnWalk(State(), f) && owner[f] == Pos(root, path)
      modifies `mem, `cur, `owner
      ensures Quiet(old(State()), State(), root)
      ensures ok ==> OnWalk(State(), next) && owner[next] == Pos(root, path + [i])
      ensures !alloc ==> State() == old(State())
      ensures !ok && !alloc ==> Tab(mem, root, path + [i]).None?
      ensures (!ok && alloc ==> cur == POOL_END) && cur <= old(cur) + 1
    {
      assert (path + [i])[..|path|] == path;
      if !mem[f][i].flags.present {
        if !alloc {
          return false, 0;
        }
        ghost var s := State();
        var n := AllocPage();
        if n == 0 {
          return false, 0;
        }
        AllocLink(s, f, i);
        mem := Store(mem, f, i, Word(n, PRESENT_RW));
        owner := owner[n := Pos(root, path + [i])];
        return true, n;
      }
      TabOwned(State(), root, path + [i]);
      return true, mem[f][i].frame;
    }

    // The directory level of paging_walk_4kb (lines 155-184): enter the page table below
    // entry i of pd, making it or splitting a huge page first if need be.
    method EnterDirectory(root: nat, ghost path: Path, pd: nat, i: Index, alloc: bool) returns (ok: bool, pt: nat)
      requires Wf(State()) && root in roots && |path| == 2 && OnWalk(State(), pd) && owner[pd] == Pos(root, path)
      modifies `mem, `cur, `owner
      ensures Quiet(old(State()), State(), root)
      ensures ok ==> OnWalk(State(), pt) && owner[pt] == Pos(root, path + [i])
      ensures !alloc ==> State() == old(State())
      ensures !ok && !alloc ==> Tab(mem, root, path + [i]).None?
      ensures (!ok && alloc ==> cur == POOL_END) && cur <= old(cur) + 1
    {
      ghost var s := State();
      assert (path + [i])[..2] == path;
      var e := mem[pd][i];
      if !e.flags.present {
        if !alloc {
          return false, 0;
        }
        var n := AllocPage();
        if n == 0 {
          return false, 0;
        }
        AllocLink(s, pd, i);
        mem := Store(mem, pd, i, Word(n, PRESENT_RW));
        owner := owner[n := Pos(root, path + [i])];
        return true, n;
      }
      if e.flags.huge {
        if !alloc {
          return false, 0;
        }
        var n := AllocPage();
        if n == 0 {
          return false, 0;
        }
        AllocSplit(s, pd, i);
        FillTable(n, e);
        mem := Store(mem, pd, i, Word(n, Flags(true, e.flags.rw, e.flags.user, false, false, {})));
        owner := owner[n := Pos(root, path + [i])];
        assert State() == Split(Alloc(s), pd, i, n);
        return true, n;
      }
      TabOwned(s, root, path + [i]);
      return true, e.frame;
    }

    // paging_walk_4kb; the entry found is word i of frame pt.
    method Walk(root: nat, vpn: nat, alloc: bool) returns (ok: bool, pt: nat, i: Index)
      requires Wf(State()) && root in roots
      modifies `mem, `cur, `owner
      ensures Quiet(old(State()), State(), root) && i == vpn % 512
      ensures ok ==> OnWalk(State(), pt) && owner[pt] == Pos(root, PathOf(vpn)[..3])
      ensures !alloc ==> State() == old(State())
      ensures !ok && !alloc ==> Tab(mem, root, PathOf(vpn)[..3]).None?
      ensures (!ok && alloc ==> cur == POOL_END) && cur <= old(cur) + 3
    {
      ghost var s := State();
      var v := PathOf(vpn);
      i := v[3];
      pt := 0;
      assert v[..1] == [] + [v[0]] && v[..2] == v[..1] + [v[1]] && v[..3] == v[..2] + [v[2]];
      assert v[..3][..2] == v[..2] && v[..2][..1] == v[..1];
      assert IsRoot(s, root);
      var pdpt, pd: nat;
      ok, pdpt := Descend(root, [], root, v[0], alloc);
      if ok {
        ghost var a := State();
        ok, pd := Descend(root, v[..1], pdpt, v[1], alloc);
        QuietTrans(s, a, State(), root);
      }
      if ok {
        ghost var b := State();
        ok, pt := EnterDirectory(root, v[..2], pd, v[2], alloc);
        QuietTrans(s, b, State(), root);
      }
    }

    // The 512-entry loop of the split (lines 174-176).
    method FillTable(n: nat, e: Word)
      requires n < NFRAMES
      modifies `mem
      ensures mem == old(mem)[n := Shards(e)]
    {
      var j := 0;
      while j < 512
        invariant j <= 512 && |mem| == NFRAMES
        invariant forall f :: 0 <= f < NFRAMES && f != n ==> mem[f] == old(mem[f])
        invariant forall k: Index :: k < j ==> mem[n][k] == Shards(e)[k]
      {
        mem := Store(mem, n, j, Word(Base(e.frame) + j, Or(e.flags.(huge := false), PRESENT_RW)));
        j := j + 1;
      }
      assert mem[n] == Shards(e);
    }
  
    // paging_map_4kb refines one update of the translation.
    method Map(root: nat, vpn: nat, frame: nat, flags: Flags) returns (ok: bool)
      requires Wf(State()) && root in roots
      requires PathOf(vpn)[..3] in slots ==> frame < cur && frame !in owner
      modifies `mem, `cur, `owner
      ensures Wf(State()) && Extends(old(State()), State(), {root})
      ensures ok ==> OtherXlat(old(State()), State(), root, PathOf(vpn))
      ensures ok ==> MapsTo(mem, root, slots, PathOf(vpn), frame, flags)
      ensures ok ==>
        OnlyUserLeaf(old(State()), State(), root, PathOf(vpn)[..3], vpn % 512, Word(frame, Or(flags, PRESENT_RW)))
      ensures !ok ==> SameXlat(old(State()), State()) && SameLeaves(old(State()), State()) && cur == POOL_END
      ensures cur <= old(cur) + 3
    {
      ghost var s := State();
      var pt, i;
      ok, pt, i := Walk(root, vpn, true);
      if ok {
        ghost var a := State();
        var w := Word(frame, Or(flags, PRESENT_RW));
        LeafStep(a, pt, i, w);
        mem := Store(mem, pt, i, w);
        LeafAfterQuiet(s, a, State(), pt, i, w);
        LeafRights(a, State(), pt, i, w);
        assert PathOf(vpn) == PathOf(vpn)[..3] + [i];
      }
    }

    // paging_unmap_4kb: takes the page away where a page table exists; a page inside a
    // huge mapping, or under an absent table, is left as it is.
    method Unmap(root: nat, vpn: nat)
      requires Wf(State()) && root in roots
      modifies `mem, `cur, `owner
      ensures Wf(State()) && Extends(old(State()), State(), {root}) && cur == old(cur) && owner == old(owner)
      ensures Tab(old(mem), root, PathOf(vpn)[..3]).None? ==> State() == old(State())
      ensures Tab(old(mem), root, PathOf(vpn)[..3]).Some? ==>
        OtherXlat(old(State()), State(), root, PathOf(vpn)) && Translate(mem, root, PathOf(vpn)) == Fault
      ensures Tab(old(mem), root, PathOf(vpn)[..3]).Some? ==>
        OnlyUserLeaf(old(State()), State(), root, PathOf(vpn)[..3], vpn % 512, ZERO)
    {
      ghost var s := State();
      var ok, pt, i := Walk(root, vpn, false);
      if ok {
        LeafStep(s, pt, i, ZERO);
        mem := Store(mem, pt, i, ZERO);
        assert PathOf(vpn) == PathOf(vpn)[..3] + [i];
      }
    }
  
    // Lines 497-510: give the faulting entry a private frame.
    method ServeCow(pt: nat, i: Index) returns (ok: bool)
      requires POOL_START <= cur <= POOL_END && pt < NFRAMES && pt != cur && |refc| == POOL_END - POOL_START
      modifies `mem, `cur, `refc
      ensures ok <==> (RefGet(old(refc), old(mem)[pt][i].frame) > 1 ==> old(cur) < POOL_END)
      ensures !ok ==> State() == old(State()) && refc == old(refc)
      ensures ok ==> State() == CowServed(old(State()), old(refc), pt, i)
      ensures ok ==> refc == RefDec(old(refc), old(mem)[pt][i].frame)
    {
      var w := mem[pt][i];
      var fl := w.flags.(cow := false, rw := true);
      if RefGet(refc, w.frame) > 1 {
        var n := AllocPage();
        if n == 0 {
          return false;
        }
        mem := mem[n := mem[w.frame]];
        assert mem == AllocCopy(old(State()), w.frame).mem;
        refc := RefDec(refc, w.frame);
        mem := Store(mem, pt, i, Word(n, fl));
      } else {
        mem := Store(mem, pt, i, Word(w.frame, fl));
        refc := RefDec(refc, w.frame);
      }
      ok := true;
    }

    // paging_handle_cow_fault. It succeeds exactly on a present copy-on-write entry for
    // which a page can be had if the frame is still shared; the page then leads to a
    // private copy, or to the same frame when the count says that no one else has it.
    method HandleCowFault(root: nat, vpn: nat) returns (ok: bool)
      requires Wf(State()) && root in roots && |refc| == POOL_END - POOL_START
      modifies `mem, `cur, `owner, `refc
      ensures ok <==> Faulting(old(State()), root, PathOf(vpn))
                      && (RefGet(old(refc), Entry(old(State()), root, PathOf(vpn)).frame) > 1 ==> old(cur) < POOL_END)
      ensures !ok ==> State() == old(State()) && refc == old(refc)
      ensures ok ==> var pt := Tab(old(mem), root, PathOf(vpn)[..3]).value.frame;
        State() == CowServed(old(State()), old(refc), pt, vpn % 512)
      ensures ok ==> refc == RefDec(old(refc), Entry(old(State()), root, PathOf(vpn)).frame)
      ensures Wf(State()) && Extends(old(State()), State(), {root})
      ensures ok ==> OtherXlat(old(State()), State(), root, PathOf(vpn))
    {
      ghost var s := State();
      var v := PathOf(vpn);
      var found, pt, i := Walk(root, vpn, false);
      assert v == v[..3] + [i];
      if !found {
        return false;
      }
      if !mem[pt][i].flags.present || !mem[pt][i].flags.cow {
        return false;
      }
      ok := ServeCow(pt, i);
      if ok {
        CowServedStep(s, old(refc), pt, i);
      }
    }
  
    // paging_handle_demand_fault: an absent page inside a region gets a fresh zero page with
    // the flags of the first region that holds it, the one at hit; outside every region, or
    // when pages run out, nothing moves.
    method HandleDemandFault(root: nat, addr: nat, regions: seq<Region>) returns (ok: bool, ghost hit: nat)
      requires Wf(State()) && root in roots
      modifies `mem, `cur, `owner
      ensures Wf(State()) && Extends(old(State()), State(), {root})
      ensures !ok ==> SameXlat(old(State()), State()) && SameLeaves(old(State()), State())
      ensures ok ==> hit < |regions| && regions[hit].start <= addr < regions[hit].end
      ensures ok ==> forall j :: 0 <= j < hit ==> !(regions[j].start <= addr < regions[j].end)
      ensures ok ==> Demanded(old(State()), State(), root, PathOf(addr / 4096), regions[hit].flags)
      ensures !ok && cur < POOL_END ==>
        forall j :: 0 <= j < |regions| ==> !(regions[j].start <= addr < regions[j].end)
      ensures (forall j :: 0 <= j < |regions| ==> !(regions[j].start <= addr < regions[j].end)) ==>
        !ok && State() == old(State())
      ensures cur <= old(cur) + 4
    {
      ghost var s := State();
      var v := PathOf(addr / 4096);
      var flags, k := FindRegion(regions, addr);
      if flags.None? {
        return false, k;
      }
      var found, pt, i := Walk(root, addr / 4096, true);
      assert v == v[..3] + [i];
      if !found {
        return false, k;
      }
      ghost var a := State();
      WalkHit(s, a, pt, i);
      if mem[pt][i].flags.present {
        return true, k;
      }
      var n := AllocPage();
      if n == 0 {
        return false, k;
      }
      DemandStep(s, a, pt, i, flags.value);
      mem := Store(mem, pt, i, Word(n, flags.value.(present := true)));
      return true, k;
    }
  }

  datatype Region = Region(start: nat, end: nat, flags: Flags)

  // vm_region_contains: the flags of the first region that holds the address, if one does.
  // An unused region runs from 0 to 0 and holds no address.
  method FindRegion(regions: seq<Region>, addr: nat) returns (r: Option<Flags>, ghost hit: nat)
    ensures r.None? <==> forall j :: 0 <= j < |regions| ==> !(regions[j].start <= addr < regions[j].end)
    ensures r.Some? ==> hit < |regions| && regions[hit].start <= addr < regions[hit].end
    ensures r.Some? ==> r.value == regions[hit].flags
    ensures r.Some? ==> forall j :: 0 <= j < hit ==> !(regions[j].start <= addr < regions[j].end)
  {
    var i := 0;
    hit := 0;
    while i < |regions|
      invariant i <= |regions|
      invariant forall j :: 0 <= j < i ==> !(regions[j].start <= addr < regions[j].end)
    {
      var g := regions[i];
      if !(g.start == 0 && g.end == 0) && g.start <= addr < g.end {
        return Some(g.flags), i;
      }
      i := i + 1;
    }
    return None, i;
  }

  // A page that was there already stays as it is; an absent one now lies in a zero page
  // that no one had before.
  ghost predicate Demanded(s: Vm, t: Vm, root: nat, v: Path, flags: Flags)
    requires |v| == 4
  {
    if Translate(s.mem, root, v).Hit? then SameXlat(s, t) && SameLeaves(s, t)
    else exists n :: ZeroPlaced(s, t, root, v, flags.(present := true), n)
  }

  ghost predicate ZeroPlaced(s: Vm, t: Vm, root: nat, v: Path, flags: Flags, n: nat)
    requires |v| == 4
  {
    && s.cur <= n < t.cur <= NFRAMES && n !in t.owner && t.mem[n] == ZeroPage()
    && OtherXlat(s, t, root, v) && OnlyUserLeaf(s, t, root, v[..3], v[3], Word(n, flags))
  }

  lemma WalkHit(s: Vm, a: Vm, f: nat, i: Index)
    requires Wf(s) && OnWalk(a, f) && |a.owner[f].path| == 3 && Quiet(s, a, a.owner[f].root)
    ensures Translate(s.mem, a.owner[f].root, a.owner[f].path + [i]).Hit? <==> a.mem[f][i].flags.present
  {
    var root, p := a.owner[f].root, a.owner[f].path;
    assert (p + [i])[..3] == p && IsRoot(a, root);
    var k :| 0 <= k < |a.roots| && a.roots[k] == root;
    assert Translate(s.mem, s.roots[k], p + [i]) == Translate(a.mem, s.roots[k], p + [i]);
  }

  lemma DemandStep(s: Vm, a: Vm, f: nat, i: Index, flags: Flags)
    requires Wf(s) && OnWalk(a, f) && |a.owner[f].path| == 3 && Quiet(s, a, a.owner[f].root) && a.cur < POOL_END
    requires !a.mem[f][i].flags.present
    ensures var t := SetLeaf(Alloc(a), f, i, Word(a.cur, flags.(present := true)));
      var root, p := a.owner[f].root, a.owner[f].path;
      Wf(t) && Extends(s, t, {root}) && Demanded(s, t, root, p + [i], flags)
  {
    var root, p, b, w := a.owner[f].root, a.owner[f].path, Alloc(a), Word(a.cur, flags.(present := true));
    WalkHit(s, a, f, i);
    assert (p + [i])[..3] == p;
    AllocStep(a);
    QuietTrans(s, a, b, root);
    assert IsRoot(a, root);
    SameTab(a, b, root, a.owner[f].path);
    LeafStep(b, f, i, w);
    LeafAfterQuiet(s, b, SetLeaf(b, f, i, w), f, i, w);
    assert ZeroPlaced(s, SetLeaf(b, f, i, w), root, p + [i], flags.(present := true), a.cur);
  }
}
