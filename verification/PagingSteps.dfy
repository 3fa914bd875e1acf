/**
 * The single writes that the paging code makes to physical memory, as functions on the
 * paging state, with what each keeps: hand out a page, link an empty table, split a huge
 * page, replace a leaf entry.
 */
module PagingSteps {
  import opened Prelude
  import opened PageTables

  // ---------------------------------------------------------------- what a write keeps

  ghost predicate OwnerGrown(s: Vm, t: Vm) {
    && t.roots == s.roots && t.slots == s.slots && s.cur <= t.cur <= POOL_END
    && (forall f :: f in s.owner ==> f in t.owner && t.owner[f] == s.owner[f])
    && (forall f :: f in t.owner && f !in s.owner ==> s.cur <= f < t.cur)
  }

  ghost predicate DataKept(s: Vm, t: Vm) {
    forall f :: 0 <= f < s.cur && f < NFRAMES && f !in s.owner ==> t.mem[f] == s.mem[f]
  }

  ghost predicate TablesKept(s: Vm, t: Vm, writers: set<nat>) {
    && (forall r :: r !in writers ==> SameTables(s, t, r))
    && (forall f :: f in t.owner && f !in s.owner ==> t.owner[f].root in writers || t.owner[f].root !in s.roots)
  }

  ghost function GrowthState(s: Vm, t: Vm, writers: set<nat>): Sealed {
    if OwnerGrown(s, t) && DataKept(s, t) && TablesKept(s, t, writers) then Intact else Broken
  }

  // t has grown from s: same spaces, no data frame written, and new tables only in
  // frames handed out since; spaces outside writers neither lose nor gain a table.
  ghost predicate Extends(s: Vm, t: Vm, writers: set<nat>) {
    GrowthState(s, t, writers) == Intact
  }

  lemma ExtendsTrans(s: Vm, t: Vm, u: Vm, a: set<nat>)
    requires Owned(s) && Owned(t) && Extends(s, t, a) && Extends(t, u, a)
    ensures Extends(s, u, a)
  {
    forall r | r !in a ensures SameTables(s, u, r) {
      assert SameTables(s, t, r) && SameTables(t, u, r);
    }
  }

  // No page of any address space translates differently.
  ghost predicate SameXlat(s: Vm, t: Vm) {
    && t.roots == s.roots
    && forall k, v: Path {:trigger Translate(s.mem, s.roots[k], v)} {:trigger Translate(t.mem, s.roots[k], v)} ::
         0 <= k < |s.roots| && |v| == 4 ==>
         Translate(s.mem, s.roots[k], v) == Translate(t.mem, s.roots[k], v)
  }

  // No user page changes its leaf word, bit for bit.
  ghost predicate SameLeaves(s: Vm, t: Vm) {
    && t.roots == s.roots && t.slots == s.slots
    && forall k, p {:trigger SlotKept(s.mem, t.mem, s.roots[k], p)} ::
         0 <= k < |s.roots| && p in s.slots ==> SlotKept(s.mem, t.mem, s.roots[k], p)
  }

  // Some user page lies in frame n.
  ghost predicate Mapped(s: Vm, n: nat) {
    exists k, p, i: Index {:trigger At(s.mem, s.roots[k], p, i)} ::
      0 <= k < |s.roots| && p in s.slots
      && At(s.mem, s.roots[k], p, i).flags.present && At(s.mem, s.roots[k], p, i).frame == n
  }

  // Frame n is handed out, zeroed, and neither a table nor a user page.
  ghost predicate Blank(s: Vm, n: nat) {
    n < s.cur <= NFRAMES && n !in s.owner && s.mem[n] == ZeroPage() && !Mapped(s, n)
  }

  // ---------------------------------------------------------------- memory_alloc_page

  ghost function Alloc(s: Vm): Vm
    requires s.cur < POOL_END
  {
    s.(mem := s.mem[s.cur := ZeroPage()], cur := s.cur + 1)
  }

  lemma AllocStep(s: Vm)
    requires Wf(s) && s.cur < POOL_END
    ensures var t := Alloc(s);
      Wf(t) && Extends(s, t, {}) && SameXlat(s, t) && SameLeaves(s, t) && Blank(t, s.cur)
  {
    var t := Alloc(s);
    forall k, v: Path | 0 <= k < |s.roots| && |v| == 4
      ensures Translate(s.mem, s.roots[k], v) == Translate(t.mem, s.roots[k], v)
    {
      SameTranslate(s, t, s.roots[k], v);
    }
    forall k, p | 0 <= k < |s.roots| && p in s.slots ensures SlotKept(s.mem, t.mem, s.roots[k], p) {
      assert SlotOk(s.mem, s.roots[k], p);
      SameSlot(s, t, s.roots[k], p);
    }
    LeavesData(s, t);
  }

  // Unchanged leaves stay in data frames as long as no new table took one of them.
  lemma LeavesData(s: Vm, t: Vm)
    requires SlotsOk(s) && DataOk(s) && SameLeaves(s, t) && SlotsOk(t) && s.cur <= t.cur
    requires forall f :: f in t.owner && f !in s.owner ==> !Mapped(s, f)
    ensures DataOk(t)
    ensures forall n :: Mapped(t, n) ==> Mapped(s, n)
  {
    forall k, p, i: Index | 0 <= k < |s.roots| && p in s.slots && At(t.mem, t.roots[k], p, i).flags.present
      ensures Mapped(s, At(t.mem, t.roots[k], p, i).frame)
      ensures At(t.mem, t.roots[k], p, i).frame < s.cur && At(t.mem, t.roots[k], p, i).frame !in s.owner
    {
      assert SlotKept(s.mem, t.mem, s.roots[k], p);
      assert At(s.mem, s.roots[k], p, i) == At(t.mem, t.roots[k], p, i);
    }
  }

  // ---------------------------------------------------------------- linking an empty table under an absent entry

  ghost function Link(s: Vm, f: nat, i: Index, n: nat, fl: Flags): Vm
    requires f in s.owner && f < NFRAMES
  {
    s.(mem := Store(s.mem, f, i, Word(n, fl)),
       owner := s.owner[n := Pos(s.owner[f].root, s.owner[f].path + [i])])
  }

  // f is the table that the walk from one of the roots reaches.
  ghost predicate OnWalk(s: Vm, f: nat) {
    WalkState(s, f) == Intact
  }

  ghost function WalkState(s: Vm, f: nat): Sealed {
    if f in s.owner && s.owner[f].root in s.roots && TabAt(s, f) then Intact else Broken
  }

  ghost predicate TabAt(s: Vm, f: nat)
    requires f in s.owner
  {
    var t := Tab(s.mem, s.owner[f].root, s.owner[f].path);
    t.Some? && t.value.frame == f
  }

  lemma LinkStep(s: Vm, f: nat, i: Index, n: nat, fl: Flags)
    requires Wf(s) && OnWalk(s, f) && |s.owner[f].path| < 3
    requires !s.mem[f][i].flags.present && Blank(s, n)
    requires fl.present && !fl.user && !fl.huge
    ensures var t := Link(s, f, i, n, fl);
      Wf(t) && SameXlat(s, t) && SameLeaves(s, t)
  {
    var t := Link(s, f, i, n, fl);
    var root, q := s.owner[f].root, s.owner[f].path + [i];
    assert q[..|q| - 1] == s.owner[f].path;
    assert IsRoot(s, root);
    StoreTab(s, f, i, Word(n, fl), root, s.owner[f].path);
    assert Dead(s.mem, root, q) && Dead(t.mem, root, q);
    forall k, v: Path | 0 <= k < |s.roots| && |v| == 4
      ensures Translate(s.mem, s.roots[k], v) == Translate(t.mem, s.roots[k], v)
    {
      if s.roots[k] == root && q <= v {
        assert v[..|q|] == q;
        DeadFault(s.mem, root, v, |q|);
        DeadFault(t.mem, root, v, |q|);
      } else {
        StoreTranslate(s, f, i, Word(n, fl), s.roots[k], v);
      }
    }
    forall k, p | 0 <= k < |s.roots| && p in s.slots ensures SlotKept(s.mem, t.mem, s.roots[k], p) {
      assert SlotOk(s.mem, s.roots[k], p);
      if s.roots[k] == root { DeadSlot(s, root, q, p); }
      StoreSlot(s, f, i, Word(n, fl), s.roots[k], p);
    }
    LinkOwned(s, f, i, n, fl);
    LeavesData(s, t);
  }

  lemma LinkOwned(s: Vm, f: nat, i: Index, n: nat, fl: Flags)
    requires Owned(s) && RootsOk(s) && f in s.owner && |s.owner[f].path| < 3
    requires n < s.cur && n !in s.owner && s.mem[n] == ZeroPage()
    ensures Owned(Link(s, f, i, n, fl)) && RootsOk(Link(s, f, i, n, fl))
  {
  }

  // A slot is never under an absent entry of the same root.
  lemma DeadSlot(s: Vm, root: nat, q: Path, p: Path)
    requires SlotOk(s.mem, root, p) && Dead(s.mem, root, q)
    requires var up := Tab(s.mem, root, q[..|q| - 1]).value.frame; !s.mem[up][q[|q| - 1]].flags.present
    ensures !(q <= p)
  {
    var r := p[..2];
    assert |q| == 3 && q <= p ==> p == q;
    assert |q| < 3 && q <= p ==> q <= r;
    assert |q| == 2 && q <= r ==> r == q;
    assert |q| == 2 ==> Tab(s.mem, root, q).None?;
    if |q| == 1 && q <= r {
      assert r[..1] == q;
      DeadTab(s.mem, root, r, 1);
    }
  }

  // ---------------------------------------------------------------- splitting a huge page into a table of 512 entries

  function Shards(e: Word): Page {
    seq(512, (j: nat) => Word(Base(e.frame) + j, Or(e.flags.(huge := false), PRESENT_RW)))
  }

  ghost function Split(s: Vm, f: nat, i: Index, n: nat): Vm
    requires f in s.owner && f < NFRAMES && n < NFRAMES
  {
    var e := s.mem[f][i];
    s.(mem := Store(s.mem[n := Shards(e)], f, i, Word(n, Flags(true, e.flags.rw, e.flags.user, false, false, {}))),
       owner := s.owner[n := Pos(s.owner[f].root, s.owner[f].path + [i])])
  }

  // s with the table filled but not yet linked: no walk sees the difference.
  ghost function Filled(s: Vm, f: nat, i: Index, n: nat): Vm
    requires f < NFRAMES && n < NFRAMES
  {
    s.(mem := s.mem[n := Shards(s.mem[f][i])])
  }

  // The walk into the split page: the directory is where it was, the new table below it
  // carries the rights of the huge entry.
  lemma SplitTab(s: Vm, f: nat, i: Index, n: nat)
    requires Owned(s) && OnWalk(s, f) && |s.owner[f].path| == 2 && n < s.cur && n !in s.owner
    requires IsRoot(s, s.owner[f].root)
    ensures var root, up, t := s.owner[f].root, s.owner[f].path, Split(s, f, i, n).mem;
      var pd, e := Tab(s.mem, root, up).value, s.mem[f][i].flags;
      Tab(t, root, up) == Some(pd) && Tab(t, root, up + [i]) == Some(Node(n, pd.rw && e.rw, pd.user && e.user))
  {
    var root, up := s.owner[f].root, s.owner[f].path;
    var a, t := Filled(s, f, i, n), Split(s, f, i, n);
    assert t.mem == Store(a.mem, f, i, t.mem[f][i]);
    SameTab(s, a, root, up);
    StoreTab(a, f, i, t.mem[f][i], root, up);
    assert (up + [i])[..2] == up;
  }

  lemma FilledSame(s: Vm, f: nat, i: Index, n: nat)
    requires Owned(s) && f in s.owner && n < s.cur && n !in s.owner
    ensures var a := Filled(s, f, i, n);
      && Owned(a) && (forall r :: SameTables(s, a, r)) && a.mem[f] == s.mem[f]
      && Split(s, f, i, n).mem == Store(a.mem, f, i, Split(s, f, i, n).mem[f][i])
  {
  }

  lemma SplitXlat(s: Vm, f: nat, i: Index, n: nat, root: nat, v: Path)
    requires Owned(s) && OnWalk(s, f) && |s.owner[f].path| == 2 && n < s.cur && n !in s.owner
    requires IsRoot(s, root) && IsRoot(s, s.owner[f].root) && |v| == 4
    requires s.mem[f][i].flags.present && s.mem[f][i].flags.huge
    ensures Translate(s.mem, root, v) == Translate(Split(s, f, i, n).mem, root, v)
  {
    var up, e, t := s.owner[f].path, s.mem[f][i], Split(s, f, i, n);
    if s.owner[f].root == root && up + [i] <= v {
      assert v[..3] == up + [i] && v[..2] == up && (up + [i])[..2] == up;
      SplitTab(s, f, i, n);
      assert Tab(s.mem, root, v[..3]).None?;
      assert t.mem[n][v[3]] == Shards(e)[v[3]];
    } else {
      var a := Filled(s, f, i, n);
      FilledSame(s, f, i, n);
      SameTranslate(s, a, root, v);
      StoreTranslate(a, f, i, t.mem[f][i], root, v);
    }
  }

  lemma SplitSlot(s: Vm, f: nat, i: Index, n: nat, root: nat, p: Path)
    requires Owned(s) && OnWalk(s, f) && |s.owner[f].path| == 2 && n < s.cur && n !in s.owner
    requires IsRoot(s, root) && IsRoot(s, s.owner[f].root) && SlotOk(s.mem, root, p)
    requires s.mem[f][i].flags.present && s.mem[f][i].flags.huge
    ensures SlotKept(s.mem, Split(s, f, i, n).mem, root, p)
  {
    var up, e, t := s.owner[f].path, s.mem[f][i], Split(s, f, i, n);
    if s.owner[f].root == root && up + [i] <= p {
      assert p == up + [i] && p[..2] == up;
      SplitTab(s, f, i, n);
      assert Or(e.flags.(huge := false), PRESENT_RW) == e.flags.(huge := false);
    } else {
      var a := Filled(s, f, i, n);
      FilledSame(s, f, i, n);
      SameSlot(s, a, root, p);
      StoreSlot(a, f, i, t.mem[f][i], root, p);
    }
  }

  lemma SplitStep(s: Vm, f: nat, i: Index, n: nat)
    requires Wf(s) && OnWalk(s, f) && |s.owner[f].path| == 2
    requires s.mem[f][i].flags.present && s.mem[f][i].flags.huge && Blank(s, n)
    ensures var t := Split(s, f, i, n);
      Wf(t) && SameXlat(s, t) && SameLeaves(s, t)
  {
    var t := Split(s, f, i, n);
    forall k, v: Path | 0 <= k < |s.roots| && |v| == 4
      ensures Translate(s.mem, s.roots[k], v) == Translate(t.mem, s.roots[k], v)
    {
      SplitXlat(s, f, i, n, s.roots[k], v);
    }
    forall k, p | 0 <= k < |s.roots| && p in s.slots ensures SlotKept(s.mem, t.mem, s.roots[k], p) {
      assert SlotOk(s.mem, s.roots[k], p);
      SplitSlot(s, f, i, n, s.roots[k], p);
    }
    SplitOwned(s, f, i, n);
    LeavesData(s, t);
  }

  lemma SplitOwned(s: Vm, f: nat, i: Index, n: nat)
    requires Owned(s) && RootsOk(s) && f in s.owner && |s.owner[f].path| == 2
    requires n < s.cur && n !in s.owner
    ensures Owned(Split(s, f, i, n)) && RootsOk(Split(s, f, i, n))
  {
  }

  // ---------------------------------------------------------------- writing a leaf entry

  ghost function SetLeaf(s: Vm, f: nat, i: Index, w: Word): Vm
    requires f < NFRAMES
  {
    s.(mem := Store(s.mem, f, i, w))
  }

  // Only page i of the table at f moves, and it moves to w.
  ghost predicate OnlyLeaf(s: Vm, t: Vm, f: nat, i: Index, w: Word)
    requires f in s.owner && |s.owner[f].path| == 3
  {
    var root, p := s.owner[f].root, s.owner[f].path;
    && t.roots == s.roots
    && (forall k, v: Path :: 0 <= k < |s.roots| && |v| == 4 && !(s.roots[k] == root && v == p + [i]) ==>
          Translate(s.mem, s.roots[k], v) == Translate(t.mem, s.roots[k], v))
    && Tab(s.mem, root, p).Some?
    && Translate(t.mem, root, p + [i]) == HitOf(Tab(s.mem, root, p).value, w, w.frame)
  }

  // The same of the user pages, bit for bit.
  ghost predicate OnlyUserLeaf(s: Vm, t: Vm, root: nat, slot: Path, i: Index, w: Word) {
    && t.roots == s.roots && t.slots == s.slots
    && forall k, p, j: Index {:trigger At(t.mem, s.roots[k], p, j)} :: 0 <= k < |s.roots| && p in s.slots ==>
         At(t.mem, s.roots[k], p, j) ==
         if s.roots[k] == root && p == slot && j == i then w else At(s.mem, s.roots[k], p, j)
  }

  lemma LeafExtends(s: Vm, f: nat, i: Index, w: Word)
    requires Owned(s) && f in s.owner
    ensures Extends(s, SetLeaf(s, f, i, w), {s.owner[f].root})
  {
  }

  lemma LeafStep(s: Vm, f: nat, i: Index, w: Word)
    requires Wf(s) && OnWalk(s, f) && |s.owner[f].path| == 3
    requires s.owner[f].path in s.slots && w.flags.present ==> w.frame < s.cur && w.frame !in s.owner
    ensures var t := SetLeaf(s, f, i, w);
      Wf(t) && OnlyLeaf(s, t, f, i, w) && OnlyUserLeaf(s, t, s.owner[f].root, s.owner[f].path, i, w)
  {
    var t := SetLeaf(s, f, i, w);
    var root, q := s.owner[f].root, s.owner[f].path;
    assert IsRoot(s, root);
    forall k, v: Path | 0 <= k < |s.roots| && |v| == 4 && !(s.roots[k] == root && v == q + [i])
      ensures Translate(s.mem, s.roots[k], v) == Translate(t.mem, s.roots[k], v)
    {
      StoreTranslate(s, f, i, w, s.roots[k], v);
    }
    StoreTab(s, f, i, w, root, q);
    assert (q + [i])[..3] == q;
    forall k, p | 0 <= k < |s.roots| && p in s.slots
      ensures SlotOk(t.mem, s.roots[k], p)
      ensures forall j: Index ::
                At(t.mem, s.roots[k], p, j) ==
                if s.roots[k] == root && p == q && j == i then w else At(s.mem, s.roots[k], p, j)
    {
      assert SlotOk(s.mem, s.roots[k], p);
      StoreSlot(s, f, i, w, s.roots[k], p);
    }
  }

  // ---------------------------------------------------------------- whole moves of the walk

  lemma SameTrans(s: Vm, t: Vm, u: Vm)
    requires SameXlat(s, t) && SameXlat(t, u) && SameLeaves(s, t) && SameLeaves(t, u)
    ensures SameXlat(s, u) && SameLeaves(s, u)
  {
    forall k, v: Path | 0 <= k < |s.roots| && |v| == 4
      ensures Translate(s.mem, s.roots[k], v) == Translate(u.mem, s.roots[k], v)
    {
      assert Translate(s.mem, s.roots[k], v) == Translate(t.mem, t.roots[k], v);
    }
    forall k, p | 0 <= k < |s.roots| && p in s.slots ensures SlotKept(s.mem, u.mem, s.roots[k], p) {
      assert SlotKept(s.mem, t.mem, s.roots[k], p) && SlotKept(t.mem, u.mem, t.roots[k], p);
    }
  }

  // A step that makes a walk succeed and is otherwise invisible.
  ghost predicate Quiet(s: Vm, t: Vm, root: nat) {
    Wf(t) && Extends(s, t, {root}) && SameXlat(s, t) && SameLeaves(s, t)
  }

  lemma QuietTrans(s: Vm, t: Vm, u: Vm, root: nat)
    requires Wf(s) && Quiet(s, t, root) && Quiet(t, u, root)
    ensures Quiet(s, u, root)
  {
    ExtendsTrans(s, t, u, {root});
    SameTrans(s, t, u);
  }

  // Adding one table and writing one entry above it is an extension by that root alone.
  lemma OneTable(s: Vm, t: Vm, f: nat, p: Pos)
    requires Owned(s) && f in s.owner && s.cur < POOL_END && t.cur == s.cur + 1
    requires t.roots == s.roots && t.slots == s.slots && t.owner == s.owner[s.cur := p] && p.root == s.owner[f].root
    requires forall g :: 0 <= g < s.cur && g != f ==> t.mem[g] == s.mem[g]
    ensures Extends(s, t, {s.owner[f].root})
  {
  }

  lemma AllocLink(s: Vm, f: nat, i: Index)
    requires Wf(s) && s.cur < POOL_END && OnWalk(s, f) && |s.owner[f].path| < 3 && !s.mem[f][i].flags.present
    ensures var t := Link(Alloc(s), f, i, s.cur, PRESENT_RW);
      Quiet(s, t, s.owner[f].root) && OnWalk(t, s.cur) && t.owner[s.cur] == Pos(s.owner[f].root, s.owner[f].path + [i])
  {
    var root, path, n := s.owner[f].root, s.owner[f].path, s.cur;
    var a := Alloc(s);
    AllocStep(s);
    assert IsRoot(s, root) && a.mem[f] == s.mem[f];
    SameTab(s, a, root, path);
    LinkStep(a, f, i, n, PRESENT_RW);
    SameTrans(s, a, Link(a, f, i, n, PRESENT_RW));
    OneTable(s, Link(a, f, i, n, PRESENT_RW), f, Pos(root, path + [i]));
    LinkWalk(a, f, i, n);
  }

  lemma LinkWalk(a: Vm, f: nat, i: Index, n: nat)
    requires Owned(a) && RootsOk(a) && OnWalk(a, f) && |a.owner[f].path| < 3 && n < a.cur && n !in a.owner
    ensures OnWalk(Link(a, f, i, n, PRESENT_RW), n)
  {
    var root, path := a.owner[f].root, a.owner[f].path;
    assert IsRoot(a, root);
    StoreTab(a, f, i, Word(n, PRESENT_RW), root, path);
    assert (path + [i])[..|path|] == path;
  }

  lemma AllocSplit(s: Vm, f: nat, i: Index)
    requires Wf(s) && s.cur < POOL_END && OnWalk(s, f) && |s.owner[f].path| == 2
    requires s.mem[f][i].flags.present && s.mem[f][i].flags.huge
    ensures var t := Split(Alloc(s), f, i, s.cur);
      Quiet(s, t, s.owner[f].root) && OnWalk(t, s.cur) && t.owner[s.cur] == Pos(s.owner[f].root, s.owner[f].path + [i])
  {
    var root, path, n := s.owner[f].root, s.owner[f].path, s.cur;
    var a := Alloc(s);
    AllocStep(s);
    assert IsRoot(s, root) && a.mem[f] == s.mem[f];
    SameTab(s, a, root, path);
    SplitStep(a, f, i, n);
    SplitTab(a, f, i, n);
    SameTrans(s, a, Split(a, f, i, n));
    OneTable(s, Split(a, f, i, n), f, Pos(root, path + [i]));
  }
}
