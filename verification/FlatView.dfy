/**
 * The flat view of the page tables: a finite map from user pages to leaf words, and how
 * the writes of PagingSteps show in it.
 */
module FlatView {
  import opened Prelude
  import opened PageTables
  import opened PagingSteps
  import opened CowModel

  ghost function Keys(n: nat, slots: set<Path>): (r: set<Key>)
    ensures forall k :: k in r <==> k.id < n && k.slot in slots
  {
    set id, p, i: nat | 0 <= id < n && p in slots && 0 <= i < 512 :: Key(id, p, i)
  }

  ghost function View(s: Vm): Ptes {
    map k | k in Keys(|s.roots|, s.slots) :: At(s.mem, s.roots[k.id], k.slot, k.i)
  }

  lemma ViewSame(s: Vm, t: Vm)
    requires SameLeaves(s, t)
    ensures View(t) == View(s)
  {
    forall k | k in View(s) ensures View(t)[k] == View(s)[k] {
      assert SlotKept(s.mem, t.mem, s.roots[k.id], k.slot);
    }
  }

  lemma ViewLeaf(s: Vm, t: Vm, id: nat, slot: Path, i: Index, w: Word)
    requires RootsOk(s) && id < |s.roots| && slot in s.slots
    requires OnlyUserLeaf(s, t, s.roots[id], slot, i, w)
    ensures Key(id, slot, i) in View(s) && View(t) == View(s)[Key(id, slot, i) := w]
  {
    var now := View(s)[Key(id, slot, i) := w];
    assert View(t).Keys == now.Keys;
    forall k | k in View(t) ensures View(t)[k] == now[k] {
      assert s.roots[k.id] == s.roots[id] ==> k.id == id;
      assert View(t)[k] == At(t.mem, s.roots[k.id], k.slot, k.i);
    }
  }

  // Frames of pages are data frames.
  lemma ViewData(s: Vm, k: Key)
    requires Wf(s) && k in View(s) && View(s)[k].flags.present
    ensures View(s)[k].frame < s.cur && View(s)[k].frame !in s.owner
  {
    assert View(s)[k] == At(s.mem, s.roots[k.id], k.slot, k.i);
  }

  lemma ViewFresh(s: Vm, f: nat)
    requires Wf(s) && f >= s.cur
    ensures Sharers(View(s), f) == {}
  {
    forall k | k in View(s) ensures !Maps(View(s), f, k) {
      if View(s)[k].flags.present { ViewData(s, k); }
    }
  }

  // ---------------------------------------------------------------- an empty user table for a slot

  const USER_TABLE := Flags(true, true, true, false, false, {})

  ghost function DropSlot(pte: Ptes, id: nat, slot: Path): Ptes {
    map k | k in pte :: if k.id == id && k.slot == slot then ZERO else pte[k]
  }

  lemma RenewSlots(s: Vm, f: nat, i: Index, n: nat, k: nat, p: Path)
    requires Wf(s) && OnWalk(s, f) && |s.owner[f].path| == 2 && Blank(s, n) && s.owner[f].path + [i] in s.slots
    requires k < |s.roots| && p in s.slots
    ensures var t, q := Link(s, f, i, n, USER_TABLE), s.owner[f].path + [i];
      && SlotOk(s.mem, s.roots[k], p) && SlotOk(t.mem, s.roots[k], p)
      && forall j: Index :: At(t.mem, s.roots[k], p, j) ==
           (if s.roots[k] == s.owner[f].root && p == q then ZERO else At(s.mem, s.roots[k], p, j))
  {
    var root, q := s.owner[f].root, s.owner[f].path + [i];
    var w := Word(n, USER_TABLE);
    assert IsRoot(s, root) && IsRoot(s, s.roots[k]) && SlotOk(s.mem, s.roots[k], p);
    if s.roots[k] == root && q <= p {
      assert p == q && p[..2] == s.owner[f].path;
      StoreTab(s, f, i, w, root, p[..2]);
    } else {
      StoreSlot(s, f, i, w, s.roots[k], p);
      assert s.owner[f] != Pos(s.roots[k], p);
    }
  }

  lemma RenewStep(s: Vm, f: nat, i: Index, n: nat, id: nat)
    requires Wf(s) && OnWalk(s, f) && |s.owner[f].path| == 2 && Blank(s, n) && s.owner[f].path + [i] in s.slots
    requires id < |s.roots| && s.roots[id] == s.owner[f].root
    ensures var t := Link(s, f, i, n, USER_TABLE);
      && Wf(t) && View(t) == DropSlot(View(s), id, s.owner[f].path + [i])
      && OnWalk(t, n) && t.owner[n] == Pos(s.owner[f].root, s.owner[f].path + [i])
  {
    var t, q := Link(s, f, i, n, USER_TABLE), s.owner[f].path + [i];
    LinkOwned(s, f, i, n, USER_TABLE);
    forall k, p | 0 <= k < |s.roots| && p in s.slots
      ensures SlotOk(t.mem, s.roots[k], p)
      ensures forall j: Index ::
                At(t.mem, s.roots[k], p, j) ==
                (if s.roots[k] == s.owner[f].root && p == q then ZERO else At(s.mem, s.roots[k], p, j))
    {
      RenewSlots(s, f, i, n, k, p);
    }
    assert SlotsOk(t);
    RenewData(s, t, n, s.owner[f].root, q);
    RenewView(s, t, id, q);
    RenewWalk(s, f, i, n);
  }

  lemma RenewWalk(s: Vm, f: nat, i: Index, n: nat)
    requires Owned(s) && RootsOk(s) && OnWalk(s, f) && |s.owner[f].path| == 2 && n < s.cur && n !in s.owner
    ensures OnWalk(Link(s, f, i, n, USER_TABLE), n)
  {
    var root, q := s.owner[f].root, s.owner[f].path + [i];
    assert IsRoot(s, root) && q[..2] == s.owner[f].path;
    StoreTab(s, f, i, Word(n, USER_TABLE), root, q[..2]);
  }

  lemma RenewData(s: Vm, t: Vm, n: nat, root: nat, q: Path)
    requires Wf(s) && t.roots == s.roots && t.slots == s.slots && t.cur == s.cur
    requires Blank(s, n) && t.owner.Keys == s.owner.Keys + {n}
    requires forall k, p, j: Index {:trigger At(t.mem, s.roots[k], p, j)} :: 0 <= k < |s.roots| && p in s.slots ==>
      At(t.mem, s.roots[k], p, j) == (if s.roots[k] == root && p == q then ZERO else At(s.mem, s.roots[k], p, j))
    ensures DataOk(t)
  {
    forall k, p, j: Index | 0 <= k < |t.roots| && p in t.slots && At(t.mem, t.roots[k], p, j).flags.present
      ensures At(t.mem, t.roots[k], p, j).frame < t.cur && At(t.mem, t.roots[k], p, j).frame !in t.owner
    {
      assert At(t.mem, s.roots[k], p, j) == At(s.mem, s.roots[k], p, j);
    }
  }

  lemma RenewView(s: Vm, t: Vm, id: nat, q: Path)
    requires RootsOk(s) && t.roots == s.roots && t.slots == s.slots && id < |s.roots|
    requires forall k, p, j: Index {:trigger At(t.mem, s.roots[k], p, j)} :: 0 <= k < |s.roots| && p in s.slots ==>
      At(t.mem, s.roots[k], p, j) == (if s.roots[k] == s.roots[id] && p == q then ZERO else At(s.mem, s.roots[k], p, j))
    ensures View(t) == DropSlot(View(s), id, q)
  {
    var now := DropSlot(View(s), id, q);
    assert View(t).Keys == now.Keys;
    forall k | k in View(t) ensures View(t)[k] == now[k] {
      assert s.roots[k.id] == s.roots[id] ==> k.id == id;
      assert View(t)[k] == At(t.mem, s.roots[k.id], k.slot, k.i);
    }
  }

  // Entry c of directory pd now leads to an empty table in the page just handed out.
  ghost predicate Renewed(s: Vm, t: Vm, pd: nat, c: Index, id: nat) {
    && pd in s.owner && |s.owner[pd].path| == 2
    && Extends(s, t, {s.owner[pd].root}) && OnWalk(t, s.cur) && t.cur == s.cur + 1
    && t.owner == s.owner[s.cur := Pos(s.owner[pd].root, s.owner[pd].path + [c])]
    && View(t) == DropSlot(View(s), id, s.owner[pd].path + [c])
    && (forall f :: 0 <= f < s.cur && f != pd ==> t.mem[f] == s.mem[f])
  }

  lemma AllocRenew(s: Vm, f: nat, i: Index, id: nat)
    requires Wf(s) && s.cur < POOL_END && OnWalk(s, f) && |s.owner[f].path| == 2 && s.owner[f].path + [i] in s.slots
    requires id < |s.roots| && s.roots[id] == s.owner[f].root
    ensures var t := Link(Alloc(s), f, i, s.cur, USER_TABLE);
      Wf(t) && Renewed(s, t, f, i, id) && t.mem[s.cur] == ZeroPage()
  {
    var a, root := Alloc(s), s.owner[f].root;
    AllocStep(s);
    assert IsRoot(s, root);
    SameTab(s, a, root, s.owner[f].path);
    RenewStep(a, f, i, s.cur, id);
    ViewSame(s, a);
    OneTable(s, Link(a, f, i, s.cur, USER_TABLE), f, Pos(root, s.owner[f].path + [i]));
  }
}
