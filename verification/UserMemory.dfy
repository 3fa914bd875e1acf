/**
 * The paging code seen through the flat view: forking a space (kernel/scheduler.c), serving
 * write faults, mapping and unmapping pages, demand paging. Each call is one step of the
 * copy-on-write machine, and keeps the sharing discipline whether or not it succeeds.
 */
module UserMemory {
  import opened Prelude
  import opened PageTables
  import opened PagingSteps
  import opened Paging
  import opened AddressSpaces
  import opened CowModel
  import opened FlatView
  import opened CowFork
  import opened CowRefinement

  ghost function Data(s: Vm): map<nat, Page> {
    map f | 0 <= f < s.cur && f < NFRAMES && f !in s.owner :: s.mem[f]
  }

  ghost function FlatOf(s: Vm, refc: seq<nat>): Flat {
    Flat(|s.roots|, s.slots, View(s), Data(s), refc)
  }

  lemma SaneFlat(s: Vm, refc: seq<nat>)
    requires Wf(s) && |refc| == POOL_END - POOL_START
    ensures Sane(FlatOf(s, refc))
  {
    forall k | k in View(s) && View(s)[k].flags.present ensures View(s)[k].frame in Data(s) {
      ViewData(s, k);
    }
  }

  lemma GrownData(s: Vm, t: Vm, writers: set<nat>)
    requires Owned(s) && OwnerGrown(s, t) && DataKept(s, t)
    ensures forall f :: f in Data(s) ==> f in Data(t) && Data(t)[f] == Data(s)[f]
  {
  }

  // The state between system calls.
  ghost predicate Steady(m: Memory)
    reads m
  {
    SteadyState(m.State(), m.refc) == Intact
  }

  ghost function SteadyState(s: Vm, refc: seq<nat>): Sealed {
    if Wf(s) && BootHuge(s) && CowInv(View(s), refc) then Intact else Broken
  }

  ghost function Now(m: Memory): Flat
    reads m
  {
    FlatOf(m.State(), m.refc)
  }

  // ---------------------------------------------------------------- fork

  // Boot pages lie below the pool.
  lemma BootBelowPool(s: Vm, p: Path, i: Index)
    requires Wf(s) && BootHuge(s) && p in s.slots
    ensures At(s.mem, BOOT, p, i).frame < POOL_START
  {
    assert SlotOk(s.mem, s.roots[0], p) && IsRoot(s, BOOT);
    TabOwned(s, BOOT, p[..2]);
  }

  lemma BootKept(s: Vm, t: Vm, writers: set<nat>)
    requires Wf(s) && BootHuge(s) && Extends(s, t, writers) && BOOT !in writers
    ensures BootHuge(t)
  {
    assert SameTables(s, t, BOOT) && IsRoot(s, BOOT);
  }

  // A new space as the flat view shows it: the pages of the boot tables under a new number.
  lemma CreatedView(s: Vm, t: Vm, n: nat)
    requires Wf(s) && Wf(t) && t.roots == s.roots + [n] && t.slots == s.slots
    requires SameLeaves(s, t.(roots := s.roots)) && Mirrors(t.mem, n, t.slots) && BootHuge(t)
    ensures forall k :: k in View(s) ==> k in View(t) && View(t)[k] == View(s)[k]
    ensures forall k :: k in View(t) && k !in View(s) ==> k.id == |s.roots| && Key(0, k.slot, k.i) in View(s)
    ensures forall k :: k in View(t) && k !in View(s) ==> View(t)[k] == View(s)[Key(0, k.slot, k.i)]
    ensures forall k :: k in View(t) && k !in View(s) ==> !InPool(View(t)[k].frame)
  {
    ViewSame(s, t.(roots := s.roots));
    var v := View(t.(roots := s.roots));
    forall k | k in View(s) ensures k in View(t) && View(t)[k] == View(s)[k] {
      assert k in v && v[k] == View(t)[k];
    }
    assert t.roots[0] == BOOT;
    forall k | k in View(t) && k !in View(s)
      ensures k.id == |s.roots| && Key(0, k.slot, k.i) in View(s) && View(t)[k] == View(s)[Key(0, k.slot, k.i)]
      ensures !InPool(View(t)[k].frame)
    {
      assert View(t)[k] == At(t.mem, n, k.slot, k.i) == At(t.mem, BOOT, k.slot, k.i);
      assert View(t)[Key(0, k.slot, k.i)] == At(t.mem, BOOT, k.slot, k.i);
      BootBelowPool(t, k.slot, k.i);
    }
  }

  // Between system calls the flat state keeps the machine's discipline.
  lemma SteadyGood(s: Vm, refc: seq<nat>)
    requires Wf(s) && BootHuge(s) && CowInv(View(s), refc)
    ensures CowGood(FlatOf(s, refc))
  {
    assert |refc| == POOL_END - POOL_START;
    SaneFlat(s, refc);
    assert s.roots[0] == BOOT;
    forall k | k in View(s) && k.id == 0 ensures View(s)[k].frame < POOL_START {
      BootBelowPool(s, k.slot, k.i);
    }
  }

  // A call that ran out of pages: no user page changed.
  lemma NoPagesFlat(s: Vm, t: Vm, refc: seq<nat>, writers: set<nat>)
    requires Wf(s) && SameLeaves(s, t) && Extends(s, t, writers) && |refc| == POOL_END - POOL_START
    ensures Moves(FlatOf(s, refc), FlatOf(t, refc), CowRefinement.Op.NoPages)
    ensures View(t) == View(s)
  {
    SaneFlat(s, refc);
    ViewSame(s, t);
    GrownData(s, t, writers);
  }

  // Pages outside the pool may appear at will.
  lemma NewOutside(pte: Ptes, now: Ptes, refc: seq<nat>)
    requires CowInv(pte, refc)
    requires forall k :: k in pte ==> k in now && now[k] == pte[k]
    requires forall k :: k in now && k !in pte ==> !InPool(now[k].frame)
    ensures CowInv(now, refc)
  {
    assert forall f, k :: InPool(f) && Maps(now, f, k) ==> Maps(pte, f, k) && now[k] == pte[k];
    forall f | InPool(f) ensures CowSharers(now, f) == CowSharers(pte, f) {
    }
  }

  // paging_create as the flat machine sees it (kernel/kernel.c, exec): a new space with the
  // pages of the boot tables.
  method MakeSpace(m: Memory) returns (n: nat)
    requires Steady(m)
    modifies m`mem, m`cur, m`owner, m`roots
    ensures Steady(m) && m.slots == old(m.slots)
    ensures n == 0 ==> m.roots == old(m.roots) && Moves(old(Now(m)), Now(m), CowRefinement.Op.NoPages)
    ensures n != 0 ==> m.roots == old(m.roots) + [n] && Moves(old(Now(m)), Now(m), CowRefinement.Op.NewSpace)
    ensures TookAll(old(m.cur), m.cur, BootCost(old(m.mem)), n != 0)
  {
    ghost var s := m.State();
    SteadyGood(s, m.refc);
    n := Create(m);
    if n == 0 {
      assert m.State().(roots := s.roots) == m.State();
      NoPagesFlat(s, m.State(), m.refc, {});
    } else {
      CreatedView(s, m.State(), n);
      NewOutside(View(s), View(m.State()), m.refc);
      CreatedFlat(s, m.State(), m.refc, n);
    }
  }

  lemma CreatedFlat(s: Vm, t: Vm, refc: seq<nat>, n: nat)
    requires Wf(s) && Wf(t) && t.roots == s.roots + [n] && t.slots == s.slots && Extends(s, t.(roots := s.roots), {})
    requires |refc| == POOL_END - POOL_START
    requires forall k :: k in View(s) ==> k in View(t) && View(t)[k] == View(s)[k]
    requires forall k :: k in View(t) && k !in View(s) ==>
      k.id == |s.roots| && Key(0, k.slot, k.i) in View(s) && View(t)[k] == View(s)[Key(0, k.slot, k.i)]
    ensures Moves(FlatOf(s, refc), FlatOf(t, refc), CowRefinement.Op.NewSpace)
  {
    SpawnedFlat(s, t.(roots := s.roots), t, {}, refc, refc, 0, {}, {});
    RiseNothing(View(s), 0, refc);
    MakeForked(FlatOf(s, refc), FlatOf(t, refc), 0, {}, {});
  }

  // One more space, and the data grown; t is a state on the way.
  lemma SpawnedFlat(s: Vm, t: Vm, u: Vm, writers: set<nat>, r: seq<nat>, refc: seq<nat>, sid: nat,
                    done: set<Path>, dropped: set<Path>)
    requires Wf(s) && Wf(u) && sid < |s.roots| && |u.roots| == |s.roots| + 1 && u.slots == s.slots
    requires |r| == POOL_END - POOL_START && |refc| == POOL_END - POOL_START
    requires Extends(s, t, {}) && Owned(t) && (u == t.(roots := u.roots) || Extends(t.(roots := u.roots), u, writers))
    requires done <= s.slots && dropped <= s.slots && done !! dropped && (done != {} ==> sid > 0)
    ensures Sane(FlatOf(s, r)) && Spawned(FlatOf(s, r), FlatOf(u, refc), sid, done, dropped)
  {
    SaneFlat(s, r);
    SaneFlat(u, refc);
    GrownData(s, t, {});
    if u != t.(roots := u.roots) { GrownData(t.(roots := u.roots), u, writers); }
    assert Data(t.(roots := u.roots)) == Data(t);
  }

  // The memory part of sys_fork: paging_create, then paging_cow_clone_user. It is a fork
  // step of the machine, complete when it succeeds; when the pages run out it is the part
  // that was done, or nothing.
  method Fork(m: Memory, ghost sid: nat, src: nat) returns (child: nat, ghost op: Op)
    requires Steady(m) && 0 < sid < |m.roots| && m.roots[sid] == src
    modifies m`mem, m`cur, m`owner, m`roots, m`refc
    ensures Steady(m) && Moves(old(Now(m)), Now(m), op)
    ensures forall k :: 0 <= k < |old(m.roots)| && k != sid ==>
      k < |m.roots| && m.roots[k] == old(m.roots)[k] && SameTables(old(m.State()), m.State(), m.roots[k])
    ensures child != 0 ==> op == CowRefinement.Op.Fork(sid, old(m.slots), {}) && m.roots == old(m.roots) + [child]
    ensures child == 0 ==> op == CowRefinement.Op.NoPages || (op.Fork? && op.src == sid)
    ensures child == 0 ==> m.cur == POOL_END
    ensures old(m.cur) + BootCost(old(m.mem)) + 2 * |old(m.slots)| <= POOL_END ==> child != 0
  {
    ghost var s, r := m.State(), m.refc;
    SteadyGood(s, r);
    child := Create(m);
    if child == 0 {
      assert m.State().(roots := s.roots) == m.State();
      KeptTables(s, m.State(), {});
      NoPagesFlat(s, m.State(), m.refc, {});
      return 0, CowRefinement.Op.NoPages;
    }
    ghost var t := m.State();
    CreatedView(s, t, child);
    NewOutside(View(s), View(t), m.refc);
    var ok, done, dropped := CloneUser(m, sid, |s.roots|, src, child);
    ForkKept(s, t, m.State(), sid, src, child);
    ForkedFlat(s, t, m.State(), r, m.refc, sid, child, done, dropped);
    op := CowRefinement.Op.Fork(sid, done, dropped);
    if !ok {
      child := 0;
    }
  }

  lemma KeptTables(s: Vm, t: Vm, writers: set<nat>)
    requires Extends(s, t, writers)
    ensures forall r :: r !in writers ==> SameTables(s, t, r)
  {
  }

  lemma ForkKept(s: Vm, t: Vm, u: Vm, sid: nat, src: nat, child: nat)
    requires Wf(s) && Wf(t) && BootHuge(t) && t.roots == s.roots + [child] && 0 < sid < |s.roots| && s.roots[sid] == src
    requires Extends(s, t.(roots := s.roots), {}) && Cloning(t, u, src, child)
    ensures Wf(u) && BootHuge(u) && u.roots == t.roots && u.slots == t.slots
    ensures forall k :: 0 <= k < |s.roots| && k != sid ==> u.roots[k] == s.roots[k] && SameTables(s, u, s.roots[k])
  {
    CloningFacts(t, u, src, child);
    assert t.roots[sid] == src && t.roots[0] == BOOT && t.roots[|s.roots|] == child;
    BootKept(t, u, {src, child});
    KeptTables(s, t.(roots := s.roots), {});
    KeptTables(t, u, {src, child});
    forall k | 0 <= k < |s.roots| && k != sid ensures u.roots[k] == s.roots[k] && SameTables(s, u, s.roots[k]) {
      assert t.roots[k] == s.roots[k] && s.roots[k] != src && s.roots[k] != child;
      assert SameTables(s, t.(roots := s.roots), s.roots[k]);
      assert SameTables(s, t, s.roots[k]) && SameTables(t, u, s.roots[k]);
    }
  }

  lemma ForkedFlat(s: Vm, t: Vm, u: Vm, r: seq<nat>, refc: seq<nat>, sid: nat, child: nat,
                   done: set<Path>, dropped: set<Path>)
    requires Wf(s) && Wf(t) && Wf(u) && t.roots == s.roots + [child] && t.slots == s.slots && 0 < sid < |s.roots|
    requires Extends(s, t.(roots := s.roots), {}) && Cloning(t, u, t.roots[sid], child)
    requires done <= t.slots && dropped <= t.slots && done !! dropped
    requires forall k :: k in View(s) ==> k in View(t) && View(t)[k] == View(s)[k]
    requires forall k :: k in View(t) && k !in View(s) ==>
      k.id == |s.roots| && Key(0, k.slot, k.i) in View(s) && View(t)[k] == View(s)[Key(0, k.slot, k.i)]
    requires View(u) == DropSlots(CowClone(View(t), sid, |s.roots|, done), |s.roots|, dropped)
    requires CountsRise(View(t), r, refc, SlotKeys(View(t), sid, done))
    ensures Moves(FlatOf(s, r), FlatOf(u, refc), CowRefinement.Op.Fork(sid, done, dropped))
  {
    CloningFacts(t, u, t.roots[sid], child);
    assert t.(roots := s.roots).(roots := u.roots) == t;
    SpawnedFlat(s, t.(roots := s.roots), u, {t.roots[sid], child}, r, refc, sid, done, dropped);
    RiseSame(View(s), View(t), r, refc, sid, done);
    ForkedWords(View(s), View(t), View(u), |s.roots|, s.slots, sid, done, dropped);
    MakeForked(FlatOf(s, r), FlatOf(u, refc), sid, done, dropped);
  }

  lemma RiseSame(pte: Ptes, now: Ptes, r: seq<nat>, refc: seq<nat>, sid: nat, done: set<Path>)
    requires CountsRise(now, r, refc, SlotKeys(now, sid, done))
    requires forall k :: k in pte ==> k in now && now[k] == pte[k]
    requires forall k :: k in now && k.id == sid ==> k in pte
    ensures CountsRise(pte, r, refc, SlotKeys(pte, sid, done))
  {
    var d := SlotKeys(pte, sid, done);
    assert SlotKeys(now, sid, done) == d;
    forall f | InPool(f) ensures RefGet(refc, f) == RefGet(r, f) + 2 * |PagesIn(pte, d, f)| {
      assert PagesIn(now, d, f) == PagesIn(pte, d, f);
    }
  }

  // Reading off the views: a is the one before, b after the creation, c after the clone.
  lemma ForkedWords(a: Ptes, b: Ptes, c: Ptes, n: nat, slots: set<Path>, sid: nat, done: set<Path>, dropped: set<Path>)
    requires 0 < sid < n && c == DropSlots(CowClone(b, sid, n, done), n, dropped) && done !! dropped
    requires forall k :: k in a <==> k.id < n && k.slot in slots
    requires forall k :: k in a ==> k in b && b[k] == a[k]
    requires forall k :: k in b && k !in a ==>
      k.id == n && Key(0, k.slot, k.i) in a && b[k] == a[Key(0, k.slot, k.i)]
    ensures forall k :: k in a ==> k in c && c[k] == if k.id == sid && k.slot in done then CowSrc(a[k]) else a[k]
    ensures forall k :: k in c && k.id == n ==> Key(sid, k.slot, k.i) in a && Key(0, k.slot, k.i) in a
    ensures forall k :: k in c && k.id == n ==>
      c[k] == if k.slot in done then CowDst(a[Key(sid, k.slot, k.i)])
              else if k.slot in dropped then ZERO else a[Key(0, k.slot, k.i)]
  {
    forall k | k in c && k.id == n ensures Key(sid, k.slot, k.i) in a && Key(0, k.slot, k.i) in a {
      assert k in b && k !in a;
    }
  }

  // ---------------------------------------------------------------- steps on one page

  // The user page of space id at virtual page vpn.
  ghost function KeyOf(id: nat, vpn: nat): Key {
    Key(id, PathOf(vpn)[..3], PathOf(vpn)[3])
  }

  // A leaf change of page (id, slot, i), as the flat view shows it.
  lemma LeafFlat(s: Vm, t: Vm, k: Key, w: Word)
    requires Wf(s) && k.id < |s.roots| && k.slot in s.slots && Extends(s, t, {s.roots[k.id]})
    requires OnlyUserLeaf(s, t, s.roots[k.id], k.slot, k.i, w)
    ensures k in View(s) && View(t) == View(s)[k := w]
    ensures forall f :: f in Data(s) ==> f in Data(t) && Data(t)[f] == Data(s)[f]
    ensures |t.roots| == |s.roots| && t.slots == s.slots
  {
    ViewLeaf(s, t, k.id, k.slot, k.i, w);
    GrownData(s, t, {s.roots[k.id]});
  }

  // paging_handle_cow_fault on a user page is the machine's serving of a fault.
  method ServeFault(m: Memory, ghost id: nat, root: nat, vpn: nat) returns (ok: bool)
    requires Steady(m) && 0 < id < |m.roots| && m.roots[id] == root && PathOf(vpn)[..3] in m.slots
    modifies m`mem, m`cur, m`owner, m`refc
    ensures Steady(m) && m.roots == old(m.roots) && m.slots == old(m.slots)
    ensures ok <==> Faulting(old(m.State()), root, PathOf(vpn))
                    && (RefGet(old(m.refc), Entry(old(m.State()), root, PathOf(vpn)).frame) > 1 ==>
                          old(m.cur) < POOL_END)
    ensures !ok ==> Now(m) == old(Now(m))
    ensures ok ==> Moves(old(Now(m)), Now(m), CowRefinement.Op.CowFault(KeyOf(id, vpn)))
  {
    ghost var s, r := m.State(), m.refc;
    ok := m.HandleCowFault(root, vpn);
    if ok {
      ghost var v := PathOf(vpn);
      ghost var pt := Tab(s.mem, root, v[..3]).value.frame;
      assert v == v[..3] + [vpn % 512];
      EntryWalk(s, id, v, pt);
      CowServedStep(s, r, pt, v[3]);
      BootKept(s, m.State(), {root});
      ServedFlat(s, m.State(), r, pt, KeyOf(id, vpn), s.mem[pt][v[3]]);
      MoveFault(FlatOf(s, r), FlatOf(m.State(), m.refc), KeyOf(id, vpn));
    }
  }

  lemma EntryWalk(s: Vm, id: nat, v: Path, pt: nat)
    requires Wf(s) && id < |s.roots| && |v| == 4 && HasEntry(s, s.roots[id], v)
    requires pt == Tab(s.mem, s.roots[id], v[..3]).value.frame
    ensures OnWalk(s, pt) && s.owner[pt] == Pos(s.roots[id], v[..3]) && Entry(s, s.roots[id], v) == s.mem[pt][v[3]]
  {
    assert IsRoot(s, s.roots[id]);
    TabOwned(s, s.roots[id], v[..3]);
  }

  lemma ServedFlat(s: Vm, t: Vm, refc: seq<nat>, pt: nat, k: Key, w: Word)
    requires Wf(s) && k.id < |s.roots| && k.slot in s.slots && |k.slot| == 3 && CowInv(View(s), refc)
    requires OnWalk(s, pt) && s.owner[pt] == Pos(s.roots[k.id], k.slot) && s.mem[pt][k.i] == w
    requires w.flags.present && w.flags.cow && (RefGet(refc, w.frame) > 1 ==> s.cur < POOL_END)
    requires t == CowServed(s, refc, pt, k.i) && Extends(s, t, {s.roots[k.id]})
    requires OnlyUserLeaf(s, t, s.roots[k.id], k.slot, k.i, t.mem[pt][k.i])
    ensures Sane(FlatOf(s, refc)) && k in View(s) && View(s)[k] == w && w.frame in Data(s)
    ensures CowInv(View(t), RefDec(refc, w.frame)) && Served(FlatOf(s, refc), FlatOf(t, RefDec(refc, w.frame)), k)
  {
    ServedBefore(s, refc, pt, k, w);
    LeafFlat(s, t, k, t.mem[pt][k.i]);
    if RefGet(refc, w.frame) > 1 {
      CopiedFrame(s, pt, k.i, w);
      ServedCopy(s, t, refc, k, w);
    } else {
      ServedReuse(s, t, refc, k, w);
    }
  }

  lemma ServedBefore(s: Vm, refc: seq<nat>, pt: nat, k: Key, w: Word)
    requires Wf(s) && k.id < |s.roots| && k.slot in s.slots && |k.slot| == 3 && CowInv(View(s), refc)
    requires OnWalk(s, pt) && s.owner[pt] == Pos(s.roots[k.id], k.slot) && s.mem[pt][k.i] == w && w.flags.present
    ensures Sane(FlatOf(s, refc)) && k in View(s) && View(s)[k] == w && w.frame in Data(s) && pt < s.cur
  {
    SaneFlat(s, refc);
    LeafWord(s, pt, k.i, k.id);
  }

  lemma CopiedFrame(s: Vm, pt: nat, i: Index, w: Word)
    requires s.cur < POOL_END && pt < s.cur && w.frame < s.cur
    ensures SetLeaf(AllocCopy(s, w.frame), pt, i, Word(s.cur, w.flags)).mem[s.cur] == s.mem[w.frame]
  {
  }

  lemma ServedReuse(s: Vm, t: Vm, refc: seq<nat>, k: Key, w: Word)
    requires CowInv(View(s), refc) && k in View(s) && View(s)[k] == w && w.flags.present && w.flags.cow
             && w.frame in Data(s)
    requires RefGet(refc, w.frame) <= 1 && t.cur == s.cur && t.owner == s.owner
    requires |t.roots| == |s.roots| && t.slots == s.slots
    requires View(t) == View(s)[k := Word(w.frame, w.flags.(cow := false, rw := true))]
    requires forall f :: f in Data(s) ==> f in Data(t) && Data(t)[f] == Data(s)[f]
    ensures CowInv(View(t), RefDec(refc, w.frame)) && Served(FlatOf(s, refc), FlatOf(t, RefDec(refc, w.frame)), k)
  {
    ReuseKeeps(View(s), refc, k, w.flags.(cow := false, rw := true));
    assert Data(t) == Data(s);
  }

  lemma ServedCopy(s: Vm, t: Vm, refc: seq<nat>, k: Key, w: Word)
    requires Wf(s) && CowInv(View(s), refc) && k in View(s) && View(s)[k] == w && w.flags.present && w.flags.cow
    requires s.cur < POOL_END && w.frame in Data(s) && t.cur == s.cur + 1 && t.owner == s.owner
    requires |t.roots| == |s.roots| && t.slots == s.slots && RefGet(refc, w.frame) > 1
    requires View(t) == View(s)[k := Word(s.cur, w.flags.(cow := false, rw := true))] && t.mem[s.cur] == s.mem[w.frame]
    requires forall f :: f in Data(s) ==> f in Data(t) && Data(t)[f] == Data(s)[f]
    ensures CowInv(View(t), RefDec(refc, w.frame)) && Served(FlatOf(s, refc), FlatOf(t, RefDec(refc, w.frame)), k)
  {
    ViewFresh(s, s.cur);
    LeaveKeeps(View(s), refc, k, View(t)[k]);
    assert POOL_START <= s.cur && s.cur !in s.owner by { assert Owned(s); }
    assert s.cur in Data(t) && Data(t)[s.cur] == Data(s)[w.frame] && s.cur !in Data(s);
    MakeServed(FlatOf(s, refc), FlatOf(t, RefDec(refc, w.frame)), k, s.cur);
  }

  // ---------------------------------------------------------------- mapping, unmapping and demand paging

  // A fresh page with the given contents, mapped for a user page (kernel/elf.c, sbrk).
  method MapNewPage(m: Memory, ghost id: nat, root: nat, vpn: nat, flags: Flags, page: Page) returns (ok: bool)
    requires Steady(m) && 0 < id < |m.roots| && m.roots[id] == root && PathOf(vpn)[..3] in m.slots && !flags.cow
    modifies m`mem, m`cur, m`owner
    ensures Steady(m) && m.roots == old(m.roots) && m.slots == old(m.slots)
    ensures !ok ==> Moves(old(Now(m)), Now(m), CowRefinement.Op.NoPages)
    ensures ok ==> Moves(old(Now(m)), Now(m), CowRefinement.Op.MapNew(KeyOf(id, vpn), flags, page))
    ensures (!ok ==> m.cur == POOL_END) && m.cur <= old(m.cur) + 4
  {
    ghost var s := m.State();
    SteadyGood(s, m.refc);
    var f := m.AllocPage();
    if f == 0 {
      StayFlat(s, m.refc);
      return false;
    }
    FilledFlat(s, m.State(), f, page);
    m.mem := m.mem[f := page];
    ghost var a := m.State();
    ok := m.Map(root, vpn, f, flags);
    FilledBoot(s, a, m.State(), id);
    if ok {
      MappedFlat(s, a, m.State(), m.refc, KeyOf(id, vpn), f, flags, page);
    } else {
      NotMappedFlat(s, a, m.State(), m.refc, root, f);
    }
  }

  lemma FilledBoot(s: Vm, a: Vm, t: Vm, id: nat)
    requires Wf(s) && BootHuge(s) && Wf(a) && Extends(s, a, {}) && 0 < id < |s.roots| && Extends(a, t, {s.roots[id]})
    ensures BootHuge(t) && a.roots == s.roots && a.slots == s.slots && t.roots == s.roots && t.slots == s.slots
  {
    BootKept(s, a, {});
    assert s.roots[0] == BOOT && s.roots[id] != BOOT;
    BootKept(a, t, {s.roots[id]});
  }

  lemma StayFlat(s: Vm, refc: seq<nat>)
    requires Wf(s) && |refc| == POOL_END - POOL_START
    ensures Moves(FlatOf(s, refc), FlatOf(s, refc), CowRefinement.Op.NoPages)
  {
    SaneFlat(s, refc);
  }

  lemma MappedFlat(s: Vm, a: Vm, t: Vm, refc: seq<nat>, k: Key, f: nat, flags: Flags, page: Page)
    requires Wf(s) && Wf(a) && 0 < k.id < |s.roots| && a.roots == s.roots && a.slots == s.slots && View(a) == View(s)
    requires Data(a) == Data(s)[f := page] && f !in Data(s) && InPool(f) && f >= s.cur && k.slot in s.slots
    requires Extends(a, t, {a.roots[k.id]})
    requires OnlyUserLeaf(a, t, a.roots[k.id], k.slot, k.i, Word(f, Or(flags, PRESENT_RW)))
    requires CowInv(View(s), refc) && !flags.cow
    ensures CowInv(View(t), refc)
    ensures Moves(FlatOf(s, refc), FlatOf(t, refc), CowRefinement.Op.MapNew(k, flags, page))
  {
    assert |refc| == POOL_END - POOL_START;
    SaneFlat(s, refc);
    PlacedFlat(s, a, t, refc, k, f, Or(flags, PRESENT_RW), page);
    MoveMap(FlatOf(s, refc), FlatOf(t, refc), k, flags, page);
  }

  // A page handed out and filled, not yet mapped.
  lemma FilledFlat(s: Vm, b: Vm, f: nat, page: Page)
    requires Wf(s) && s.cur == f < POOL_END && b == Alloc(s)
    ensures var a := b.(mem := b.mem[f := page]);
      && Wf(a) && View(a) == View(s) && Extends(s, a, {}) && Data(a) == Data(s)[f := page] && f !in Data(s)
  {
    var a := b.(mem := b.mem[f := page]);
    AllocStep(s);
    DataWrite(b, f, page);
    SameTrans(s, b, a);
    ViewSame(s, a);
    AllocedData(s, a, f);
  }

  lemma NotMappedFlat(s: Vm, a: Vm, t: Vm, refc: seq<nat>, root: nat, f: nat)
    requires Wf(s) && Wf(a) && View(a) == View(s) && |refc| == POOL_END - POOL_START
    requires a.roots == s.roots && a.slots == s.slots
    requires f < NFRAMES && f !in Data(s) && Data(a) == Data(s)[f := a.mem[f]]
    requires SameLeaves(a, t) && Extends(a, t, {root})
    ensures Moves(FlatOf(s, refc), FlatOf(t, refc), CowRefinement.Op.NoPages)
    ensures View(t) == View(s)
  {
    SaneFlat(s, refc);
    ViewSame(a, t);
    GrownData(a, t, {root});
    MoreData(Data(s), Data(a), Data(t), f, a.mem[f]);
  }

  lemma AllocedData(s: Vm, a: Vm, f: nat)
    requires Wf(s) && s.cur == f < POOL_END && a == s.(mem := a.mem, cur := s.cur + 1)
    requires forall g :: 0 <= g < NFRAMES && g != f ==> a.mem[g] == s.mem[g]
    ensures Extends(s, a, {}) && Data(a) == Data(s)[f := a.mem[f]] && f !in Data(s)
  {
    assert Owned(s);
  }

  // A user page moved to a frame handed out since s.
  lemma PlaceFlat(s: Vm, t: Vm, refc: seq<nat>, k: Key, f: nat, fl: Flags, page: Page)
    requires Wf(s) && CowInv(View(s), refc) && k in View(s) && f >= s.cur && InPool(f) && !fl.cow
    requires |t.roots| == |s.roots| && t.slots == s.slots && View(t) == View(s)[k := Word(f, fl)]
    requires forall g :: g in Data(s) ==> g in Data(t) && Data(t)[g] == Data(s)[g]
    requires f in Data(t) && Data(t)[f] == page
    ensures CowInv(View(t), refc) && PlacedAt(FlatOf(s, refc), FlatOf(t, refc), k, fl, page, f)
  {
    ViewFresh(s, f);
    FreshKeeps(View(s), refc, k, Word(f, fl));
  }

  lemma MoreData(d: map<nat, Page>, e: map<nat, Page>, g: map<nat, Page>, f: nat, page: Page)
    requires e == d[f := page] && f !in d && forall x :: x in e ==> x in g && g[x] == e[x]
    ensures f in g && g[f] == page && forall x :: x in d ==> x in g && g[x] == d[x]
  {
    assert f in e;
    forall x | x in d ensures x in g && g[x] == d[x] {
      assert x in e;
    }
  }

  lemma PlacedFlat(s: Vm, a: Vm, t: Vm, refc: seq<nat>, k: Key, f: nat, fl: Flags, page: Page)
    requires Wf(s) && Wf(a) && k.id < |s.roots| && a.roots == s.roots && a.slots == s.slots && View(a) == View(s)
    requires Data(a) == Data(s)[f := page] && f !in Data(s) && InPool(f) && f >= s.cur && k.slot in s.slots
    requires Extends(a, t, {a.roots[k.id]}) && OnlyUserLeaf(a, t, a.roots[k.id], k.slot, k.i, Word(f, fl))
    requires CowInv(View(s), refc) && !fl.cow
    ensures CowInv(View(t), refc) && Placed(FlatOf(s, refc), FlatOf(t, refc), k, fl, page, false)
  {
    LeafFlat(a, t, k, Word(f, fl));
    MoreData(Data(s), Data(a), Data(t), f, page);
    PlaceFlat(s, t, refc, k, f, fl, page);
    assert Grantable(f, false);
  }

  // paging_unmap_4kb on a user page: the machine's step where the page has a page table;
  // inside a page that is still huge the call does nothing.
  method UnmapPage(m: Memory, ghost id: nat, root: nat, vpn: nat)
    requires Steady(m) && 0 < id < |m.roots| && m.roots[id] == root && PathOf(vpn)[..3] in m.slots
    modifies m`mem, m`cur, m`owner
    ensures Steady(m) && m.roots == old(m.roots) && m.slots == old(m.slots)
    ensures if Tab(old(m.mem), root, PathOf(vpn)[..3]).Some?
            then Moves(old(Now(m)), Now(m), CowRefinement.Op.Unmap(KeyOf(id, vpn))) else Now(m) == old(Now(m))
  {
    ghost var s := m.State();
    SteadyGood(s, m.refc);
    m.Unmap(root, vpn);
    BootKept(s, m.State(), {root});
    if Tab(s.mem, root, PathOf(vpn)[..3]).Some? {
      UnmapFlat(s, m.State(), m.refc, KeyOf(id, vpn));
    }
  }

  lemma UnmapFlat(s: Vm, t: Vm, refc: seq<nat>, k: Key)
    requires Wf(s) && k.id < |s.roots| && k.slot in s.slots && Extends(s, t, {s.roots[k.id]}) && CowInv(View(s), refc)
    requires OnlyUserLeaf(s, t, s.roots[k.id], k.slot, k.i, ZERO) && t.cur == s.cur && t.owner == s.owner && k.id > 0
    ensures CowInv(View(t), refc) && Moves(FlatOf(s, refc), FlatOf(t, refc), CowRefinement.Op.Unmap(k))
  {
    LeafFlat(s, t, k, ZERO);
    assert |refc| == POOL_END - POOL_START by { DropKeeps(View(s), View(s), refc); }
    SaneFlat(s, refc);
    DroppedLeaf(View(s), View(t), refc, k);
    SameData(s, t);
    UnmappedMoves(FlatOf(s, refc), FlatOf(t, refc), k);
  }

  lemma DroppedLeaf(a: Ptes, b: Ptes, refc: seq<nat>, k: Key)
    requires CowInv(a, refc) && k in a && b == a[k := ZERO]
    ensures CowInv(b, refc)
  {
    DropKeeps(a, b, refc);
  }

  lemma SameData(s: Vm, t: Vm)
    requires t.cur == s.cur && t.owner == s.owner
    requires forall f :: f in Data(s) ==> f in Data(t) && Data(t)[f] == Data(s)[f]
    ensures Data(t) == Data(s)
  {
  }

  lemma UnmappedMoves(a: Flat, b: Flat, k: Key)
    requires Sane(a) && k.id > 0 && k in a.pte && b.n == a.n && b.slots == a.slots && b.pte == a.pte[k := ZERO]
    requires b.data == a.data && b.refc == a.refc
    ensures Moves(a, b, CowRefinement.Op.Unmap(k))
  {
    MoveUnmap(a, b, k);
  }

  // paging_handle_demand_fault on a user page.
  method DemandPage(m: Memory, ghost id: nat, root: nat, addr: nat, regions: seq<Region>)
    returns (ok: bool, ghost hit: nat)
    requires Steady(m) && 0 < id < |m.roots| && m.roots[id] == root && PathOf(addr / 4096)[..3] in m.slots
    requires forall r :: r in regions ==> !r.flags.cow
    modifies m`mem, m`cur, m`owner
    ensures Steady(m) && m.roots == old(m.roots) && m.slots == old(m.slots)
    ensures !ok ==> Moves(old(Now(m)), Now(m), CowRefinement.Op.NoPages)
    ensures ok ==> hit < |regions| && regions[hit].start <= addr < regions[hit].end
    ensures ok ==> forall j :: 0 <= j < hit ==> !(regions[j].start <= addr < regions[j].end)
    ensures ok ==>
      Moves(old(Now(m)), Now(m), CowRefinement.Op.Demand(KeyOf(id, addr / 4096), regions[hit].flags))
    ensures !ok && m.cur < POOL_END ==>
      forall j :: 0 <= j < |regions| ==> !(regions[j].start <= addr < regions[j].end)
    ensures (forall j :: 0 <= j < |regions| ==> !(regions[j].start <= addr < regions[j].end)) ==> !ok
    ensures m.cur <= old(m.cur) + 4
  {
    ghost var s, vpn := m.State(), addr / 4096;
    SteadyGood(s, m.refc);
    ok, hit := m.HandleDemandFault(root, addr, regions);
    BootKept(s, m.State(), {root});
    if !ok {
      NoPagesFlat(s, m.State(), m.refc, {root});
    } else {
      ghost var v := PathOf(vpn);
      assert v == v[..3] + [v[3]] && regions[hit] in regions;
      DemandFlat(s, m.State(), m.refc, KeyOf(id, vpn), regions[hit].flags);
    }
  }

  lemma DemandFlat(s: Vm, t: Vm, refc: seq<nat>, k: Key, flags: Flags)
    requires Wf(s) && 0 < k.id < |s.roots| && k.slot in s.slots && |k.slot| == 3 && Extends(s, t, {s.roots[k.id]})
    requires Demanded(s, t, s.roots[k.id], k.slot + [k.i], flags) && CowInv(View(s), refc) && !flags.cow
    ensures CowInv(View(t), refc) && Moves(FlatOf(s, refc), FlatOf(t, refc), CowRefinement.Op.Demand(k, flags))
  {
    var root, v := s.roots[k.id], k.slot + [k.i];
    assert SlotOk(s.mem, s.roots[k.id], k.slot);
    AtTranslate(s.mem, root, k.slot, k.i);
    assert k in View(s) && View(s)[k] == At(s.mem, root, k.slot, k.i);
    if Translate(s.mem, root, v).Hit? {
      PresentFlat(s, t, refc, k, flags);
    } else {
      var n :| ZeroPlaced(s, t, root, v, flags.(present := true), n);
      ZeroFlat(s, t, refc, k, flags, n);
    }
  }

  lemma PresentFlat(s: Vm, t: Vm, refc: seq<nat>, k: Key, flags: Flags)
    requires Wf(s) && 0 < k.id < |s.roots| && SameLeaves(s, t) && Extends(s, t, {s.roots[k.id]}) && !flags.cow
    requires CowInv(View(s), refc) && k in View(s) && View(s)[k].flags.present
    ensures CowInv(View(t), refc) && Moves(FlatOf(s, refc), FlatOf(t, refc), CowRefinement.Op.Demand(k, flags))
  {
    assert |refc| == POOL_END - POOL_START;
    NoPagesFlat(s, t, refc, {s.roots[k.id]});
    MovePresent(FlatOf(s, refc), FlatOf(t, refc), k, flags);
  }

  lemma ZeroFlat(s: Vm, t: Vm, refc: seq<nat>, k: Key, flags: Flags, n: nat)
    requires Wf(s) && 0 < k.id < |s.roots| && k.slot in s.slots && |k.slot| == 3 && Extends(s, t, {s.roots[k.id]})
    requires CowInv(View(s), refc) && !flags.cow && k in View(s) && !View(s)[k].flags.present
    requires ZeroPlaced(s, t, s.roots[k.id], k.slot + [k.i], flags.(present := true), n)
    ensures CowInv(View(t), refc) && Moves(FlatOf(s, refc), FlatOf(t, refc), CowRefinement.Op.Demand(k, flags))
  {
    assert (k.slot + [k.i])[..3] == k.slot;
    assert POOL_START <= s.cur && t.cur <= POOL_END by { assert Owned(s); }
    LeafFlat(s, t, k, Word(n, flags.(present := true)));
    ZeroMoves(s, t, refc, k, flags, n);
  }

  lemma ZeroMoves(s: Vm, t: Vm, refc: seq<nat>, k: Key, flags: Flags, n: nat)
    requires Wf(s) && k.id > 0 && CowInv(View(s), refc) && !flags.cow && k in View(s) && !View(s)[k].flags.present
    requires |t.roots| == |s.roots| && t.slots == s.slots && View(t) == View(s)[k := Word(n, flags.(present := true))]
    requires forall g :: g in Data(s) ==> g in Data(t) && Data(t)[g] == Data(s)[g]
    requires s.cur <= n && InPool(n) && n in Data(t) && Data(t)[n] == ZeroPage()
    ensures CowInv(View(t), refc) && Moves(FlatOf(s, refc), FlatOf(t, refc), CowRefinement.Op.Demand(k, flags))
  {
    PlaceFlat(s, t, refc, k, n, flags.(present := true), ZeroPage());
    assert |refc| == POOL_END - POOL_START;
    SaneFlat(s, refc);
    MoveZero(FlatOf(s, refc), FlatOf(t, refc), k, flags, n);
  }

  // A user-mode store of word j to a page that its space's tables let user mode write: no
  // table changes, and it is the machine's write.
  lemma UserStore(s: Vm, refc: seq<nat>, k: Key, j: Index, w: Word)
    requires Wf(s) && BootHuge(s) && CowInv(View(s), refc) && k in View(s) && k.id > 0 && Allowed(View(s)[k])
    ensures View(s)[k].frame < s.cur && View(s)[k].frame !in s.owner
    ensures var f := View(s)[k].frame;
      var t := s.(mem := s.mem[f := s.mem[f][j := w]]);
      && Wf(t) && BootHuge(t) && CowInv(View(t), refc)
      && Moves(FlatOf(s, refc), FlatOf(t, refc), CowRefinement.Op.Write(k, j, w))
  {
    var f := View(s)[k].frame;
    SteadyGood(s, refc);
    ViewData(s, k);
    var t := s.(mem := s.mem[f := s.mem[f][j := w]]);
    DataWrite(s, f, s.mem[f][j := w]);
    ViewSame(s, t);
    BootUntouched(s, t, f);
    StoredData(s, t, f, s.mem[f][j := w]);
    MoveWrite(FlatOf(s, refc), FlatOf(t, refc), k, j, w);
  }

  lemma BootUntouched(s: Vm, t: Vm, f: nat)
    requires Wf(s) && BootHuge(s) && f !in s.owner && f < NFRAMES && t == s.(mem := t.mem)
    requires forall g :: 0 <= g < NFRAMES && g != f ==> t.mem[g] == s.mem[g]
    ensures BootHuge(t)
  {
    assert IsRoot(s, BOOT);
  }

  lemma StoredData(s: Vm, t: Vm, f: nat, page: Page)
    requires f < s.cur && f < NFRAMES && f !in s.owner && t == s.(mem := s.mem[f := page])
    ensures f in Data(s) && Data(s)[f] == s.mem[f] && Data(t) == Data(s)[f := page]
  {
  }

  // ---------------------------------------------------------------- the boot tables

  const FULL := Flags(true, true, true, false, false, {})

  // Page directory entry i: 2 MB at i * 0x200000, writable; only the third is open to user mode.
  function BootHugeEntry(i: nat): Word {
    Word(i * 512, Flags(true, true, i == 2, true, false, {}))
  }

  // The words that boot/stage2.asm stores; everything else in the three pages is zero.
  ghost predicate BootTables(ram: Ram) {
    && ram[1] == ZeroPage()[0 := Word(2, FULL)]
    && ram[2] == ZeroPage()[0 := Word(3, FULL)]
    && ram[3] == ZeroPage()[0 := BootHugeEntry(0)][1 := BootHugeEntry(1)][2 := BootHugeEntry(2)][3 := BootHugeEntry(3)]
  }

  lemma BootSlot(ram: Ram)
    requires BootTables(ram)
    ensures SlotOk(ram, BOOT, [0, 0, 2])
    ensures forall i: Index :: At(ram, BOOT, [0, 0, 2], i) == Word(1024 + i, FULL)
  {
    var p: Path := [0, 0, 2];
    assert p[..2] == [0, 0] && p[..2][..1] == [0] && p[..2][..1][..0] == [];
    assert Tab(ram, BOOT, []) == Some(Node(1, true, true));
    assert Tab(ram, BOOT, [0]) == Some(Node(2, true, true));
    assert Tab(ram, BOOT, p[..2]) == Some(Node(3, true, true));
  }

  lemma BootOwned(ram: Ram)
    requires BootTables(ram)
    ensures Owned(BootVm(ram)) && RootsOk(BootVm(ram))
  {
  }

  lemma BootSlots(ram: Ram)
    requires BootTables(ram)
    ensures SlotsOk(BootVm(ram)) && DataOk(BootVm(ram))
  {
    var s := BootVm(ram);
    BootSlot(ram);
    forall k, p | 0 <= k < |s.roots| && p in s.slots ensures SlotOk(s.mem, s.roots[k], p) {
      assert p == [0, 0, 2];
    }
    forall f, i: Index | f in s.owner && |s.owner[f].path| == 2 && s.owner[f].path + [i] !in s.slots
        && s.mem[f][i].flags.present
      ensures !s.mem[f][i].flags.user
    {
      assert [0, 0] + [i] != [0, 0, 2];
    }
  }

  lemma BootWf(ram: Ram)
    requires BootTables(ram)
    ensures Wf(BootVm(ram)) && BootHuge(BootVm(ram))
  {
    BootOwned(ram);
    BootSlots(ram);
  }

  // The kernel starts in a state from which copy-on-write and eager runs may be compared.
  lemma BootStart(ram: Ram, refc: seq<nat>)
    requires BootTables(ram) && |refc| == POOL_END - POOL_START
    ensures Start(FlatOf(BootVm(ram), refc)) && CowGood(FlatOf(BootVm(ram), refc))
    ensures Wf(BootVm(ram)) && BootHuge(BootVm(ram)) && CowInv(View(BootVm(ram)), refc)
  {
    var s := BootVm(ram);
    BootWf(ram);
    SaneFlat(s, refc);
    BootSlot(ram);
    assert forall k :: k in View(s) ==> View(s)[k] == Word(1024 + k.i, FULL);
    StartSim(FlatOf(s, refc));
  }

  // Everything proved about runs holds for every run from boot: the sharing discipline in
  // each state, and an eager run that user mode cannot tell from it.
  lemma FromBoot(ram: Ram, refc: seq<nat>, cs: seq<Flat>, ops: seq<Op>) returns (es: seq<Flat>)
    requires BootTables(ram) && |refc| == POOL_END - POOL_START
    requires CowRun(cs, ops) && cs[0] == FlatOf(BootVm(ram), refc) && forall n :: 0 <= n < |ops| ==> Ordinary(ops[n])
    ensures forall i :: 0 <= i <= |ops| ==> CowGood(cs[i])
    ensures EagerRun(es, ops) && es[0] == cs[0] && forall i :: 0 <= i <= |ops| ==> Agree(cs[i], es[i])
  {
    BootStart(ram, refc);
    forall i | 0 <= i <= |ops| ensures CowGood(cs[i]) {
      CowRunKeeps(cs, ops, i);
    }
    es := CowRefinesEager(cs, ops);
  }

  lemma {:induction false} PresentOne(page: Page, n: nat)
    requires 1 <= n <= 512 && page[0].flags.present && forall k: Index :: k > 0 ==> !page[k].flags.present
    ensures Present(page, n) == 1
  {
    if n > 1 { PresentOne(page, n - 1); }
  }

  lemma {:induction false} TablesOne(m: Ram, n: nat)
    requires 1 <= n <= 512 && m[BOOT][0].flags.present && forall k: Index :: k > 0 ==> !m[BOOT][k].flags.present
    ensures TablesBelow(m, n) == 1 + Present(Pdpt(m, 0), 512)
  {
    if n > 1 { TablesOne(m, n - 1); }
  }

  // The boot space has three tables.
  lemma BootCosts(ram: Ram)
    requires BootTables(ram)
    ensures BootCost(ram) == 3
  {
    assert Pdpt(ram, 0) == ram[2];
    PresentOne(ram[2], 512);
    TablesOne(ram, 512);
  }

  // Page k is there for user mode to read and write, with these contents.
  ghost predicate HasPage(a: Flat, k: Key, page: Page) {
    k in a.pte && Allowed(a.pte[k]) && a.pte[k].frame in a.data && a.data[a.pte[k].frame] == page
  }

  lemma MappedPage(a: Flat, b: Flat, k: Key, flags: Flags, page: Page)
    requires Moves(a, b, CowRefinement.Op.MapNew(k, flags, page)) && flags.user
    ensures HasPage(b, k, page)
  {
  }

  method BootUp(ram: Ram) returns (m: Memory)
    requires BootTables(ram)
    ensures fresh(m) && Steady(m) && m.roots == [BOOT] && m.slots == {[0, 0, 2]}
    ensures m.cur == POOL_START && BootCost(m.mem) == 3
  {
    m := new Memory(ram);
    BootStart(ram, m.refc);
    BootCosts(ram);
  }

  method FirstSpace(ram: Ram) returns (m: Memory, root: nat)
    requires BootTables(ram)
    ensures fresh(m) && Steady(m) && root != 0 && m.roots == [BOOT, root]
    ensures m.slots == {[0, 0, 2]} && m.cur == POOL_START + 3
  {
    m := BootUp(ram);
    root := MakeSpace(m);
    assert [BOOT] + [root] == [BOOT, root];
  }

  // The first steps of the kernel (kernel/kernel.c): the boot state, a first space, and a
  // page of a program in it. Neither can fail, and the calls above can be made from here.
  method StartUp(ram: Ram, vpn: nat, page: Page) returns (m: Memory, root: nat)
    requires BootTables(ram) && PathOf(vpn)[..3] == [0, 0, 2]
    ensures fresh(m) && Steady(m) && root != 0 && m.roots == [BOOT, root]
    ensures HasPage(Now(m), KeyOf(1, vpn), page)
  {
    m, root := FirstSpace(ram);
    ghost var a := Now(m);
    var ok := MapNewPage(m, 1, root, vpn, FULL, page);
    MappedPage(a, Now(m), KeyOf(1, vpn), FULL, page);
  }
}
