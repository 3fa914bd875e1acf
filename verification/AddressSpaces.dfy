/**
 * paging_create (kernel/memory.c): a new address space that mirrors the boot tables. The
 * boot page directories hold huge entries only (boot/stage2.asm), so copying their entries
 * word for word shares no table between spaces.
 */
module AddressSpaces {
  import opened Prelude
  import opened PageTables
  import opened PagingSteps
  import opened Paging

  // The shape of the boot tables: every top entry in use is open to user mode, and the
  // page directories hold nothing but huge entries.
  ghost predicate BootHuge(s: Vm) {
    && (forall i: Index :: s.mem[BOOT][i].flags.present ==> s.mem[BOOT][i].flags.user)
    && (forall f, i: Index {:trigger s.mem[f][i]} ::
          (f in s.owner && f < NFRAMES && s.owner[f].root == BOOT && |s.owner[f].path| == 2
           && s.mem[f][i].flags.present) ==> s.mem[f][i].flags.huge)
  }

  // ---------------------------------------------------------------- growing tables that no root reaches yet

  // Only frame d and frames handed out since s may differ in t.
  ghost predicate Beside(s: Vm, t: Vm, d: nat) {
    && t.roots == s.roots && t.slots == s.slots && s.cur <= t.cur <= POOL_END
    && (forall f :: f in s.owner ==> f in t.owner && t.owner[f] == s.owner[f])
    && (forall f :: f in t.owner && f !in s.owner ==> s.cur <= f < t.cur && t.owner[f].root !in s.roots)
    && (forall f :: 0 <= f < s.cur && f != d ==> t.mem[f] == s.mem[f])
  }

  // Writes to a table outside every root's reach keep all translations.
  lemma AsideKeeps(s: Vm, t: Vm)
    requires Wf(s) && t.roots == s.roots && t.slots == s.slots && s.cur <= t.cur
    requires forall r :: r in s.roots ==> SameTables(s, t, r)
    requires Owned(t) && RootsOk(t)
    requires forall f :: f in t.owner && f !in s.owner ==> !Mapped(s, f)
    requires NonSlotsClosed(t)
    ensures Wf(t) && SameXlat(s, t) && SameLeaves(s, t)
    ensures forall f :: Mapped(t, f) ==> Mapped(s, f)
  {
    forall k, v: Path | 0 <= k < |s.roots| && |v| == 4
      ensures Translate(s.mem, s.roots[k], v) == Translate(t.mem, s.roots[k], v)
    {
      SameTranslate(s, t, s.roots[k], v);
    }
    forall k, p | 0 <= k < |s.roots| && p in s.slots ensures SlotKept(s.mem, t.mem, s.roots[k], p) {
      assert SlotOk(s.mem, s.roots[k], p);
      SameSlot(s, t, s.roots[k], p);
    }
    LeavesData(s, t);
  }

  ghost predicate NonSlotsClosed(s: Vm) {
    forall f, i: Index {:trigger s.mem[f][i]} ::
      (f in s.owner && f < NFRAMES && |s.owner[f].path| == 2 && s.owner[f].path + [i] !in s.slots
       && s.mem[f][i].flags.present) ==> !s.mem[f][i].flags.user
  }

  // Taking a page as a table below an absent upper entry of an unreached table.
  lemma AllocLinkAside(s: Vm, f: nat, i: Index, fl: Flags)
    requires Wf(s) && s.cur < POOL_END && f in s.owner && |s.owner[f].path| < 2 && s.owner[f].root !in s.roots
    requires fl.present
    ensures var t := Link(Alloc(s), f, i, s.cur, fl);
      && Wf(t) && SameXlat(s, t) && SameLeaves(s, t) && Beside(s, t, f)
      && t.owner[s.cur] == Pos(s.owner[f].root, s.owner[f].path + [i]) && t.mem[s.cur] == ZeroPage()
  {
    var a, t := Alloc(s), Link(Alloc(s), f, i, s.cur, fl);
    AllocStep(s);
    LinkOwned(a, f, i, s.cur, fl);
    AsideKeeps(a, t);
    SameTrans(s, a, t);
  }

  // Taking a page as a new top-level table.
  lemma AllocRootAside(s: Vm)
    requires Wf(s) && s.cur < POOL_END
    ensures var a := Alloc(s);
      var t := a.(owner := a.owner[s.cur := Pos(s.cur, [])]);
      && Wf(t) && SameXlat(s, t) && SameLeaves(s, t) && Beside(s, t, s.cur) && t.mem[s.cur] == ZeroPage()
      && s.cur !in s.roots
  {
    var a := Alloc(s);
    AllocStep(s);
    var t := a.(owner := a.owner[s.cur := Pos(s.cur, [])]);
    assert Owned(t) && RootsOk(t);
    AsideKeeps(a, t);
    SameTrans(s, a, t);
  }

  // What the innermost loop makes of a page directory.
  function PdCopy(src: Page): Page {
    seq(512, (i: nat) requires i < 512 => if src[i].flags.present then src[i] else ZERO)
  }

  lemma CopyPdAside(s: Vm, d: nat, e: nat)
    requires Wf(s) && BootHuge(s) && d in s.owner && e in s.owner
    requires s.owner[d].root !in s.roots && |s.owner[d].path| == 2 && s.owner[e] == Pos(BOOT, s.owner[d].path)
    ensures var t := s.(mem := s.mem[d := PdCopy(s.mem[e])]);
      Wf(t) && SameXlat(s, t) && SameLeaves(s, t)
  {
    var t := s.(mem := s.mem[d := PdCopy(s.mem[e])]);
    assert Owned(t) && RootsOk(t);
    AsideKeeps(s, t);
  }

  // ---------------------------------------------------------------- the mirror

  // Table entry e as paging_create copies it, pointing to frame x.
  function Mirrored(e: Word, x: nat): Word {
    Word(x, Flags(true, e.flags.rw, e.flags.user, false, false, {}))
  }

  // Entry b of the PDPT d mirrors entry b of e: same rights, and a directory with the same contents.
  ghost predicate MirrorPd(m: Ram, d: nat, e: nat, b: Index, lim: nat)
    requires d < NFRAMES && e < NFRAMES
  {
    if m[e][b].flags.present then
      && m[d][b] == Mirrored(m[e][b], m[d][b].frame)
      && m[d][b].frame < lim <= NFRAMES && m[e][b].frame < NFRAMES
      && m[m[d][b].frame] == PdCopy(m[m[e][b].frame])
    else m[d][b] == ZERO
  }

  ghost predicate MirrorPdpt(m: Ram, d: nat, e: nat, a: Index, lim: nat)
    requires d < NFRAMES && e < NFRAMES
  {
    if m[e][a].flags.present then
      && m[d][a] == Mirrored(m[e][a], m[d][a].frame)
      && m[d][a].frame < lim <= NFRAMES && m[e][a].frame < NFRAMES
      && forall b: Index :: MirrorPd(m, m[d][a].frame, m[e][a].frame, b, lim)
    else m[d][a] == ZERO
  }

  // ---------------------------------------------------------------- the pages it takes

  // How many of the first n entries are in use.
  function Present(page: Page, n: nat): nat
    requires n <= 512
  {
    if n == 0 then 0 else Present(page, n - 1) + (if page[n - 1].flags.present then 1 else 0)
  }

  lemma {:induction false} PresentGrows(page: Page, n: nat, k: nat)
    requires n <= k <= 512
    ensures Present(page, n) <= Present(page, k)
    decreases k
  {
    if n < k { PresentGrows(page, n, k - 1); }
  }

  lemma PresentAll(page: Page)
    ensures forall b: Index :: page[b].flags.present ==> Present(page, b) < Present(page, 512)
  {
    forall b: Index | page[b].flags.present ensures Present(page, b) < Present(page, 512) {
      PresentGrows(page, b + 1, 512);
    }
  }

  // The tables below the first a entries of the top table.
  function TablesBelow(m: Ram, a: nat): nat
    requires a <= 512
  {
    if a == 0 then 0
    else TablesBelow(m, a - 1) + (if m[BOOT][a - 1].flags.present then 1 + Present(Pdpt(m, a - 1), 512) else 0)
  }

  function Pdpt(m: Ram, a: Index): Page {
    if m[BOOT][a].frame < NFRAMES then m[m[BOOT][a].frame] else ZeroPage()
  }

  // The tables of the boot space above its huge pages, which paging_create copies.
  function BootCost(m: Ram): nat { 1 + TablesBelow(m, 512) }

  lemma {:induction false} TablesGrow(m: Ram, n: nat, k: nat)
    requires n <= k <= 512
    ensures TablesBelow(m, n) <= TablesBelow(m, k)
    decreases k
  {
    if n < k { TablesGrow(m, n, k - 1); }
  }

  lemma {:induction false} TablesSame(m: Ram, t: Ram, a: nat)
    requires a <= 512 && m[BOOT] == t[BOOT]
    requires forall k: Index :: m[BOOT][k].flags.present ==> Pdpt(m, k) == Pdpt(t, k)
    ensures TablesBelow(m, a) == TablesBelow(t, a)
  {
    if a > 0 { TablesSame(m, t, a - 1); }
  }

  // A loop that takes `need` pages: it takes them all, or all that are left.
  predicate TookAll(was: nat, now: nat, need: nat, ok: bool) {
    (ok <==> was + need <= POOL_END) && now == if ok then was + need else POOL_END
  }

  // Lines 306-313.
  method CopyDirectory(m: Memory, dst: nat, src: nat)
    requires dst < NFRAMES && src < NFRAMES && dst != src && m.mem[dst] == ZeroPage()
    modifies m`mem
    ensures m.mem == old(m.mem)[dst := PdCopy(old(m.mem)[src])]
  {
    var i := 0;
    while i < 512
      invariant i <= 512
      invariant forall f :: 0 <= f < NFRAMES && f != dst ==> m.mem[f] == old(m.mem[f])
      invariant forall k: Index :: m.mem[dst][k] == if k < i then PdCopy(old(m.mem)[src])[k] else ZERO
    {
      if m.mem[src][i].flags.present {
        m.mem := Store(m.mem, dst, i, m.mem[src][i]);
      }
      i := i + 1;
    }
    assert m.mem[dst] == PdCopy(old(m.mem)[src]);
  }

  // A step of construction: only frame d and fresh frames are written, and no space notices.
  ghost predicate Built(s: Vm, t: Vm, d: nat) {
    Wf(t) && BootHuge(t) && Beside(s, t, d) && SameXlat(s, t) && SameLeaves(s, t)
  }

  lemma BuiltTrans(s: Vm, t: Vm, u: Vm, d: nat)
    requires Wf(s) && Built(s, t, d) && Built(t, u, d)
    ensures Built(s, u, d)
  {
    SameTrans(s, t, u);
  }

  // The state after one round of the PDPT loop on a present entry.
  ghost function PdAdded(s: Vm, d: nat, e: nat, b: Index): Vm
    requires s.cur < POOL_END && d in s.owner && d < NFRAMES && e < NFRAMES && s.mem[e][b].frame < NFRAMES
  {
    var t := Link(Alloc(s), d, b, s.cur, Mirrored(s.mem[e][b], s.cur).flags);
    t.(mem := t.mem[s.cur := PdCopy(t.mem[s.mem[e][b].frame])])
  }

  // The first b entries of the PDPT d mirror those of e; the rest are still empty.
  ghost predicate PdptPart(m: Ram, d: nat, e: nat, b: nat, lim: nat)
    requires d < NFRAMES && e < NFRAMES
  {
    && (forall k: Index :: k < b ==> MirrorPd(m, d, e, k, lim))
    && (forall k: Index :: k >= b ==> m[d][k] == ZERO)
  }

  lemma PdptGrow(m: Ram, d: nat, e: nat, b: Index, x: nat, lim: nat)
    requires lim == x + 1 && d < x && e < x && d != e && x < NFRAMES && m[e][b].frame < x && m[e][b].frame != d
    requires PdptPart(m, d, e, b, x)
    requires forall k: Index :: k < b && m[e][k].flags.present ==>
        m[d][k].frame != d && m[e][k].frame < x && m[e][k].frame != d
    requires m[e][b].flags.present
    ensures var t := Store(m, d, b, Mirrored(m[e][b], x))[x := PdCopy(m[m[e][b].frame])];
      PdptPart(t, d, e, b + 1, lim)
  {
    var t: Ram := Store(m, d, b, Mirrored(m[e][b], x))[x := PdCopy(m[m[e][b].frame])];
    forall k: Index | k < b ensures MirrorPd(t, d, e, k, lim) {
      assert MirrorPd(m, d, e, k, x);
    }
  }

  lemma PdAddedBuilt(s: Vm, d: nat, e: nat, b: Index, n: nat, a: Index)
    requires Wf(s) && BootHuge(s) && n !in s.roots && s.cur < POOL_END
    requires d in s.owner && s.owner[d] == Pos(n, [a]) && e in s.owner && s.owner[e] == Pos(BOOT, [a])
    requires s.mem[e][b].flags.present
    ensures s.mem[e][b].frame < s.cur && s.mem[e][b].frame != d && Built(s, PdAdded(s, d, e, b), d)
  {
    var g, x := s.mem[e][b], s.cur;
    assert IsTable(g, 2) && g.frame in s.owner && s.owner[g.frame] == Pos(BOOT, [a] + [b]);
    var t, u := Link(Alloc(s), d, b, x, Mirrored(g, x).flags), PdAdded(s, d, e, b);
    AllocLinkAside(s, d, b, Mirrored(g, x).flags);
    assert BootHuge(t);
    CopyPdAside(t, x, g.frame);
    SameTrans(s, t, u);
  }

  lemma PdAddedPart(s: Vm, d: nat, e: nat, b: Index, n: nat, a: Index)
    requires Owned(s) && s.cur < POOL_END && n != BOOT
    requires d in s.owner && s.owner[d] == Pos(n, [a]) && e in s.owner && s.owner[e] == Pos(BOOT, [a])
    requires s.mem[e][b].flags.present && s.mem[e][b].frame < s.cur && s.mem[e][b].frame != d
    requires PdptPart(s.mem, d, e, b, s.cur)
    ensures var t := PdAdded(s, d, e, b); PdptPart(t.mem, d, e, b + 1, t.cur)
  {
    var g, x, u := s.mem[e][b], s.cur, PdAdded(s, d, e, b);
    assert u.mem == Store(s.mem, d, b, Mirrored(g, x))[x := PdCopy(s.mem[g.frame])];
    forall k: Index | k < b && s.mem[e][k].flags.present
      ensures s.mem[d][k].frame != d && s.mem[e][k].frame < x && s.mem[e][k].frame != d
    {
      assert MirrorPd(s.mem, d, e, k, x) && IsTable(s.mem[e][k], 2) && IsTable(s.mem[d][k], 2);
    }
    PdptGrow(s.mem, d, e, b, x, x + 1);
  }

  // Lines 302-313, for one present entry b.
  method AddDirectory(m: Memory, ghost n: nat, ghost a: Index, dst: nat, src: nat, b: Index) returns (ok: bool)
    requires Wf(m.State()) && BootHuge(m.State()) && n !in m.roots
    requires dst in m.owner && m.owner[dst] == Pos(n, [a]) && src in m.owner && m.owner[src] == Pos(BOOT, [a])
    requires PdptPart(m.mem, dst, src, b, m.cur) && m.mem[src][b].flags.present
    modifies m`mem, m`cur, m`owner
    ensures Built(old(m.State()), m.State(), dst)
    ensures ok ==> PdptPart(m.mem, dst, src, b + 1, m.cur) && m.cur == old(m.cur) + 1
    ensures !ok ==> m.cur == old(m.cur) == POOL_END
  {
    ghost var s := m.State();
    var e := m.mem[src][b];
    var x := m.AllocPage();
    if x == 0 {
      return false;
    }
    PdAddedBuilt(s, dst, src, b, n, a);
    PdAddedPart(s, dst, src, b, n, a);
    m.mem := Store(m.mem, dst, b, Mirrored(e, x));
    m.owner := m.owner[x := Pos(n, [a] + [b])];
    CopyDirectory(m, x, e.frame);
    assert m.State() == PdAdded(s, dst, src, b);
    ok := true;
  }

  // Lines 295-314: fill the PDPT dst from the boot PDPT src, with fresh directories.
  method CopyPdpt(m: Memory, ghost n: nat, ghost a: Index, dst: nat, src: nat) returns (ok: bool)
    requires Wf(m.State()) && BootHuge(m.State()) && n !in m.roots
    requires dst in m.owner && m.owner[dst] == Pos(n, [a]) && src in m.owner && m.owner[src] == Pos(BOOT, [a])
    requires m.mem[dst] == ZeroPage()
    modifies m`mem, m`cur, m`owner
    ensures Built(old(m.State()), m.State(), dst)
    ensures ok ==> PdptPart(m.mem, dst, src, 512, m.cur)
    ensures TookAll(old(m.cur), m.cur, Present(old(m.mem)[src], 512), ok)
  {
    var b := 0;
    PresentAll(m.mem[src]);
    while b < 512
      invariant b <= 512 && Built(old(m.State()), m.State(), dst) && PdptPart(m.mem, dst, src, b, m.cur)
      invariant m.mem[src] == old(m.mem)[src] && m.cur == old(m.cur) + Present(m.mem[src], b)
    {
      if m.mem[src][b].flags.present {
        ghost var s := m.State();
        ok := AddDirectory(m, n, a, dst, src, b);
        BuiltTrans(old(m.State()), s, m.State(), dst);
        if !ok {
          return;
        }
      }
      b := b + 1;
    }
    ok := true;
  }

  // ---------------------------------------------------------------- the top level

  // The first a entries of the top table n mirror those of the boot tables; the rest are empty.
  ghost predicate Pml4Part(m: Ram, n: nat, a: nat, lim: nat)
    requires n < NFRAMES
  {
    && (forall k: Index :: k < a ==> MirrorPdpt(m, n, BOOT, k, lim))
    && (forall k: Index :: k >= a ==> m[n][k] == ZERO)
  }

  // A PDPT stays mirrored while only frames past it, or frame d outside it, are written.
  lemma MirrorKept(s: Vm, t: Vm, n: nat, k: Index, d: nat)
    requires Wf(s) && Wf(t) && Beside(s, t, d) && n in s.owner && s.owner[n] == Pos(n, []) && n !in s.roots
    requires MirrorPdpt(s.mem, n, BOOT, k, s.cur) && s.mem[n][k] == t.mem[n][k]
    requires d in s.owner ==> s.owner[d].root == n && |s.owner[d].path| <= 1 && s.owner[d].path != [k]
    requires d !in s.owner ==> d >= s.cur
    ensures MirrorPdpt(t.mem, n, BOOT, k, t.cur)
  {
    assert IsRoot(s, BOOT) && s.mem[BOOT] == t.mem[BOOT];
    var g, h := s.mem[BOOT][k], s.mem[n][k];
    if g.flags.present {
      assert IsTable(g, 1) && s.owner[g.frame] == Pos(BOOT, [] + [k]);
      assert IsTable(h, 1) && s.owner[h.frame] == Pos(n, [] + [k]);
      forall b: Index ensures MirrorPd(t.mem, h.frame, g.frame, b, t.cur) {
        assert MirrorPd(s.mem, h.frame, g.frame, b, s.cur);
        if s.mem[g.frame][b].flags.present {
          assert IsTable(s.mem[g.frame][b], 2) && IsTable(s.mem[h.frame][b], 2);
        }
      }
    }
  }

  lemma BesideFresh(s: Vm, t: Vm, u: Vm, n: nat, x: nat)
    requires Wf(s) && Built(s, t, n) && Built(t, u, x) && s.cur <= x
    ensures Built(s, u, n)
  {
    SameTrans(s, t, u);
  }

  // Lines 291-314, for one present top entry a.
  method AddPdpt(m: Memory, n: nat, a: Index) returns (ok: bool)
    requires Wf(m.State()) && BootHuge(m.State()) && n !in m.roots && n in m.owner && m.owner[n] == Pos(n, [])
    requires Pml4Part(m.mem, n, a, m.cur) && m.mem[BOOT][a].flags.present
    modifies m`mem, m`cur, m`owner
    ensures Built(old(m.State()), m.State(), n)
    ensures ok ==> Pml4Part(m.mem, n, a + 1, m.cur)
    ensures TookAll(old(m.cur), m.cur, 1 + Present(Pdpt(old(m.mem), a), 512), ok)
  {
    ghost var s := m.State();
    var e := m.mem[BOOT][a];
    assert IsRoot(s, BOOT) && IsTable(e, 1) && s.owner[e.frame] == Pos(BOOT, [] + [a]);
    var x := m.AllocPage();
    if x == 0 {
      return false;
    }
    AllocLinkAside(s, n, a, Mirrored(e, x).flags);
    m.mem := Store(m.mem, n, a, Mirrored(e, x));
    m.owner := m.owner[x := Pos(n, [] + [a])];
    ghost var t := m.State();
    assert t == Link(Alloc(s), n, a, x, Mirrored(e, x).flags) && BootHuge(t);
    ok := CopyPdpt(m, n, a, x, e.frame);
    BesideFresh(s, t, m.State(), n, x);
    if ok {
      TopGrow(s, t, m.State(), n, a, x);
    }
  }

  lemma TopGrow(s: Vm, t: Vm, u: Vm, n: nat, a: Index, x: nat)
    requires Wf(s) && Built(s, u, n) && n in s.owner && s.owner[n] == Pos(n, []) && n !in s.roots
    requires Pml4Part(s.mem, n, a, s.cur) && s.mem[BOOT][a].flags.present && x < u.cur && n != x
    requires t.mem[n] == s.mem[n][a := Mirrored(s.mem[BOOT][a], x)] && Built(t, u, x) && n < t.cur
    requires s.mem[BOOT][a].frame < s.cur && PdptPart(u.mem, x, s.mem[BOOT][a].frame, 512, u.cur)
    ensures Pml4Part(u.mem, n, a + 1, u.cur)
  {
    assert IsRoot(s, BOOT) && u.mem[BOOT] == s.mem[BOOT] && u.mem[n] == t.mem[n];
    forall k: Index | k < a + 1 ensures MirrorPdpt(u.mem, n, BOOT, k, u.cur) {
      if k < a {
        MirrorKept(s, u, n, k, n);
      }
    }
  }

  // Lines 276-280: take a page as the new top table.
  method StartSpace(m: Memory) returns (n: nat)
    requires Wf(m.State()) && BootHuge(m.State())
    modifies m`mem, m`cur, m`owner
    ensures n == 0 ==> m.State() == old(m.State()) && m.cur == POOL_END
    ensures n != 0 ==> m.cur == old(m.cur) + 1 && n == old(m.cur) && n !in m.roots
    ensures n != 0 ==> n in m.owner && m.owner[n] == Pos(n, [])
    ensures n != 0 ==> Built(old(m.State()), m.State(), n) && Pml4Part(m.mem, n, 0, m.cur)
  {
    ghost var s := m.State();
    n := m.AllocPage();
    if n != 0 {
      AllocRootAside(s);
      m.owner := m.owner[n := Pos(n, [])];
      assert IsRoot(s, BOOT);
    }
  }

  // The tables that are copied stay as they are.
  lemma BootPages(s: Vm, t: Vm, d: nat)
    requires Wf(s) && Built(s, t, d) && (d in s.owner ==> s.owner[d].root != BOOT)
    ensures t.mem[BOOT] == s.mem[BOOT]
    ensures forall k: Index :: s.mem[BOOT][k].flags.present ==> Pdpt(t.mem, k) == Pdpt(s.mem, k)
  {
    assert IsRoot(s, BOOT);
    forall k: Index | s.mem[BOOT][k].flags.present ensures Pdpt(t.mem, k) == Pdpt(s.mem, k) {
      assert IsTable(s.mem[BOOT][k], 1) && s.owner[s.mem[BOOT][k].frame] == Pos(BOOT, [] + [k]);
    }
  }

  // Lines 282-315.
  method FillSpace(m: Memory, n: nat) returns (ok: bool)
    requires Wf(m.State()) && BootHuge(m.State()) && n !in m.roots && n in m.owner && m.owner[n] == Pos(n, [])
    requires Pml4Part(m.mem, n, 0, m.cur)
    modifies m`mem, m`cur, m`owner
    ensures Built(old(m.State()), m.State(), n)
    ensures ok ==> Pml4Part(m.mem, n, 512, m.cur)
    ensures TookAll(old(m.cur), m.cur, TablesBelow(old(m.mem), 512), ok)
  {
    ghost var s := m.State();
    assert IsRoot(s, BOOT);
    var a := 0;
    while a < 512
      invariant a <= 512 && Built(s, m.State(), n) && Pml4Part(m.mem, n, a, m.cur)
      invariant m.cur == s.cur + TablesBelow(s.mem, a)
    {
      BootPages(s, m.State(), n);
      TablesGrow(s.mem, a + 1, 512);
      if m.mem[BOOT][a].flags.present {
        assert m.mem[BOOT][a].flags.user;  // so lines 286-289, which would share the table, are never reached
        ghost var t := m.State();
        ok := AddPdpt(m, n, a);
        BuiltTrans(s, t, m.State(), n);
        if !ok {
          return;
        }
      }
      a := a + 1;
    }
    ok := true;
  }

  // The new space sees exactly what the boot tables map, through tables of its own.
  ghost predicate Mirrors(m: Ram, n: nat, slots: set<Path>) {
    && (forall v: Path :: |v| == 4 ==> Translate(m, n, v) == Translate(m, BOOT, v))
    && (forall p :: p in slots ==>
          && SlotOk(m, n, p) && SlotOk(m, BOOT, p)
          && forall i: Index :: At(m, n, p, i) == At(m, BOOT, p, i))
  }

  lemma {:induction false} MirrorTab(s: Vm, n: nat, path: Path)
    requires Owned(s) && BootHuge(s) && IsRoot(s, BOOT) && n in s.owner && s.owner[n] == Pos(n, [])
    requires Pml4Part(s.mem, n, 512, s.cur) && |path| <= 3
    ensures var x, y := Tab(s.mem, n, path), Tab(s.mem, BOOT, path);
      && x.Some? == y.Some? && (x.Some? ==> x.value.rw == y.value.rw && x.value.user == y.value.user)
      && (|path| == 2 && x.Some? ==>
            && x.value.frame < NFRAMES && y.value.frame < NFRAMES
            && s.mem[x.value.frame] == PdCopy(s.mem[y.value.frame]))
      && (|path| == 1 && x.Some? ==>
            && x.value.frame < NFRAMES && y.value.frame < NFRAMES
            && s.mem[n][path[0]].frame == x.value.frame && s.mem[BOOT][path[0]].frame == y.value.frame
            && s.mem[BOOT][path[0]].flags.present)
      && (|path| == 3 ==> x.None?)
    decreases |path|
  {
    if path != [] {
      var q := path[..|path| - 1];
      MirrorTab(s, n, q);
      TabOwned(s, BOOT, q);
      assert MirrorPdpt(s.mem, n, BOOT, path[0], s.cur);
      if |path| == 2 && Tab(s.mem, n, q).Some? {
        assert MirrorPd(s.mem, s.mem[n][path[0]].frame, s.mem[BOOT][path[0]].frame, path[1], s.cur);
      }
    }
  }

  lemma MirrorXlat(s: Vm, n: nat, v: Path)
    requires Owned(s) && BootHuge(s) && IsRoot(s, BOOT) && n in s.owner && s.owner[n] == Pos(n, [])
    requires Pml4Part(s.mem, n, 512, s.cur) && |v| == 4
    ensures Translate(s.mem, n, v) == Translate(s.mem, BOOT, v)
  {
    MirrorTab(s, n, v[..3]);
    MirrorTab(s, n, v[..2]);
  }

  lemma MirrorSlot(s: Vm, n: nat, p: Path)
    requires Owned(s) && BootHuge(s) && IsRoot(s, BOOT) && n in s.owner && s.owner[n] == Pos(n, [])
    requires Pml4Part(s.mem, n, 512, s.cur) && SlotOk(s.mem, BOOT, p)
    ensures SlotOk(s.mem, n, p) && forall i: Index :: At(s.mem, n, p, i) == At(s.mem, BOOT, p, i)
  {
    MirrorTab(s, n, p[..2]);
    TabOwned(s, BOOT, p[..2]);
  }

  lemma MirrorsSpace(s: Vm, n: nat)
    requires Wf(s) && BootHuge(s) && n in s.owner && s.owner[n] == Pos(n, []) && Pml4Part(s.mem, n, 512, s.cur)
    ensures Mirrors(s.mem, n, s.slots)
  {
    assert IsRoot(s, BOOT);
    forall v: Path | |v| == 4 ensures Translate(s.mem, n, v) == Translate(s.mem, BOOT, v) {
      MirrorXlat(s, n, v);
    }
    forall p | p in s.slots
      ensures SlotOk(s.mem, n, p) && SlotOk(s.mem, BOOT, p)
              && forall i: Index :: At(s.mem, n, p, i) == At(s.mem, BOOT, p, i)
    {
      assert SlotOk(s.mem, s.roots[0], p);
      MirrorSlot(s, n, p);
    }
  }

  lemma NewRoot(s: Vm, n: nat)
    requires Wf(s) && BootHuge(s) && n in s.owner && s.owner[n] == Pos(n, []) && n !in s.roots
    requires Mirrors(s.mem, n, s.slots)
    ensures var t := s.(roots := s.roots + [n]); Wf(t) && BootHuge(t)
  {
    var t := s.(roots := s.roots + [n]);
    assert forall k :: 0 <= k < |s.roots| ==> t.roots[k] == s.roots[k];
    forall k, p, i: Index | 0 <= k < |t.roots| && p in t.slots
      ensures SlotOk(t.mem, t.roots[k], p)
      ensures At(t.mem, t.roots[k], p, i).flags.present ==>
        At(t.mem, t.roots[k], p, i).frame < t.cur && At(t.mem, t.roots[k], p, i).frame !in t.owner
    {
      var j := if k < |s.roots| then k else 0;
      assert SlotOk(s.mem, s.roots[j], p);
      assert At(s.mem, s.roots[j], p, i) == At(t.mem, t.roots[k], p, i);
    }
  }

  // paging_create. A space made from the boot tables starts with exactly their
  // translation, in table frames that no other space owns; 0 exactly when fewer pages are
  // left than the boot space has tables.
  method Create(m: Memory) returns (n: nat)
    requires Wf(m.State()) && BootHuge(m.State())
    modifies m`mem, m`cur, m`owner, m`roots
    ensures Wf(m.State()) && BootHuge(m.State())
    ensures Extends(old(m.State()), m.State().(roots := old(m.roots)), {})
    ensures SameXlat(old(m.State()), m.State().(roots := old(m.roots)))
    ensures SameLeaves(old(m.State()), m.State().(roots := old(m.roots)))
    ensures n == 0 ==> m.roots == old(m.roots)
    ensures n != 0 ==> m.roots == old(m.roots) + [n] && Mirrors(m.mem, n, m.slots)
    ensures TookAll(old(m.cur), m.cur, BootCost(old(m.mem)), n != 0)
  {
    ghost var s := m.State();
    n := StartSpace(m);
    if n == 0 {
      return;
    }
    ghost var t := m.State();
    BootPages(s, t, n);
    TablesSame(s.mem, t.mem, 512);
    var ok := FillSpace(m, n);
    BuiltTrans(s, t, m.State(), n);
    if ok {
      MirrorsSpace(m.State(), n);
      NewRoot(m.State(), n);
      m.roots := m.roots + [n];
    } else {
      n := 0;
    }
  }
}
