/**
 * Four-level page tables as they lie in physical memory (kernel/memory.c, Intel SDM
 * Vol. 3A section 4.5): the words of a table, the walk, the translation the processor
 * derives from it, and the ownership discipline that keeps table frames apart.
 */
module PageTables {
  import opened Prelude

  const NFRAMES: nat := 0x800      // the first 8 MB, all that boot maps
  const POOL_START: nat := 0x600   // page_alloc_cur starts at 0x600000
  const POOL_END: nat := 0x800     // page_alloc_end is 0x800000
  const BOOT: nat := 1             // PML4_ADDR is 0x1000

  // The low twelve bits of a word: the five bits the code tests, and the others.
  datatype Flags = Flags(present: bool, rw: bool, user: bool, huge: bool, cow: bool, rest: set<nat>)

  // A 64-bit word of memory, seen as a page-table entry: frame number and low bits.
  datatype Word = Word(frame: nat, flags: Flags)

  const NO_FLAGS := Flags(false, false, false, false, false, {})
  const PRESENT_RW := Flags(true, true, false, false, false, {})
  const ZERO := Word(0, NO_FLAGS)

  type Index = i: nat | i < 512
  type Path = seq<Index>
  type Page = p: seq<Word> | |p| == 512 witness seq(512, _ => ZERO)
  type Ram = m: seq<Page> | |m| == NFRAMES witness seq(NFRAMES, _ => ZeroPage())

  function ZeroPage(): Page {
    seq(512, _ => ZERO)
  }

  // The union of two flag words (C's bitwise or).
  function Or(a: Flags, b: Flags): Flags {
    Flags(a.present || b.present, a.rw || b.rw, a.user || b.user, a.huge || b.huge, a.cow || b.cow, a.rest + b.rest)
  }

  // The first frame of the 2 MB page that holds frame f: clears the low nine bits.
  function Base(f: nat): (b: nat)
    ensures b <= f < b + 512 && b % 512 == 0
  {
    f - f % 512
  }

  function Store(m: Ram, f: nat, i: Index, w: Word): Ram
    requires f < NFRAMES
  {
    m[f := m[f][i := w]]
  }

  lemma StoreSame(m: Ram, f: nat, i: Index)
    requires f < NFRAMES
    ensures Store(m, f, i, m[f][i]) == m
  {
    assert m[f][i := m[f][i]] == m[f];
  }

  // ---------------------------------------------------------------- virtual addresses

  // The four table indices of a virtual page number (virt >> 12).
  function PathOf(vpn: nat): (v: Path)
    ensures |v| == 4
  {
    [(vpn / 0x8000000) % 512, (vpn / 0x40000) % 512, (vpn / 512) % 512, vpn % 512]
  }

  // Below 2^48 bytes (2^36 pages) the indices name exactly one page.
  lemma PathOfInjective(a: nat, b: nat)
    requires a < 0x1000000000 && b < 0x1000000000
    requires PathOf(a) == PathOf(b)
    ensures a == b
  {
    var p, q := PathOf(a), PathOf(b);
    assert p[0] == q[0] && p[1] == q[1] && p[2] == q[2] && p[3] == q[3];
    Recompose(a);
    Recompose(b);
  }

  lemma Recompose(a: nat)
    requires a < 0x1000000000
    ensures var p: seq<int> := PathOf(a);
      a == ((p[0] * 512 + p[1]) * 512 + p[2]) * 512 + p[3]
  {
    var b := a / 512;
    var c := b / 512;
    assert a / 0x40000 == c;
    assert a / 0x8000000 == c / 512;
    assert c / 512 < 512;
  }

  // ---------------------------------------------------------------- the walk

  // A table met on a walk, with the access rights collected on the way down to it.
  datatype Node = Node(frame: nat, rw: bool, user: bool)

  // Does entry e, reached after depth indices, point to a lower table?
  predicate IsTable(e: Word, depth: nat) {
    e.flags.present && !(depth == 3 && e.flags.huge)
  }

  // The table reached from root along path (at most three indices).
  ghost function Tab(m: Ram, root: nat, path: Path): Option<Node>
    decreases |path|
  {
    if path == [] then Some(Node(root, true, true))
    else
      var n := |path| - 1;
      var up := Tab(m, root, path[..n]);
      if up.None? || up.value.frame >= NFRAMES then None
      else
        var e := m[up.value.frame][path[n]];
        if IsTable(e, n + 1)
        then Some(Node(e.frame, up.value.rw && e.flags.rw, up.value.user && e.flags.user))
        else None
  }

  // What the processor makes of a virtual page: a fault, or a frame with rights.
  datatype Xlat = Fault | Hit(frame: nat, rw: bool, user: bool, cow: bool)

  function HitOf(n: Node, e: Word, frame: nat): Xlat {
    if e.flags.present then Hit(frame, n.rw && e.flags.rw, n.user && e.flags.user, e.flags.cow) else Fault
  }

  ghost function Translate(m: Ram, root: nat, v: Path): Xlat
    requires |v| == 4
  {
    var pt := Tab(m, root, v[..3]);
    var pd := Tab(m, root, v[..2]);
    if pt.Some? then
      if pt.value.frame < NFRAMES then HitOf(pt.value, m[pt.value.frame][v[3]], m[pt.value.frame][v[3]].frame)
      else Fault
    else if pd.Some? && pd.value.frame < NFRAMES then
      var e := m[pd.value.frame][v[2]];
      HitOf(pd.value, e, Base(e.frame) + v[3])
    else Fault
  }

  // ---------------------------------------------------------------- ownership of table frames

  // Where a table frame sits: under which root, after which indices.
  datatype Pos = Pos(root: nat, path: Path)

  // The paging state; owner, roots and slots only serve the specification.
  // roots lists the address spaces in order of creation, the boot tables first;
  // slots are the page-directory entries open to user mode.
  datatype Vm = Vm(mem: Ram, cur: nat, owner: map<nat, Pos>, roots: seq<nat>, slots: set<Path>)

  // Every table entry of an owned frame leads to the frame owned at that very place.
  ghost predicate Owned(s: Vm) {
    && POOL_START <= s.cur <= POOL_END
    && (forall f :: f in s.owner ==> f < s.cur && |s.owner[f].path| <= 3)
    && (forall f, i: Index {:trigger s.mem[f][i]} :: 
          (f in s.owner && |s.owner[f].path| < 3 && IsTable(s.mem[f][i], |s.owner[f].path| + 1)) ==>
          && s.mem[f][i].frame in s.owner
          && s.owner[s.mem[f][i].frame] == Pos(s.owner[f].root, s.owner[f].path + [i]))
  }

  ghost predicate IsRoot(s: Vm, r: nat) {
    r in s.owner && s.owner[r] == Pos(r, [])
  }

  ghost predicate RootsOk(s: Vm) {
    && |s.roots| >= 1 && s.roots[0] == BOOT
    && (forall k :: 0 <= k < |s.roots| ==> IsRoot(s, s.roots[k]))
    && (forall j, k :: 0 <= j < k < |s.roots| ==> s.roots[j] != s.roots[k])
  }

  lemma {:induction false} TabOwned(s: Vm, root: nat, path: Path)
    requires Owned(s) && IsRoot(s, root) && |path| <= 3
    ensures var t := Tab(s.mem, root, path);
      t.Some? ==> t.value.frame in s.owner && s.owner[t.value.frame] == Pos(root, path)
    decreases |path|
  {
    if path != [] {
      var n := |path| - 1;
      TabOwned(s, root, path[..n]);
      assert path == path[..n] + [path[n]];
    }
  }

  // Two states hold the same tables for a root: nothing under that root was written.
  ghost predicate SameTables(s: Vm, t: Vm, root: nat) {
    forall f :: f in s.owner && s.owner[f].root == root ==> f < NFRAMES && s.mem[f] == t.mem[f]
  }

  lemma {:induction false} SameTab(s: Vm, t: Vm, root: nat, path: Path)
    requires Owned(s) && IsRoot(s, root) && SameTables(s, t, root) && |path| <= 3
    ensures Tab(s.mem, root, path) == Tab(t.mem, root, path)
    decreases |path|
  {
    if path != [] {
      var n := |path| - 1;
      SameTab(s, t, root, path[..n]);
      TabOwned(s, root, path[..n]);
    }
  }

  // Separation: what is written outside a root's own tables never moves its pages.
  lemma SameTranslate(s: Vm, t: Vm, root: nat, v: Path)
    requires Owned(s) && IsRoot(s, root) && SameTables(s, t, root) && |v| == 4
    ensures Translate(s.mem, root, v) == Translate(t.mem, root, v)
  {
    SameTab(s, t, root, v[..3]);
    SameTab(s, t, root, v[..2]);
    TabOwned(s, root, v[..3]);
    TabOwned(s, root, v[..2]);
  }

  // Writing entry i of the table owned at path p only matters to walks through p + [i].
  lemma {:induction false} StoreTab(s: Vm, f: nat, i: Index, w: Word, root: nat, path: Path)
    requires Owned(s) && IsRoot(s, root) && f in s.owner && |path| <= 3
    requires !(s.owner[f].root == root && s.owner[f].path + [i] <= path)
    ensures Tab(Store(s.mem, f, i, w), root, path) == Tab(s.mem, root, path)
    decreases |path|
  {
    if path != [] {
      var n := |path| - 1;
      StoreTab(s, f, i, w, root, path[..n]);
      TabOwned(s, root, path[..n]);
      assert path == path[..n] + [path[n]];
    }
  }

  lemma StoreTranslate(s: Vm, f: nat, i: Index, w: Word, root: nat, v: Path)
    requires Owned(s) && IsRoot(s, root) && f in s.owner && |v| == 4
    requires !(s.owner[f].root == root && s.owner[f].path + [i] <= v)
    ensures Translate(Store(s.mem, f, i, w), root, v) == Translate(s.mem, root, v)
  {
    var r, a, b := s.owner[f].path + [i], v[..3], v[..2];
    assert (r <= a ==> r <= v) && (r <= b ==> r <= v);
    StoreTab(s, f, i, w, root, a);
    StoreTab(s, f, i, w, root, b);
    TabOwned(s, root, a);
    TabOwned(s, root, b);
    assert a + [v[3]] <= v && b + [v[2]] <= v;
  }

  // ---------------------------------------------------------------- slots and user pages

  // Slot p is open to user mode under root: tables down to the directory are present,
  // writable and user, and so is the directory entry; a huge entry lies below the pool.
  ghost predicate SlotOk(m: Ram, root: nat, p: Path) {
    SlotState(m, root, p) == Intact
  }

  ghost function SlotState(m: Ram, root: nat, p: Path): Sealed {
    if |p| != 3 then Broken
    else
      var pd := Tab(m, root, p[..2]);
      if pd.None? || !pd.value.rw || !pd.value.user || pd.value.frame >= NFRAMES then Broken
      else
        var e := m[pd.value.frame][p[2]];
        if e.flags.present && e.flags.rw && e.flags.user
           && (if e.flags.huge then Base(e.frame) + 512 <= POOL_START else e.frame < NFRAMES)
        then Intact else Broken
  }

  // The leaf word of page i in slot p: a table entry, or a share of the huge page.
  ghost function At(m: Ram, root: nat, p: Path, i: Index): Word {
    if !SlotOk(m, root, p) then ZERO
    else
      var e := m[Tab(m, root, p[..2]).value.frame][p[2]];
      if e.flags.huge then Word(Base(e.frame) + i, e.flags.(huge := false)) else m[e.frame][i]
  }

  // Slot p is as open under root in memory t as in memory m, with the same leaf words.
  ghost predicate SlotKept(m: Ram, t: Ram, root: nat, p: Path) {
    && SlotOk(m, root, p) && SlotOk(t, root, p)
    && forall i: Index :: At(m, root, p, i) == At(t, root, p, i)
  }

  ghost predicate SlotsOk(s: Vm) {
    && (forall k, p {:trigger SlotOk(s.mem, s.roots[k], p)} ::
          0 <= k < |s.roots| && p in s.slots ==> SlotOk(s.mem, s.roots[k], p))
    && (forall f, i: Index {:trigger s.mem[f][i]} ::
          (f in s.owner && f < NFRAMES && |s.owner[f].path| == 2 && s.owner[f].path + [i] !in s.slots
           && s.mem[f][i].flags.present) ==> !s.mem[f][i].flags.user)
  }

  // User pages never lie in a table frame, nor in a frame still to be handed out.
  ghost predicate DataOk(s: Vm) {
    forall k, p, i: Index {:trigger At(s.mem, s.roots[k], p, i)} ::
      0 <= k < |s.roots| && p in s.slots && At(s.mem, s.roots[k], p, i).flags.present ==>
        At(s.mem, s.roots[k], p, i).frame < s.cur && At(s.mem, s.roots[k], p, i).frame !in s.owner
  }

  ghost function Health(s: Vm): Sealed {
    if Owned(s) && RootsOk(s) && SlotsOk(s) && DataOk(s) then Intact else Broken
  }

  ghost predicate Wf(s: Vm) {
    Health(s) == Intact
  }

  // A slot's leaf word is what the processor uses.
  lemma AtTranslate(m: Ram, root: nat, p: Path, i: Index)
    requires SlotOk(m, root, p)
    ensures var w := At(m, root, p, i);
      Translate(m, root, p + [i]) ==
        if w.flags.present then Hit(w.frame, w.flags.rw, w.flags.user, w.flags.cow) else Fault
  {
    assert (p + [i])[..3] == p && (p + [i])[..2] == p[..2];
  }

  lemma SameSlot(s: Vm, t: Vm, root: nat, p: Path)
    requires Owned(s) && IsRoot(s, root) && SameTables(s, t, root) && SlotOk(s.mem, root, p)
    ensures SlotKept(s.mem, t.mem, root, p)
  {
    SameTab(s, t, root, p[..2]);
    TabOwned(s, root, p[..2]);
    TabOwned(s, root, p);
  }

  lemma StoreSlot(s: Vm, f: nat, i: Index, w: Word, root: nat, p: Path)
    requires Owned(s) && IsRoot(s, root) && f in s.owner && SlotOk(s.mem, root, p)
    requires !(s.owner[f].root == root && s.owner[f].path + [i] <= p)
    ensures SlotOk(Store(s.mem, f, i, w), root, p)
    ensures forall j: Index :: !(s.owner[f] == Pos(root, p) && j == i) ==>
              At(Store(s.mem, f, i, w), root, p, j) == At(s.mem, root, p, j)
    ensures s.owner[f] != Pos(root, p) ==> SlotKept(s.mem, Store(s.mem, f, i, w), root, p)
  {
    var q, r := p[..2], s.owner[f].path + [i];
    assert p == q + [p[2]];
    assert r <= q ==> r <= p;
    StoreTab(s, f, i, w, root, q);
    TabOwned(s, root, q);
    TabOwned(s, root, p);
  }

  // ---------------------------------------------------------------- dead subtrees: nothing below translates

  // The entry that path ends with is absent, or leads to an all-zero table.
  ghost predicate Dead(m: Ram, root: nat, path: Path) {
    && 1 <= |path| <= 3
    && var n := |path| - 1;
    var up := Tab(m, root, path[..n]);
    && up.Some? && up.value.frame < NFRAMES
    && var e := m[up.value.frame][path[n]];
    e.flags.present ==> IsTable(e, |path|) && e.frame < NFRAMES && m[e.frame] == ZeroPage()
  }

  lemma {:induction false} DeadTab(m: Ram, root: nat, path: Path, k: nat)
    requires 1 <= k < |path| <= 3 && Dead(m, root, path[..k])
    ensures Tab(m, root, path).None?
    decreases |path|
  {
    var n := |path| - 1;
    assert path[..n][..k] == path[..k];
    if k < n {
      DeadTab(m, root, path[..n], k);
    }
  }

  lemma DeadFault(m: Ram, root: nat, v: Path, k: nat)
    requires |v| == 4 && 1 <= k <= 3 && Dead(m, root, v[..k])
    ensures Translate(m, root, v) == Fault
  {
    assert v[..3][..k] == v[..k] && v[..3][..2] == v[..2];
    assert k <= 2 ==> v[..2][..k] == v[..k];
    if k < 3 { DeadTab(m, root, v[..3], k); }
    if k < 2 { DeadTab(m, root, v[..2], k); }
  }
}
