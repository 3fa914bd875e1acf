/**
 * paging_cow_clone_user (kernel/memory.c): the nested loops that share every user page of
 * one address space with another, copy-on-write.
 */
module CowFork {
  import opened Prelude
  import opened PageTables
  import opened PagingSteps
  import opened Paging
  import opened CowModel
  import opened FlatView

  // ---------------------------------------------------------------- what a clone keeps at every step

  ghost predicate UpperKept(s: Vm, t: Vm) {
    forall f :: f in s.owner && f < NFRAMES && |s.owner[f].path| < 2 ==> t.mem[f] == s.mem[f]
  }

  ghost function CloneState(s: Vm, t: Vm, a: nat, b: nat): Sealed {
    if Wf(t) && Extends(s, t, {a, b}) && UpperKept(s, t) then Intact else Broken
  }

  // Between s and t only page directories and page tables of roots a and b changed.
  ghost predicate Cloning(s: Vm, t: Vm, a: nat, b: nat) {
    CloneState(s, t, a, b) == Intact
  }

  lemma CloningTrans(s: Vm, t: Vm, u: Vm, a: nat, b: nat)
    requires Wf(s) && Cloning(s, t, a, b) && Cloning(t, u, a, b)
    ensures Cloning(s, u, a, b)
  {
    ExtendsTrans(s, t, u, {a, b});
  }

  lemma {:induction false} UpperTab(s: Vm, t: Vm, a: nat, b: nat, root: nat, path: Path)
    requires Wf(s) && Cloning(s, t, a, b) && IsRoot(s, root) && |path| <= 2
    ensures Tab(s.mem, root, path) == Tab(t.mem, root, path)
    decreases |path|
  {
    if path != [] {
      var n := |path| - 1;
      UpperTab(s, t, a, b, root, path[..n]);
      TabOwned(s, root, path[..n]);
    }
  }

  lemma UpperWalk(s: Vm, t: Vm, a: nat, b: nat, f: nat)
    requires Wf(s) && Cloning(s, t, a, b) && OnWalk(s, f) && |s.owner[f].path| <= 2
    ensures OnWalk(t, f) && t.owner[f] == s.owner[f]
  {
    assert IsRoot(s, s.owner[f].root);
    UpperTab(s, t, a, b, s.owner[f].root, s.owner[f].path);
  }

  // The word of a slot's page table is the leaf word.
  lemma LeafWord(s: Vm, f: nat, i: Index, id: nat)
    requires Wf(s) && OnWalk(s, f) && |s.owner[f].path| == 3 && s.owner[f].path in s.slots
    requires id < |s.roots| && s.roots[id] == s.owner[f].root
    ensures Key(id, s.owner[f].path, i) in View(s) && View(s)[Key(id, s.owner[f].path, i)] == s.mem[f][i]
  {
    var root, p := s.owner[f].root, s.owner[f].path;
    assert SlotOk(s.mem, s.roots[id], p) && p == p[..2] + [p[2]];
  }

  // ---------------------------------------------------------------- one pair of pages

  ghost function Pair(s: Vm, f: nat, g: nat, i: Index, w: Word): Vm
    requires f < NFRAMES && g < NFRAMES
  {
    SetLeaf(SetLeaf(s, f, i, w), g, i, w)
  }

  lemma OneLeaf(s: Vm, f: nat, i: Index, w: Word, id: nat, g: nat)
    requires Wf(s) && OnWalk(s, f) && |s.owner[f].path| == 3 && s.owner[f].path in s.slots
    requires w.flags.present ==> w.frame < s.cur && w.frame !in s.owner
    requires id < |s.roots| && s.roots[id] == s.owner[f].root
    requires OnWalk(s, g) && |s.owner[g].path| == 3
    ensures var t := SetLeaf(s, f, i, w);
      Wf(t) && View(t) == View(s)[Key(id, s.owner[f].path, i) := w] && OnWalk(t, g)
  {
    var t := SetLeaf(s, f, i, w);
    LeafStep(s, f, i, w);
    ViewLeaf(s, t, id, s.owner[f].path, i, w);
    assert IsRoot(s, s.owner[g].root);
    StoreTab(s, f, i, w, s.owner[g].root, s.owner[g].path);
  }

  lemma PairStep(s: Vm, f: nat, g: nat, i: Index, w: Word, sid: nat, did: nat, p: Path)
    requires Wf(s) && OnWalk(s, f) && OnWalk(s, g) && p in s.slots && |p| == 3 && sid != did
    requires sid < |s.roots| && s.owner[f] == Pos(s.roots[sid], p)
    requires did < |s.roots| && s.owner[g] == Pos(s.roots[did], p)
    requires w.flags.present ==> w.frame < s.cur && w.frame !in s.owner
    ensures var t := Pair(s, f, g, i, w);
      && Wf(t) && View(t) == View(s)[Key(sid, p, i) := w][Key(did, p, i) := w]
      && OnWalk(t, f) && OnWalk(t, g)
  {
    var a := SetLeaf(s, f, i, w);
    OneLeaf(s, f, i, w, sid, f);
    OneLeaf(s, f, i, w, sid, g);
    OneLeaf(a, g, i, w, did, f);
    OneLeaf(a, g, i, w, did, g);
  }

  // ---------------------------------------------------------------- the loop over a page table

  // The view after the first n pages of slot p were shared.
  ghost function CowUpTo(pte: Ptes, src: nat, dst: nat, p: Path, n: nat): Ptes {
    map k | k in pte ::
      if k.slot == p && k.i < n && k.id == src then CowSrc(pte[k])
      else if k.slot == p && k.i < n && k.id == dst && Key(src, p, k.i) in pte then CowDst(pte[Key(src, p, k.i)])
      else pte[k]
  }

  lemma CowUpToNext(pte: Ptes, src: nat, dst: nat, p: Path, n: Index)
    requires Key(src, p, n) in pte && Key(dst, p, n) in pte && src != dst
    ensures var w := pte[Key(src, p, n)];
      CowUpTo(pte, src, dst, p, n + 1) ==
      CowUpTo(pte, src, dst, p, n)[Key(src, p, n) := CowSrc(w)][Key(dst, p, n) := CowDst(w)]
    ensures CowUpTo(pte, src, dst, p, n)[Key(src, p, n)] == pte[Key(src, p, n)]
  {
  }

  lemma CowUpToSkip(pte: Ptes, src: nat, dst: nat, p: Path, n: Index)
    requires Key(src, p, n) in pte && Key(dst, p, n) in pte && src != dst
    requires !CowUpTo(pte, src, dst, p, n)[Key(src, p, n)].flags.present
    requires CowUpTo(pte, src, dst, p, n)[Key(dst, p, n)] == ZERO
    ensures CowUpTo(pte, src, dst, p, n + 1) == CowUpTo(pte, src, dst, p, n)
  {
    CowUpToNext(pte, src, dst, p, n);
  }

  lemma CowUpToAll(pte: Ptes, src: nat, dst: nat, p: Path)
    ensures CowUpTo(pte, src, dst, p, 512) == CowClone(pte, src, dst, {p})
    ensures CowUpTo(pte, src, dst, p, 0) == pte
  {
  }

  // Only words below n of tables f and g differ.
  ghost predicate Rows(s: Vm, t: Vm, f: nat, g: nat, n: nat) {
    && t == s.(mem := t.mem) && f < NFRAMES && g < NFRAMES
    && (forall h :: 0 <= h < NFRAMES && h != f && h != g ==> t.mem[h] == s.mem[h])
    && (forall k: Index :: k >= n ==> t.mem[f][k] == s.mem[f][k] && t.mem[g][k] == s.mem[g][k])
  }

  lemma RowsNext(s: Vm, t: Vm, f: nat, g: nat, n: Index, w: Word)
    requires Rows(s, t, f, g, n)
    ensures Rows(s, Pair(t, f, g, n, w), f, g, n + 1)
  {
  }

  // What the page-table loop has established after n rounds.
  ghost predicate Sharing(s: Vm, t: Vm, f: nat, g: nat, sid: nat, did: nat, p: Path, n: nat) {
    Wf(t) && OnWalk(t, f) && OnWalk(t, g) && Rows(s, t, f, g, n) && View(t) == CowUpTo(View(s), sid, did, p, n)
  }

  lemma SharingWords(t: Vm, f: nat, g: nat, sid: nat, did: nat, p: Path, n: Index)
    requires Wf(t) && p in t.slots && |p| == 3 && OnWalk(t, f) && OnWalk(t, g)
    requires sid < |t.roots| && t.owner[f] == Pos(t.roots[sid], p)
    requires did < |t.roots| && t.owner[g] == Pos(t.roots[did], p)
    ensures var v, j, k := View(t), Key(sid, p, n), Key(did, p, n);
      j in v && k in v && v[j] == t.mem[f][n] && v[k] == t.mem[g][n]
    ensures t.mem[f][n].flags.present ==> t.mem[f][n].frame < t.cur && t.mem[f][n].frame !in t.owner
  {
    LeafWord(t, f, n, sid);
    LeafWord(t, g, n, did);
    if t.mem[f][n].flags.present {
      ViewData(t, Key(sid, p, n));
    }
  }

  lemma SharingNext(s: Vm, t: Vm, f: nat, g: nat, sid: nat, did: nat, p: Path, n: Index)
    requires p in t.slots && |p| == 3 && sid != did && Sharing(s, t, f, g, sid, did, p, n)
    requires sid < |t.roots| && t.owner[f] == Pos(t.roots[sid], p)
    requires did < |t.roots| && t.owner[g] == Pos(t.roots[did], p)
    requires t.mem[f][n].flags.present
    ensures Sharing(s, Pair(t, f, g, n, Cow(t.mem[f][n])), f, g, sid, did, p, n + 1)
  {
    var w := t.mem[f][n];
    SharingWords(t, f, g, sid, did, p, n);
    PairStep(t, f, g, n, Cow(w), sid, did, p);
    RowsNext(s, t, f, g, n, Cow(w));
    var v, j, k := View(s), Key(sid, p, n), Key(did, p, n);
    assert j in v && k in v && v.Keys == View(t).Keys;
    CowUpToNext(v, sid, did, p, n);
  }

  lemma SharingCounts(s: Vm, t: Vm, f: nat, g: nat, sid: nat, did: nat, p: Path, n: Index, refc: seq<nat>)
    requires Wf(s) && p in s.slots && |p| == 3 && sid != did && f in s.owner && g in s.owner && f != g
    requires sid < |s.roots| && s.owner[f] == Pos(s.roots[sid], p)
    requires did < |s.roots| && s.owner[g] == Pos(s.roots[did], p)
    requires Sharing(s, t, f, g, sid, did, p, n)
    requires CowInv(View(t), refc) && t.mem[f][n].flags.present && !s.mem[g][n].flags.present
    ensures var w := Cow(t.mem[f][n]);
      CowInv(View(Pair(t, f, g, n, w)), RefInc(RefInc(refc, w.frame), w.frame))
  {
    var w := t.mem[f][n];
    SharingWords(t, f, g, sid, did, p, n);
    PairStep(t, f, g, n, Cow(w), sid, did, p);
    ShareKeeps(View(t), refc, Key(sid, p, n), Key(did, p, n));
  }

  // The first n pages of slot p of space id.
  ghost function RowKeys(pte: Ptes, id: nat, p: Path, n: nat): set<Key> {
    set k | k in pte && k.id == id && k.slot == p && k.i < n
  }

  lemma RowKeysNext(pte: Ptes, id: nat, p: Path, n: Index)
    requires Key(id, p, n) in pte
    ensures RowKeys(pte, id, p, n + 1) == RowKeys(pte, id, p, n) + {Key(id, p, n)}
            && Key(id, p, n) !in RowKeys(pte, id, p, n)
  {
  }

  lemma RowKeysEnds(pte: Ptes, id: nat, p: Path)
    ensures RowKeys(pte, id, p, 0) == {} && RowKeys(pte, id, p, 512) == SlotKeys(pte, id, {p})
  {
  }

  // The word about to be shared is still the one of the view at the start of the loop.
  lemma SharingOrigin(s: Vm, t: Vm, f: nat, g: nat, sid: nat, did: nat, p: Path, n: Index)
    requires p in t.slots && |p| == 3 && sid != did && Sharing(s, t, f, g, sid, did, p, n)
    requires sid < |t.roots| && t.owner[f] == Pos(t.roots[sid], p)
    requires did < |t.roots| && t.owner[g] == Pos(t.roots[did], p)
    ensures Key(sid, p, n) in View(s) && View(s)[Key(sid, p, n)] == t.mem[f][n]
  {
    SharingWords(t, f, g, sid, did, p, n);
    assert View(s).Keys == View(t).Keys;
    CowUpToNext(View(s), sid, did, p, n);
  }

  // One round of lines 465-477.
  method SharePage(m: Memory, ghost s: Vm, ghost sid: nat, ghost did: nat, ghost p: Path, spt: nat, dpt: nat, i: Index)
    requires Wf(s) && p in s.slots && |p| == 3 && sid != did && spt in s.owner && dpt in s.owner && spt != dpt
    requires sid < |s.roots| && s.owner[spt] == Pos(s.roots[sid], p)
    requires did < |s.roots| && s.owner[dpt] == Pos(s.roots[did], p)
    requires Sharing(s, m.State(), spt, dpt, sid, did, p, i) && s.mem[dpt][i] == ZERO && CowInv(View(m.State()), m.refc)
    modifies m`mem, m`refc
    ensures Sharing(s, m.State(), spt, dpt, sid, did, p, i + 1) && CowInv(View(m.State()), m.refc)
    ensures var w := old(m.mem[spt][i]);
      m.refc == if w.flags.present then RefInc(RefInc(old(m.refc), w.frame), w.frame) else old(m.refc)
  {
    var w := m.mem[spt][i];
    ghost var t := m.State();
    if w.flags.present {
      SharingNext(s, t, spt, dpt, sid, did, p, i);
      SharingCounts(s, t, spt, dpt, sid, did, p, i, m.refc);
      m.mem := Store(m.mem, spt, i, Cow(w));
      m.refc := RefInc(m.refc, w.frame);
      m.mem := Store(m.mem, dpt, i, Cow(w));
      m.refc := RefInc(m.refc, w.frame);
      assert m.State() == Pair(t, spt, dpt, i, Cow(w));
    } else {
      SharingSkip(s, t, spt, dpt, sid, did, p, i);
      StoreSame(m.mem, dpt, i);
      m.mem := Store(m.mem, dpt, i, ZERO);
    }
  }

  // The counts after one more round.
  lemma RoundRise(pte: Ptes, r: seq<nat>, q: seq<nat>, refc: seq<nat>, id: nat, p: Path, n: Index)
    requires CountsRise(pte, r, q, RowKeys(pte, id, p, n)) && Key(id, p, n) in pte
    requires var w := pte[Key(id, p, n)]; refc == if w.flags.present then RefInc(RefInc(q, w.frame), w.frame) else q
    ensures CountsRise(pte, r, refc, RowKeys(pte, id, p, n + 1))
  {
    var d, k := RowKeys(pte, id, p, n), Key(id, p, n);
    RowKeysNext(pte, id, p, n);
    if pte[k].flags.present { RiseOne(pte, r, q, d, k); } else { RiseOutside(pte, r, q, d, {k}); }
  }

  // Lines 465-477: share the pages of one page table, counting two references for each.
  method SharePages(m: Memory, ghost sid: nat, ghost did: nat, ghost p: Path, spt: nat, dpt: nat)
    requires Wf(m.State()) && OnWalk(m.State(), spt) && OnWalk(m.State(), dpt) && p in m.slots && |p| == 3 && sid != did
    requires sid < |m.roots| && m.owner[spt] == Pos(m.roots[sid], p)
    requires did < |m.roots| && m.owner[dpt] == Pos(m.roots[did], p)
    requires m.mem[dpt] == ZeroPage() && CowInv(View(m.State()), m.refc)
    modifies m`mem, m`refc
    ensures Wf(m.State()) && Rows(old(m.State()), m.State(), spt, dpt, 512)
    ensures CowInv(View(m.State()), m.refc)
    ensures View(m.State()) == CowClone(View(old(m.State())), sid, did, {p})
    ensures CountsRise(View(old(m.State())), old(m.refc), m.refc, SlotKeys(View(old(m.State())), sid, {p}))
  {
    ghost var s, r := m.State(), m.refc;
    CowUpToAll(View(s), sid, did, p);
    RowKeysEnds(View(s), sid, p);
    RiseNone(View(s), r);
    assert s.roots[sid] != s.roots[did];
    var i := 0;
    while i < 512
      invariant i <= 512 && Sharing(s, m.State(), spt, dpt, sid, did, p, i) && CowInv(View(m.State()), m.refc)
      invariant CountsRise(View(s), r, m.refc, RowKeys(View(s), sid, p, i))
    {
      ghost var q := m.refc;
      SharingOrigin(s, m.State(), spt, dpt, sid, did, p, i);
      SharePage(m, s, sid, did, p, spt, dpt, i);
      RoundRise(View(s), r, q, m.refc, sid, p, i);
      i := i + 1;
    }
  }

  lemma SharingSkip(s: Vm, t: Vm, f: nat, g: nat, sid: nat, did: nat, p: Path, n: Index)
    requires p in t.slots && |p| == 3 && sid != did && Sharing(s, t, f, g, sid, did, p, n)
    requires sid < |t.roots| && t.owner[f] == Pos(t.roots[sid], p)
    requires did < |t.roots| && t.owner[g] == Pos(t.roots[did], p)
    requires !t.mem[f][n].flags.present && s.mem[g][n] == ZERO
    ensures Sharing(s, t, f, g, sid, did, p, n + 1) && t.mem[g][n] == ZERO
  {
    SharingWords(t, f, g, sid, did, p, n);
    var v, j, k := View(s), Key(sid, p, n), Key(did, p, n);
    assert j in v && k in v && v.Keys == View(t).Keys;
    CowUpToSkip(v, sid, did, p, n);
  }

  // ---------------------------------------------------------------- a huge page of the source

  // The view while the two fresh tables of slot p are being filled.
  ghost function HugeUpTo(pte: Ptes, src: nat, dst: nat, p: Path, n: nat): Ptes {
    map k | k in pte ::
      if k.slot == p && (k.id == src || k.id == dst)
      then if k.i < n && Key(src, p, k.i) in pte then Cow(pte[Key(src, p, k.i)]) else ZERO
      else pte[k]
  }

  lemma HugeUpToNext(pte: Ptes, src: nat, dst: nat, p: Path, n: Index)
    requires Key(src, p, n) in pte && Key(dst, p, n) in pte && src != dst
    ensures var w := Cow(pte[Key(src, p, n)]);
      HugeUpTo(pte, src, dst, p, n + 1) == HugeUpTo(pte, src, dst, p, n)[Key(src, p, n) := w][Key(dst, p, n) := w]
  {
  }

  lemma HugeUpToEnds(pte: Ptes, src: nat, dst: nat, p: Path)
    requires forall k :: k in pte && k.slot == p && (k.id == src || k.id == dst) ==>
      Key(src, p, k.i) in pte && pte[Key(src, p, k.i)].flags.present
    ensures HugeUpTo(pte, src, dst, p, 0) == DropSlot(DropSlot(pte, dst, p), src, p)
    ensures HugeUpTo(pte, src, dst, p, 512) == CowClone(pte, src, dst, {p})
  {
  }

  // What the loop over a huge page has established after n rounds; v is the view it started from.
  ghost predicate Sharding(v: Ptes, s: Vm, t: Vm, f: nat, g: nat, sid: nat, did: nat, p: Path, n: nat) {
    Wf(t) && OnWalk(t, f) && OnWalk(t, g) && Rows(s, t, f, g, n) && View(t) == HugeUpTo(v, sid, did, p, n)
  }

  lemma ShardStep(v: Ptes, s: Vm, t: Vm, f: nat, g: nat, sid: nat, did: nat, p: Path, i: Index, w: Word, refc: seq<nat>)
    requires p in t.slots && |p| == 3 && sid != did && Sharding(v, s, t, f, g, sid, did, p, i)
    requires sid < |t.roots| && t.owner[f] == Pos(t.roots[sid], p)
    requires did < |t.roots| && t.owner[g] == Pos(t.roots[did], p)
    requires Key(sid, p, i) in v && Key(did, p, i) in v && w == Cow(v[Key(sid, p, i)])
    requires w.frame < POOL_START && w.frame !in t.owner && CowInv(View(t), refc)
    ensures Sharding(v, s, Pair(t, f, g, i, w), f, g, sid, did, p, i + 1) && CowInv(View(Pair(t, f, g, i, w)), refc)
  {
    assert Owned(t);
    PairStep(t, f, g, i, w, sid, did, p);
    RowsNext(s, t, f, g, i, w);
    HugeUpToNext(v, sid, did, p, i);
    OutsidePair(View(t), refc, Key(sid, p, i), Key(did, p, i), w);
  }

  lemma OutsidePair(pte: Ptes, refc: seq<nat>, j: Key, k: Key, w: Word)
    requires CowInv(pte, refc) && j in pte && k in pte && !InPool(w.frame)
    ensures CowInv(pte[j := w][k := w], refc)
  {
    OutsideKeeps(pte, refc, j, w);
    OutsideKeeps(pte[j := w], refc, k, w);
  }

  // One round of lines 449-457.
  method ShareShard(m: Memory, ghost v: Ptes, ghost s: Vm, ghost sid: nat, ghost did: nat, ghost p: Path,
                    spt: nat, dpt: nat, e: Word, i: Index)
    requires p in m.slots && |p| == 3 && sid != did && Sharding(v, s, m.State(), spt, dpt, sid, did, p, i)
    requires sid < |m.roots| && m.owner[spt] == Pos(m.roots[sid], p)
    requires did < |m.roots| && m.owner[dpt] == Pos(m.roots[did], p)
    requires Base(e.frame) + 512 <= POOL_START && CowInv(View(m.State()), m.refc)
    requires Key(sid, p, i) in v && v[Key(sid, p, i)].frame !in m.owner && e.flags.present
    requires Key(did, p, i) in v && v[Key(sid, p, i)] == Word(Base(e.frame) + i, e.flags.(huge := false))
    modifies m`mem, m`refc
    ensures Sharding(v, s, m.State(), spt, dpt, sid, did, p, i + 1) && CowInv(View(m.State()), m.refc)
    ensures m.refc == old(m.refc)
  {
    var w := Word(Base(e.frame) + i, e.flags.(huge := false, present := true, cow := true, rw := false));
    ShardStep(v, s, m.State(), spt, dpt, sid, did, p, i, w, m.refc);
    m.mem := Store(m.mem, spt, i, w);
    m.mem := Store(m.mem, dpt, i, w);
    m.refc := RefInc(m.refc, w.frame);
    m.refc := RefInc(m.refc, w.frame);
  }

  // Lines 449-457: fill both fresh tables with the pages of the huge entry e.
  method ShareHuge(m: Memory, ghost v: Ptes, ghost sid: nat, ghost did: nat, ghost p: Path, spt: nat, dpt: nat, e: Word)
    requires Wf(m.State()) && OnWalk(m.State(), spt) && OnWalk(m.State(), dpt) && p in m.slots && |p| == 3 && sid != did
    requires sid < |m.roots| && m.owner[spt] == Pos(m.roots[sid], p)
    requires did < |m.roots| && m.owner[dpt] == Pos(m.roots[did], p)
    requires e.flags.present && Base(e.frame) + 512 <= POOL_START && CowInv(View(m.State()), m.refc)
    requires v.Keys == View(m.State()).Keys && View(m.State()) == DropSlot(DropSlot(v, did, p), sid, p)
    requires forall i: Index ::
      Key(sid, p, i) in v && v[Key(sid, p, i)].frame !in m.owner
      && v[Key(sid, p, i)] == Word(Base(e.frame) + i, e.flags.(huge := false))
    modifies m`mem, m`refc
    ensures Wf(m.State()) && Rows(old(m.State()), m.State(), spt, dpt, 512)
    ensures CowInv(View(m.State()), m.refc) && m.refc == old(m.refc)
    ensures View(m.State()) == CowClone(v, sid, did, {p})
  {
    ghost var s := m.State();
    HugeUpToEnds(v, sid, did, p);
    var i := 0;
    while i < 512
      invariant i <= 512 && Sharding(v, s, m.State(), spt, dpt, sid, did, p, i) && CowInv(View(m.State()), m.refc)
      invariant m.refc == old(m.refc)
    {
      assert Key(did, p, i) in View(s);
      ShareShard(m, v, s, sid, did, p, spt, dpt, e, i);
      i := i + 1;
    }
  }

  // ---------------------------------------------------------------- one slot

  // Dropping a slot of the destination never breaks the discipline.
  lemma DropSlotKeeps(pte: Ptes, refc: seq<nat>, id: nat, p: Path)
    requires CowInv(pte, refc)
    ensures CowInv(DropSlot(pte, id, p), refc)
  {
    DropKeeps(pte, DropSlot(pte, id, p), refc);
  }

  lemma CloneAfterDrop(pte: Ptes, src: nat, dst: nat, p: Path)
    requires src != dst && forall k :: k in pte && k.slot == p && k.id == dst ==> Key(src, p, k.i) in pte
    ensures CowClone(DropSlot(pte, dst, p), src, dst, {p}) == CowClone(pte, src, dst, {p})
  {
  }

  // Lines 460-462 and 439-441: give slot entry c of directory pd a fresh, empty table.
  method RenewTable(m: Memory, ghost id: nat, pd: nat, c: Index) returns (pt: nat)
    requires Wf(m.State()) && OnWalk(m.State(), pd) && |m.owner[pd].path| == 2 && m.owner[pd].path + [c] in m.slots
    requires id < |m.roots| && m.roots[id] == m.owner[pd].root
    modifies m`mem, m`cur, m`owner
    ensures pt == 0 ==> m.State() == old(m.State()) && m.cur == POOL_END
    ensures pt != 0 ==>
        pt == old(m.cur) < NFRAMES && m.mem[pt] == ZeroPage() && Renewed(old(m.State()), m.State(), pd, c, id)
    ensures Wf(m.State())
  {
    ghost var s := m.State();
    pt := m.AllocPage();
    if pt != 0 {
      AllocRenew(s, pd, c, id);
      m.mem := Store(m.mem, pd, c, Word(pt, USER_TABLE));
      m.owner := m.owner[pt := Pos(s.owner[pd].root, s.owner[pd].path + [c])];
      assert m.State() == Link(Alloc(s), pd, c, pt, USER_TABLE);
    }
  }

  method RenewEntry(m: Memory, ghost id: nat, pd: nat, c: Index) returns (pt: nat)
    requires Wf(m.State()) && OnWalk(m.State(), pd) && |m.owner[pd].path| == 2 && m.owner[pd].path + [c] in m.slots
    requires id < |m.roots| && m.roots[id] == m.owner[pd].root && CowInv(View(m.State()), m.refc)
    modifies m`mem, m`cur, m`owner
    ensures pt == 0 ==> m.State() == old(m.State()) && m.cur == POOL_END
    ensures pt != 0 ==>
        pt == old(m.cur) < NFRAMES && m.mem[pt] == ZeroPage() && Renewed(old(m.State()), m.State(), pd, c, id)
    ensures Wf(m.State()) && CowInv(View(m.State()), m.refc)
  {
    DropSlotKeeps(View(m.State()), m.refc, id, m.owner[pd].path + [c]);
    pt := RenewTable(m, id, pd, c);
  }

  lemma RenewedCloning(s: Vm, t: Vm, pd: nat, c: Index, id: nat, a: nat, b: nat)
    requires Wf(s) && Wf(t) && Renewed(s, t, pd, c, id) && (s.owner[pd].root == a || s.owner[pd].root == b)
    ensures Cloning(s, t, a, b)
  {
    assert Extends(s, t, {s.owner[pd].root});
  }

  lemma RowsCloning(s: Vm, t: Vm, f: nat, g: nat, a: nat, b: nat)
    requires Wf(s) && Wf(t) && Rows(s, t, f, g, 512) && f in s.owner && g in s.owner
    requires s.owner[f].root == a && s.owner[g].root == b && |s.owner[f].path| == 3 && |s.owner[g].path| == 3
    ensures Cloning(s, t, a, b)
  {
  }

  // A table of another root is still on its walk after a renewal.
  lemma RenewedWalk(s: Vm, t: Vm, pd: nat, c: Index, id: nat, f: nat)
    requires Wf(s) && Wf(t) && Renewed(s, t, pd, c, id) && OnWalk(s, f) && s.owner[f].root != s.owner[pd].root
    ensures OnWalk(t, f) && t.owner[f] == s.owner[f] && t.mem[f] == s.mem[f]
  {
    assert IsRoot(s, s.owner[f].root) && SameTables(s, t, s.owner[f].root);
    SameTab(s, t, s.owner[f].root, s.owner[f].path);
  }

  // The pages of a slot that is still huge.
  lemma HugeWord(s: Vm, pd: nat, c: Index, id: nat)
    requires Wf(s) && OnWalk(s, pd) && |s.owner[pd].path| == 2 && s.owner[pd].path + [c] in s.slots
    requires id < |s.roots| && s.roots[id] == s.owner[pd].root && s.mem[pd][c].flags.huge
    ensures HugeSlot(s, id, s.owner[pd].path + [c], s.mem[pd][c])
  {
    var p := s.owner[pd].path + [c];
    assert p[..2] == s.owner[pd].path && SlotOk(s.mem, s.roots[id], p);
    forall i: Index ensures View(s)[Key(id, p, i)].frame !in s.owner {
      ViewData(s, Key(id, p, i));
    }
  }

  // The page table of a slot that is not huge.
  lemma SlotTable(s: Vm, pd: nat, c: Index)
    requires Wf(s) && OnWalk(s, pd) && |s.owner[pd].path| == 2 && s.owner[pd].path + [c] in s.slots
    requires !s.mem[pd][c].flags.huge
    ensures var pt := s.mem[pd][c].frame;
      OnWalk(s, pt) && s.owner[pt] == Pos(s.owner[pd].root, s.owner[pd].path + [c])
  {
    var root, p := s.owner[pd].root, s.owner[pd].path + [c];
    var k :| 0 <= k < |s.roots| && s.roots[k] == root;
    assert p[..2] == s.owner[pd].path && SlotOk(s.mem, s.roots[k], p) && IsRoot(s, root);
    TabOwned(s, root, p);
  }

  // ---------------------------------------------------------------- what a clone has done so far

  ghost function PartState(s: Vm, t: Vm, sid: nat, did: nat, done: set<Path>, dropped: set<Path>,
                           r: seq<nat>, refc: seq<nat>): Sealed {
    if && sid < |s.roots| && did < |s.roots|
       && Cloning(s, t, s.roots[sid], s.roots[did])
       && CowInv(View(t), refc) && done !! dropped
       && View(t) == DropSlots(CowClone(View(s), sid, did, done), did, dropped)
       && CountsRise(View(s), r, refc, SlotKeys(View(s), sid, done))
    then Intact else Broken
  }

  // Between s and t the slots done were cloned, the slots dropped of the destination lost
  // their pages, and the counts rose from r to refc by two for every page shared.
  ghost predicate PartCloned(s: Vm, t: Vm, sid: nat, did: nat, done: set<Path>, dropped: set<Path>,
                             r: seq<nat>, refc: seq<nat>) {
    PartState(s, t, sid, did, done, dropped, r, refc) == Intact
  }

  // The same when nothing was dropped, the invariant of every loop.
  ghost predicate Cloned(s: Vm, t: Vm, sid: nat, did: nat, done: set<Path>, r: seq<nat>, refc: seq<nat>) {
    PartCloned(s, t, sid, did, done, {}, r, refc)
  }

  lemma PartFacts(s: Vm, t: Vm, sid: nat, did: nat, done: set<Path>, dropped: set<Path>, r: seq<nat>, refc: seq<nat>)
    requires PartCloned(s, t, sid, did, done, dropped, r, refc)
    ensures sid < |s.roots| && did < |s.roots| && Cloning(s, t, s.roots[sid], s.roots[did])
    ensures Wf(t) && t.roots == s.roots && t.slots == s.slots && CowInv(View(t), refc)
  {
  }

  lemma DropNone(pte: Ptes, id: nat)
    ensures DropSlots(pte, id, {}) == pte
  {
  }

  lemma ClonedNothing(s: Vm, sid: nat, did: nat, refc: seq<nat>)
    requires Wf(s) && sid < |s.roots| && did < |s.roots| && CowInv(View(s), refc)
    ensures Cloned(s, s, sid, did, {}, refc, refc)
  {
    CloneNone(View(s), sid, did);
    DropNone(View(s), did);
    CloningSame(s, s.roots[sid], s.roots[did]);
    RiseNothing(View(s), sid, refc);
  }

  // One slot was cloned.
  lemma ClonedOne(s: Vm, t: Vm, sid: nat, did: nat, p: Path, r: seq<nat>, refc: seq<nat>)
    requires sid < |s.roots| && did < |s.roots| && Cloning(s, t, s.roots[sid], s.roots[did]) && CowInv(View(t), refc)
    requires View(t) == CowClone(View(s), sid, did, {p})
    requires CountsRise(View(s), r, refc, SlotKeys(View(s), sid, {p}))
    ensures Cloned(s, t, sid, did, {p}, r, refc)
  {
    DropNone(View(t), did);
  }

  // The pages taken: two for every slot cloned, one for a slot that was only emptied. A
  // failure means that none are left.
  ghost predicate Spent(was: nat, now: nat, done: set<Path>, dropped: set<Path>, ok: bool) {
    now <= was + 2 * |done| + |dropped| && (!ok ==> now == POOL_END)
  }

  lemma SpentMore(was: nat, mid: nat, now: nat, done: set<Path>, more: set<Path>, dropped: set<Path>, ok: bool)
    requires Spent(was, mid, done, {}, true) && Spent(mid, now, more, dropped, ok) && done !! more
    ensures Spent(was, now, done + more, dropped, ok)
  {
    assert |done + more| == |done| + |more|;
  }

  ghost function SweepState(s: Vm, t: Vm, sid: nat, did: nat, goal: set<Path>, done: set<Path>, dropped: set<Path>,
                            r: seq<nat>, refc: seq<nat>, ok: bool): Sealed {
    if && PartCloned(s, t, sid, did, done, dropped, r, refc) && Spent(s.cur, t.cur, done, dropped, ok)
       && (if ok then done == goal && dropped == {} else done + dropped <= goal && done != goal)
    then Intact else Broken
  }

  // Between s and t a loop went over the slots in goal: on success it cloned them all, and
  // otherwise some are missing and no pages are left.
  ghost predicate Swept(s: Vm, t: Vm, sid: nat, did: nat, goal: set<Path>, done: set<Path>, dropped: set<Path>,
                        r: seq<nat>, refc: seq<nat>, ok: bool) {
    SweepState(s, t, sid, did, goal, done, dropped, r, refc, ok) == Intact
  }

  lemma SweptFacts(s: Vm, t: Vm, sid: nat, did: nat, goal: set<Path>, done: set<Path>, dropped: set<Path>,
                   r: seq<nat>, refc: seq<nat>, ok: bool)
    requires Swept(s, t, sid, did, goal, done, dropped, r, refc, ok)
    ensures sid < |s.roots| && did < |s.roots| && Cloning(s, t, s.roots[sid], s.roots[did])
    ensures Wf(t) && t.roots == s.roots && t.slots == s.slots && CowInv(View(t), refc)
  {
    PartFacts(s, t, sid, did, done, dropped, r, refc);
  }

  lemma SweptNothing(s: Vm, sid: nat, did: nat, refc: seq<nat>)
    requires Wf(s) && sid < |s.roots| && did < |s.roots| && CowInv(View(s), refc)
    ensures Swept(s, s, sid, did, {}, {}, {}, refc, refc, true)
  {
    ClonedNothing(s, sid, did, refc);
  }

  // Pages ran out before the slot was touched.
  lemma SweptNone(s: Vm, sid: nat, did: nat, p: Path, refc: seq<nat>)
    requires Wf(s) && sid < |s.roots| && did < |s.roots| && CowInv(View(s), refc) && s.cur == POOL_END
    ensures Swept(s, s, sid, did, {p}, {}, {}, refc, refc, false)
  {
    ClonedNothing(s, sid, did, refc);
  }

  ghost function ReadyState(s: Vm, refc: seq<nat>, sid: nat, did: nat, q: Path, sp: nat, dp: nat): Sealed {
    if && Wf(s) && CowInv(View(s), refc) && sid != did && sid < |s.roots| && did < |s.roots|
       && OnWalk(s, sp) && OnWalk(s, dp)
       && s.owner[sp] == Pos(s.roots[sid], q) && s.owner[dp] == Pos(s.roots[did], q)
    then Intact else Broken
  }

  // sp and dp are the tables at position q of the source and the destination.
  ghost predicate Ready(s: Vm, refc: seq<nat>, sid: nat, did: nat, q: Path, sp: nat, dp: nat) {
    ReadyState(s, refc, sid, did, q, sp, dp) == Intact
  }

  // They stay so above the page tables, whatever has been cloned.
  lemma StillReady(s: Vm, t: Vm, sid: nat, did: nat, q: Path, sp: nat, dp: nat, done: set<Path>,
                   r: seq<nat>, refc: seq<nat>)
    requires Ready(s, r, sid, did, q, sp, dp) && |q| <= 2 && Swept(s, t, sid, did, done, done, {}, r, refc, true)
    ensures Ready(t, refc, sid, did, q, sp, dp) && t.slots == s.slots && t.roots == s.roots
  {
    SweptFacts(s, t, sid, did, done, done, {}, r, refc, true);
    UpperWalk(s, t, s.roots[sid], s.roots[did], sp);
    UpperWalk(s, t, s.roots[sid], s.roots[did], dp);
  }

  lemma TableReady(s: Vm, t: Vm, refc: seq<nat>, sid: nat, did: nat, q: Path, spd: nat, dpd: nat, c: Index, dpt: nat)
    requires Ready(s, refc, sid, did, q, spd, dpd) && |q| == 2 && q + [c] in s.slots && !s.mem[spd][c].flags.huge
    requires Wf(t) && CowInv(View(t), refc) && Renewed(s, t, dpd, c, did) && dpt == s.cur < NFRAMES
    ensures Ready(t, refc, sid, did, q + [c], s.mem[spd][c].frame, dpt)
    ensures t.slots == s.slots && t.roots == s.roots && s.roots[sid] != s.roots[did]
  {
    assert s.roots[sid] != s.roots[did];
    SlotTable(s, spd, c);
    RenewedWalk(s, t, dpd, c, did, s.mem[spd][c].frame);
  }

  lemma TableCloned(s: Vm, t: Vm, u: Vm, r: seq<nat>, refc: seq<nat>, sid: nat, did: nat, q: Path,
                    spd: nat, dpd: nat, c: Index, spt: nat, dpt: nat)
    requires Ready(s, r, sid, did, q, spd, dpd) && |q| == 2 && s.roots[sid] != s.roots[did]
    requires Wf(t) && Renewed(s, t, dpd, c, did) && Ready(t, r, sid, did, q + [c], spt, dpt) && t.roots == s.roots
    requires Wf(u) && Rows(t, u, spt, dpt, 512) && CowInv(View(u), refc)
    requires View(u) == CowClone(View(t), sid, did, {q + [c]})
    requires CountsRise(View(t), r, refc, SlotKeys(View(t), sid, {q + [c]}))
    ensures Cloned(s, u, sid, did, {q + [c]}, r, refc)
  {
    var p, a, b := q + [c], s.roots[sid], s.roots[did];
    RenewedCloning(s, t, dpd, c, did, a, b);
    RowsCloning(t, u, spt, dpt, a, b);
    CloningTrans(s, t, u, a, b);
    TwinKeys(s, sid, did);
    CloneAfterDrop(View(s), sid, did, p);
    RiseAfterDrop(View(s), r, refc, sid, did, p);
    ClonedOne(s, u, sid, did, p, r, refc);
  }

  // Lines 432-478 for one directory entry that is open to user mode.
  method CloneTable(m: Memory, ghost sid: nat, ghost did: nat, ghost q: Path, spd: nat, dpd: nat, c: Index)
    returns (ok: bool)
    requires Ready(m.State(), m.refc, sid, did, q, spd, dpd) && |q| == 2 && q + [c] in m.slots
    requires !m.mem[spd][c].flags.huge
    modifies m`mem, m`cur, m`owner, m`refc
    ensures Swept(old(m.State()), m.State(), sid, did, {q + [c]}, if ok then {q + [c]} else {}, {},
                  old(m.refc), m.refc, ok)
  {
    ghost var s, r := m.State(), m.refc;
    var spt := m.mem[spd][c].frame;
    var dpt := RenewEntry(m, did, dpd, c);
    if dpt == 0 {
      SweptNone(s, sid, did, q + [c], r);
      return false;
    }
    ghost var t := m.State();
    TableReady(s, t, r, sid, did, q, spd, dpd, c, dpt);
    SharePages(m, sid, did, q + [c], spt, dpt);
    TableCloned(s, t, m.State(), r, m.refc, sid, did, q, spd, dpd, c, spt, dpt);
    SweptOne(s, m.State(), sid, did, q + [c], r, m.refc);
    ok := true;
  }

  lemma RiseAfterDrop(pte: Ptes, r: seq<nat>, refc: seq<nat>, src: nat, dst: nat, p: Path)
    requires src != dst
    requires CountsRise(DropSlot(pte, dst, p), r, refc, SlotKeys(DropSlot(pte, dst, p), src, {p}))
    ensures CountsRise(pte, r, refc, SlotKeys(pte, src, {p}))
  {
    var now, d := DropSlot(pte, dst, p), SlotKeys(pte, src, {p});
    assert SlotKeys(now, src, {p}) == d;
    forall f | InPool(f) ensures RefGet(refc, f) == RefGet(r, f) + 2 * |PagesIn(pte, d, f)| {
      assert PagesIn(now, d, f) == PagesIn(pte, d, f);
    }
  }

  ghost function SplitState(s: Vm, t: Vm, sid: nat, did: nat, p: Path, spt: nat, dpt: nat): Sealed {
    if && sid < |s.roots| && did < |s.roots| && Cloning(s, t, s.roots[sid], s.roots[did])
       && OnWalk(t, spt) && OnWalk(t, dpt)
       && t.owner[spt] == Pos(s.roots[sid], p) && t.owner[dpt] == Pos(s.roots[did], p)
       && View(t) == DropSlot(DropSlot(View(s), did, p), sid, p)
    then Intact else Broken
  }

  // Slot p has fresh, empty tables on both sides.
  ghost predicate SplitOpen(s: Vm, t: Vm, sid: nat, did: nat, p: Path, spt: nat, dpt: nat) {
    SplitState(s, t, sid, did, p, spt, dpt) == Intact
  }

  ghost function HugeState(s: Vm, id: nat, p: Path, e: Word): Sealed {
    if && e.flags.present && Base(e.frame) + 512 <= POOL_START
       && (forall i: Index ::
             && Key(id, p, i) in View(s) && View(s)[Key(id, p, i)] == Word(Base(e.frame) + i, e.flags.(huge := false))
             && View(s)[Key(id, p, i)].frame !in s.owner)
    then Intact else Broken
  }

  // The pages of slot p of space id are those of the huge entry e, below the pool.
  ghost predicate HugeSlot(s: Vm, id: nat, p: Path, e: Word) {
    HugeState(s, id, p, e) == Intact
  }

  // Lines 439-446: fresh tables for slot entry c on both sides.
  method RenewBoth(m: Memory, ghost sid: nat, ghost did: nat, ghost q: Path, spd: nat, dpd: nat, c: Index)
    returns (spt: nat, dpt: nat)
    requires Ready(m.State(), m.refc, sid, did, q, spd, dpd) && |q| == 2 && q + [c] in m.slots
    modifies m`mem, m`cur, m`owner
    ensures Cloning(old(m.State()), m.State(), old(m.roots[sid]), old(m.roots[did])) && CowInv(View(m.State()), m.refc)
    ensures spt != 0 ==> SplitOpen(old(m.State()), m.State(), sid, did, q + [c], spt, dpt)
    ensures spt == 0 && dpt == 0 ==> m.State() == old(m.State())
    ensures spt == 0 && dpt != 0 ==> View(m.State()) == DropSlot(View(old(m.State())), did, q + [c])
    ensures (spt == 0 ==> m.cur == POOL_END) && m.cur <= old(m.cur) + if spt == 0 then 1 else 2
  {
    ghost var s := m.State();
    ghost var a, b := m.roots[sid], m.roots[did];
    assert a != b;
    spt := 0;
    dpt := RenewEntry(m, did, dpd, c);
    if dpt == 0 {
      CloningSame(s, a, b);
      return;
    }
    ghost var t := m.State();
    RenewedCloning(s, t, dpd, c, did, a, b);
    RenewedWalk(s, t, dpd, c, did, spd);
    spt := RenewEntry(m, sid, spd, c);
    if spt == 0 {
      return;
    }
    ghost var u := m.State();
    RenewedCloning(t, u, spd, c, sid, a, b);
    CloningTrans(s, t, u, a, b);
    RenewedWalk(t, u, spd, c, sid, dpt);
  }

  lemma CloningSame(s: Vm, a: nat, b: nat)
    requires Wf(s)
    ensures Cloning(s, s, a, b)
  {
  }

  // Lines 437-457: the directory entry is still a huge page, split on both sides. When the
  // pages run out between the two tables, the destination's slot is left empty.
  method CloneHuge(m: Memory, ghost sid: nat, ghost did: nat, ghost q: Path, spd: nat, dpd: nat, c: Index)
    returns (ok: bool, ghost dropped: set<Path>)
    requires Ready(m.State(), m.refc, sid, did, q, spd, dpd) && |q| == 2 && q + [c] in m.slots
    requires m.mem[spd][c].flags.huge
    modifies m`mem, m`cur, m`owner, m`refc
    ensures Swept(old(m.State()), m.State(), sid, did, {q + [c]}, if ok then {q + [c]} else {}, dropped,
                  old(m.refc), m.refc, ok)
  {
    ghost var s, r, p := m.State(), m.refc, q + [c];
    ReadyHuge(s, r, sid, did, q, spd, dpd, c);
    var e := m.mem[spd][c];
    var spt, dpt := RenewBoth(m, sid, did, q, spd, dpd, c);
    if spt == 0 {
      NotSplit(s, m.State(), sid, did, p, r, dpt);
      return false, if dpt == 0 then {} else {p};
    }
    ShareSplit(m, s, sid, did, p, spt, dpt, e);
    SweptOne(s, m.State(), sid, did, p, r, m.refc);
    ok, dropped := true, {};
  }

  lemma ReadyHuge(s: Vm, r: seq<nat>, sid: nat, did: nat, q: Path, spd: nat, dpd: nat, c: Index)
    requires Ready(s, r, sid, did, q, spd, dpd) && |q| == 2 && q + [c] in s.slots
    ensures Wf(s) && sid != did && sid < |s.roots| && did < |s.roots| && spd < |s.mem|
    ensures s.mem[spd][c].flags.huge ==> HugeSlot(s, sid, q + [c], s.mem[spd][c])
  {
    if s.mem[spd][c].flags.huge { HugeWord(s, spd, c, sid); }
  }

  lemma NotSplit(s: Vm, t: Vm, sid: nat, did: nat, p: Path, r: seq<nat>, dpt: nat)
    requires Wf(s) && sid < |s.roots| && did < |s.roots| && t.cur == POOL_END <= s.cur + 1 && CowInv(View(t), r)
    requires Cloning(s, t, s.roots[sid], s.roots[did])
    requires if dpt == 0 then t == s else View(t) == DropSlot(View(s), did, p)
    ensures Swept(s, t, sid, did, {p}, {}, if dpt == 0 then {} else {p}, r, r, false)
  {
    if dpt == 0 { SweptNone(s, sid, did, p, r); } else { SweptAway(s, t, sid, did, p, r); }
  }

  lemma SweptOne(s: Vm, t: Vm, sid: nat, did: nat, p: Path, r: seq<nat>, refc: seq<nat>)
    requires Cloned(s, t, sid, did, {p}, r, refc) && t.cur <= s.cur + 2
    ensures Swept(s, t, sid, did, {p}, {p}, {}, r, refc, true)
  {
  }

  lemma SweptAway(s: Vm, t: Vm, sid: nat, did: nat, p: Path, r: seq<nat>)
    requires sid < |s.roots| && did < |s.roots| && t.cur == POOL_END <= s.cur + 1
    requires Cloning(s, t, s.roots[sid], s.roots[did]) && CowInv(View(t), r) && View(t) == DropSlot(View(s), did, p)
    ensures Swept(s, t, sid, did, {p}, {}, {p}, r, r, false)
  {
    DroppedOnly(s, t, sid, did, p, r);
  }

  lemma CloningOwner(s: Vm, t: Vm, a: nat, b: nat)
    requires Cloning(s, t, a, b)
    ensures forall f :: f in t.owner ==> f in s.owner || f >= s.cur
  {
  }

  // The second half: both tables are fresh; s is the state before they were.
  method ShareSplit(m: Memory, ghost s: Vm, ghost sid: nat, ghost did: nat, ghost p: Path, spt: nat, dpt: nat, e: Word)
    requires Wf(s) && p in s.slots && |p| == 3 && sid != did && sid < |s.roots| && did < |s.roots|
    requires SplitOpen(s, m.State(), sid, did, p, spt, dpt) && CowInv(View(m.State()), m.refc) && HugeSlot(s, sid, p, e)
    modifies m`mem, m`refc
    ensures Cloned(s, m.State(), sid, did, {p}, old(m.refc), m.refc)
  {
    ghost var u, r := m.State(), m.refc;
    SplitReady(s, u, sid, did, p, spt, dpt);
    HugeReady(s, u, sid, p, e);
    ShareHuge(m, View(s), sid, did, p, spt, dpt, e);
    SplitCloned(s, u, m.State(), sid, did, p, spt, dpt, e, r);
  }

  lemma SplitReady(s: Vm, u: Vm, sid: nat, did: nat, p: Path, spt: nat, dpt: nat)
    requires SplitOpen(s, u, sid, did, p, spt, dpt)
    ensures Wf(u) && u.roots == s.roots && u.slots == s.slots && OnWalk(u, spt) && OnWalk(u, dpt)
    ensures u.owner[spt] == Pos(u.roots[sid], p) && u.owner[dpt] == Pos(u.roots[did], p)
    ensures View(s).Keys == View(u).Keys && View(u) == DropSlot(DropSlot(View(s), did, p), sid, p)
    ensures forall f :: f in u.owner ==> f in s.owner || f >= s.cur
  {
    CloningFacts(s, u, s.roots[sid], s.roots[did]);
    CloningOwner(s, u, s.roots[sid], s.roots[did]);
  }

  lemma HugeReady(s: Vm, u: Vm, sid: nat, p: Path, e: Word)
    requires Wf(s) && HugeSlot(s, sid, p, e) && forall f :: f in u.owner ==> f in s.owner || f >= s.cur
    ensures e.flags.present && Base(e.frame) + 512 <= POOL_START
    ensures forall i: Index ::
      && Key(sid, p, i) in View(s) && View(s)[Key(sid, p, i)].frame !in u.owner
      && View(s)[Key(sid, p, i)] == Word(Base(e.frame) + i, e.flags.(huge := false))
  {
    assert POOL_START <= s.cur by { assert Owned(s); }
    HugeStillData(s, u, sid, p);
  }

  lemma SplitCloned(s: Vm, u: Vm, t: Vm, sid: nat, did: nat, p: Path, spt: nat, dpt: nat, e: Word, r: seq<nat>)
    requires Wf(s) && Wf(u) && Wf(t) && |p| == 3 && SplitOpen(s, u, sid, did, p, spt, dpt) && HugeSlot(s, sid, p, e)
    requires Rows(u, t, spt, dpt, 512) && CowInv(View(t), r) && View(t) == CowClone(View(s), sid, did, {p})
    ensures Cloned(s, t, sid, did, {p}, r, r)
  {
    RowsCloning(u, t, spt, dpt, s.roots[sid], s.roots[did]);
    CloningTrans(s, u, t, s.roots[sid], s.roots[did]);
    RiseHuge(View(s), r, sid, p, e);
    ClonedOne(s, t, sid, did, p, r, r);
  }

  lemma DroppedOnly(s: Vm, t: Vm, sid: nat, did: nat, p: Path, r: seq<nat>)
    requires sid < |s.roots| && did < |s.roots| && |r| == POOL_END - POOL_START
    requires Cloning(s, t, s.roots[sid], s.roots[did]) && CowInv(View(t), r) && View(t) == DropSlot(View(s), did, p)
    ensures PartCloned(s, t, sid, did, {}, {p}, r, r)
  {
    CloneNone(View(s), sid, did);
    RiseNothing(View(s), sid, r);
    DropOne(View(s), did, p);
  }

  lemma RiseNothing(pte: Ptes, id: nat, r: seq<nat>)
    requires |r| == POOL_END - POOL_START
    ensures CountsRise(pte, r, r, SlotKeys(pte, id, {}))
  {
    RiseNone(pte, r);
    assert SlotKeys(pte, id, {}) == {};
  }

  lemma DropOne(pte: Ptes, id: nat, p: Path)
    ensures DropSlots(pte, id, {p}) == DropSlot(pte, id, p)
  {
  }

  lemma RiseHuge(pte: Ptes, r: seq<nat>, sid: nat, p: Path, e: Word)
    requires |r| == POOL_END - POOL_START && Base(e.frame) + 512 <= POOL_START
    requires forall i: Index :: Key(sid, p, i) in pte && pte[Key(sid, p, i)].frame == Base(e.frame) + i
    ensures CountsRise(pte, r, r, SlotKeys(pte, sid, {p}))
  {
    var d := SlotKeys(pte, sid, {p});
    RiseNone(pte, r);
    forall k | k in d ensures k in pte && !InPool(pte[k].frame) {
      assert k == Key(sid, p, k.i);
    }
    RiseOutside(pte, r, r, {}, d);
    assert {} + d == d;
  }

  // The pages of a huge slot lie below the pool, so tables made since are elsewhere.
  lemma HugeStillData(s: Vm, u: Vm, id: nat, p: Path)
    requires POOL_START <= s.cur && forall f :: f in u.owner ==> f in s.owner || f >= s.cur
    requires forall i: Index ::
      Key(id, p, i) in View(s) && View(s)[Key(id, p, i)].frame < POOL_START && View(s)[Key(id, p, i)].frame !in s.owner
    ensures forall i: Index :: View(s)[Key(id, p, i)].frame !in u.owner
  {
  }

  // ---------------------------------------------------------------- the loops over the tables

  // The slots below a table position, before entry i of it.
  ghost function Under(slots: set<Path>, path: Path, i: nat): set<Path> {
    set p | p in slots && |p| == 3 && |path| < 3 && path <= p && p[|path|] < i
  }

  lemma CloneMore(pte: Ptes, src: nat, dst: nat, done: set<Path>, more: set<Path>)
    requires src != dst && done !! more
    requires forall k :: k in pte && k.id == dst ==> Key(src, k.slot, k.i) in pte
    ensures CowClone(CowClone(pte, src, dst, done), src, dst, more) == CowClone(pte, src, dst, done + more)
  {
  }

  lemma CloneNone(pte: Ptes, src: nat, dst: nat)
    ensures CowClone(pte, src, dst, {}) == pte
  {
  }

  // Every page of one space has its twin key in the other.
  lemma TwinKeys(s: Vm, src: nat, dst: nat)
    requires src < |s.roots|
    ensures forall k :: k in View(s) && k.id == dst ==> Key(src, k.slot, k.i) in View(s)
  {
  }

  // One clone after another, the second perhaps not finished.
  lemma PartMore(s: Vm, t: Vm, u: Vm, sid: nat, did: nat, done: set<Path>, more: set<Path>, dropped: set<Path>,
                 r: seq<nat>, q: seq<nat>, refc: seq<nat>)
    requires Wf(s) && sid != did && done !! more && done !! dropped
    requires Cloned(s, t, sid, did, done, r, q) && PartCloned(t, u, sid, did, more, dropped, q, refc)
    ensures PartCloned(s, u, sid, did, done + more, dropped, r, refc)
  {
    PartFacts(s, t, sid, did, done, {}, r, q);
    CloningTrans(s, t, u, s.roots[sid], s.roots[did]);
    TwinKeys(s, sid, did);
    CloneMore(View(s), sid, did, done, more);
    DropNone(CowClone(View(s), sid, did, done), did);
    PartRise(View(s), View(t), sid, did, done, more, r, q, refc);
  }

  lemma PartRise(pte: Ptes, now: Ptes, sid: nat, did: nat, done: set<Path>, more: set<Path>,
                 r: seq<nat>, q: seq<nat>, refc: seq<nat>)
    requires sid != did && done !! more && now == CowClone(pte, sid, did, done)
    requires CountsRise(pte, r, q, SlotKeys(pte, sid, done)) && CountsRise(now, q, refc, SlotKeys(now, sid, more))
    ensures CountsRise(pte, r, refc, SlotKeys(pte, sid, done + more))
  {
    var d, e := SlotKeys(pte, sid, done), SlotKeys(pte, sid, more);
    assert SlotKeys(now, sid, more) == e;
    RiseMore(pte, now, r, q, refc, d, e);
    assert SlotKeys(pte, sid, done + more) == d + e;
  }

  // One sweep after another.
  lemma Advance(s: Vm, t: Vm, u: Vm, sid: nat, did: nat, all: set<Path>, done: set<Path>, goal: set<Path>,
                more: set<Path>, dropped: set<Path>, r: seq<nat>, q: seq<nat>, refc: seq<nat>, ok: bool)
    requires Wf(s) && sid != did && done !! goal && done + goal <= all
    requires Swept(s, t, sid, did, done, done, {}, r, q, true)
    requires Swept(t, u, sid, did, goal, more, dropped, q, refc, ok)
    ensures Swept(s, u, sid, did, if ok then done + goal else all, done + more, dropped, r, refc, ok)
    ensures ok ==> more == goal && dropped == {}
  {
    PartMore(s, t, u, sid, did, done, more, dropped, r, q, refc);
    SpentMore(s.cur, t.cur, u.cur, done, more, dropped, ok);
    NotAll(all, done, goal, more);
  }

  lemma NotAll(all: set<Path>, done: set<Path>, goal: set<Path>, more: set<Path>)
    requires done !! goal && done + goal <= all && more <= goal
    ensures more != goal ==> done + more != all
  {
    if more != goal {
      var p :| p in goal && p !in more;
      assert p in all && p !in done + more;
    }
  }

  ghost function Single(slots: set<Path>, p: Path): set<Path> { if p in slots then {p} else {} }

  // Lines 432-478 for directory entry c, whatever it holds.
  method CloneEntry(m: Memory, ghost sid: nat, ghost did: nat, ghost q: Path, spd: nat, dpd: nat, c: Index)
    returns (ok: bool, ghost done: set<Path>, ghost dropped: set<Path>)
    requires Ready(m.State(), m.refc, sid, did, q, spd, dpd) && |q| == 2
    modifies m`mem, m`cur, m`owner, m`refc
    ensures Swept(old(m.State()), m.State(), sid, did, Single(old(m.slots), q + [c]), done, dropped,
                  old(m.refc), m.refc, ok)
  {
    ghost var s, r := m.State(), m.refc;
    var e := m.mem[spd][c];
    SlotEntry(s, spd, c, sid);
    done, dropped := {}, {};
    if e.flags.present && e.flags.user {
      if e.flags.huge {
        ok, dropped := CloneHuge(m, sid, did, q, spd, dpd, c);
      } else {
        ok := CloneTable(m, sid, did, q, spd, dpd, c);
      }
      if ok { done := {q + [c]}; }
    } else {
      SweptNothing(s, sid, did, r);
      ok := true;
    }
  }

  // One more entry of a directory.
  lemma AdvanceSlot(s: Vm, t: Vm, u: Vm, sid: nat, did: nat, q: Path, c: Index, more: set<Path>, dropped: set<Path>,
                    r0: seq<nat>, r: seq<nat>, refc: seq<nat>, ok: bool)
    requires Wf(s) && sid != did && |q| == 2
    requires Swept(s, t, sid, did, Under(s.slots, q, c), Under(s.slots, q, c), {}, r0, r, true)
    requires Swept(t, u, sid, did, Single(s.slots, q + [c]), more, dropped, r, refc, ok)
    ensures var done := Under(s.slots, q, c) + more;
      && Swept(s, u, sid, did, if ok then done else Under(s.slots, q, 512), done, dropped, r0, refc, ok)
      && (ok ==> done == Under(s.slots, q, c + 1) && dropped == {})
  {
    UnderNext(s.slots, q, c);
    UnderGrows(s.slots, q, c + 1);
    Advance(s, t, u, sid, did, Under(s.slots, q, 512), Under(s.slots, q, c), Single(s.slots, q + [c]), more,
            dropped, r0, r, refc, ok);
  }

  // Lines 431-479: one page directory.
  method CloneDirectory(m: Memory, ghost sid: nat, ghost did: nat, ghost q: Path, spd: nat, dpd: nat)
    returns (ok: bool, ghost done: set<Path>, ghost dropped: set<Path>)
    requires Ready(m.State(), m.refc, sid, did, q, spd, dpd) && |q| == 2
    modifies m`mem, m`cur, m`owner, m`refc
    ensures Swept(old(m.State()), m.State(), sid, did, Under(old(m.slots), q, 512), done, dropped,
                  old(m.refc), m.refc, ok)
  {
    ghost var s, r0 := m.State(), m.refc;
    SweptNothing(s, sid, did, r0);
    var c: nat := 0;
    done, dropped := {}, {};
    assert Under(s.slots, q, 0) == {};
    while c < 512
      invariant c <= 512 && done == Under(s.slots, q, c)
      invariant Swept(s, m.State(), sid, did, done, done, {}, r0, m.refc, true)
    {
      ghost var t, r, more := m.State(), m.refc, {};
      StillReady(s, t, sid, did, q, spd, dpd, done, r0, r);
      ok, more, dropped := CloneEntry(m, sid, did, q, spd, dpd, c);
      AdvanceSlot(s, t, m.State(), sid, did, q, c, more, dropped, r0, r, m.refc, ok);
      done := done + more;
      if !ok {
        return;
      }
      c := c + 1;
    }
    ok, dropped := true, {};
  }

  lemma UnderGrows(slots: set<Path>, q: Path, c: nat)
    requires c <= 512
    ensures Under(slots, q, c) <= Under(slots, q, 512)
  {
  }

  lemma CloningFacts(s: Vm, t: Vm, a: nat, b: nat)
    requires Cloning(s, t, a, b)
    ensures Wf(t) && t.roots == s.roots && t.slots == s.slots
  {
  }

  lemma UnderNext(slots: set<Path>, q: Path, c: Index)
    requires |q| == 2
    ensures Under(slots, q, c + 1) == Under(slots, q, c) + Single(slots, q + [c])
    ensures q + [c] !in Under(slots, q, c)
  {
    forall p | p in Under(slots, q, c + 1) ensures p in Under(slots, q, c) || p == q + [c] {
      assert p == q + [p[2]];
    }
  }

  // A directory entry is cloned exactly when it is a slot.
  lemma SlotEntry(s: Vm, pd: nat, c: Index, id: nat)
    requires Wf(s) && OnWalk(s, pd) && |s.owner[pd].path| == 2 && id < |s.roots| && s.roots[id] == s.owner[pd].root
    ensures s.owner[pd].path + [c] in s.slots <==> s.mem[pd][c].flags.present && s.mem[pd][c].flags.user
  {
    var p := s.owner[pd].path + [c];
    if p in s.slots {
      assert p[..2] == s.owner[pd].path && SlotOk(s.mem, s.roots[id], p);
    }
  }

  // ---------------------------------------------------------------- PDPT and top level

  lemma UnderUpper(slots: set<Path>, q: Path, c: Index)
    requires |q| < 2 && forall p :: p in slots ==> |p| == 3
    ensures Under(slots, q, c + 1) == Under(slots, q, c) + Under(slots, q + [c], 512)
    ensures Under(slots, q, c) !! Under(slots, q + [c], 512)
  {
    forall p | p in Under(slots, q, c + 1) ensures p in Under(slots, q, c) || p in Under(slots, q + [c], 512) {
      if p[|q|] == c { assert q + [c] <= p; }
    }
    forall p | p in Under(slots, q + [c], 512) ensures p in Under(slots, q, c + 1) && p !in Under(slots, q, c) {
      assert q <= p && p[|q|] == c;
    }
  }

  lemma SlotLengths(s: Vm)
    requires Wf(s)
    ensures forall p :: p in s.slots ==> |p| == 3
  {
    forall p | p in s.slots ensures |p| == 3 {
      assert SlotOk(s.mem, s.roots[0], p);
    }
  }

  // The upper entries on the way to a slot are present, and the top one is open to user mode.
  lemma SlotUpper(m: Ram, root: nat, p: Path)
    requires SlotOk(m, root, p) && root < NFRAMES
    ensures m[root][p[0]].flags.present && m[root][p[0]].flags.user
    ensures var t := Tab(m, root, [p[0]]);
      t.Some? && t.value.frame < NFRAMES && m[t.value.frame][p[1]].flags.present
  {
    var r, t := p[..2], [p[0]];
    assert r[..1] == t && t[..0] == [];
    assert Tab(m, root, []) == Some(Node(root, true, true));
    assert Tab(m, root, t).Some? && Tab(m, root, t).value.user;
  }

  // No slot lies below an upper entry that is absent, on either side, nor below a top
  // entry closed to user mode.
  lemma NoSlotsBelow(s: Vm, f: nat, c: Index)
    requires Wf(s) && OnWalk(s, f) && |s.owner[f].path| < 2
    requires !s.mem[f][c].flags.present || (s.owner[f].path == [] && !s.mem[f][c].flags.user)
    ensures Under(s.slots, s.owner[f].path + [c], 512) == {}
  {
    var root, up := s.owner[f].root, s.owner[f].path;
    var q := up + [c];
    var k :| 0 <= k < |s.roots| && s.roots[k] == root;
    assert IsRoot(s, root);
    forall p | p in s.slots ensures !(q <= p) {
      assert SlotOk(s.mem, s.roots[k], p);
      var x, y := p[0], p[1];
      assert q <= p ==> q[0] == x && (|q| == 2 ==> up == [x] && c == y);
      SlotUpper(s.mem, root, p);
    }
  }

  // The table below a present upper entry.
  lemma Below(s: Vm, f: nat, c: Index)
    requires Wf(s) && OnWalk(s, f) && |s.owner[f].path| < 2 && s.mem[f][c].flags.present
    ensures var g := s.mem[f][c].frame; OnWalk(s, g) && s.owner[g] == Pos(s.owner[f].root, s.owner[f].path + [c])
  {
    var root, q := s.owner[f].root, s.owner[f].path + [c];
    assert IsRoot(s, root) && q[..|q| - 1] == s.owner[f].path;
    TabOwned(s, root, q);
  }

  // One more entry of an upper table.
  lemma AdvanceUpper(s: Vm, t: Vm, u: Vm, sid: nat, did: nat, q: Path, c: Index, more: set<Path>, dropped: set<Path>,
                     r0: seq<nat>, r: seq<nat>, refc: seq<nat>, ok: bool)
    requires Wf(s) && sid != did && |q| < 2
    requires Swept(s, t, sid, did, Under(s.slots, q, c), Under(s.slots, q, c), {}, r0, r, true)
    requires Swept(t, u, sid, did, Under(s.slots, q + [c], 512), more, dropped, r, refc, ok)
    ensures var done := Under(s.slots, q, c) + more;
      && Swept(s, u, sid, did, if ok then done else Under(s.slots, q, 512), done, dropped, r0, refc, ok)
      && (ok ==> done == Under(s.slots, q, c + 1) && dropped == {})
  {
    SlotLengths(s);
    UnderUpper(s.slots, q, c);
    UnderGrows(s.slots, q, c + 1);
    Advance(s, t, u, sid, did, Under(s.slots, q, 512), Under(s.slots, q, c), Under(s.slots, q + [c], 512), more,
            dropped, r0, r, refc, ok);
  }

  // The tables below entry c on both sides; without one of them there is no slot there.
  lemma ReadyBelow(s: Vm, refc: seq<nat>, sid: nat, did: nat, q: Path, sp: nat, dp: nat, c: Index)
    requires Ready(s, refc, sid, did, q, sp, dp) && |q| < 2
    ensures var e, d := s.mem[sp][c], s.mem[dp][c];
      if e.flags.present && d.flags.present && (q == [] ==> e.flags.user)
      then Ready(s, refc, sid, did, q + [c], e.frame, d.frame)
      else Under(s.slots, q + [c], 512) == {}
  {
    var e, d := s.mem[sp][c], s.mem[dp][c];
    if !e.flags.present || (q == [] && !e.flags.user) {
      NoSlotsBelow(s, sp, c);
    } else if !d.flags.present {
      NoSlotsBelow(s, dp, c);
    } else {
      Below(s, sp, c);
      Below(s, dp, c);
    }
  }

  // Lines 422-479 for PDPT entry c.
  method ClonePdptEntry(m: Memory, ghost sid: nat, ghost did: nat, ghost q: Path, sp: nat, dp: nat, c: Index)
    returns (ok: bool, ghost done: set<Path>, ghost dropped: set<Path>)
    requires Ready(m.State(), m.refc, sid, did, q, sp, dp) && |q| == 1
    modifies m`mem, m`cur, m`owner, m`refc
    ensures Swept(old(m.State()), m.State(), sid, did, Under(old(m.slots), q + [c], 512), done, dropped,
                  old(m.refc), m.refc, ok)
  {
    var e, d := m.mem[sp][c], m.mem[dp][c];
    ReadyBelow(m.State(), m.refc, sid, did, q, sp, dp, c);
    if !e.flags.present || !d.flags.present {
      SweptNothing(m.State(), sid, did, m.refc);
      return true, {}, {};
    }
    ok, done, dropped := CloneDirectory(m, sid, did, q + [c], e.frame, d.frame);
  }

  // Lines 421-480: one PDPT.
  method ClonePdpt(m: Memory, ghost sid: nat, ghost did: nat, ghost q: Path, sp: nat, dp: nat)
    returns (ok: bool, ghost done: set<Path>, ghost dropped: set<Path>)
    requires Ready(m.State(), m.refc, sid, did, q, sp, dp) && |q| == 1
    modifies m`mem, m`cur, m`owner, m`refc
    ensures Swept(old(m.State()), m.State(), sid, did, Under(old(m.slots), q, 512), done, dropped,
                  old(m.refc), m.refc, ok)
  {
    ghost var s, r0 := m.State(), m.refc;
    SweptNothing(s, sid, did, r0);
    done, dropped := {}, {};
    assert Under(s.slots, q, 0) == {};
    var c: nat := 0;
    while c < 512
      invariant c <= 512 && done == Under(s.slots, q, c)
      invariant Swept(s, m.State(), sid, did, done, done, {}, r0, m.refc, true)
    {
      ghost var t, r, more := m.State(), m.refc, {};
      StillReady(s, t, sid, did, q, sp, dp, done, r0, r);
      ok, more, dropped := ClonePdptEntry(m, sid, did, q, sp, dp, c);
      AdvanceUpper(s, t, m.State(), sid, did, q, c, more, dropped, r0, r, m.refc, ok);
      done := done + more;
      if !ok {
        return;
      }
      c := c + 1;
    }
    ok, dropped := true, {};
  }

  // Lines 411-481 for top entry c.
  method CloneTopEntry(m: Memory, ghost sid: nat, ghost did: nat, src: nat, dst: nat, c: Index)
    returns (ok: bool, ghost done: set<Path>, ghost dropped: set<Path>)
    requires Ready(m.State(), m.refc, sid, did, [], src, dst)
    modifies m`mem, m`cur, m`owner, m`refc
    ensures Swept(old(m.State()), m.State(), sid, did, Under(old(m.slots), [c], 512), done, dropped,
                  old(m.refc), m.refc, ok)
  {
    assert [] + [c] == [c];
    var e, d := m.mem[src][c], m.mem[dst][c];
    ReadyBelow(m.State(), m.refc, sid, did, [], src, dst, c);
    if !e.flags.present || !e.flags.user || !d.flags.present {
      SweptNothing(m.State(), sid, did, m.refc);
      return true, {}, {};
    }
    ok, done, dropped := ClonePdpt(m, sid, did, [c], e.frame, d.frame);
  }

  // Lines 410-482.
  method CloneTop(m: Memory, ghost sid: nat, ghost did: nat, src: nat, dst: nat)
    returns (ok: bool, ghost done: set<Path>, ghost dropped: set<Path>)
    requires Ready(m.State(), m.refc, sid, did, [], src, dst)
    modifies m`mem, m`cur, m`owner, m`refc
    ensures Swept(old(m.State()), m.State(), sid, did, old(m.slots), done, dropped, old(m.refc), m.refc, ok)
  {
    ghost var s, r0 := m.State(), m.refc;
    SweptNothing(s, sid, did, r0);
    SlotLengths(s);
    assert Under(s.slots, [], 0) == {} && Under(s.slots, [], 512) == s.slots;
    done, dropped := {}, {};
    var c: nat := 0;
    while c < 512
      invariant c <= 512 && done == Under(s.slots, [], c)
      invariant Swept(s, m.State(), sid, did, done, done, {}, r0, m.refc, true)
    {
      ghost var t, r, more := m.State(), m.refc, {};
      StillReady(s, t, sid, did, [], src, dst, done, r0, r);
      assert [] + [c] == [c];
      ok, more, dropped := CloneTopEntry(m, sid, did, src, dst, c);
      AdvanceUpper(s, t, m.State(), sid, did, [], c, more, dropped, r0, r, m.refc, ok);
      done := done + more;
      if !ok {
        return;
      }
      c := c + 1;
    }
    ok, dropped := true, {};
  }

  // paging_cow_clone_user. Every user page of the source in the slots done is shared with
  // the destination, copy-on-write on both sides, and its frame's count rises by two; on
  // success these are all slots. It fails only when no page is left, and takes at most two
  // for every slot; then every other page of the source is as it was and the destination
  // has at most lost pages. No other space is touched.
  method CloneUser(m: Memory, ghost sid: nat, ghost did: nat, src: nat, dst: nat)
    returns (ok: bool, ghost done: set<Path>, ghost dropped: set<Path>)
    requires Wf(m.State()) && sid != did && CowInv(View(m.State()), m.refc)
    requires sid < |m.roots| && did < |m.roots| && m.roots[sid] == src && m.roots[did] == dst
    modifies m`mem, m`cur, m`owner, m`refc
    ensures Cloning(old(m.State()), m.State(), src, dst) && CowInv(View(m.State()), m.refc)
    ensures done <= old(m.slots) && dropped <= old(m.slots) && done !! dropped
    ensures View(m.State()) == DropSlots(CowClone(View(old(m.State())), sid, did, done), did, dropped)
    ensures CountsRise(View(old(m.State())), old(m.refc), m.refc, SlotKeys(View(old(m.State())), sid, done))
    ensures ok ==> done == old(m.slots) && dropped == {}
    ensures !ok ==> m.cur == POOL_END && done != old(m.slots)
    ensures m.cur <= old(m.cur) + 2 * |done| + |dropped|
    ensures old(m.cur) + 2 * |old(m.slots)| <= POOL_END ==> ok
  {
    RootWalk(m.State(), sid);
    RootWalk(m.State(), did);
    ok, done, dropped := CloneTop(m, sid, did, src, dst);
    if !ok { Missing(m.slots, done, dropped); }
  }

  lemma Missing(all: set<Path>, done: set<Path>, dropped: set<Path>)
    requires done + dropped <= all && done !! dropped && done != all
    ensures 2 * |done| + |dropped| < 2 * |all|
  {
    assert |done + dropped| == |done| + |dropped|;
    Smaller(done + dropped, all);
    var p :| p in all && p !in done;
    Smaller(done + {p}, all);
  }

  lemma RootWalk(s: Vm, id: nat)
    requires Wf(s) && id < |s.roots|
    ensures OnWalk(s, s.roots[id]) && s.owner[s.roots[id]] == Pos(s.roots[id], [])
  {
    assert IsRoot(s, s.roots[id]);
  }
}
