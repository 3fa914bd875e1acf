/**
 * paging_clone_user (kernel/memory.c): the nested loops that copy every user page of one
 * address space into fresh frames of another.
 */
module EagerFork {
  import opened Prelude
  import opened PageTables
  import opened PagingSteps
  import opened Paging
  import opened AddressSpaces
  import opened CowModel
  import opened FlatView
  import opened CowFork
  import opened CowRefinement
  import opened UserMemory

  // ---------------------------------------------------------------- what has been copied so far

  // x is a private copy, made since s, of the page with word w.
  ghost predicate CopyOf(s: Vm, t: Vm, w: Word, x: Word) {
    if w.flags.present then
      && x.flags == EagerFlags(w) && s.cur <= x.frame < t.cur <= NFRAMES && x.frame !in t.owner
      && w.frame < NFRAMES && t.mem[x.frame] == s.mem[w.frame]
    else !x.flags.present
  }

  // From view a of s to view b of t: slots done are copied, and the first n pages of slot p,
  // whose other pages are gone; all other pages are as they were.
  ghost predicate CopiedView(s: Vm, t: Vm, a: Ptes, b: Ptes, sid: nat, did: nat, done: set<Path>, p: Path, n: nat) {
    && b.Keys == a.Keys
    && forall k :: k in a ==> CopiedKey(s, t, a, b, sid, did, done, p, n, k)
  }

  ghost predicate CopiedKey(s: Vm, t: Vm, a: Ptes, b: Ptes, sid: nat, did: nat, done: set<Path>, p: Path, n: nat,
                            k: Key)
    requires k in a && k in b
  {
    if k.id == did && (k.slot in done || (k.slot == p && k.i < n)) then
      Key(sid, k.slot, k.i) in a && CopyOf(s, t, a[Key(sid, k.slot, k.i)], b[k])
    else if k.id == did && k.slot == p then b[k] == ZERO
    else b[k] == a[k]
  }

  // No two pages lie in the same frame handed out since s.
  ghost predicate Apart(s: Vm, t: Vm) {
    forall f, j, k :: f >= s.cur && Maps(View(t), f, j) && Maps(View(t), f, k) ==> j == k
  }

  ghost function CopyState(s: Vm, t: Vm, sid: nat, did: nat, done: set<Path>, p: Path, n: nat): Sealed {
    if sid < |s.roots| && did < |s.roots| && Cloning(s, t, s.roots[did], s.roots[did])
       && CopiedView(s, t, View(s), View(t), sid, did, done, p, n) && Apart(s, t)
    then Intact else Broken
  }

  ghost predicate Copying(s: Vm, t: Vm, sid: nat, did: nat, done: set<Path>, p: Path, n: nat) {
    CopyState(s, t, sid, did, done, p, n) == Intact
  }

  lemma CopyingFacts(s: Vm, t: Vm, sid: nat, did: nat, done: set<Path>, p: Path, n: nat)
    requires Wf(s) && Copying(s, t, sid, did, done, p, n)
    ensures Wf(t) && t.roots == s.roots && t.slots == s.slots && s.cur <= t.cur <= POOL_END
    ensures sid < |s.roots| && did < |s.roots| && Cloning(s, t, s.roots[did], s.roots[did])
    ensures forall f :: f in s.owner ==> f in t.owner && t.owner[f] == s.owner[f]
  {
  }

  lemma Unmapped(s: Vm, f: nat)
    requires Wf(s) && f >= s.cur
    ensures forall j :: !Maps(View(s), f, j)
  {
    ViewFresh(s, f);
    assert forall j :: Maps(View(s), f, j) ==> j in Sharers(View(s), f);
  }

  lemma CopyingNothing(s: Vm, sid: nat, did: nat)
    requires Wf(s) && sid < |s.roots| && did < |s.roots|
    ensures Copying(s, s, sid, did, {}, [], 0)
  {
    CloningSame(s, s.roots[did], s.roots[did]);
    forall f, j | f >= s.cur ensures !Maps(View(s), f, j) {
      Unmapped(s, f);
    }
    forall k | k in View(s) ensures CopiedKey(s, s, View(s), View(s), sid, did, {}, [], 0, k) {
      assert SlotOk(s.mem, s.roots[0], k.slot);
    }
  }

  // ---------------------------------------------------------------- one page

  ghost function PageCopied(t: Vm, f: nat, i: Index, w: Word): Vm
    requires t.cur < POOL_END && w.frame < NFRAMES && f < NFRAMES
  {
    SetLeaf(AllocCopy(t, w.frame), f, i, Word(t.cur, EagerFlags(w)))
  }

  lemma PageCopiedStep(t: Vm, f: nat, i: Index, w: Word, id: nat)
    requires Wf(t) && t.cur < POOL_END && OnWalk(t, f) && |t.owner[f].path| == 3 && t.owner[f].path in t.slots
    requires w.frame < t.cur && id < |t.roots| && t.roots[id] == t.owner[f].root
    ensures var u := PageCopied(t, f, i, w);
      && Wf(u) && OnWalk(u, f) && Extends(t, u, {t.roots[id]}) && u.owner == t.owner && u.cur == t.cur + 1
      && View(u) == View(t)[Key(id, t.owner[f].path, i) := Word(t.cur, EagerFlags(w))]
      && u.mem[t.cur] == t.mem[w.frame]
  {
    var root, p, a := t.owner[f].root, t.owner[f].path, AllocCopy(t, w.frame);
    AllocCopyStep(t, w.frame, root);
    ViewSame(t, a);
    assert IsRoot(t, root);
    SameTab(t, a, root, p);
    OneLeaf(a, f, i, Word(t.cur, EagerFlags(w)), id, f);
    LeafExtends(a, f, i, Word(t.cur, EagerFlags(w)));
    ExtendsTrans(t, a, PageCopied(t, f, i, w), {root});
  }

  lemma PageCopiedCloning(t: Vm, f: nat, i: Index, w: Word, root: nat)
    requires Wf(t) && t.cur < POOL_END && f in t.owner && |t.owner[f].path| == 3 && w.frame < NFRAMES
    requires Wf(PageCopied(t, f, i, w)) && Extends(t, PageCopied(t, f, i, w), {root})
    ensures Cloning(t, PageCopied(t, f, i, w), root, root)
  {
    assert {root, root} == {root};
    assert UpperKept(t, PageCopied(t, f, i, w)) by { assert Owned(t); }
  }

  // Copies stay copies while more pages are handed out.
  lemma CopyKept(s: Vm, t: Vm, u: Vm, w: Word, x: Word)
    requires CopyOf(s, t, w, x) && t.cur <= u.cur <= NFRAMES
    requires forall f :: 0 <= f < t.cur && f !in t.owner ==> f !in u.owner && u.mem[f] == t.mem[f]
    ensures CopyOf(s, u, w, x)
  {
  }

  lemma CopyKeyOne(s: Vm, t: Vm, u: Vm, a: Ptes, b: Ptes, sid: nat, did: nat, done: set<Path>, p: Path, n: Index,
                   w: Word, k: Key)
    requires k in a && k in b && CopiedKey(s, t, a, b, sid, did, done, p, n, k) && p !in done
    requires Key(did, p, n) in b && Key(sid, p, n) in a && a[Key(sid, p, n)] == w && w.flags.present
    requires s.cur <= t.cur && u.cur == t.cur + 1 <= NFRAMES && u.owner == t.owner && t.cur !in t.owner
    requires forall f :: 0 <= f < t.cur && f !in t.owner ==> u.mem[f] == t.mem[f]
    requires w.frame < NFRAMES && u.mem[t.cur] == s.mem[w.frame]
    ensures CopiedKey(s, u, a, b[Key(did, p, n) := Word(t.cur, EagerFlags(w))], sid, did, done, p, n + 1, k)
  {
    if k.id == did && (k.slot in done || (k.slot == p && k.i < n)) {
      CopyKept(s, t, u, a[Key(sid, k.slot, k.i)], b[k]);
    }
  }

  // The view part of copying one page: key k gets a copy of the page with word w.
  lemma CopyKeyNext(s: Vm, t: Vm, u: Vm, a: Ptes, b: Ptes, sid: nat, did: nat, done: set<Path>, p: Path, n: Index,
                    w: Word)
    requires CopiedView(s, t, a, b, sid, did, done, p, n) && p !in done
    requires Key(did, p, n) in b && Key(sid, p, n) in a && a[Key(sid, p, n)] == w && w.flags.present
    requires s.cur <= t.cur && u.cur == t.cur + 1 <= NFRAMES && u.owner == t.owner && t.cur !in t.owner
    requires forall f :: 0 <= f < t.cur && f !in t.owner ==> u.mem[f] == t.mem[f]
    requires w.frame < NFRAMES && u.mem[t.cur] == s.mem[w.frame]
    ensures CopiedView(s, u, a, b[Key(did, p, n) := Word(t.cur, EagerFlags(w))], sid, did, done, p, n + 1)
  {
    var c := b[Key(did, p, n) := Word(t.cur, EagerFlags(w))];
    assert c.Keys == b.Keys;
    forall k | k in a ensures CopiedKey(s, u, a, c, sid, did, done, p, n + 1, k) {
      CopyKeyOne(s, t, u, a, b, sid, did, done, p, n, w, k);
    }
  }

  lemma CopyKeySkip(s: Vm, t: Vm, a: Ptes, b: Ptes, sid: nat, did: nat, done: set<Path>, p: Path, n: Index)
    requires CopiedView(s, t, a, b, sid, did, done, p, n) && p !in done
    requires Key(did, p, n) in b && Key(sid, p, n) in a && !a[Key(sid, p, n)].flags.present
    ensures CopiedView(s, t, a, b, sid, did, done, p, n + 1)
  {
    forall k | k in a ensures CopiedKey(s, t, a, b, sid, did, done, p, n + 1, k) {
      assert CopiedKey(s, t, a, b, sid, did, done, p, n, k);
    }
  }

  lemma ApartNext(s: Vm, t: Vm, u: Vm, k: Key, w: Word)
    requires Wf(t) && Apart(s, t) && k in View(t) && View(u) == View(t)[k := w] && w.frame == t.cur
    ensures Apart(s, u)
  {
    Unmapped(t, t.cur);
    forall f, i, j | f >= s.cur && Maps(View(u), f, i) && Maps(View(u), f, j) ensures i == j {
      assert i != k ==> Maps(View(t), f, i);
      assert j != k ==> Maps(View(t), f, j);
    }
  }

  // Data frames of s keep their contents while copies are made.
  lemma SourceKept(s: Vm, t: Vm, a: nat, b: nat, f: nat)
    requires Wf(s) && Cloning(s, t, a, b) && f < s.cur && f !in s.owner
    ensures f !in t.owner && t.mem[f] == s.mem[f]
  {
  }

  lemma PageCopying(s: Vm, t: Vm, f: nat, i: Index, w: Word, sid: nat, did: nat, done: set<Path>, p: Path)
    requires Wf(s) && Copying(s, t, sid, did, done, p, i) && p !in done && sid != did && t.cur < POOL_END
    requires OnWalk(t, f) && |p| == 3 && p in t.slots && t.owner[f] == Pos(t.roots[did], p)
    requires Key(sid, p, i) in View(s) && View(s)[Key(sid, p, i)] == w && w.flags.present
    ensures w.frame < t.cur && Copying(s, PageCopied(t, f, i, w), sid, did, done, p, i + 1)
            && OnWalk(PageCopied(t, f, i, w), f)
  {
    var root := s.roots[did];
    CopyingFacts(s, t, sid, did, done, p, i);
    ViewData(s, Key(sid, p, i));
    SourceKept(s, t, root, root, w.frame);
    PageCopiedStep(t, f, i, w, did);
    var u := PageCopied(t, f, i, w);
    PageCopiedCloning(t, f, i, w, root);
    CloningTrans(s, t, u, root, root);
    assert Key(did, p, i) in View(t);
    ApartNext(s, t, u, Key(did, p, i), Word(t.cur, EagerFlags(w)));
    DataSame(t, u, root);
    CopyKeyNext(s, t, u, View(s), View(t), sid, did, done, p, i, w);
  }

  lemma DataSame(t: Vm, u: Vm, root: nat)
    requires Wf(t) && Extends(t, u, {root})
    ensures t.cur !in t.owner && forall f :: 0 <= f < t.cur && f < NFRAMES && f !in t.owner ==> u.mem[f] == t.mem[f]
  {
  }

  lemma SkipCopying(s: Vm, t: Vm, sid: nat, did: nat, done: set<Path>, p: Path, i: Index)
    requires Wf(s) && Copying(s, t, sid, did, done, p, i) && p !in done && p in s.slots
    requires Key(sid, p, i) in View(s) && !View(s)[Key(sid, p, i)].flags.present
    ensures Copying(s, t, sid, did, done, p, i + 1)
  {
    assert Key(did, p, i) in View(t);
    CopyKeySkip(s, t, View(s), View(t), sid, did, done, p, i);
  }

  ghost function FillState(s: Vm, t: Vm, sid: nat, did: nat, done: set<Path>, p: Path, i: nat, pt: nat): Sealed {
    if && Wf(s) && Copying(s, t, sid, did, done, p, i) && p !in done && sid != did && |p| == 3 && p in s.slots
       && OnWalk(t, pt) && t.owner[pt] == Pos(s.roots[did], p)
    then Intact else Broken
  }

  // The first i pages of slot p are copied; pt is the destination's table for it.
  ghost predicate Filling(s: Vm, t: Vm, sid: nat, did: nat, done: set<Path>, p: Path, i: nat, pt: nat) {
    FillState(s, t, sid, did, done, p, i, pt) == Intact
  }

  lemma FillFacts(s: Vm, t: Vm, sid: nat, did: nat, done: set<Path>, p: Path, i: nat, pt: nat)
    requires Filling(s, t, sid, did, done, p, i, pt)
    ensures Wf(s) && Wf(t) && sid != did && sid < |s.roots| && did < |s.roots|
    ensures Cloning(s, t, s.roots[did], s.roots[did]) && Copying(s, t, sid, did, done, p, i)
    ensures POOL_START <= t.cur <= POOL_END && pt < t.cur
  {
    CopyingFacts(s, t, sid, did, done, p, i);
    assert Owned(t);
  }

  lemma FillSkip(s: Vm, t: Vm, sid: nat, did: nat, done: set<Path>, p: Path, i: Index, pt: nat)
    requires Filling(s, t, sid, did, done, p, i, pt)
    requires Key(sid, p, i) in View(s) && !View(s)[Key(sid, p, i)].flags.present
    ensures Filling(s, t, sid, did, done, p, i + 1, pt)
  {
    SkipCopying(s, t, sid, did, done, p, i);
  }

  lemma FillCopy(s: Vm, t: Vm, sid: nat, did: nat, done: set<Path>, p: Path, i: Index, pt: nat, w: Word)
    requires Filling(s, t, sid, did, done, p, i, pt) && t.cur < POOL_END && pt < NFRAMES
    requires Key(sid, p, i) in View(s) && View(s)[Key(sid, p, i)] == w && w.flags.present
    ensures w.frame < t.cur && Filling(s, PageCopied(t, pt, i, w), sid, did, done, p, i + 1, pt)
  {
    CopyingFacts(s, t, sid, did, done, p, i);
    PageCopying(s, t, pt, i, w, sid, did, done, p);
  }

  // Lines 359-363 and 373-379: copy the page with word w, if present, for entry i of table dpt.
  method CopyPage(m: Memory, ghost s: Vm, ghost sid: nat, ghost did: nat, ghost done: set<Path>, ghost p: Path,
                  dpt: nat, i: Index, w: Word) returns (ok: bool)
    requires Filling(s, m.State(), sid, did, done, p, i, dpt)
    requires Key(sid, p, i) in View(s) && View(s)[Key(sid, p, i)] == w
    modifies m`mem, m`cur
    ensures ok ==> Filling(s, m.State(), sid, did, done, p, i + 1, dpt) && m.cur <= old(m.cur) + 1
    ensures !ok ==> m.State() == old(m.State()) && m.cur == POOL_END
  {
    ghost var t := m.State();
    FillFacts(s, t, sid, did, done, p, i, dpt);
    if !w.flags.present {
      FillSkip(s, t, sid, did, done, p, i, dpt);
      return true;
    }
    var n := m.AllocPage();
    if n == 0 {
      return false;
    }
    FillCopy(s, t, sid, did, done, p, i, dpt, w);
    m.mem := m.mem[n := m.mem[w.frame]];
    m.mem := Store(m.mem, dpt, i, Word(n, EagerFlags(w)));
    assert m.State() == PageCopied(t, dpt, i, w);
    ok := true;
  }

  // Lines 372-380: copy the pages of one page table.
  method CopyTable(m: Memory, ghost s: Vm, ghost sid: nat, ghost did: nat, ghost done: set<Path>, ghost p: Path,
                   spt: nat, dpt: nat) returns (ok: bool)
    requires Filling(s, m.State(), sid, did, done, p, 0, dpt)
    requires OnWalk(s, spt) && s.owner[spt] == Pos(s.roots[sid], p)
    modifies m`mem, m`cur
    ensures ok ==> Copying(s, m.State(), sid, did, done, p, 512)
    ensures Cloning(s, m.State(), s.roots[did], s.roots[did])
    ensures m.cur <= old(m.cur) + 512 && (!ok ==> m.cur == POOL_END)
  {
    var i: nat := 0;
    FillFacts(s, m.State(), sid, did, done, p, 0, dpt);
    while i < 512
      invariant i <= 512 && Filling(s, m.State(), sid, did, done, p, i, dpt) && m.cur <= old(m.cur) + i
    {
      FillFacts(s, m.State(), sid, did, done, p, i, dpt);
      SourceWord(s, m.State(), spt, i, sid, did);
      ok := CopyPage(m, s, sid, did, done, p, dpt, i, m.mem[spt][i]);
      if !ok {
        return;
      }
      i := i + 1;
    }
    FillFacts(s, m.State(), sid, did, done, p, 512, dpt);
    ok := true;
  }

  // The source's tables are not written, so its words are those of the start.
  lemma SourceWord(s: Vm, t: Vm, spt: nat, i: Index, sid: nat, did: nat)
    requires Wf(s) && sid < |s.roots| && did < |s.roots| && sid != did && Cloning(s, t, s.roots[did], s.roots[did])
    requires OnWalk(s, spt) && s.owner[spt].root == s.roots[sid] && |s.owner[spt].path| == 3
             && s.owner[spt].path in s.slots
    ensures spt < NFRAMES && var k := Key(sid, s.owner[spt].path, i); k in View(s) && View(s)[k] == t.mem[spt][i]
  {
    LeafWord(s, spt, i, sid);
    SourceTable(s, t, spt, sid, did);
  }

  // Lines 358-364: copy the 512 pages of a huge entry.
  method CopyHuge(m: Memory, ghost s: Vm, ghost sid: nat, ghost did: nat, ghost done: set<Path>, ghost p: Path,
                  dpt: nat, e: Word) returns (ok: bool)
    requires Filling(s, m.State(), sid, did, done, p, 0, dpt)
    requires forall i: Index ::
      Key(sid, p, i) in View(s) && View(s)[Key(sid, p, i)] == Word(Base(e.frame) + i, e.flags.(huge := false))
    modifies m`mem, m`cur
    ensures ok ==> Copying(s, m.State(), sid, did, done, p, 512)
    ensures Cloning(s, m.State(), s.roots[did], s.roots[did])
    ensures m.cur <= old(m.cur) + 512 && (!ok ==> m.cur == POOL_END)
  {
    var i: nat := 0;
    FillFacts(s, m.State(), sid, did, done, p, 0, dpt);
    while i < 512
      invariant i <= 512 && Filling(s, m.State(), sid, did, done, p, i, dpt) && m.cur <= old(m.cur) + i
    {
      FillFacts(s, m.State(), sid, did, done, p, i, dpt);
      ok := CopyPage(m, s, sid, did, done, p, dpt, i, Word(Base(e.frame) + i, e.flags.(huge := false)));
      if !ok {
        return;
      }
      i := i + 1;
    }
    FillFacts(s, m.State(), sid, did, done, p, 512, dpt);
    ok := true;
  }

  // ---------------------------------------------------------------- one slot

  lemma BeginSlot(s: Vm, t: Vm, u: Vm, sid: nat, did: nat, done: set<Path>, pd: nat, c: Index)
    requires Wf(s) && Wf(u) && Copying(s, t, sid, did, done, [], 0) && Renewed(t, u, pd, c, did)
    requires t.owner[pd].root == s.roots[did] && t.owner[pd].path + [c] !in done && pd < t.cur
    ensures Copying(s, u, sid, did, done, t.owner[pd].path + [c], 0)
  {
    var p, root := t.owner[pd].path + [c], s.roots[did];
    CopyingFacts(s, t, sid, did, done, [], 0);
    RenewedCloning(t, u, pd, c, did, root, root);
    CloningTrans(s, t, u, root, root);
    ApartDrop(s, t, u, did, p);
    RenewedData(t, u, pd, c, did);
    KeyLengths(s);
    BeginKeys(s, t, u, View(s), View(t), sid, did, done, p);
  }

  lemma KeyLengths(s: Vm)
    requires Wf(s)
    ensures forall k :: k in View(s) ==> |k.slot| == 3
  {
    SlotLengths(s);
  }

  lemma ApartDrop(s: Vm, t: Vm, u: Vm, did: nat, p: Path)
    requires Apart(s, t) && View(u) == DropSlot(View(t), did, p)
    ensures Apart(s, u)
  {
    assert forall f, k :: Maps(View(u), f, k) ==> Maps(View(t), f, k);
  }

  lemma RenewedData(t: Vm, u: Vm, pd: nat, c: Index, id: nat)
    requires Wf(t) && Renewed(t, u, pd, c, id)
    ensures t.cur <= u.cur <= NFRAMES
    ensures forall f :: 0 <= f < t.cur && f !in t.owner ==> f !in u.owner && u.mem[f] == t.mem[f]
  {
    assert Owned(t);
  }

  lemma BeginKeys(s: Vm, t: Vm, u: Vm, a: Ptes, b: Ptes, sid: nat, did: nat, done: set<Path>, p: Path)
    requires CopiedView(s, t, a, b, sid, did, done, [], 0) && p !in done
    requires t.cur <= u.cur <= NFRAMES && forall k :: k in a ==> |k.slot| == 3
    requires forall f :: 0 <= f < t.cur && f !in t.owner ==> f !in u.owner && u.mem[f] == t.mem[f]
    ensures CopiedView(s, u, a, DropSlot(b, did, p), sid, did, done, p, 0)
  {
    var c := DropSlot(b, did, p);
    forall k | k in a ensures CopiedKey(s, u, a, c, sid, did, done, p, 0, k) {
      assert CopiedKey(s, t, a, b, sid, did, done, [], 0, k);
      if k.id == did && k.slot in done {
        CopyKept(s, t, u, a[Key(sid, k.slot, k.i)], b[k]);
      }
    }
  }

  lemma EndKeys(s: Vm, t: Vm, a: Ptes, b: Ptes, sid: nat, did: nat, done: set<Path>, p: Path)
    requires CopiedView(s, t, a, b, sid, did, done, p, 512) && forall k :: k in a ==> |k.slot| == 3
    ensures CopiedView(s, t, a, b, sid, did, done + {p}, [], 0)
  {
    forall k | k in a ensures CopiedKey(s, t, a, b, sid, did, done + {p}, [], 0, k) {
      assert CopiedKey(s, t, a, b, sid, did, done, p, 512, k);
    }
  }

  lemma EndSlot(s: Vm, t: Vm, sid: nat, did: nat, done: set<Path>, p: Path)
    requires Wf(s) && Copying(s, t, sid, did, done, p, 512)
    ensures Copying(s, t, sid, did, done + {p}, [], 0)
  {
    KeyLengths(s);
    EndKeys(s, t, View(s), View(t), sid, did, done, p);
  }

  // The pages taken for a set of slots: a table and at most 512 copies each. A failure
  // means that none are left.
  ghost predicate Taken(was: nat, now: nat, slots: set<Path>, ok: bool) {
    now <= was + 513 * |slots| && (!ok ==> now == POOL_END)
  }

  lemma TakenMore(was: nat, mid: nat, now: nat, a: set<Path>, b: set<Path>, all: set<Path>, ok: bool)
    requires Taken(was, mid, a, true) && Taken(mid, now, b, ok) && a !! b && a + b <= all
    ensures Taken(was, now, a + b, ok) && Taken(was, now, all, ok)
  {
    assert |a + b| == |a| + |b|;
    Smaller(a + b, all);
  }

  ghost function CarryState(s: Vm, t: Vm, sid: nat, did: nat, done: set<Path>, goal: set<Path>, was: nat,
                            ok: bool): Sealed {
    if && sid < |s.roots| && did < |s.roots| && Cloning(s, t, s.roots[did], s.roots[did])
       && (ok ==> Copying(s, t, sid, did, done + goal, [], 0)) && Taken(was, t.cur, goal, ok)
    then Intact else Broken
  }

  // With the slots done copied already, a loop went over the slots in goal from the time
  // when `was` was the next free page.
  ghost predicate Carried(s: Vm, t: Vm, sid: nat, did: nat, done: set<Path>, goal: set<Path>, was: nat, ok: bool) {
    CarryState(s, t, sid, did, done, goal, was, ok) == Intact
  }

  lemma CarriedNothing(s: Vm, t: Vm, sid: nat, did: nat, done: set<Path>)
    requires Wf(s) && Copying(s, t, sid, did, done, [], 0)
    ensures Carried(s, t, sid, did, done, {}, t.cur, true)
  {
    assert done + {} == done;
    CopyingFacts(s, t, sid, did, done, [], 0);
  }

  lemma CarriedFacts(s: Vm, t: Vm, sid: nat, did: nat, done: set<Path>, goal: set<Path>, was: nat)
    requires Carried(s, t, sid, did, done, goal, was, true)
    ensures sid < |s.roots| && did < |s.roots| && Cloning(s, t, s.roots[did], s.roots[did])
    ensures Copying(s, t, sid, did, done + goal, [], 0)
  {
  }

  lemma CarriedMore(s: Vm, t: Vm, u: Vm, sid: nat, did: nat, done: set<Path>, a: set<Path>, b: set<Path>,
                    all: set<Path>, was: nat, ok: bool)
    requires Carried(s, t, sid, did, done, a, was, true) && Carried(s, u, sid, did, done + a, b, t.cur, ok)
    requires a !! b && a + b <= all
    ensures Carried(s, u, sid, did, done, if ok then a + b else all, was, ok)
  {
    assert done + (a + b) == done + a + b;
    TakenMore(was, t.cur, u.cur, a, b, all, ok);
  }

  ghost function PairState(s: Vm, sid: nat, did: nat, q: Path, sp: nat, dp: nat): Sealed {
    if && Wf(s) && sid != did && sid < |s.roots| && did < |s.roots| && OnWalk(s, sp) && OnWalk(s, dp)
       && s.owner[sp] == Pos(s.roots[sid], q) && s.owner[dp] == Pos(s.roots[did], q)
    then Intact else Broken
  }

  // sp and dp are the tables at position q of the source and the destination.
  ghost predicate Paired(s: Vm, sid: nat, did: nat, q: Path, sp: nat, dp: nat) {
    PairState(s, sid, did, q, sp, dp) == Intact
  }

  // A fresh table for a slot that is to be copied.
  lemma BeginFilling(s: Vm, t: Vm, u: Vm, sid: nat, did: nat, done: set<Path>, q: Path, spd: nat, dpd: nat, c: Index,
                     pt: nat)
    requires Paired(s, sid, did, q, spd, dpd) && |q| == 2 && q + [c] !in done && q + [c] in s.slots
    requires Copying(s, t, sid, did, done, [], 0) && Wf(u) && Renewed(t, u, dpd, c, did) && pt == t.cur < NFRAMES
    requires dpd in t.owner && t.owner[dpd] == s.owner[dpd] && dpd < t.cur
    ensures Filling(s, u, sid, did, done, q + [c], 0, pt)
  {
    BeginSlot(s, t, u, sid, did, done, dpd, c);
  }

  // Lines 346-381 for directory entry c.
  method CopyEntry(m: Memory, ghost s: Vm, ghost sid: nat, ghost did: nat, ghost done: set<Path>, ghost q: Path,
                   spd: nat, dpd: nat, c: Index) returns (ok: bool)
    requires Paired(s, sid, did, q, spd, dpd) && |q| == 2
    requires Copying(s, m.State(), sid, did, done, [], 0) && q + [c] !in done
    modifies m`mem, m`cur, m`owner
    ensures Carried(s, m.State(), sid, did, done, Single(s.slots, q + [c]), old(m.cur), ok)
  {
    ghost var t, root := m.State(), s.roots[did];
    CopyingFacts(s, t, sid, did, done, [], 0);
    SourceTable(s, t, spd, sid, did);
    SlotEntry(s, spd, c, sid);
    var e := m.mem[spd][c];
    if !(e.flags.present && e.flags.user) {
      CarriedNothing(s, t, sid, did, done);
      return true;
    }
    UpperWalk(s, t, root, root, dpd);
    var dpt := RenewTable(m, did, dpd, c);
    if dpt == 0 {
      return false;
    }
    BeginFilling(s, t, m.State(), sid, did, done, q, spd, dpd, c, dpt);
    ok := CopySlot(m, s, sid, did, done, q, spd, dpd, c, dpt, e);
  }

  // Lines 357-380: the table is fresh, e is the source's entry.
  method CopySlot(m: Memory, ghost s: Vm, ghost sid: nat, ghost did: nat, ghost done: set<Path>, ghost q: Path,
                  ghost spd: nat, ghost dpd: nat, ghost c: Index, dpt: nat, e: Word) returns (ok: bool)
    requires Paired(s, sid, did, q, spd, dpd) && |q| == 2 && q + [c] in s.slots && e == s.mem[spd][c]
    requires Filling(s, m.State(), sid, did, done, q + [c], 0, dpt)
    modifies m`mem, m`cur
    ensures Cloning(s, m.State(), s.roots[did], s.roots[did])
    ensures ok ==> Copying(s, m.State(), sid, did, done + {q + [c]}, [], 0)
    ensures m.cur <= old(m.cur) + 512 && (!ok ==> m.cur == POOL_END)
  {
    if e.flags.huge {
      HugeWord(s, spd, c, sid);
      ok := CopyHuge(m, s, sid, did, done, q + [c], dpt, e);
    } else {
      SlotTable(s, spd, c);
      ok := CopyTable(m, s, sid, did, done, q + [c], e.frame, dpt);
    }
    if ok {
      EndSlot(s, m.State(), sid, did, done, q + [c]);
    }
  }

  // Tables of the source are not written.
  lemma SourceTable(s: Vm, t: Vm, f: nat, sid: nat, did: nat)
    requires Wf(s) && sid < |s.roots| && did < |s.roots| && sid != did && Cloning(s, t, s.roots[did], s.roots[did])
    requires f in s.owner && s.owner[f].root == s.roots[sid]
    ensures f < NFRAMES && t.mem[f] == s.mem[f]
  {
    assert s.roots[sid] != s.roots[did];
    KeptTables(s, t, {s.roots[did], s.roots[did]});
    assert SameTables(s, t, s.roots[sid]);
  }

  // ---------------------------------------------------------------- the loops

  lemma DoneNext(slots: set<Path>, q: Path, c: Index, done: set<Path>)
    requires |q| == 2 && done <= slots && done !! Under(slots, q, 512)
    ensures q + [c] !in done + Under(slots, q, c)
    ensures Under(slots, q, c) !! Single(slots, q + [c])
    ensures Under(slots, q, c) + Single(slots, q + [c]) == Under(slots, q, c + 1) <= Under(slots, q, 512)
  {
    UnderNext(slots, q, c);
    UnderGrows(slots, q, c + 1);
    assert q + [c] in slots ==> q + [c] in Under(slots, q, 512);
  }

  lemma DoneUpper(s: Vm, q: Path, c: Index, done: set<Path>)
    requires Wf(s) && |q| < 2 && done <= s.slots && done !! Under(s.slots, q, 512)
    ensures var a, b := Under(s.slots, q, c), Under(s.slots, q + [c], 512);
      done + a <= s.slots && done + a !! b && a !! b && a + b == Under(s.slots, q, c + 1) <= Under(s.slots, q, 512)
  {
    SlotLengths(s);
    UnderUpper(s.slots, q, c);
    UnderGrows(s.slots, q, c + 1);
  }

  // One more entry of a directory, or of an upper table.
  lemma CarriedSlot(s: Vm, t: Vm, u: Vm, sid: nat, did: nat, q: Path, c: Index, done: set<Path>, was: nat, ok: bool)
    requires |q| == 2 && done <= s.slots && done !! Under(s.slots, q, 512)
    requires Carried(s, t, sid, did, done, Under(s.slots, q, c), was, true)
    requires Carried(s, u, sid, did, done + Under(s.slots, q, c), Single(s.slots, q + [c]), t.cur, ok)
    ensures Carried(s, u, sid, did, done, Under(s.slots, q, if ok then c + 1 else 512), was, ok)
  {
    DoneNext(s.slots, q, c, done);
    CarriedMore(s, t, u, sid, did, done, Under(s.slots, q, c), Single(s.slots, q + [c]), Under(s.slots, q, 512),
                was, ok);
  }

  lemma CarriedUpper(s: Vm, t: Vm, u: Vm, sid: nat, did: nat, q: Path, c: Index, done: set<Path>, was: nat, ok: bool)
    requires Wf(s) && |q| < 2 && done <= s.slots && done !! Under(s.slots, q, 512)
    requires Carried(s, t, sid, did, done, Under(s.slots, q, c), was, true)
    requires Carried(s, u, sid, did, done + Under(s.slots, q, c), Under(s.slots, q + [c], 512), t.cur, ok)
    ensures Carried(s, u, sid, did, done, Under(s.slots, q, if ok then c + 1 else 512), was, ok)
  {
    DoneUpper(s, q, c, done);
    CarriedMore(s, t, u, sid, did, done, Under(s.slots, q, c), Under(s.slots, q + [c], 512), Under(s.slots, q, 512),
                was, ok);
  }

  // Lines 345-382: one page directory.
  method EagerDirectory(m: Memory, ghost s: Vm, ghost sid: nat, ghost did: nat, ghost done: set<Path>, ghost q: Path,
                        spd: nat, dpd: nat) returns (ok: bool)
    requires Paired(s, sid, did, q, spd, dpd) && |q| == 2
    requires Copying(s, m.State(), sid, did, done, [], 0) && done <= s.slots && done !! Under(s.slots, q, 512)
    modifies m`mem, m`cur, m`owner
    ensures Carried(s, m.State(), sid, did, done, Under(s.slots, q, 512), old(m.cur), ok)
  {
    var c: nat := 0;
    assert Under(s.slots, q, 0) == {};
    CarriedNothing(s, m.State(), sid, did, done);
    while c < 512
      invariant c <= 512 && Carried(s, m.State(), sid, did, done, Under(s.slots, q, c), old(m.cur), true)
    {
      ghost var t := m.State();
      CarriedFacts(s, t, sid, did, done, Under(s.slots, q, c), old(m.cur));
      DoneNext(s.slots, q, c, done);
      ok := CopyEntry(m, s, sid, did, done + Under(s.slots, q, c), q, spd, dpd, c);
      CarriedSlot(s, t, m.State(), sid, did, q, c, done, old(m.cur), ok);
      if !ok {
        return;
      }
      c := c + 1;
    }
    ok := true;
  }

  // The tables below entry c on both sides; without one of them there is no slot there.
  lemma PairedBelow(s: Vm, t: Vm, sid: nat, did: nat, q: Path, sp: nat, dp: nat, c: Index)
    requires Paired(s, sid, did, q, sp, dp) && |q| < 2 && Cloning(s, t, s.roots[did], s.roots[did])
    ensures sp < NFRAMES && dp < NFRAMES
    ensures var e, d := t.mem[sp][c], t.mem[dp][c];
      if e.flags.present && d.flags.present && (q == [] ==> e.flags.user)
      then Paired(s, sid, did, q + [c], e.frame, d.frame)
      else Under(s.slots, q + [c], 512) == {}
  {
    UpperWord(s, t, sp, s.roots[did]);
    UpperWord(s, t, dp, s.roots[did]);
    var e, d := s.mem[sp][c], s.mem[dp][c];
    if !e.flags.present || (q == [] && !e.flags.user) {
      NoSlotsBelow(s, sp, c);
    } else if !d.flags.present {
      NoSlotsBelow(s, dp, c);
    } else {
      Below(s, sp, c);
      Below(s, dp, c);
    }
  }

  // Lines 336-383 for PDPT entry c.
  method EagerPdptEntry(m: Memory, ghost s: Vm, ghost sid: nat, ghost did: nat, ghost done: set<Path>, ghost q: Path,
                        sp: nat, dp: nat, c: Index) returns (ok: bool)
    requires Paired(s, sid, did, q, sp, dp) && |q| == 1
    requires Copying(s, m.State(), sid, did, done, [], 0) && done <= s.slots && done !! Under(s.slots, q + [c], 512)
    modifies m`mem, m`cur, m`owner
    ensures Carried(s, m.State(), sid, did, done, Under(s.slots, q + [c], 512), old(m.cur), ok)
  {
    CopyingFacts(s, m.State(), sid, did, done, [], 0);
    PairedBelow(s, m.State(), sid, did, q, sp, dp, c);
    var e, d := m.mem[sp][c], m.mem[dp][c];
    if !e.flags.present || !d.flags.present {
      CarriedNothing(s, m.State(), sid, did, done);
      return true;
    }
    ok := EagerDirectory(m, s, sid, did, done, q + [c], e.frame, d.frame);
  }

  lemma UpperWord(s: Vm, t: Vm, f: nat, root: nat)
    requires Wf(s) && Cloning(s, t, root, root) && OnWalk(s, f) && |s.owner[f].path| < 2
    ensures f < NFRAMES && t.mem[f] == s.mem[f]
  {
  }

  // Lines 335-383: one PDPT.
  method EagerPdpt(m: Memory, ghost s: Vm, ghost sid: nat, ghost did: nat, ghost done: set<Path>, ghost q: Path,
                   sp: nat, dp: nat) returns (ok: bool)
    requires Paired(s, sid, did, q, sp, dp) && |q| == 1
    requires Copying(s, m.State(), sid, did, done, [], 0) && done <= s.slots && done !! Under(s.slots, q, 512)
    modifies m`mem, m`cur, m`owner
    ensures Carried(s, m.State(), sid, did, done, Under(s.slots, q, 512), old(m.cur), ok)
  {
    var c: nat := 0;
    assert Under(s.slots, q, 0) == {};
    CarriedNothing(s, m.State(), sid, did, done);
    while c < 512
      invariant c <= 512 && Carried(s, m.State(), sid, did, done, Under(s.slots, q, c), old(m.cur), true)
    {
      ghost var t := m.State();
      CarriedFacts(s, t, sid, did, done, Under(s.slots, q, c), old(m.cur));
      DoneUpper(s, q, c, done);
      ok := EagerPdptEntry(m, s, sid, did, done + Under(s.slots, q, c), q, sp, dp, c);
      CarriedUpper(s, t, m.State(), sid, did, q, c, done, old(m.cur), ok);
      if !ok {
        return;
      }
      c := c + 1;
    }
    ok := true;
  }

  // Lines 325-384 for top entry c.
  method EagerTopEntry(m: Memory, ghost s: Vm, ghost sid: nat, ghost did: nat, ghost done: set<Path>,
                       src: nat, dst: nat, c: Index) returns (ok: bool)
    requires Paired(s, sid, did, [], src, dst)
    requires Copying(s, m.State(), sid, did, done, [], 0) && done <= s.slots && done !! Under(s.slots, [c], 512)
    modifies m`mem, m`cur, m`owner
    ensures Carried(s, m.State(), sid, did, done, Under(s.slots, [c], 512), old(m.cur), ok)
  {
    CopyingFacts(s, m.State(), sid, did, done, [], 0);
    assert [] + [c] == [c];
    PairedBelow(s, m.State(), sid, did, [], src, dst, c);
    var e, d := m.mem[src][c], m.mem[dst][c];
    if !e.flags.present || !e.flags.user || !d.flags.present {
      CarriedNothing(s, m.State(), sid, did, done);
      return true;
    }
    ok := EagerPdpt(m, s, sid, did, done, [c], e.frame, d.frame);
  }

  // paging_clone_user. On success every present user page of the source has a private copy
  // in the destination; it fails only when no page is left, and takes at most 513 for every
  // slot. No other space is touched in any case.
  method EagerClone(m: Memory, ghost sid: nat, ghost did: nat, src: nat, dst: nat) returns (ok: bool)
    requires Wf(m.State()) && sid != did
    requires sid < |m.roots| && did < |m.roots| && m.roots[sid] == src && m.roots[did] == dst
    modifies m`mem, m`cur, m`owner
    ensures Cloning(old(m.State()), m.State(), dst, dst)
    ensures ok ==> Copying(old(m.State()), m.State(), sid, did, m.slots, [], 0)
    ensures !ok ==> m.cur == POOL_END
    ensures m.cur <= old(m.cur) + 513 * |old(m.slots)|
  {
    ghost var s := m.State();
    CopyingNothing(s, sid, did);
    RootWalk(s, sid);
    RootWalk(s, did);
    ok := EagerTop(m, s, sid, did, src, dst);
    assert {} + s.slots == s.slots;
    if ok { CopyingFacts(s, m.State(), sid, did, s.slots, [], 0); }
  }

  // Lines 324-385.
  method EagerTop(m: Memory, ghost s: Vm, ghost sid: nat, ghost did: nat, src: nat, dst: nat) returns (ok: bool)
    requires Paired(s, sid, did, [], src, dst) && Copying(s, m.State(), sid, did, {}, [], 0)
    modifies m`mem, m`cur, m`owner
    ensures Carried(s, m.State(), sid, did, {}, s.slots, old(m.cur), ok)
  {
    var c: nat := 0;
    TopSlots(s);
    CarriedNothing(s, m.State(), sid, did, {});
    while c < 512
      invariant c <= 512 && Carried(s, m.State(), sid, did, {}, Under(s.slots, [], c), old(m.cur), true)
    {
      ghost var t := m.State();
      CarriedFacts(s, t, sid, did, {}, Under(s.slots, [], c), old(m.cur));
      DoneUpper(s, [], c, {});
      assert [] + [c] == [c];
      ok := EagerTopEntry(m, s, sid, did, {} + Under(s.slots, [], c), src, dst, c);
      CarriedUpper(s, t, m.State(), sid, did, [], c, {}, old(m.cur), ok);
      if !ok {
        return;
      }
      c := c + 1;
    }
    ok := true;
  }

  lemma TopSlots(s: Vm)
    requires Wf(s)
    ensures Under(s.slots, [], 0) == {} && Under(s.slots, [], 512) == s.slots
  {
    SlotLengths(s);
  }

  // ---------------------------------------------------------------- the whole fork

  // paging_create, then paging_clone_user: one fork step of the eager machine.
  method ForkEagerly(m: Memory, ghost sid: nat, src: nat) returns (child: nat)
    requires Wf(m.State()) && BootHuge(m.State()) && 0 < sid < |m.roots| && m.roots[sid] == src
    requires |m.refc| == POOL_END - POOL_START
    modifies m`mem, m`cur, m`owner, m`roots
    ensures Wf(m.State()) && BootHuge(m.State())
    ensures child != 0 ==> EagerMoves(old(Now(m)), Now(m), CowRefinement.Op.Fork(sid, old(m.slots), {}))
    ensures child == 0 ==> m.cur == POOL_END
    ensures m.cur <= old(m.cur) + BootCost(old(m.mem)) + 513 * |old(m.slots)|
  {
    ghost var s := m.State();
    child := Create(m);
    if child == 0 {
      return;
    }
    MakeNew(s, m.State(), child);
    var ok := FillChild(m, s, sid, src, child);
    if !ok {
      return 0;
    }
  }

  ghost function NewState(s: Vm, t: Vm, child: nat): Sealed {
    if && Wf(s) && Wf(t) && BootHuge(t) && t.roots == s.roots + [child] && t.slots == s.slots
       && Extends(s, t.(roots := s.roots), {})
       && (forall k :: k in View(s) ==> k in View(t) && View(t)[k] == View(s)[k])
    then Intact else Broken
  }

  // Space child was made since s.
  ghost predicate New(s: Vm, t: Vm, child: nat) {
    NewState(s, t, child) == Intact
  }

  lemma MakeNew(s: Vm, t: Vm, child: nat)
    requires Wf(s) && Wf(t) && BootHuge(t) && t.roots == s.roots + [child] && t.slots == s.slots
    requires Extends(s, t.(roots := s.roots), {}) && SameLeaves(s, t.(roots := s.roots))
    requires Mirrors(t.mem, child, t.slots)
    ensures New(s, t, child)
  {
    CreatedView(s, t, child);
  }

  method FillChild(m: Memory, ghost s: Vm, ghost sid: nat, src: nat, child: nat) returns (ok: bool)
    requires New(s, m.State(), child) && 0 < sid < |s.roots| && s.roots[sid] == src
    requires |m.refc| == POOL_END - POOL_START
    modifies m`mem, m`cur, m`owner
    ensures Wf(m.State()) && BootHuge(m.State())
    ensures ok ==> EagerMoves(FlatOf(s, m.refc), Now(m), CowRefinement.Op.Fork(sid, s.slots, {}))
    ensures (!ok ==> m.cur == POOL_END) && m.cur <= old(m.cur) + 513 * |s.slots|
  {
    ghost var t := m.State();
    ok := EagerClone(m, sid, |s.roots|, src, child);
    EagerKept(t, m.State(), |s.roots|);
    if ok {
      CopyingFlat(s, t, m.State(), m.refc, sid, child);
    }
  }

  lemma EagerKept(t: Vm, u: Vm, did: nat)
    requires Wf(t) && BootHuge(t) && 0 < did < |t.roots| && Cloning(t, u, t.roots[did], t.roots[did])
    ensures Wf(u) && BootHuge(u) && u.slots == t.slots && u.roots == t.roots
  {
    assert t.roots[0] == BOOT && t.roots[did] != BOOT;
    CloningFacts(t, u, t.roots[did], t.roots[did]);
    BootKept(t, u, {t.roots[did], t.roots[did]});
  }

  lemma CopyingFlat(s: Vm, t: Vm, u: Vm, refc: seq<nat>, sid: nat, child: nat)
    requires Wf(s) && Wf(t) && Wf(u) && t.roots == s.roots + [child] && t.slots == s.slots && 0 < sid < |s.roots|
    requires |refc| == POOL_END - POOL_START && Extends(s, t.(roots := s.roots), {})
    requires forall k :: k in View(s) ==> k in View(t) && View(t)[k] == View(s)[k]
    requires Copying(t, u, sid, |s.roots|, t.slots, [], 0)
    ensures EagerMoves(FlatOf(s, refc), FlatOf(u, refc), CowRefinement.Op.Fork(sid, s.slots, {}))
  {
    CopyingSpawned(s, t, u, refc, sid, child);
    CopyingWords(s, t, u, refc, sid);
    CopiesApart(t, u, View(s), sid, |s.roots|);
    MakeEagerForked(FlatOf(s, refc), FlatOf(u, refc), sid);
  }

  lemma CopyingSpawned(s: Vm, t: Vm, u: Vm, refc: seq<nat>, sid: nat, child: nat)
    requires Wf(s) && Wf(t) && Wf(u) && t.roots == s.roots + [child] && t.slots == s.slots && 0 < sid < |s.roots|
    requires |refc| == POOL_END - POOL_START && Extends(s, t.(roots := s.roots), {})
    requires Copying(t, u, sid, |s.roots|, t.slots, [], 0)
    ensures Sane(FlatOf(s, refc)) && Spawned(FlatOf(s, refc), FlatOf(u, refc), sid, s.slots, {})
  {
    CopyingFacts(t, u, sid, |s.roots|, t.slots, [], 0);
    assert t.(roots := s.roots).(roots := u.roots) == t;
    SpawnedFlat(s, t.(roots := s.roots), u, {child, child}, refc, refc, sid, s.slots, {});
  }

  lemma CopyingWords(s: Vm, t: Vm, u: Vm, refc: seq<nat>, sid: nat)
    requires Wf(s) && Wf(t) && Wf(u) && |t.roots| == |s.roots| + 1 && t.slots == s.slots && 0 < sid < |s.roots|
    requires Extends(s, t.(roots := s.roots), {}) && Copying(t, u, sid, |s.roots|, t.slots, [], 0)
    requires forall k :: k in View(s) ==> k in View(t) && View(t)[k] == View(s)[k]
    ensures forall k :: k in View(s) ==> k in View(u) && View(u)[k] == View(s)[k]
    ensures forall k :: k in View(u) && k.id == |s.roots| ==>
      var j := Key(sid, k.slot, k.i);
      j in View(s) && CopyOf(t, u, View(s)[j], View(u)[k])
      && Copied(FlatOf(s, refc), FlatOf(u, refc), View(s)[j], View(u)[k])
    ensures Apart(t, u)
  {
    var v := t.(roots := s.roots);
    GrownData(s, v, {});
    assert Data(v) == Data(t) && POOL_START <= s.cur <= t.cur by { assert Owned(s); }
    KeyLengths(t);
    CopyingKeys(t, u, View(s), View(t), View(u), sid, |s.roots|);
    forall k | k in View(u) && k.id == |s.roots|
      ensures Copied(FlatOf(s, refc), FlatOf(u, refc), View(s)[Key(sid, k.slot, k.i)], View(u)[k])
    {
      CopiedData(s, t, u, refc, Key(sid, k.slot, k.i), View(u)[k]);
    }
  }

  lemma CopiesApart(t: Vm, u: Vm, a: Ptes, sid: nat, did: nat)
    requires Apart(t, u)
    requires forall k :: k in View(u) && k.id == did ==>
      Key(sid, k.slot, k.i) in a && CopyOf(t, u, a[Key(sid, k.slot, k.i)], View(u)[k])
    ensures forall f, j: Key, k: Key :: j.id == did && k.id == did && Maps(View(u), f, j) && Maps(View(u), f, k) ==>
            j == k
  {
    forall f: nat, j: Key, k: Key | j.id == did && k.id == did && Maps(View(u), f, j) && Maps(View(u), f, k)
      ensures j == k
    {
      assert CopyOf(t, u, a[Key(sid, j.slot, j.i)], View(u)[j]);
    }
  }

  // Reading off the views: old spaces keep their pages, the new one has copies.
  lemma CopyingKeys(t: Vm, u: Vm, a: Ptes, b: Ptes, c: Ptes, sid: nat, did: nat)
    requires CopiedView(t, u, b, c, sid, did, t.slots, [], 0) && sid < did
    requires forall k :: k in b <==> k.id < did + 1 && k.slot in t.slots
    requires forall k :: k in a <==> k.id < did && k.slot in t.slots
    requires forall k :: k in a ==> k in b && b[k] == a[k]
    requires forall k :: k in b ==> |k.slot| == 3
    ensures forall k :: k in a ==> k in c && c[k] == a[k]
    ensures forall k :: k in c && k.id == did ==>
        Key(sid, k.slot, k.i) in a && CopyOf(t, u, a[Key(sid, k.slot, k.i)], c[k])
  {
    forall k | k in a ensures k in c && c[k] == a[k] {
      assert CopiedKey(t, u, b, c, sid, did, t.slots, [], 0, k);
    }
    forall k | k in c && k.id == did
      ensures Key(sid, k.slot, k.i) in a && CopyOf(t, u, a[Key(sid, k.slot, k.i)], c[k])
    {
      assert CopiedKey(t, u, b, c, sid, did, t.slots, [], 0, k);
    }
  }

  lemma CopiedData(s: Vm, t: Vm, u: Vm, refc: seq<nat>, j: Key, x: Word)
    requires Wf(s) && Wf(u) && POOL_START <= s.cur <= t.cur && j in View(s) && CopyOf(t, u, View(s)[j], x)
    requires forall f :: f in Data(s) ==> f in Data(t) && Data(t)[f] == Data(s)[f]
    ensures Copied(FlatOf(s, refc), FlatOf(u, refc), View(s)[j], x)
  {
    if View(s)[j].flags.present {
      ViewData(s, j);
      var f := View(s)[j].frame;
      assert f in Data(s);
      assert Data(t)[f] == t.mem[f];
      assert x.frame in Data(u) && u.cur <= POOL_END by { assert Owned(u); }
    }
  }
}
