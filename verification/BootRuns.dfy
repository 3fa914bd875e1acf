/**
 * Two runs from the state that boot/stage2.asm leaves, in which copy-on-write fork differs
 * from eager fork: a page outside the pool stays shared with the child, and a read-only page
 * becomes writable for it.
 */
module BootRuns {
  import opened Prelude
  import opened PageTables
  import opened Paging
  import opened CowModel
  import opened CowRefinement
  import opened UserMemory

  // ---------------------------------------------------------------- steps that can be made

  ghost function ChildOf(a: Flat, src: nat, done: set<Path>): (r: Ptes)
    requires Sane(a) && src < a.n
    ensures r.Keys == ChildKeys(a.n, a.slots)
    ensures forall k :: k in r ==>
      r[k] == if k.slot in done then CowDst(a.pte[Key(src, k.slot, k.i)]) else Leftover(a, k, {})
  {
    map k | k in ChildKeys(a.n, a.slots) ::
      if k.slot in done then CowDst(a.pte[Key(src, k.slot, k.i)]) else Leftover(a, k, {})
  }

  ghost function ParentOf(a: Flat, src: nat, done: set<Path>): (r: Ptes)
    ensures r.Keys == a.pte.Keys
    ensures forall k :: k in r ==> r[k] == if k.id == src && k.slot in done then CowSrc(a.pte[k]) else a.pte[k]
  {
    map k | k in a.pte :: if k.id == src && k.slot in done then CowSrc(a.pte[k]) else a.pte[k]
  }

  ghost function Raised(a: Flat, d: set<Key>): (r: seq<nat>)
    requires |a.refc| == POOL_END - POOL_START
    ensures CountsRise(a.pte, a.refc, r, d)
  {
    seq(POOL_END - POOL_START, i requires 0 <= i < POOL_END - POOL_START =>
      a.refc[i] + 2 * |PagesIn(a.pte, d, POOL_START + i)|)
  }

  // The state after a complete fork, or for done == {} after the creation of a space.
  ghost function CowChild(a: Flat, src: nat, done: set<Path>): Flat
    requires Sane(a) && src < a.n
  {
    Flat(a.n + 1, a.slots, ChildOf(a, src, done) + ParentOf(a, src, done), a.data,
         Raised(a, SlotKeys(a.pte, src, done)))
  }

  lemma CanCowFork(a: Flat, src: nat, done: set<Path>) returns (b: Flat)
    requires Sane(a) && src < a.n && done <= a.slots && (done != {} ==> src > 0)
    ensures CowForked(a, b, src, done, {}) && b.data == a.data
  {
    b := CowChild(a, src, done);
    ChildSane(a, src, done);
    MakeForked(a, b, src, done, {});
  }

  lemma ChildSane(a: Flat, src: nat, done: set<Path>)
    requires Sane(a) && src < a.n
    ensures Sane(CowChild(a, src, done))
  {
    var b := CowChild(a, src, done);
    forall k | k in b.pte && b.pte[k].flags.present ensures b.pte[k].frame in b.data {
      if k !in a.pte {
        assert Key(src, k.slot, k.i) in a.pte && Key(0, k.slot, k.i) in a.pte;
      }
    }
  }

  // A write by which a copy-on-write page faults: f is the frame for the copy, if one is made.
  lemma CanFaultAndWrite(a: Flat, k: Key, j: Index, w: Word, f: nat) returns (b: Flat)
    requires Sane(a) && k in a.pte && k.id > 0 && Faults(a.pte[k]) && InPool(f) && f !in a.data
    ensures Moves(a, b, Write(k, j, w)) && Read(b, k, j) == Some(w)
  {
    var x := a.pte[k];
    var fl := x.flags.(cow := false, rw := true);
    var m: Flat;
    if RefGet(a.refc, x.frame) > 1 {
      m := Flat(a.n, a.slots, a.pte[k := Word(f, fl)], a.data[f := a.data[x.frame]], RefDec(a.refc, x.frame));
      assert PlacedAt(a, m, k, fl, a.data[x.frame], f);
    } else {
      m := Flat(a.n, a.slots, a.pte[k := Word(x.frame, fl)], a.data, RefDec(a.refc, x.frame));
    }
    assert Served(a, m, k);
    var g := m.pte[k].frame;
    b := m.(data := m.data[g := m.data[g][j := w]]);
    assert Stored(m, b, k, j, w);
  }

  lemma CanDemand(a: Flat, k: Key, flags: Flags, f: nat, eager: bool) returns (b: Flat)
    requires Sane(a) && k.id > 0 && k in a.pte && !a.pte[k].flags.present && !flags.cow
    requires Grantable(f, eager) && f !in a.data
    ensures Shared(a, b, Demand(k, flags), eager) && Sane(b) && b.n == a.n && b.slots == a.slots
    ensures b.pte == a.pte[k := Word(f, flags.(present := true))] && b.data == a.data[f := ZeroPage()]
  {
    b := a.(pte := a.pte[k := Word(f, flags.(present := true))], data := a.data[f := ZeroPage()]);
    assert PlacedAt(a, b, k, flags.(present := true), ZeroPage(), f);
  }

  // ---------------------------------------------------------------- the boot state

  const SLOT: Path := [0, 0, 2]

  // One space with one slot, whose pages lie one after the other below the pool.
  ghost predicate Booted(a: Flat) {
    && Sane(a) && Boot(a) && a.n == 1 && a.slots == {SLOT}
    && (forall k :: k in a.pte ==> a.pte[k] == Word(1024 + k.i, FULL))
    && (forall f :: f in a.data ==> f < POOL_START)
  }

  lemma BootBooted(ram: Ram, refc: seq<nat>)
    requires BootTables(ram) && |refc| == POOL_END - POOL_START
    ensures Booted(FlatOf(BootVm(ram), refc))
  {
    BootStart(ram, refc);
    BootSlot(ram);
  }

  lemma RunOf(cs: seq<Flat>, ops: seq<Op>, b: Flat, op: Op)
    requires CowRun(cs, ops) && Moves(cs[|ops|], b, op)
    ensures CowRun(cs + [b], ops + [op])
  {
  }

  lemma EagerRunOf(es: seq<Flat>, ops: seq<Op>, b: Flat, op: Op)
    requires EagerRun(es, ops) && EagerMoves(es[|ops|], b, op)
    ensures EagerRun(es + [b], ops + [op])
  {
  }

  // The first space: its pages are those of the boot tables.
  lemma FirstSpace(a: Flat) returns (b: Flat)
    requires Booted(a)
    ensures Moves(a, b, NewSpace) && Sane(b) && b.n == 2 && b.slots == {SLOT} && b.data == a.data
    ensures forall i: Index :: Key(1, SLOT, i) in b.pte && b.pte[Key(1, SLOT, i)] == Word(1024 + i, FULL)
  {
    b := CanCowFork(a, 0, {});
    forall i: Index ensures Key(1, SLOT, i) in b.pte && b.pte[Key(1, SLOT, i)] == Word(1024 + i, FULL) {
      assert Key(0, SLOT, i) in a.pte && Key(1, SLOT, i) in b.pte;
      assert b.pte[Key(1, SLOT, i)] == Leftover(a, Key(1, SLOT, i), {});
    }
  }

  // Boot, a first space, a fork of it and a write by the child to one of the pages that
  // boot mapped: the parent reads what the child wrote.
  lemma BootPageShared(ram: Ram, refc: seq<nat>, i: Index, j: Index, w: Word) returns (cs: seq<Flat>)
    requires BootTables(ram) && |refc| == POOL_END - POOL_START
    ensures CowRun(cs, [NewSpace, Fork(1, {SLOT}, {}), Write(Key(2, SLOT, i), j, w)])
    ensures cs[0] == FlatOf(BootVm(ram), refc) && Read(cs[2], Key(1, SLOT, i), j) == Some(ram[1024 + i][j])
    ensures Read(cs[3], Key(1, SLOT, i), j) == Some(w)
  {
    var a := FlatOf(BootVm(ram), refc);
    BootBooted(ram, refc);
    var b := FirstSpace(a);
    var c, d := ForkAndWrite(a, b, i, j, w);
    RunOf([a], [], b, NewSpace);
    RunOf([a, b], [NewSpace], c, Fork(1, {SLOT}, {}));
    RunOf([a, b, c], [NewSpace, Fork(1, {SLOT}, {})], d, Write(Key(2, SLOT, i), j, w));
    cs := [a, b, c, d];
    assert a.data[1024 + i] == ram[1024 + i];
  }

  lemma ForkAndWrite(a: Flat, b: Flat, i: Index, j: Index, w: Word) returns (c: Flat, d: Flat)
    requires Booted(a) && Moves(a, b, NewSpace) && Sane(b) && b.n == 2 && b.slots == {SLOT} && b.data == a.data
    requires Key(1, SLOT, i) in b.pte && b.pte[Key(1, SLOT, i)] == Word(1024 + i, FULL)
    ensures Moves(b, c, Fork(1, {SLOT}, {})) && Moves(c, d, Write(Key(2, SLOT, i), j, w)) && c.data == a.data
    ensures Key(1, SLOT, i) in c.pte && c.pte[Key(1, SLOT, i)] == Cow(Word(1024 + i, FULL)) && 1024 + i in a.data
    ensures Read(d, Key(1, SLOT, i), j) == Some(w)
  {
    c := CanCowFork(b, 1, {SLOT});
    var p, k := Key(1, SLOT, i), Key(2, SLOT, i);
    assert k in c.pte && c.pte[k] == CowDst(b.pte[p]);
    d := CanFaultAndWrite(c, k, j, w, POOL_START);
    WriteInPlace(c, d, p, k, j, w);
  }

  lemma WriteInPlace(c: Flat, d: Flat, p: Key, k: Key, j: Index, w: Word)
    requires Sane(c) && p in c.pte && k in c.pte && p != k && c.pte[p] == c.pte[k] && Faults(c.pte[k])
    requires !InPool(c.pte[k].frame) && Moves(c, d, Write(k, j, w))
    ensures Read(d, p, j) == Some(w)
  {
    var m :| Served(c, m, k) && m.pte[k].frame in m.data && Stored(m, d, k, j, w);
  }

  // ---------------------------------------------------------------- A region that is not writable

  const READ_ONLY := Flags(true, false, true, false, false, {})

  // The operations: a first space, one of its pages unmapped and demand-paged from a
  // read-only region, a fork, and a write by the child.
  function ReadOnlyOps(i: Index, j: Index, w: Word): seq<Op> {
    Prepare(Key(1, SLOT, i)) + [Fork(1, {SLOT}, {})] + [Write(Key(2, SLOT, i), j, w)]
  }

  function Prepare(p: Key): seq<Op> { [NewSpace] + [Unmap(p)] + [Demand(p, READ_ONLY)] }

  // Page p of the first space lies in a read-only page of zeros.
  ghost predicate ZeroReadOnly(d: Flat, p: Key) {
    && Sane(d) && d.n == 2 && d.slots == {SLOT} && p.id == 1 && p in d.pte
    && d.pte[p].flags == READ_ONLY && d.pte[p].frame in d.data && d.data[d.pte[p].frame] == ZeroPage()
  }

  // A step of either machine.
  ghost predicate StepOf(a: Flat, b: Flat, op: Op, eager: bool) {
    if eager then EagerMoves(a, b, op) else Moves(a, b, op)
  }

  lemma TwoMore(cs: seq<Flat>, ops: seq<Op>, e: Flat, f: Flat, o: Op, p: Op)
    requires CowRun(cs, ops) && Moves(cs[|ops|], e, o) && Moves(e, f, p)
    ensures CowRun(cs + [e] + [f], ops + [o] + [p])
  {
    RunOf(cs, ops, e, o);
    RunOf(cs + [e], ops + [o], f, p);
  }

  lemma TwoMoreEager(es: seq<Flat>, ops: seq<Op>, e: Flat, f: Flat, o: Op, p: Op)
    requires EagerRun(es, ops) && EagerMoves(es[|ops|], e, o) && EagerMoves(e, f, p)
    ensures EagerRun(es + [e] + [f], ops + [o] + [p])
  {
    EagerRunOf(es, ops, e, o);
    EagerRunOf(es + [e], ops + [o], f, p);
  }

  lemma UnmapAndDemand(b: Flat, p: Key, f: nat, eager: bool) returns (c: Flat, d: Flat)
    requires Sane(b) && b.n == 2 && b.slots == {SLOT} && p.id == 1 && p in b.pte && Grantable(f, eager) && f !in b.data
    ensures StepOf(b, c, Unmap(p), eager) && StepOf(c, d, Demand(p, READ_ONLY), eager)
    ensures ZeroReadOnly(d, p) && d.data.Keys == b.data.Keys + {f}
  {
    c := b.(pte := b.pte[p := ZERO]);
    d := CanDemand(c, p, READ_ONLY, f, eager);
  }

  lemma CowForkAndWrite(d: Flat, i: Index, j: Index, w: Word) returns (e: Flat, f: Flat)
    requires ZeroReadOnly(d, Key(1, SLOT, i)) && POOL_START + 1 !in d.data
    ensures Moves(d, e, Fork(1, {SLOT}, {})) && Moves(e, f, Write(Key(2, SLOT, i), j, w))
    ensures Read(f, Key(2, SLOT, i), j) == Some(w)
  {
    var p, k := Key(1, SLOT, i), Key(2, SLOT, i);
    e := CanCowFork(d, 1, {SLOT});
    assert k in e.pte && e.pte[k] == CowDst(d.pte[p]);
    f := CanFaultAndWrite(e, k, j, w, POOL_START + 1);
  }

  lemma CowSide(a: Flat, i: Index, j: Index, w: Word) returns (cs: seq<Flat>)
    requires Booted(a)
    ensures CowRun(cs, ReadOnlyOps(i, j, w)) && cs[0] == a && Read(cs[5], Key(2, SLOT, i), j) == Some(w)
  {
    var p := Key(1, SLOT, i);
    cs := CowPrepares(a, p);
    var e, f := CowForkAndWrite(cs[3], i, j, w);
    TwoMore(cs, Prepare(p), e, f, Fork(1, {SLOT}, {}), Write(Key(2, SLOT, i), j, w));
    cs := cs + [e] + [f];
  }

  lemma CowPrepares(a: Flat, p: Key) returns (cs: seq<Flat>)
    requires Booted(a) && p.id == 1 && p.slot == SLOT
    ensures CowRun(cs, Prepare(p)) && |cs| == 4 && cs[0] == a
    ensures ZeroReadOnly(cs[3], p) && POOL_START + 1 !in cs[3].data
  {
    var b := FirstSpace(a);
    var c, d := UnmapAndDemand(b, p, POOL_START, false);
    RunOf([a], [], b, NewSpace);
    TwoMore([a] + [b], [] + [NewSpace], c, d, Unmap(p), Demand(p, READ_ONLY));
    assert [] + [NewSpace] == [NewSpace];
    cs := [a] + [b] + [c] + [d];
  }

  lemma EagerFork(d: Flat, i: Index, j: Index, w: Word) returns (e: Flat)
    requires ZeroReadOnly(d, Key(1, SLOT, i))
    ensures EagerMoves(d, e, Fork(1, {SLOT}, {})) && EagerMoves(e, e, Write(Key(2, SLOT, i), j, w))
    ensures Read(e, Key(2, SLOT, i), j) == Some(ZERO)
  {
    e := CanFork(d, 1, {SLOT}, {});
    assert Key(2, SLOT, i) in e.pte && Copied(d, e, d.pte[Key(1, SLOT, i)], e.pte[Key(2, SLOT, i)]);
  }

  lemma EagerSpace(a: Flat) returns (b: Flat)
    requires Booted(a)
    ensures EagerMoves(a, b, NewSpace) && Sane(b) && b.n == 2 && b.slots == {SLOT}
  {
    b := CanFork(a, 0, {}, {});
  }

  lemma EagerPrepares(a: Flat, p: Key) returns (es: seq<Flat>)
    requires Booted(a) && p.id == 1 && p.slot == SLOT
    ensures EagerRun(es, Prepare(p)) && |es| == 4 && es[0] == a && ZeroReadOnly(es[3], p)
  {
    var b := EagerSpace(a);
    var c, d := UnmapAndDemand(b, p, POOL_START + Above(b.data.Keys), true);
    EagerRunOf([a], [], b, NewSpace);
    TwoMoreEager([a] + [b], [] + [NewSpace], c, d, Unmap(p), Demand(p, READ_ONLY));
    assert [] + [NewSpace] == [NewSpace];
    es := [a] + [b] + [c] + [d];
  }

  lemma EagerSide(a: Flat, i: Index, j: Index, w: Word) returns (es: seq<Flat>)
    requires Booted(a)
    ensures EagerRun(es, ReadOnlyOps(i, j, w)) && es[0] == a && Read(es[5], Key(2, SLOT, i), j) == Some(ZERO)
  {
    var p := Key(1, SLOT, i);
    es := EagerPrepares(a, p);
    var e := EagerFork(es[3], i, j, w);
    TwoMoreEager(es, Prepare(p), e, e, Fork(1, {SLOT}, {}), Write(Key(2, SLOT, i), j, w));
    es := es + [e] + [e];
  }

  // The child's write goes through under copy-on-write and is refused with eager copies.
  // The regions that the kernel itself registers are writable.
  lemma ReadOnlyLostFromBoot(ram: Ram, refc: seq<nat>, i: Index, j: Index, w: Word)
    returns (cs: seq<Flat>, es: seq<Flat>)
    requires BootTables(ram) && |refc| == POOL_END - POOL_START
    ensures CowRun(cs, ReadOnlyOps(i, j, w)) && EagerRun(es, ReadOnlyOps(i, j, w))
    ensures cs[0] == es[0] == FlatOf(BootVm(ram), refc)
    ensures Read(cs[5], Key(2, SLOT, i), j) == Some(w) && Read(es[5], Key(2, SLOT, i), j) == Some(ZERO)
  {
    var a := FlatOf(BootVm(ram), refc);
    BootBooted(ram, refc);
    cs := CowSide(a, i, j, w);
    es := EagerSide(a, i, j, w);
  }
}
