/**
 * Copy-on-write fork against eager fork. Two machines run the same operations on the flat
 * view of memory. One forks with paging_cow_clone_user, serves write faults with
 * paging_handle_cow_fault and draws its frames from the kernel's pool; the other forks with
 * paging_clone_user and has frames to spare. Whatever the first one does, the second can do
 * as well, and user mode cannot tell them apart on pages backed by pool frames.
 */
module CowRefinement {
  import opened Prelude
  import opened PageTables
  import opened CowModel

  // The flat state: n address spaces, their user pages, the data frames and the counts.
  // Space 0 is the kernel's own, of the boot tables.
  datatype Flat = Flat(n: nat, slots: set<Path>, pte: Ptes, data: map<nat, Page>, refc: seq<nat>)

  // Every page of every space has a word, and present pages lie in data frames.
  ghost predicate Sane(a: Flat) {
    && (forall k :: k in a.pte <==> k.id < a.n && k.slot in a.slots)
    && (forall k :: k in a.pte && a.pte[k].flags.present ==> a.pte[k].frame in a.data)
    && |a.refc| == POOL_END - POOL_START
  }

  // The pages of the boot tables lie below the pool.
  ghost predicate Boot(a: Flat) {
    a.n > 0 && forall k :: k in a.pte && k.id == 0 ==> a.pte[k].frame < POOL_START
  }

  // The operations: a new space; a fork, which is complete when done are all slots and else
  // ran out of pages on the way, dropped being the slots of the child it left empty; a
  // write fault served; a user write; a new page mapped by the kernel; a page unmapped; a
  // demand fault; and a call that ran out of pages without touching a page. Reads change
  // nothing and are the observation.
  datatype Op =
    | NewSpace
    | Fork(src: nat, done: set<Path>, dropped: set<Path>)
    | CowFault(k: Key)
    | Write(k: Key, j: Index, w: Word)
    | MapNew(k: Key, flags: Flags, page: Page)
    | Unmap(k: Key)
    | Demand(k: Key, flags: Flags)
    | NoPages

  // ---------------------------------------------------------------- steps both machines share

  // A frame that may be handed out: from the pool, or for the eager machine from any
  // memory above it.
  predicate Grantable(f: nat, eager: bool) {
    POOL_START <= f && (eager || f < POOL_END)
  }

  // Frames of data survive, with their contents.
  ghost predicate DataGrows(a: Flat, b: Flat) {
    forall f :: f in a.data ==> f in b.data && b.data[f] == a.data[f]
  }

  ghost predicate SamePlace(a: Flat, b: Flat) {
    b.n == a.n && b.slots == a.slots
  }

  // Page k moves to frame f, which no one had, with the given contents.
  ghost predicate PlacedAt(a: Flat, b: Flat, k: Key, flags: Flags, page: Page, f: nat) {
    && SamePlace(a, b) && k in a.pte && f !in a.data
    && b.pte == a.pte[k := Word(f, flags)] && DataGrows(a, b) && f in b.data && b.data[f] == page
  }

  ghost predicate Placed(a: Flat, b: Flat, k: Key, flags: Flags, page: Page, eager: bool) {
    b.refc == a.refc && exists f :: Grantable(f, eager) && PlacedAt(a, b, k, flags, page, f)
  }

  // A write that the tables allow.
  ghost predicate Stored(a: Flat, b: Flat, k: Key, j: Index, w: Word)
    requires k in a.pte && a.pte[k].frame in a.data
  {
    var f := a.pte[k].frame;
    b == a.(data := a.data[f := a.data[f][j := w]])
  }

  ghost predicate Shared(a: Flat, b: Flat, op: Op, eager: bool) {
    match op
    case MapNew(k, flags, page) => k.id > 0 && !flags.cow && Placed(a, b, k, Or(flags, PRESENT_RW), page, eager)
    case Unmap(k) => k.id > 0 && k in a.pte && b == a.(pte := a.pte[k := ZERO])
    case Demand(k, flags) =>
      && k.id > 0 && k in a.pte && !flags.cow
      && if a.pte[k].flags.present then SamePlace(a, b) && b.pte == a.pte && b.refc == a.refc && DataGrows(a, b)
         else Placed(a, b, k, flags.(present := true), ZeroPage(), eager)
    case NoPages => SamePlace(a, b) && b.pte == a.pte && b.refc == a.refc && DataGrows(a, b)
    case _ => false
  }

  lemma DemandPlaced(a: Flat, b: Flat, k: Key, flags: Flags, f: nat, eager: bool)
    requires k.id > 0 && k in a.pte && !a.pte[k].flags.present && !flags.cow && b.refc == a.refc
    requires Grantable(f, eager) && PlacedAt(a, b, k, flags.(present := true), ZeroPage(), f)
    ensures Shared(a, b, Demand(k, flags), eager)
  {
  }

  // What any fork demands, and what it does to the number of spaces and the data.
  ghost predicate Spawned(a: Flat, b: Flat, src: nat, done: set<Path>, dropped: set<Path>) {
    && src < a.n && done <= a.slots && dropped <= a.slots && done !! dropped && (done != {} ==> src > 0)
    && b.n == a.n + 1 && b.slots == a.slots && DataGrows(a, b) && Sane(b)
  }

  // A page of the child that was not cloned: empty, or still the one of the boot tables.
  ghost function Leftover(a: Flat, k: Key, dropped: set<Path>): Word
    requires Sane(a) && a.n > 0 && k.slot in a.slots
  {
    if k.slot in dropped then ZERO else a.pte[Key(0, k.slot, k.i)]
  }

  // ---------------------------------------------------------------- the copy-on-write machine

  // paging_create, then paging_cow_clone_user as far as it got: the pages of the slots done
  // are shared, and the counts rise by two for each.
  ghost predicate CowForked(a: Flat, b: Flat, src: nat, done: set<Path>, dropped: set<Path>)
    requires Sane(a)
  {
    && Spawned(a, b, src, done, dropped)
    && (forall k :: k in a.pte ==>
          b.pte[k] == if k.id == src && k.slot in done then CowSrc(a.pte[k]) else a.pte[k])
    && (forall k :: k in b.pte && k.id == a.n ==>
          b.pte[k] == if k.slot in done then CowDst(a.pte[Key(src, k.slot, k.i)]) else Leftover(a, k, dropped))
    && CountsRise(a.pte, a.refc, b.refc, SlotKeys(a.pte, src, done))
  }

  lemma MakeForked(a: Flat, b: Flat, src: nat, done: set<Path>, dropped: set<Path>)
    requires Sane(a) && Spawned(a, b, src, done, dropped)
    requires forall k :: k in a.pte ==>
      b.pte[k] == if k.id == src && k.slot in done then CowSrc(a.pte[k]) else a.pte[k]
    requires forall k :: k in b.pte && k.id == a.n ==>
      b.pte[k] == if k.slot in done then CowDst(a.pte[Key(src, k.slot, k.i)])
                  else if k.slot in dropped then ZERO else a.pte[Key(0, k.slot, k.i)]
    requires CountsRise(a.pte, a.refc, b.refc, SlotKeys(a.pte, src, done))
    ensures CowForked(a, b, src, done, dropped)
  {
  }

  predicate Allowed(w: Word) {
    w.flags.present && w.flags.user && w.flags.rw
  }

  predicate Faults(w: Word) {
    w.flags.present && w.flags.user && !w.flags.rw && w.flags.cow
  }

  // paging_handle_cow_fault, successful.
  ghost predicate Served(a: Flat, b: Flat, k: Key)
    requires k in a.pte && a.pte[k].frame in a.data && |a.refc| == POOL_END - POOL_START
  {
    var w := a.pte[k];
    var fl := w.flags.(cow := false, rw := true);
    && b.refc == RefDec(a.refc, w.frame)
    && if RefGet(a.refc, w.frame) > 1
       then exists f :: InPool(f) && PlacedAt(a, b, k, fl, a.data[w.frame], f)
       else SamePlace(a, b) && b.pte == a.pte[k := Word(w.frame, fl)] && b.data == a.data
  }

  ghost predicate CowStep(a: Flat, b: Flat, op: Op)
    requires Sane(a)
  {
    match op
    case NewSpace => CowForked(a, b, 0, {}, {})
    case Fork(src, done, dropped) => CowForked(a, b, src, done, dropped)
    case CowFault(k) => k.id > 0 && k in a.pte && a.pte[k].flags.present && a.pte[k].flags.cow && Served(a, b, k)
    case Write(k, j, w) =>
      k.id > 0 && k in a.pte &&
      if Allowed(a.pte[k]) then Stored(a, b, k, j, w)
      else if Faults(a.pte[k]) then
        exists m :: Served(a, m, k) && m.pte[k].frame in m.data && Stored(m, b, k, j, w)
      else b == a
    case _ => Shared(a, b, op, false)
  }

  ghost function MoveState(a: Flat, b: Flat, op: Op): Sealed {
    if Sane(a) && CowStep(a, b, op) then Intact else Broken
  }

  // The copy-on-write machine moves from a to b.
  ghost predicate Moves(a: Flat, b: Flat, op: Op) {
    MoveState(a, b, op) == Intact
  }

  lemma MoveMap(a: Flat, b: Flat, k: Key, flags: Flags, page: Page)
    requires Sane(a) && k.id > 0 && !flags.cow && Placed(a, b, k, Or(flags, PRESENT_RW), page, false)
    ensures Moves(a, b, MapNew(k, flags, page))
  {
  }

  lemma MoveUnmap(a: Flat, b: Flat, k: Key)
    requires Sane(a) && k.id > 0 && k in a.pte && b == a.(pte := a.pte[k := ZERO])
    ensures Moves(a, b, Unmap(k))
  {
  }

  lemma MoveFault(a: Flat, b: Flat, k: Key)
    requires Sane(a) && k.id > 0 && k in a.pte && a.pte[k].flags.present && a.pte[k].flags.cow && Served(a, b, k)
    ensures Moves(a, b, CowFault(k))
  {
  }

  lemma MoveDemand(a: Flat, b: Flat, k: Key, flags: Flags)
    requires Sane(a) && Shared(a, b, Demand(k, flags), false)
    ensures Moves(a, b, Demand(k, flags))
  {
  }

  lemma MovePresent(a: Flat, b: Flat, k: Key, flags: Flags)
    requires Moves(a, b, NoPages) && k.id > 0 && k in a.pte && a.pte[k].flags.present && !flags.cow
    ensures Moves(a, b, Demand(k, flags))
  {
    MoveDemand(a, b, k, flags);
  }

  lemma MoveWrite(a: Flat, b: Flat, k: Key, j: Index, w: Word)
    requires Sane(a) && k.id > 0 && k in a.pte && Allowed(a.pte[k]) && Stored(a, b, k, j, w)
    ensures Moves(a, b, Write(k, j, w))
  {
  }

  lemma MakeServed(a: Flat, b: Flat, k: Key, f: nat)
    requires k in a.pte && a.pte[k].frame in a.data && |a.refc| == POOL_END - POOL_START && InPool(f)
    requires RefGet(a.refc, a.pte[k].frame) > 1 && b.refc == RefDec(a.refc, a.pte[k].frame)
    requires PlacedAt(a, b, k, a.pte[k].flags.(cow := false, rw := true), a.data[a.pte[k].frame], f)
    ensures Served(a, b, k)
  {
  }

  lemma MoveZero(a: Flat, b: Flat, k: Key, flags: Flags, f: nat)
    requires Sane(a) && k.id > 0 && k in a.pte && !a.pte[k].flags.present && !flags.cow && InPool(f)
    requires PlacedAt(a, b, k, flags.(present := true), ZeroPage(), f) && b.refc == a.refc
    ensures Moves(a, b, Demand(k, flags))
  {
    DemandPlaced(a, b, k, flags, f, false);
    MoveDemand(a, b, k, flags);
  }

  // ---------------------------------------------------------------- the eager machine

  // The flags paging_clone_user gives a copied page.
  function EagerFlags(w: Word): Flags {
    Flags(true, w.flags.rw, w.flags.user, false, false, {})
  }

  // paging_create, then paging_clone_user for the slots done: private copies.
  ghost predicate EagerForked(a: Flat, b: Flat, src: nat, done: set<Path>, dropped: set<Path>)
    requires Sane(a)
  {
    && Spawned(a, b, src, done, dropped) && b.refc == a.refc
    && (forall k :: k in a.pte ==> b.pte[k] == a.pte[k])
    && (forall k :: k in b.pte && k.id == a.n && k.slot in done ==>
          Copied(a, b, a.pte[Key(src, k.slot, k.i)], b.pte[k]))
    && (forall k :: k in b.pte && k.id == a.n && k.slot !in done ==> b.pte[k] == Leftover(a, k, dropped))
    && (forall f, j: Key, k: Key :: CopyIn(b, a.n, done, f, j) && CopyIn(b, a.n, done, f, k) ==> j == k)
  }

  // Page k of the child is a copy and lies in frame f.
  ghost predicate CopyIn(b: Flat, child: nat, done: set<Path>, f: nat, k: Key) {
    k.id == child && k.slot in done && Maps(b.pte, f, k)
  }

  ghost predicate Copied(a: Flat, b: Flat, w: Word, x: Word) {
    if w.flags.present then
      && x.flags == EagerFlags(w) && POOL_START <= x.frame && x.frame !in a.data && x.frame in b.data
      && w.frame in a.data && b.data[x.frame] == a.data[w.frame]
    else !x.flags.present
  }

  lemma MakeEagerForked(a: Flat, b: Flat, src: nat)
    requires Sane(a) && Spawned(a, b, src, a.slots, {}) && b.refc == a.refc
    requires forall k :: k in a.pte ==> b.pte[k] == a.pte[k]
    requires forall k :: k in b.pte && k.id == a.n ==> Copied(a, b, a.pte[Key(src, k.slot, k.i)], b.pte[k])
    requires forall f, j: Key, k: Key ::
      j.id == a.n && k.id == a.n && Maps(b.pte, f, j) && Maps(b.pte, f, k) ==> j == k
    ensures EagerForked(a, b, src, a.slots, {})
  {
  }

  ghost predicate EagerStep(a: Flat, b: Flat, op: Op)
    requires Sane(a)
  {
    match op
    case NewSpace => EagerForked(a, b, 0, {}, {})
    case Fork(src, done, dropped) => EagerForked(a, b, src, done, dropped)
    case CowFault(k) => b == a
    case Write(k, j, w) => k in a.pte && if Allowed(a.pte[k]) then Stored(a, b, k, j, w) else b == a
    case _ => Shared(a, b, op, true)
  }

  ghost function EagerMoveState(a: Flat, b: Flat, op: Op): Sealed {
    if Sane(a) && EagerStep(a, b, op) then Intact else Broken
  }

  // The eager machine moves from a to b.
  ghost predicate EagerMoves(a: Flat, b: Flat, op: Op) {
    EagerMoveState(a, b, op) == Intact
  }

  // ---------------------------------------------------------------- invariants and simulation

  // The discipline of the copy-on-write machine.
  ghost predicate CowGood(c: Flat) {
    Sane(c) && Boot(c) && CowInv(c.pte, c.refc)
  }

  // No two pages of the eager machine share a frame above the boot memory.
  ghost predicate EagerInv(e: Flat) {
    && Sane(e) && Boot(e)
    && forall f, j, k :: POOL_START <= f && Maps(e.pte, f, j) && Maps(e.pte, f, k) ==> j == k
  }

  ghost predicate Pooled(a: Flat, k: Key) {
    k in a.pte && a.pte[k].flags.present && InPool(a.pte[k].frame)
  }

  // Page by page: both present or neither, the same user right; and a page in a pool frame
  // of the first has a frame of its own in the second, with the same contents, writable
  // there and writable or copy-on-write here.
  ghost predicate Twin(c: Flat, e: Flat, k: Key)
    requires Sane(c) && Sane(e) && k in c.pte && k in e.pte
  {
    var x, y := c.pte[k], e.pte[k];
    && x.flags.present == y.flags.present && (x.flags.present ==> x.flags.user == y.flags.user)
    && (Pooled(c, k) ==>
          POOL_START <= y.frame && c.data[x.frame] == e.data[y.frame] && y.flags.rw && (x.flags.rw || x.flags.cow))
  }

  ghost predicate Twins(c: Flat, e: Flat) {
    Sane(c) && Sane(e) && c.n == e.n && c.slots == e.slots && forall k :: k in c.pte ==> Twin(c, e, k)
  }

  ghost predicate Sim(c: Flat, e: Flat) {
    CowGood(c) && EagerInv(e) && Twins(c, e)
  }

  // ---------------------------------------------------------------- every step keeps the discipline

  lemma FreshFrame(a: Flat, f: nat)
    requires Sane(a) && f !in a.data
    ensures Sharers(a.pte, f) == {}
  {
    assert forall k :: k in a.pte && Maps(a.pte, f, k) ==> a.pte[k].frame in a.data;
  }

  // A fork, complete or not: the discipline follows from the words and the counts.
  lemma ForkKeeps(a: Flat, b: Flat, src: nat, done: set<Path>, dropped: set<Path>)
    requires CowGood(a) && CowForked(a, b, src, done, dropped)
    ensures CowGood(b)
  {
    forall k | k in b.pte && k !in a.pte ensures k.id == a.n && (k.slot !in done ==> b.pte[k].frame < POOL_START) {
      assert k.slot !in done ==> b.pte[k] == Leftover(a, k, dropped);
    }
    assert Joined(a.pte, b.pte, src, a.n, done);
    JoinedKeeps(a.pte, b.pte, a.refc, b.refc, src, a.n, done);
  }

  // Serving a fault keeps the discipline and makes the page writable.
  lemma ServedKeeps(c: Flat, d: Flat, k: Key)
    requires CowGood(c) && k in c.pte && k.id > 0 && c.pte[k].flags.present && c.pte[k].flags.cow && Served(c, d, k)
    ensures CowGood(d) && k in d.pte && d.pte[k].flags == c.pte[k].flags.(cow := false, rw := true)
    ensures InPool(c.pte[k].frame) <==> InPool(d.pte[k].frame)
  {
    var w := c.pte[k];
    if RefGet(c.refc, w.frame) > 1 {
      var f :| InPool(f) && PlacedAt(c, d, k, w.flags.(cow := false, rw := true), c.data[w.frame], f);
      FreshFrame(c, f);
      LeaveKeeps(c.pte, c.refc, k, d.pte[k]);
    } else {
      ReuseKeeps(c.pte, c.refc, k, w.flags.(cow := false, rw := true));
    }
  }

  lemma PlacedKeeps(c: Flat, d: Flat, k: Key, fl: Flags, page: Page)
    requires CowGood(c) && k.id > 0 && Placed(c, d, k, fl, page, false) && !fl.cow
    ensures CowGood(d)
  {
    var g :| Grantable(g, false) && PlacedAt(c, d, k, fl, page, g);
    FreshFrame(c, g);
    FreshKeeps(c.pte, c.refc, k, Word(g, fl));
  }

  lemma CowStepKeeps(c: Flat, d: Flat, op: Op)
    requires CowGood(c) && CowStep(c, d, op)
    ensures CowGood(d)
  {
    match op
    case NewSpace => ForkKeeps(c, d, 0, {}, {});
    case Fork(src, done, dropped) => ForkKeeps(c, d, src, done, dropped);
    case CowFault(k) => ServedKeeps(c, d, k);
    case Write(k, j, w) =>
      if !Allowed(c.pte[k]) && Faults(c.pte[k]) {
        var m :| Served(c, m, k) && m.pte[k].frame in m.data && Stored(m, d, k, j, w);
        ServedKeeps(c, m, k);
      }
    case MapNew(k, flags, page) => PlacedKeeps(c, d, k, Or(flags, PRESENT_RW), page);
    case Unmap(k) => DropKeeps(c.pte, d.pte, c.refc);
    case Demand(k, flags) =>
      if !c.pte[k].flags.present { PlacedKeeps(c, d, k, flags.(present := true), ZeroPage()); }
    case NoPages =>
  }

  // ---------------------------------------------------------------- each kind of step keeps the simulation

  lemma PlacedTwins(c: Flat, d: Flat, e: Flat, f: Flat, k: Key, fl: Flags, page: Page, g: nat, h: nat)
    requires Twins(c, e) && PlacedAt(c, d, k, fl, page, g) && PlacedAt(e, f, k, fl, page, h) && POOL_START <= h
    requires d.refc == c.refc && f.refc == e.refc && !fl.cow && fl.present && fl.rw
    ensures Twins(d, f)
  {
    forall x | x in d.pte ensures Twin(d, f, x) {
      assert Twin(c, e, x);
    }
  }

  lemma PlacedUnique(e: Flat, f: Flat, k: Key, fl: Flags, page: Page, h: nat)
    requires EagerInv(e) && k.id > 0 && PlacedAt(e, f, k, fl, page, h) && f.refc == e.refc
    ensures EagerInv(f)
  {
    FreshFrame(e, h);
    forall g, i, j | POOL_START <= g && Maps(f.pte, g, i) && Maps(f.pte, g, j) ensures i == j {
      assert i != k ==> Maps(e.pte, g, i);
      assert j != k ==> Maps(e.pte, g, j);
      assert Maps(e.pte, h, i) ==> i in Sharers(e.pte, h);
      assert Maps(e.pte, h, j) ==> j in Sharers(e.pte, h);
    }
  }

  lemma PlacedSim(c: Flat, d: Flat, e: Flat, f: Flat, k: Key, fl: Flags, page: Page)
    requires Sim(c, e) && k.id > 0 && Placed(c, d, k, fl, page, false) && Placed(e, f, k, fl, page, true)
    requires !fl.cow && fl.present && fl.rw
    ensures Sim(d, f)
  {
    var g :| Grantable(g, false) && PlacedAt(c, d, k, fl, page, g);
    var h :| Grantable(h, true) && PlacedAt(e, f, k, fl, page, h);
    PlacedKeeps(c, d, k, fl, page);
    PlacedTwins(c, d, e, f, k, fl, page, g, h);
    PlacedUnique(e, f, k, fl, page, h);
  }

  lemma UnmapSim(c: Flat, d: Flat, e: Flat, f: Flat, k: Key)
    requires Sim(c, e) && Shared(c, d, Unmap(k), false) && Shared(e, f, Unmap(k), true)
    ensures Sim(d, f)
  {
    DropKeeps(c.pte, d.pte, c.refc);
    UnmapUnique(e, f, k);
    UnmapTwins(c, d, e, f, k);
  }

  lemma UnmapUnique(e: Flat, f: Flat, k: Key)
    requires EagerInv(e) && Shared(e, f, Unmap(k), true)
    ensures EagerInv(f)
  {
    assert forall g, i :: Maps(f.pte, g, i) ==> Maps(e.pte, g, i);
  }

  lemma UnmapTwins(c: Flat, d: Flat, e: Flat, f: Flat, k: Key)
    requires Twins(c, e) && Shared(c, d, Unmap(k), false) && Shared(e, f, Unmap(k), true)
    ensures Twins(d, f)
  {
    UnmapSane(c, d, k, false);
    UnmapSane(e, f, k, true);
    forall x | x in d.pte ensures Twin(d, f, x) {
      assert Twin(c, e, x);
    }
  }

  lemma UnmapSane(a: Flat, b: Flat, k: Key, eager: bool)
    requires Sane(a) && Shared(a, b, Unmap(k), eager)
    ensures Sane(b)
  {
  }

  lemma ForkTwins(c: Flat, d: Flat, e: Flat, f: Flat, src: nat, done: set<Path>, dropped: set<Path>)
    requires Twins(c, e) && Boot(c) && CowForked(c, d, src, done, dropped) && EagerForked(e, f, src, done, dropped)
    ensures Twins(d, f)
  {
    forall x | x in d.pte ensures Twin(d, f, x) {
      if x.id == c.n {
        ForkTwin(c, d, e, f, src, done, dropped, x);
      } else {
        assert Twin(c, e, x);
      }
    }
  }

  lemma ForkTwin(c: Flat, d: Flat, e: Flat, f: Flat, src: nat, done: set<Path>, dropped: set<Path>, x: Key)
    requires Twins(c, e) && Boot(c) && CowForked(c, d, src, done, dropped) && EagerForked(e, f, src, done, dropped)
    requires x in d.pte && x.id == c.n
    ensures x in f.pte && Twin(d, f, x)
  {
    if x.slot in done {
      CopyTwin(c, d, e, f, src, done, dropped, x);
    } else {
      var y := Key(0, x.slot, x.i);
      assert Twin(c, e, y);
      assert d.pte[x] == Leftover(c, x, dropped) && f.pte[x] == Leftover(e, x, dropped);
    }
  }

  lemma CopyTwin(c: Flat, d: Flat, e: Flat, f: Flat, src: nat, done: set<Path>, dropped: set<Path>, x: Key)
    requires Twins(c, e) && CowForked(c, d, src, done, dropped) && EagerForked(e, f, src, done, dropped)
    requires x in d.pte && x.id == c.n && x.slot in done
    ensures x in f.pte && Twin(d, f, x)
  {
    var y := Key(src, x.slot, x.i);
    assert Twin(c, e, y);
    assert Copied(e, f, e.pte[y], f.pte[x]);
  }

  lemma ForkUnique(e: Flat, f: Flat, src: nat, done: set<Path>, dropped: set<Path>)
    requires EagerInv(e) && EagerForked(e, f, src, done, dropped)
    ensures EagerInv(f)
  {
    forall k | k in f.pte && k.id == e.n && k.slot !in done ensures f.pte[k].frame < POOL_START {
      assert f.pte[k] == Leftover(e, k, dropped);
    }
    forall g, j, k | POOL_START <= g && Maps(f.pte, g, j) && Maps(f.pte, g, k) ensures j == k {
      assert j.id == e.n && j.slot in done ==> CopyIn(f, e.n, done, g, j) && g !in e.data by {
        if j.id == e.n && j.slot in done { assert Copied(e, f, e.pte[Key(src, j.slot, j.i)], f.pte[j]); }
      }
      assert k.id == e.n && k.slot in done ==> CopyIn(f, e.n, done, g, k) && g !in e.data by {
        if k.id == e.n && k.slot in done { assert Copied(e, f, e.pte[Key(src, k.slot, k.i)], f.pte[k]); }
      }
      assert j.id < e.n ==> Maps(e.pte, g, j);
      assert k.id < e.n ==> Maps(e.pte, g, k);
    }
  }

  lemma ForkSim(c: Flat, d: Flat, e: Flat, f: Flat, src: nat, done: set<Path>, dropped: set<Path>)
    requires Sim(c, e) && CowForked(c, d, src, done, dropped) && EagerForked(e, f, src, done, dropped)
    ensures Sim(d, f)
  {
    ForkKeeps(c, d, src, done, dropped);
    ForkTwins(c, d, e, f, src, done, dropped);
    ForkUnique(e, f, src, done, dropped);
  }

  // ---------------------------------------------------------------- writes

  lemma ServedSim(c: Flat, d: Flat, e: Flat, k: Key)
    requires Sim(c, e) && k in c.pte && k.id > 0 && c.pte[k].flags.present && c.pte[k].flags.cow && Served(c, d, k)
    ensures Sim(d, e) && d.pte[k].flags == c.pte[k].flags.(cow := false, rw := true) && (Pooled(c, k) <==> Pooled(d, k))
  {
    ServedKeeps(c, d, k);
    ServedTwins(c, d, e, k);
  }

  lemma ServedTwins(c: Flat, d: Flat, e: Flat, k: Key)
    requires Twins(c, e) && k in c.pte && c.pte[k].flags.present && c.pte[k].flags.cow && Served(c, d, k)
    ensures Twins(d, e)
  {
    forall x | x in d.pte ensures Twin(d, e, x) {
      assert Twin(c, e, x);
    }
  }

  // A writable page of the copy-on-write machine is alone on its pool frame.
  lemma WritableAlone(pte: Ptes, refc: seq<nat>, k: Key, x: Key)
    requires CowInv(pte, refc) && k in pte && pte[k].flags.present && pte[k].flags.rw && InPool(pte[k].frame)
    requires Maps(pte, pte[k].frame, x)
    ensures x == k
  {
    assert Maps(pte, pte[k].frame, k);
  }

  // The same word stored in the same pool page of both machines.
  lemma StoredBoth(c: Flat, d: Flat, e: Flat, f: Flat, k: Key, j: Index, w: Word)
    requires Sim(c, e) && Pooled(c, k) && Allowed(c.pte[k]) && Stored(c, d, k, j, w) && k in e.pte
             && Stored(e, f, k, j, w)
    ensures Sim(d, f)
  {
    assert Twin(c, e, k);
    forall x | x in d.pte ensures Twin(d, f, x) {
      assert Twin(c, e, x);
      if x != k && Pooled(c, x) {
        assert Maps(c.pte, c.pte[k].frame, x) ==> x == k by {
          if Maps(c.pte, c.pte[k].frame, x) { WritableAlone(c.pte, c.refc, k, x); }
        }
        assert Maps(e.pte, e.pte[k].frame, k) && Maps(e.pte, e.pte[x].frame, x);
      }
    }
  }

  // A store to a page outside the pool is invisible to pages in it, in the first machine.
  lemma StoredOutside(c: Flat, d: Flat, e: Flat, k: Key, j: Index, w: Word)
    requires Sim(c, e) && k in c.pte && c.pte[k].frame in c.data && !InPool(c.pte[k].frame) && Stored(c, d, k, j, w)
    ensures Sim(d, e)
  {
    forall x | x in d.pte ensures Twin(d, e, x) {
      assert Twin(c, e, x);
    }
  }

  // And in the second: there it reaches that page alone, or only pages outside the pool.
  lemma StoredElsewhere(c: Flat, e: Flat, f: Flat, k: Key, j: Index, w: Word)
    requires Sim(c, e) && k in c.pte && !Pooled(c, k) && Allowed(e.pte[k]) && Stored(e, f, k, j, w)
    ensures Sim(c, f)
  {
    forall x | x in c.pte ensures Twin(c, f, x) {
      assert Twin(c, e, x);
      if Pooled(c, x) {
        assert Maps(e.pte, e.pte[k].frame, k) && Maps(e.pte, e.pte[x].frame, x);
      }
    }
  }

  lemma WriteSim(c: Flat, d: Flat, e: Flat, f: Flat, k: Key, j: Index, w: Word)
    requires Sim(c, e) && CowStep(c, d, Write(k, j, w)) && EagerStep(e, f, Write(k, j, w))
    ensures Sim(d, f)
  {
    assert Twin(c, e, k);
    if Allowed(c.pte[k]) || Faults(c.pte[k]) {
      var m := c;
      if !Allowed(c.pte[k]) {
        m :| Served(c, m, k) && m.pte[k].frame in m.data && Stored(m, d, k, j, w);
        ServedSim(c, m, e, k);
      }
      if Pooled(c, k) {
        StoredBoth(m, d, e, f, k, j, w);
      } else {
        StoredOutside(m, d, e, k, j, w);
        if Allowed(e.pte[k]) { StoredElsewhere(d, e, f, k, j, w); }
      }
    } else if Allowed(e.pte[k]) {
      StoredElsewhere(c, e, f, k, j, w);
    }
  }

  // Two machines with the same pages still have them when their data have grown.
  lemma GrownSim(c: Flat, d: Flat, e: Flat, f: Flat)
    requires Sim(c, e) && SamePlace(c, d) && d.pte == c.pte && d.refc == c.refc && DataGrows(c, d)
    requires SamePlace(e, f) && f.pte == e.pte && f.refc == e.refc && DataGrows(e, f)
    ensures Sim(d, f)
  {
    forall x | x in d.pte ensures Twin(d, f, x) {
      assert Twin(c, e, x);
    }
  }

  // Pages that come into being are writable, as those of every region the kernel registers;
  // for others see ReadOnlyIsLost.
  predicate Ordinary(op: Op) {
    op.Demand? ==> op.flags.rw
  }

  // Any step of the eager machine for the same operation leads to matching states.
  lemma StepSim(c: Flat, d: Flat, e: Flat, f: Flat, op: Op)
    requires Sim(c, e) && Ordinary(op) && CowStep(c, d, op) && EagerStep(e, f, op)
    ensures Sim(d, f)
  {
    match op
    case NewSpace => ForkSim(c, d, e, f, 0, {}, {});
    case Fork(src, done, dropped) => ForkSim(c, d, e, f, src, done, dropped);
    case CowFault(k) => ServedSim(c, d, e, k);
    case Write(k, j, w) => WriteSim(c, d, e, f, k, j, w);
    case MapNew(k, flags, page) => PlacedSim(c, d, e, f, k, Or(flags, PRESENT_RW), page);
    case Unmap(k) => UnmapSim(c, d, e, f, k);
    case Demand(k, flags) =>
      assert Twin(c, e, k);
      if c.pte[k].flags.present { GrownSim(c, d, e, f); }
      else { PlacedSim(c, d, e, f, k, flags.(present := true), ZeroPage()); }
    case NoPages => GrownSim(c, d, e, f);
  }

  // ---------------------------------------------------------------- the eager machine can always follow

  ghost function Above(s: set<nat>): (m: nat)
    ensures forall x :: x in s ==> x < m
    decreases |s|
  {
    if s == {} then 0
    else
      var x :| x in s;
      var m := Above(s - {x});
      assert forall y :: y in s ==> y == x || y in s - {x};
      if m > x then m else x + 1
  }

  // A page put in the first frame above everything the eager machine has.
  lemma CanPlace(e: Flat, k: Key, fl: Flags, page: Page) returns (f: Flat)
    requires Sane(e) && k in e.pte
    ensures Placed(e, f, k, fl, page, true)
  {
    var h := POOL_START + Above(e.data.Keys);
    f := e.(pte := e.pte[k := Word(h, fl)], data := e.data[h := page]);
    assert Grantable(h, true) && PlacedAt(e, f, k, fl, page, h);
  }

  // A number for every slot.
  function Code(p: Path): nat {
    if p == [] then 0 else Code(p[..|p| - 1]) * 513 + p[|p| - 1] + 1
  }

  lemma {:induction false} CodeInjective(p: Path, q: Path)
    requires Code(p) == Code(q)
    ensures p == q
    decreases |p|
  {
    if p != [] && q != [] {
      var a, b := p[..|p| - 1], q[..|q| - 1];
      assert Code(p) == Code(a) * 513 + p[|p| - 1] + 1 && Code(q) == Code(b) * 513 + q[|q| - 1] + 1;
      Digits(Code(a), p[|p| - 1], Code(b), q[|q| - 1]);
      CodeInjective(a, b);
      assert p == a + [p[|p| - 1]] && q == b + [q[|q| - 1]];
    }
  }

  lemma Digits(a: nat, x: Index, b: nat, y: Index)
    requires a * 513 + x + 1 == b * 513 + y + 1
    ensures a == b && x == y
  {
  }

  // The frame that the copy of page k gets.
  function FrameOf(base: nat, k: Key): nat {
    base + Code(k.slot) * 512 + k.i
  }

  lemma FrameInjective(base: nat, j: Key, k: Key)
    requires j.id == k.id && FrameOf(base, j) == FrameOf(base, k)
    ensures j == k
  {
    assert Code(j.slot) == Code(k.slot) && j.i == k.i;
    CodeInjective(j.slot, k.slot);
  }

  ghost function ChildKeys(n: nat, slots: set<Path>): (r: set<Key>)
    ensures forall k :: k in r <==> k.id == n && k.slot in slots
  {
    set p, i: nat | p in slots && 0 <= i < 512 :: Key(n, p, i)
  }

  ghost function ChildWord(e: Flat, src: nat, done: set<Path>, dropped: set<Path>, base: nat, k: Key): Word
    requires Sane(e) && src < e.n && k.slot in e.slots
  {
    if k.slot in done then
      var w := e.pte[Key(src, k.slot, k.i)];
      if w.flags.present then Word(FrameOf(base, k), EagerFlags(w)) else ZERO
    else Leftover(e, k, dropped)
  }

  // Pages of one space, by the frames that their copies get.
  ghost function Relocated(pages: map<Key, Page>, n: nat, base: nat): (r: map<nat, Page>)
    requires forall k :: k in pages ==> k.id == n
    ensures forall k :: k in pages ==> FrameOf(base, k) in r && r[FrameOf(base, k)] == pages[k]
    ensures forall f :: f in r ==> f >= base
  {
    assert forall j, k :: j in pages && k in pages && FrameOf(base, j) == FrameOf(base, k) ==> j == k by {
      forall j, k | j in pages && k in pages && FrameOf(base, j) == FrameOf(base, k) ensures j == k {
        FrameInjective(base, j, k);
      }
    }
    map k | k in pages :: FrameOf(base, k) := pages[k]
  }

  // The contents of the pages that are copied.
  ghost function Copies(e: Flat, src: nat, done: set<Path>): map<Key, Page>
    requires Sane(e) && src < e.n
  {
    map k | k in ChildKeys(e.n, e.slots) && k.slot in done && e.pte[Key(src, k.slot, k.i)].flags.present ::
      e.data[e.pte[Key(src, k.slot, k.i)].frame]
  }

  ghost function Copy(e: Flat, src: nat, done: set<Path>, dropped: set<Path>, base: nat): Flat
    requires Sane(e) && src < e.n
  {
    e.(n := e.n + 1,
       pte := ChildPtes(e, src, done, dropped, base) + e.pte,
       data := Relocated(Copies(e, src, done), e.n, base) + e.data)
  }

  ghost function ChildPtes(e: Flat, src: nat, done: set<Path>, dropped: set<Path>, base: nat): (r: Ptes)
    requires Sane(e) && src < e.n
    ensures r.Keys == ChildKeys(e.n, e.slots)
    ensures forall k :: k in r ==> r[k] == ChildWord(e, src, done, dropped, base, k)
  {
    map k | k in ChildKeys(e.n, e.slots) :: ChildWord(e, src, done, dropped, base, k)
  }

  // Page k of the child, and where it lies.
  ghost predicate ChildAt(e: Flat, f: Flat, src: nat, done: set<Path>, dropped: set<Path>, base: nat, k: Key)
    requires Sane(e) && src < e.n && k.slot in e.slots
  {
    && k in f.pte && f.pte[k] == ChildWord(e, src, done, dropped, base, k)
    && (f.pte[k].flags.present ==> f.pte[k].frame in f.data)
    && (k.slot in done ==> Copied(e, f, e.pte[Key(src, k.slot, k.i)], f.pte[k]))
  }

  lemma CopyPage(e: Flat, src: nat, done: set<Path>, dropped: set<Path>, base: nat, k: Key)
    requires Sane(e) && src < e.n && k.id == e.n && k.slot in e.slots && base >= POOL_START
    requires forall g :: g in e.data ==> g < base
    ensures ChildAt(e, Copy(e, src, done, dropped, base), src, done, dropped, base, k)
  {
    var y := Key(src, k.slot, k.i);
    if k.slot in done && e.pte[y].flags.present {
      assert k in Copies(e, src, done);
      assert FrameOf(base, k) in Relocated(Copies(e, src, done), e.n, base);
    }
    assert Key(0, k.slot, k.i) in e.pte;
  }

  lemma CopySane(e: Flat, src: nat, done: set<Path>, dropped: set<Path>, base: nat)
    requires Sane(e) && src < e.n && base >= POOL_START && forall g :: g in e.data ==> g < base
    ensures Sane(Copy(e, src, done, dropped, base)) && DataGrows(e, Copy(e, src, done, dropped, base))
  {
    var f := Copy(e, src, done, dropped, base);
    CopyData(e, src, done, dropped, base);
    forall k | k in f.pte && f.pte[k].flags.present ensures f.pte[k].frame in f.data {
      if k !in e.pte { CopyPage(e, src, done, dropped, base, k); }
    }
  }

  lemma CopyData(e: Flat, src: nat, done: set<Path>, dropped: set<Path>, base: nat)
    requires Sane(e) && src < e.n && forall g :: g in e.data ==> g < base
    ensures var f := Copy(e, src, done, dropped, base);
      && DataGrows(e, f) && (forall k :: k in f.pte <==> k.id < f.n && k.slot in f.slots)
      && (forall k :: k in e.pte ==> f.pte[k] == e.pte[k])
  {
  }

  lemma CopyUnique(e: Flat, src: nat, done: set<Path>, dropped: set<Path>, base: nat, g: nat, j: Key, k: Key)
    requires Sane(e) && src < e.n && base >= POOL_START && forall x :: x in e.data ==> x < base
    requires var f := Copy(e, src, done, dropped, base); CopyIn(f, e.n, done, g, j) && CopyIn(f, e.n, done, g, k)
    ensures j == k
  {
    CopyPage(e, src, done, dropped, base, j);
    CopyPage(e, src, done, dropped, base, k);
    FrameInjective(base, j, k);
  }

  lemma CanFork(e: Flat, src: nat, done: set<Path>, dropped: set<Path>) returns (f: Flat)
    requires Sane(e) && src < e.n && done <= e.slots && dropped <= e.slots && done !! dropped
    requires done != {} ==> src > 0
    ensures EagerForked(e, f, src, done, dropped)
  {
    var base := POOL_START + Above(e.data.Keys);
    f := Copy(e, src, done, dropped, base);
    CopySane(e, src, done, dropped, base);
    forall k | k in f.pte && k.id == e.n
      ensures k.slot in done ==> Copied(e, f, e.pte[Key(src, k.slot, k.i)], f.pte[k])
      ensures k.slot !in done ==> f.pte[k] == Leftover(e, k, dropped)
    {
      CopyPage(e, src, done, dropped, base, k);
    }
    forall g, j: Key, k: Key | CopyIn(f, e.n, done, g, j) && CopyIn(f, e.n, done, g, k) ensures j == k {
      CopyUnique(e, src, done, dropped, base, g, j, k);
    }
  }

  // Whatever the copy-on-write machine does, the eager machine has a step for it, and the
  // two match again.
  lemma EagerFollows(c: Flat, d: Flat, e: Flat, op: Op) returns (f: Flat)
    requires Sim(c, e) && Ordinary(op) && CowStep(c, d, op)
    ensures EagerStep(e, f, op) && Sim(d, f)
  {
    f := e;
    match op {
      case NewSpace =>
        f := CanFork(e, 0, {}, {});
      case Fork(src, done, dropped) =>
        f := CanFork(e, src, done, dropped);
      case CowFault(k) =>
      case Write(k, j, w) =>
        assert Twin(c, e, k);
        if Allowed(e.pte[k]) {
          var g := e.pte[k].frame;
          f := e.(data := e.data[g := e.data[g][j := w]]);
        }
      case MapNew(k, flags, page) => f := CanPlace(e, k, Or(flags, PRESENT_RW), page);
      case Unmap(k) => f := e.(pte := e.pte[k := ZERO]);
      case Demand(k, flags) =>
        assert Twin(c, e, k);
        if !e.pte[k].flags.present { f := CanPlace(e, k, flags.(present := true), ZeroPage()); }
      case NoPages =>
    }
    StepSim(c, d, e, f, op);
  }

  // ---------------------------------------------------------------- whole runs

  ghost predicate CowRun(cs: seq<Flat>, ops: seq<Op>) {
    && |cs| == |ops| + 1
    && forall i :: 0 <= i < |ops| ==> Moves(cs[i], cs[i + 1], ops[i])
  }

  ghost predicate EagerRun(es: seq<Flat>, ops: seq<Op>) {
    && |es| == |ops| + 1
    && forall i :: 0 <= i < |ops| ==> EagerMoves(es[i], es[i + 1], ops[i])
  }

  // A state from which both machines may start: no page shares a frame above the boot
  // memory yet, and pages in pool frames are writable.
  ghost predicate Start(a: Flat) {
    EagerInv(a) && forall k :: Pooled(a, k) ==> a.pte[k].flags.rw && !a.pte[k].flags.cow
  }

  lemma StartSim(a: Flat)
    requires Start(a)
    ensures Sim(a, a)
  {
    forall f | InPool(f) ensures CowSharers(a.pte, f) == {} {
      assert forall k :: k in a.pte && Maps(a.pte, f, k) ==> Pooled(a, k);
    }
    assert CountsCover(a.pte, a.refc) && SharersAreCow(a.pte) && CowIsReadOnly(a.pte);
    assert forall k :: k in a.pte ==> Twin(a, a, k);
  }

  lemma RunSim(cs: seq<Flat>, es: seq<Flat>, ops: seq<Op>, i: nat)
    requires CowRun(cs, ops) && EagerRun(es, ops) && cs[0] == es[0] && Start(cs[0]) && i <= |ops|
    requires forall n :: 0 <= n < |ops| ==> Ordinary(ops[n])
    ensures Sim(cs[i], es[i])
  {
    StartSim(cs[0]);
    for n := 0 to i
      invariant Sim(cs[n], es[n])
    {
      StepSim(cs[n], cs[n + 1], es[n], es[n + 1], ops[n]);
    }
  }

  // What a user-mode read of word j of page k returns.
  function Read(a: Flat, k: Key, j: Index): Option<Word> {
    if k in a.pte && a.pte[k].flags.present && a.pte[k].flags.user && a.pte[k].frame in a.data
    then Some(a.data[a.pte[k].frame][j])
    else None
  }

  // On pages in pool frames user mode sees no difference: reads return the same, and a
  // write that one machine lets through the other lets through.
  ghost predicate Agree(c: Flat, e: Flat) {
    AgreeState(c, e) == Intact
  }

  ghost function AgreeState(c: Flat, e: Flat): Sealed {
    if && (forall k, j: Index :: Pooled(c, k) ==> Read(c, k, j) == Read(e, k, j))
       && (forall k :: Pooled(c, k) ==>
             k in e.pte && (Allowed(c.pte[k]) || Faults(c.pte[k]) <==> Allowed(e.pte[k])))
    then Intact else Broken
  }

  lemma SimAgrees(c: Flat, e: Flat)
    requires Sim(c, e)
    ensures Agree(c, e)
  {
    forall k | Pooled(c, k) ensures Twin(c, e, k) {
      assert k in c.pte;
    }
  }

  // Copy-on-write fork is observationally equal to eager fork: no eager run of the same
  // operations can be told from the copy-on-write run.
  lemma CowIsEager(cs: seq<Flat>, es: seq<Flat>, ops: seq<Op>, i: nat)
    requires CowRun(cs, ops) && EagerRun(es, ops) && cs[0] == es[0] && Start(cs[0]) && i <= |ops|
    requires forall n :: 0 <= n < |ops| ==> Ordinary(ops[n])
    ensures Agree(cs[i], es[i])
  {
    RunSim(cs, es, ops, i);
    SimAgrees(cs[i], es[i]);
  }

  // And there is one for every copy-on-write run.
  lemma CowRefinesEager(cs: seq<Flat>, ops: seq<Op>) returns (es: seq<Flat>)
    requires CowRun(cs, ops) && Start(cs[0]) && forall n :: 0 <= n < |ops| ==> Ordinary(ops[n])
    ensures EagerRun(es, ops) && es[0] == cs[0]
    ensures forall i :: 0 <= i <= |ops| ==> Agree(cs[i], es[i])
  {
    StartSim(cs[0]);
    SimAgrees(cs[0], cs[0]);
    es := [cs[0]];
    for n := 0 to |ops|
      invariant Followed(cs, es, ops, n)
    {
      var f := NextAlike(cs[n], cs[n + 1], es[n], ops[n]);
      FollowedMore(cs, es, ops, n, f);
      es := es + [f];
    }
  }

  // es follows the first n steps.
  ghost predicate Followed(cs: seq<Flat>, es: seq<Flat>, ops: seq<Op>, n: nat) {
    && n <= |ops| < |cs| && |es| == n + 1 && es[0] == cs[0] && Alike(cs[n], es[n])
    && (forall i :: 0 <= i < n ==> EagerMoves(es[i], es[i + 1], ops[i]))
    && (forall i :: 0 <= i <= n ==> Agree(cs[i], es[i]))
  }

  lemma FollowedMore(cs: seq<Flat>, es: seq<Flat>, ops: seq<Op>, n: nat, f: Flat)
    requires Followed(cs, es, ops, n) && n < |ops| && EagerMoves(es[n], f, ops[n])
    requires Alike(cs[n + 1], f) && Agree(cs[n + 1], f)
    ensures Followed(cs, es + [f], ops, n + 1)
  {
    MovesMore(es, ops, n, f);
    AgreeMore(cs, es, n, f);
  }

  lemma MovesMore(es: seq<Flat>, ops: seq<Op>, n: nat, f: Flat)
    requires |es| == n + 1 <= |ops| && EagerMoves(es[n], f, ops[n])
    requires forall i :: 0 <= i < n ==> EagerMoves(es[i], es[i + 1], ops[i])
    ensures forall i :: 0 <= i < n + 1 ==> EagerMoves((es + [f])[i], (es + [f])[i + 1], ops[i])
  {
    var fs := es + [f];
    forall i | 0 <= i < n + 1 ensures EagerMoves(fs[i], fs[i + 1], ops[i]) {
      if i < n { assert fs[i] == es[i] && fs[i + 1] == es[i + 1]; }
    }
  }

  lemma AgreeMore(cs: seq<Flat>, es: seq<Flat>, n: nat, f: Flat)
    requires |es| == n + 1 < |cs| && Agree(cs[n + 1], f) && forall i :: 0 <= i <= n ==> Agree(cs[i], es[i])
    ensures forall i :: 0 <= i <= n + 1 ==> Agree(cs[i], (es + [f])[i])
  {
    forall i | 0 <= i <= n + 1 ensures Agree(cs[i], (es + [f])[i]) {
      if i <= n { assert (es + [f])[i] == es[i]; }
    }
  }

  ghost function SimState(c: Flat, e: Flat): Sealed {
    if Sim(c, e) then Intact else Broken
  }

  ghost predicate Alike(c: Flat, e: Flat) {
    SimState(c, e) == Intact
  }

  lemma NextAlike(c: Flat, d: Flat, e: Flat, op: Op) returns (f: Flat)
    requires Alike(c, e) && Ordinary(op) && Moves(c, d, op)
    ensures EagerMoves(e, f, op) && Alike(d, f) && Agree(d, f)
  {
    f := EagerFollows(c, d, e, op);
    SimAgrees(d, f);
  }

  // ---------------------------------------------------------------- the discipline over whole runs

  lemma {:induction false} CowRunKeeps(cs: seq<Flat>, ops: seq<Op>, i: nat)
    requires CowRun(cs, ops) && CowGood(cs[0]) && i <= |ops|
    ensures CowGood(cs[i])
  {
    if i > 0 {
      CowRunKeeps(cs, ops, i - 1);
      CowStepKeeps(cs[i - 1], cs[i], ops[i - 1]);
    }
  }

  // In every reachable state a pool frame with two or more pages is read-only and
  // copy-on-write in all of them, its count is at least their number, and a fault is
  // served in place only for the frame's sole page.
  lemma SharedAlways(cs: seq<Flat>, ops: seq<Op>, i: nat, f: nat)
    requires CowRun(cs, ops) && CowGood(cs[0]) && i <= |ops| && InPool(f)
    ensures |Sharers(cs[i].pte, f)| >= 2 ==>
      (forall k :: Maps(cs[i].pte, f, k) ==> cs[i].pte[k].flags.cow && !cs[i].pte[k].flags.rw)
    ensures |cs[i].refc| == POOL_END - POOL_START
    ensures |Sharers(cs[i].pte, f)| >= 2 ==> RefGet(cs[i].refc, f) >= |Sharers(cs[i].pte, f)|
    ensures forall k :: Maps(cs[i].pte, f, k) && RefGet(cs[i].refc, f) <= 1 ==> Sharers(cs[i].pte, f) == {k}
  {
    CowRunKeeps(cs, ops, i);
    if |Sharers(cs[i].pte, f)| >= 2 {
      SharedFrames(cs[i].pte, cs[i].refc, f);
    }
    forall k | Maps(cs[i].pte, f, k) && RefGet(cs[i].refc, f) <= 1 ensures Sharers(cs[i].pte, f) == {k} {
      SoleOwner(cs[i].pte, cs[i].refc, k);
    }
  }

  // A fork, complete or not, leaves every page of every space that existed before with its
  // frame and its contents.
  lemma ForkHarmsNobody(a: Flat, b: Flat, src: nat, done: set<Path>, dropped: set<Path>, k: Key)
    requires Sane(a) && CowForked(a, b, src, done, dropped) && k in a.pte
    ensures k in b.pte && b.pte[k].flags.present == a.pte[k].flags.present && b.pte[k].frame == a.pte[k].frame
    ensures a.pte[k].flags.present ==>
      a.pte[k].frame in a.data && b.pte[k].frame in b.data && b.data[b.pte[k].frame] == a.data[a.pte[k].frame]
    ensures forall j: Index :: Read(b, k, j) == Read(a, k, j)
    ensures Allowed(a.pte[k]) ==> Allowed(b.pte[k]) || Faults(b.pte[k])
  {
  }

  // ---------------------------------------------------------------- where copy-on-write is not private

  // Right after a fork, a write by the child to a page is hidden from the parent exactly
  // when the page lies in a pool frame: other frames carry no count, so the fault is
  // served in place and both spaces keep the same frame.
  lemma PrivateIffPooled(a: Flat, b: Flat, c: Flat, src: nat, k: Key, j: Index, w: Word)
    requires CowGood(a) && CowForked(a, b, src, a.slots, {}) && k in b.pte && k.id == a.n
    requires Faults(b.pte[k]) && CowStep(b, c, Write(k, j, w))
    ensures var p := Key(src, k.slot, k.i);
      && p in a.pte && p in c.pte && a.pte[p].frame in a.data && c.pte[p].frame in c.data
      && (InPool(a.pte[p].frame) ==> c.data[c.pte[p].frame] == a.data[a.pte[p].frame])
      && (!InPool(a.pte[p].frame) ==> c.data[c.pte[p].frame][j] == w)
  {
    var p := Key(src, k.slot, k.i);
    ForkKeeps(a, b, src, a.slots, {});
    assert b.pte[k] == CowDst(a.pte[p]) && b.pte[p] == CowSrc(a.pte[p]);
    var m :| Served(b, m, k) && m.pte[k].frame in m.data && Stored(m, c, k, j, w);
    if InPool(a.pte[p].frame) {
      TwoSharers(b, p, k);
      CopyHides(b, m, c, p, k, j, w);
    }
  }

  lemma TwoSharers(b: Flat, p: Key, k: Key)
    requires CowInv(b.pte, b.refc) && p in b.pte && k in b.pte && p != k && b.pte[p] == b.pte[k]
    requires b.pte[k].flags.present && InPool(b.pte[k].frame)
    ensures RefGet(b.refc, b.pte[k].frame) > 1
  {
    var s := Sharers(b.pte, b.pte[k].frame);
    assert {p, k} <= s && |{p, k}| == 2;
    Smaller({p, k}, s);
    SharedFrames(b.pte, b.refc, b.pte[k].frame);
  }

  lemma CopyHides(b: Flat, m: Flat, c: Flat, p: Key, k: Key, j: Index, w: Word)
    requires Sane(b) && p in b.pte && k in b.pte && p != k && b.pte[p] == b.pte[k] && b.pte[k].flags.present
    requires RefGet(b.refc, b.pte[k].frame) > 1 && Served(b, m, k) && m.pte[k].frame in m.data && Stored(m, c, k, j, w)
    ensures p in c.pte && c.pte[p] == b.pte[p] && c.pte[p].frame in c.data
    ensures c.data[c.pte[p].frame] == b.data[b.pte[p].frame]
  {
  }

  // ---------------------------------------------------------------- read-only pages

  // After a fork of the same state on both machines, the child's twin of a user page that
  // was not yet copy-on-write takes writes on both or on neither exactly when the page was
  // writable: the fault handler sets the bit whatever it was before the fork.
  lemma WritableIff(a: Flat, c: Flat, e: Flat, src: nat, p: Key)
    requires Sane(a) && CowForked(a, c, src, a.slots, {}) && EagerForked(a, e, src, a.slots, {})
    requires p in a.pte && p.id == src && a.pte[p].flags.present && a.pte[p].flags.user && !a.pte[p].flags.cow
    ensures var k := Key(a.n, p.slot, p.i);
      && k in c.pte && k in e.pte
      && ((Allowed(c.pte[k]) || Faults(c.pte[k]) <==> Allowed(e.pte[k])) <==> a.pte[p].flags.rw)
  {
    var k := Key(a.n, p.slot, p.i);
    assert Copied(a, e, a.pte[Key(src, k.slot, k.i)], e.pte[k]);
  }

  // The write that tells them apart: it goes through after a copy-on-write fork of a
  // read-only page and is refused after an eager one.
  lemma ReadOnlyIsLost(a: Flat, c: Flat, d: Flat, e: Flat, f: Flat, src: nat, p: Key, j: Index, w: Word)
    requires CowGood(a) && CowForked(a, c, src, a.slots, {}) && EagerForked(a, e, src, a.slots, {})
    requires p in a.pte && p.id == src && a.pte[p].flags.present && a.pte[p].flags.user
    requires !a.pte[p].flags.cow && !a.pte[p].flags.rw
    requires var op := Write(Key(a.n, p.slot, p.i), j, w); CowStep(c, d, op) && EagerStep(e, f, op)
    ensures var k := Key(a.n, p.slot, p.i);
      Read(d, k, j) == Some(w) && Read(f, k, j) == Read(a, p, j) && Read(a, p, j).Some?
  {
    var k := Key(a.n, p.slot, p.i);
    assert Copied(a, e, a.pte[Key(src, k.slot, k.i)], e.pte[k]);
    ForkKeeps(a, c, src, a.slots, {});
    assert c.pte[k] == CowDst(a.pte[p]);
    FaultedWrite(c, d, k, j, w);
  }

  // A write to a page that faults goes through.
  lemma FaultedWrite(c: Flat, d: Flat, k: Key, j: Index, w: Word)
    requires CowGood(c) && k in c.pte && Faults(c.pte[k]) && CowStep(c, d, Write(k, j, w))
    ensures Read(d, k, j) == Some(w)
  {
    var m :| Served(c, m, k) && m.pte[k].frame in m.data && Stored(m, d, k, j, w);
    ServedKeeps(c, m, k);
  }
}
