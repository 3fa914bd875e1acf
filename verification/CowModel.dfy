/**
 * Copy-on-write over the flat view of memory: which leaf word every user page of every
 * address space has, and the reference counts. The invariant says who may share a frame;
 * each kind of change the kernel makes to the view keeps it.
 */
module CowModel {
  import opened Prelude
  import opened PageTables

  // A user page: address space (by order of creation), slot, and index in the slot.
  datatype Key = Key(id: nat, slot: Path, i: Index)

  type Ptes = map<Key, Word>

  // ---------------------------------------------------------------- reference counts: only pool frames have one

  predicate InPool(f: nat) {
    POOL_START <= f < POOL_END
  }

  function RefGet(refc: seq<nat>, f: nat): nat
    requires |refc| == POOL_END - POOL_START
  {
    if InPool(f) then refc[f - POOL_START] else 0
  }

  function RefInc(refc: seq<nat>, f: nat): (r: seq<nat>)
    requires |refc| == POOL_END - POOL_START
  {
    if InPool(f) then refc[f - POOL_START := refc[f - POOL_START] + 1] else refc
  }

  function RefDec(refc: seq<nat>, f: nat): (r: seq<nat>)
    requires |refc| == POOL_END - POOL_START
  {
    if InPool(f) && refc[f - POOL_START] > 0 then refc[f - POOL_START := refc[f - POOL_START] - 1] else refc
  }

  // ---------------------------------------------------------------- who maps a frame

  predicate Maps(pte: Ptes, f: nat, k: Key) {
    k in pte && pte[k].flags.present && pte[k].frame == f
  }

  ghost function Sharers(pte: Ptes, f: nat): set<Key> {
    set k | k in pte && Maps(pte, f, k)
  }

  ghost function CowSharers(pte: Ptes, f: nat): set<Key> {
    set k | k in pte && Maps(pte, f, k) && pte[k].flags.cow
  }

  ghost predicate CountsCover(pte: Ptes, refc: seq<nat>) {
    |refc| == POOL_END - POOL_START && forall f :: InPool(f) ==> |CowSharers(pte, f)| <= RefGet(refc, f)
  }

  ghost predicate SharersAreCow(pte: Ptes) {
    forall f, j, k :: InPool(f) && j != k && Maps(pte, f, j) && Maps(pte, f, k) ==> pte[j].flags.cow
  }

  ghost predicate CowIsReadOnly(pte: Ptes) {
    forall f, k :: InPool(f) && Maps(pte, f, k) && pte[k].flags.cow ==> !pte[k].flags.rw
  }

  ghost function CowState(pte: Ptes, refc: seq<nat>): Sealed {
    if CountsCover(pte, refc) && SharersAreCow(pte) && CowIsReadOnly(pte) then Intact else Broken
  }

  // The discipline: the count of a pool frame covers its copy-on-write pages, two pages
  // may share a pool frame only if both are copy-on-write, and such pages are read-only.
  ghost predicate CowInv(pte: Ptes, refc: seq<nat>) {
    CowState(pte, refc) == Intact
  }

  // In every state that keeps the discipline, a pool frame with two or more pages is
  // read-only and copy-on-write in all of them and its count is at least their number.
  lemma SharedFrames(pte: Ptes, refc: seq<nat>, f: nat)
    requires CowInv(pte, refc) && InPool(f) && |Sharers(pte, f)| >= 2
    ensures forall k :: Maps(pte, f, k) ==> pte[k].flags.cow && !pte[k].flags.rw
    ensures RefGet(refc, f) >= |Sharers(pte, f)|
  {
    var s := Sharers(pte, f);
    forall k | Maps(pte, f, k) ensures pte[k].flags.cow && !pte[k].flags.rw {
      var rest := s - {k};
      assert s == rest + {k};
      assert rest != {};
      var j :| j in rest;
      assert Maps(pte, f, j);
    }
    assert CowSharers(pte, f) == s;
  }

  // Reusing a frame in place (count at most one) only ever happens for its sole page.
  lemma SoleOwner(pte: Ptes, refc: seq<nat>, k: Key)
    requires CowInv(pte, refc) && k in pte && pte[k].flags.present && InPool(pte[k].frame)
    requires RefGet(refc, pte[k].frame) <= 1
    ensures Sharers(pte, pte[k].frame) == {k}
  {
    var f := pte[k].frame;
    var s := Sharers(pte, f);
    assert k in s;
    if s != {k} {
      assert s - {k} != {};
      var j :| j in s - {k};
      assert {j, k} <= s && |{j, k}| == 2;
      Smaller({j, k}, s);
      SharedFrames(pte, refc, f);
    }
  }

  lemma Smaller<T>(a: set<T>, b: set<T>)
    requires a <= b
    ensures |a| <= |b|
  {
    assert b == a + (b - a);
  }

  // ---------------------------------------------------------------- the changes the kernel makes

  // Pages may vanish.
  lemma DropKeeps(pte: Ptes, now: Ptes, refc: seq<nat>)
    requires CowInv(pte, refc) && now.Keys == pte.Keys
    requires forall k :: k in pte ==> now[k] == pte[k] || !now[k].flags.present
    ensures CowInv(now, refc)
  {
    forall f | InPool(f) ensures |CowSharers(now, f)| <= RefGet(refc, f) {
      Smaller(CowSharers(now, f), CowSharers(pte, f));
    }
    assert forall f, k :: Maps(now, f, k) ==> Maps(pte, f, k) && now[k] == pte[k];
  }

  // A page may be pointed at a frame that no page maps (map, demand paging, a private copy).
  lemma FreshKeeps(pte: Ptes, refc: seq<nat>, k: Key, w: Word)
    requires CowInv(pte, refc) && k in pte && Sharers(pte, w.frame) == {} && !w.flags.cow
    ensures CowInv(pte[k := w], refc)
  {
    var now := pte[k := w];
    assert forall f, j :: Maps(now, f, j) && j != k ==> Maps(pte, f, j) && now[j] == pte[j];
    assert forall j :: j in pte && Maps(pte, w.frame, j) ==> j in Sharers(pte, w.frame);
    forall f | InPool(f) ensures |CowSharers(now, f)| <= RefGet(refc, f) {
      Smaller(CowSharers(now, f), CowSharers(pte, f));
    }
  }

  // A frame outside the pool carries no count and no promise.
  lemma OutsideKeeps(pte: Ptes, refc: seq<nat>, k: Key, w: Word)
    requires CowInv(pte, refc) && k in pte && !InPool(w.frame)
    ensures CowInv(pte[k := w], refc)
  {
    var now := pte[k := w];
    assert forall f, j :: Maps(now, f, j) && j != k ==> Maps(pte, f, j) && now[j] == pte[j];
    forall f | InPool(f) ensures |CowSharers(now, f)| <= RefGet(refc, f) {
      Smaller(CowSharers(now, f), CowSharers(pte, f));
    }
  }

  // A fault copies: the page leaves its shared frame, whose count falls by one.
  lemma LeaveKeeps(pte: Ptes, refc: seq<nat>, k: Key, w: Word)
    requires CowInv(pte, refc) && k in pte && pte[k].flags.present && pte[k].flags.cow
    requires Sharers(pte, w.frame) == {} && !w.flags.cow
    ensures CowInv(pte[k := w], RefDec(refc, pte[k].frame))
  {
    var now, g := pte[k := w], pte[k].frame;
    FreshKeeps(pte, refc, k, w);
    if InPool(g) {
      var before := CowSharers(pte, g);
      assert k in before;
      assert w.frame != g by { assert k in Sharers(pte, g); }
      assert CowSharers(now, g) == before - {k};
      assert forall f :: f != g ==> RefGet(RefDec(refc, g), f) == RefGet(refc, f);
    }
  }

  // A fault reuses in place: the sole page becomes writable, its count falls to nothing.
  lemma ReuseKeeps(pte: Ptes, refc: seq<nat>, k: Key, fl: Flags)
    requires CowInv(pte, refc) && k in pte && pte[k].flags.present && pte[k].flags.cow
    requires RefGet(refc, pte[k].frame) <= 1 && !fl.cow && fl.present
    ensures CowInv(pte[k := Word(pte[k].frame, fl)], RefDec(refc, pte[k].frame))
  {
    var g := pte[k].frame;
    var now := pte[k := Word(g, fl)];
    if InPool(g) {
      SoleOwner(pte, refc, k);
      assert forall j :: Maps(pte, g, j) ==> j == k by {
        forall j | Maps(pte, g, j) ensures j == k {
          assert j in Sharers(pte, g);
        }
      }
      assert forall f, j :: Maps(now, f, j) ==> Maps(pte, f, j) && (j != k ==> now[j] == pte[j]);
      assert forall j :: j in now ==> !(Maps(now, g, j) && now[j].flags.cow);
      assert CowSharers(now, g) == {};
      forall f | InPool(f) && f != g ensures |CowSharers(now, f)| <= RefGet(RefDec(refc, g), f) {
        assert CowSharers(now, f) == CowSharers(pte, f);
      }
    } else {
      OutsideKeeps(pte, refc, k, Word(g, fl));
    }
  }

  // ---------------------------------------------------------------- cloning

  function Cow(w: Word): Word {
    Word(w.frame, w.flags.(rw := false, cow := true))
  }

  // The clone's source page afterwards, and its twin in the new space.
  function CowSrc(w: Word): Word {
    if w.flags.present then Cow(w) else w
  }

  function CowDst(w: Word): Word {
    if w.flags.present then Cow(w) else ZERO
  }

  // A clone shares one page: both twins become copy-on-write, the count goes up by two.
  lemma ShareKeeps(pte: Ptes, refc: seq<nat>, j: Key, k: Key)
    requires CowInv(pte, refc) && j in pte && k in pte && j != k && pte[j].flags.present && !pte[k].flags.present
    ensures var f := pte[j].frame;
      CowInv(pte[j := Cow(pte[j])][k := Cow(pte[j])], RefInc(RefInc(refc, f), f))
  {
    var g := pte[j].frame;
    var now := pte[j := Cow(pte[j])][k := Cow(pte[j])];
    var r := RefInc(RefInc(refc, g), g);
    forall f | InPool(f) ensures |CowSharers(now, f)| <= RefGet(r, f) {
      if f == g {
        Smaller(CowSharers(now, g), CowSharers(pte, g) + {j, k});
        assert |CowSharers(pte, g) + {j, k}| <= |CowSharers(pte, g)| + |{j, k}|;
      } else {
        assert CowSharers(now, f) == CowSharers(pte, f);
      }
    }
    forall f, x, y | InPool(f) && x != y && Maps(now, f, x) && Maps(now, f, y) ensures now[x].flags.cow {
      if x != j && x != k {
        assert Maps(pte, f, x);
        if y == k { assert Maps(pte, f, j); } else { assert Maps(pte, f, y); }
      }
    }
  }

  // The view after slots done of space src were cloned into space dst.
  ghost function CowClone(pte: Ptes, src: nat, dst: nat, done: set<Path>): Ptes {
    map k | k in pte ::
      if k.slot in done && k.id == src then CowSrc(pte[k])
      else if k.slot in done && k.id == dst && Key(src, k.slot, k.i) in pte then CowDst(pte[Key(src, k.slot, k.i)])
      else pte[k]
  }

  // The view after slots of space id lost their pages.
  ghost function DropSlots(pte: Ptes, id: nat, dropped: set<Path>): Ptes {
    map k | k in pte :: if k.id == id && k.slot in dropped then ZERO else pte[k]
  }

  // ---------------------------------------------------------------- what a clone does to the counts

  ghost function SlotKeys(pte: Ptes, id: nat, done: set<Path>): set<Key> {
    set k | k in pte && k.id == id && k.slot in done
  }

  ghost function PagesIn(pte: Ptes, d: set<Key>, f: nat): set<Key> {
    set k | k in d && Maps(pte, f, k)
  }

  // The count of each pool frame has risen by two for every page of d that lies in it.
  ghost predicate CountsRise(pte: Ptes, r: seq<nat>, refc: seq<nat>, d: set<Key>) {
    && |r| == POOL_END - POOL_START && |refc| == POOL_END - POOL_START
    && forall f {:trigger RefGet(refc, f)} {:trigger RefGet(r, f)} ::
         InPool(f) ==> RefGet(refc, f) == RefGet(r, f) + 2 * |PagesIn(pte, d, f)|
  }

  lemma RiseNone(pte: Ptes, r: seq<nat>)
    requires |r| == POOL_END - POOL_START
    ensures CountsRise(pte, r, r, {})
  {
    assert forall f :: PagesIn(pte, {}, f) == {};
  }

  lemma RiseOne(pte: Ptes, r: seq<nat>, refc: seq<nat>, d: set<Key>, k: Key)
    requires CountsRise(pte, r, refc, d) && k in pte && k !in d && pte[k].flags.present
    ensures var g := pte[k].frame; CountsRise(pte, r, RefInc(RefInc(refc, g), g), d + {k})
  {
    var g := pte[k].frame;
    var up := RefInc(RefInc(refc, g), g);
    forall f | InPool(f) ensures RefGet(up, f) == RefGet(r, f) + 2 * |PagesIn(pte, d + {k}, f)| {
      assert RefGet(refc, f) == RefGet(r, f) + 2 * |PagesIn(pte, d, f)|;
      if f == g { assert PagesIn(pte, d + {k}, f) == PagesIn(pte, d, f) + {k}; }
      else { assert PagesIn(pte, d + {k}, f) == PagesIn(pte, d, f); }
    }
  }

  // Pages that are absent, or lie outside the pool, count for nothing.
  lemma RiseOutside(pte: Ptes, r: seq<nat>, refc: seq<nat>, d: set<Key>, more: set<Key>)
    requires CountsRise(pte, r, refc, d)
    requires forall k :: k in more ==> k in pte && (!pte[k].flags.present || !InPool(pte[k].frame))
    ensures CountsRise(pte, r, refc, d + more)
  {
    forall f | InPool(f) ensures RefGet(refc, f) == RefGet(r, f) + 2 * |PagesIn(pte, d + more, f)| {
      assert PagesIn(pte, d + more, f) == PagesIn(pte, d, f);
    }
  }

  // Two clones, one after the other; the pages of the second had not moved in the first.
  lemma RiseMore(pte: Ptes, now: Ptes, r: seq<nat>, q: seq<nat>, refc: seq<nat>, d: set<Key>, more: set<Key>)
    requires CountsRise(pte, r, q, d) && CountsRise(now, q, refc, more) && d !! more
    requires forall k :: k in more ==> k in pte && k in now && now[k] == pte[k]
    ensures CountsRise(pte, r, refc, d + more)
  {
    forall f | InPool(f) ensures RefGet(refc, f) == RefGet(r, f) + 2 * |PagesIn(pte, d + more, f)| {
      assert RefGet(q, f) == RefGet(r, f) + 2 * |PagesIn(pte, d, f)|;
      assert PagesIn(now, more, f) == PagesIn(pte, more, f);
      assert PagesIn(pte, d + more, f) == PagesIn(pte, d, f) + PagesIn(pte, more, f);
      assert PagesIn(pte, d, f) !! PagesIn(pte, more, f);
    }
  }

  // A view that has gained space dst, in which the slots done are cloned from space src
  // and the others hold nothing in the pool.
  ghost predicate Joined(pte: Ptes, now: Ptes, src: nat, dst: nat, done: set<Path>) {
    && src != dst
    && (forall k :: k in pte ==> k.id != dst && k in now)
    && (forall k :: k in pte ==> now[k] == if k.id == src && k.slot in done then CowSrc(pte[k]) else pte[k])
    && (forall k :: k in now && k !in pte ==> k.id == dst)
    && (forall k :: k in now && k !in pte && k.slot in done ==>
          Key(src, k.slot, k.i) in pte && now[k] == CowDst(pte[Key(src, k.slot, k.i)]))
    && (forall k :: k in now && k !in pte && k.slot !in done ==> !now[k].flags.present || !InPool(now[k].frame))
  }

  // The page of the old view behind a page of the new one in a pool frame.
  function Origin(k: Key, src: nat, dst: nat): Key {
    if k.id == dst then Key(src, k.slot, k.i) else k
  }

  lemma JoinedMaps(pte: Ptes, now: Ptes, src: nat, dst: nat, done: set<Path>, f: nat, k: Key)
    requires Joined(pte, now, src, dst, done) && InPool(f) && Maps(now, f, k)
    ensures var o := Origin(k, src, dst); Maps(pte, f, o)
    ensures var o := Origin(k, src, dst);
      if o.id == src && o.slot in done then now[k].flags.cow && !now[k].flags.rw else k == o && now[k] == pte[k]
  {
    assert k in pte ==> k.id != dst;
  }

  // What a clone does to the view and the counts keeps the discipline.
  lemma JoinedKeeps(pte: Ptes, now: Ptes, r: seq<nat>, refc: seq<nat>, src: nat, dst: nat, done: set<Path>)
    requires CowInv(pte, r) && Joined(pte, now, src, dst, done)
    requires CountsRise(pte, r, refc, SlotKeys(pte, src, done))
    ensures CowInv(now, refc)
  {
    forall f | InPool(f) ensures |CowSharers(now, f)| <= RefGet(refc, f) {
      JoinedCount(pte, now, src, dst, done, f);
    }
    forall f, j, k | InPool(f) && j != k && Maps(now, f, j) && Maps(now, f, k) ensures now[j].flags.cow {
      JoinedMaps(pte, now, src, dst, done, f, j);
      JoinedMaps(pte, now, src, dst, done, f, k);
    }
    forall f, k | InPool(f) && Maps(now, f, k) && now[k].flags.cow ensures !now[k].flags.rw {
      JoinedMaps(pte, now, src, dst, done, f, k);
    }
  }

  lemma JoinedCount(pte: Ptes, now: Ptes, src: nat, dst: nat, done: set<Path>, f: nat)
    requires Joined(pte, now, src, dst, done) && InPool(f)
    ensures |CowSharers(now, f)| <= |CowSharers(pte, f)| + 2 * |PagesIn(pte, SlotKeys(pte, src, done), f)|
  {
    var mine, from := CowSharers(pte, f), PagesIn(pte, SlotKeys(pte, src, done), f);
    var twins := set k | k in from :: Key(dst, k.slot, k.i);
    TwinCount(from, twins, dst);
    forall k | k in CowSharers(now, f) ensures k in mine + from + twins {
      JoinedMaps(pte, now, src, dst, done, f, k);
      var o := Origin(k, src, dst);
      assert o.id == src && o.slot in done ==> o in from;
      assert k.id == dst ==> k == Key(dst, o.slot, o.i);
    }
    Smaller(CowSharers(now, f), mine + from + twins);
  }

  lemma TwinCount(pages: set<Key>, twins: set<Key>, dst: nat)
    requires twins == set k | k in pages :: Key(dst, k.slot, k.i)
    ensures |twins| <= |pages|
    decreases |pages|
  {
    if pages != {} {
      var k :| k in pages;
      var rest := pages - {k};
      var few := set x | x in rest :: Key(dst, x.slot, x.i);
      TwinCount(rest, few, dst);
      assert twins == few + {Key(dst, k.slot, k.i)};
    }
  }
}
