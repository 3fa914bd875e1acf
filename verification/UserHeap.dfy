/** The program break (system call 22) and the C library's malloc and free. */
module ProgramBreak {
  const LOW: int := 0x51_0000
  const HIGH: int := 0x60_0000
  const PAGE: int := 0x1000

  // The least multiple of the page size that is not below x.
  function PageUp(x: int): int { (x + PAGE - 1) / PAGE * PAGE }

  predicate InRange(brk: int) { LOW <= brk <= HIGH }

  // The new break and the value returned; `avail` physical pages are free.
  function Sbrk(brk: int, inc: int, avail: nat): (int, int) {
    if inc < 0 then (if brk + inc < LOW then LOW else brk + inc, brk)
    else
      var pages := (PageUp(brk + inc) - PageUp(brk)) / PAGE;
      if PageUp(brk + inc) > HIGH || pages > avail then (brk, -1) else (brk + inc, brk)
  }

  lemma PageUpBounds(x: int)
    ensures x <= PageUp(x) < x + PAGE && PageUp(x) % PAGE == 0
  {
  }

  lemma PageUpMonotone(x: int, y: int)
    requires x <= y
    ensures PageUp(x) <= PageUp(y)
  {
  }

  // The break never leaves its window, whatever is asked for.
  lemma BreakStays(brk: int, inc: int, avail: nat)
    requires InRange(brk)
    ensures var (b, r) := Sbrk(brk, inc, avail);
            && InRange(b)
            && (r == -1 ==> b == brk)
            && (r != -1 ==> r == brk && b == if inc < 0 && brk + inc < LOW then LOW else brk + inc)
            && (r == -1 <==> inc > 0 && (brk + inc > HIGH || PageUp(brk + inc) - PageUp(brk) > avail * PAGE))
  {
    PageUpBounds(brk + inc);
    PageUpBounds(brk);
    PageUpMonotone(brk, HIGH);
    if brk + inc <= HIGH { PageUpMonotone(brk + inc, HIGH); }
  }

  // The pages that can go to a program: without a page table for the window,
  // the second one taken becomes that table.
  function Usable(avail: nat, table: bool): nat { if table || avail < 2 then avail else avail - 1 }

  // The whole window lies in one slot of two megabytes.
  class Kernel {
    var brk: int
    var avail: nat
    var table: bool        // the slot is split into a page table
    var mapped: set<int>   // the pages this call and earlier ones have mapped

    constructor (pages: nat, split: bool)
      ensures brk == LOW && InRange(brk) && avail == pages && table == split && mapped == {}
    {
      brk, avail, table, mapped := LOW, pages, split, {};
    }

    // paging_map_4kb, which splits the slot if need be.
    method MapPage(page: int) returns (ok: bool)
      modifies this
      ensures ok == (old(table) || old(avail) > 0)
      ensures table == ok && avail == old(avail) - (if ok && !old(table) then 1 else 0)
      ensures mapped == old(mapped) + (if ok then {page} else {}) && brk == old(brk)
    {
      if !table {
        if avail == 0 { return false; }
        avail, table := avail - 1, true;
      }
      mapped := mapped + {page};
      return true;
    }

    // The new pages are mapped on success, except when the last free page went
    // to the program and none was left for the table: the failure of the
    // mapping is ignored.
    method SysSbrk(inc: int) returns (r: int)
      requires InRange(brk)
      modifies this
      ensures (brk, r) == Sbrk(old(brk), inc, Usable(old(avail), old(table))) && InRange(brk)
      ensures old(mapped) <= mapped
      ensures r != -1 && inc > 0 && (old(table) || old(avail) > 1) ==>
        forall p :: p % PAGE == 0 && PageUp(old(brk)) <= p < brk ==> p in mapped
      ensures !old(table) && old(avail) <= 1 ==> mapped == old(mapped) && !table
    {
      BreakStays(brk, inc, Usable(avail, table));
      if inc < 0 {
        r := brk;
        var b := brk + inc;
        if b < LOW { b := LOW; }
        brk := b;
        return;
      }
      if inc > 0 {
        var b := brk + inc;
        var from, to := PageUp(brk), PageUp(b);
        PageUpMonotone(brk, b);
        PageUpMonotone(brk, HIGH);
        PageUpBounds(brk);
        PageUpBounds(b);
        var page := from;
        ghost var left: nat, n: nat := avail, 0;
        while page < to
          invariant page == from + n * PAGE && page <= to && page <= HIGH
          invariant brk == old(brk) && old(mapped) <= mapped
          invariant avail == left - n - (if table && !old(table) then 1 else 0)
          invariant table == (old(table) || (n > 0 && left > 1))
          invariant table ==> forall p :: p % PAGE == 0 && from <= p < page ==> p in mapped
          invariant !table ==> mapped == old(mapped)
        {
          if page >= HIGH { return -1; }
          if avail == 0 { return -1; }
          avail := avail - 1;
          var _ := MapPage(page);
          page, n := page + PAGE, n + 1;
        }
        r := brk;
        brk := b;
        return;
      }
      r := brk;
    }
  }
}

/**
 * malloc and free: a last-in-first-out free list with splitting and without
 * coalescing, over the program break.
 *
 * `blocks` maps the address of every block header to the block's size and
 * whether it is in use; `list` is the free list; `chunks` are the pieces of
 * memory obtained from sbrk; `given` are the pointers malloc has returned.
 */
module Malloc {
  import opened Prelude
  import ProgramBreak

  const HEADER: int := 16
  const MIN_BLOCK: int := 32
  const PAGE: int := ProgramBreak.PAGE

  datatype Blk = Blk(size: int, used: bool)

  datatype Heap = Heap(blocks: map<int, Blk>, list: seq<int>, brk: int, chunks: set<(int, int)>, given: set<int>)

  function Init(): Heap { Heap(map[], [], ProgramBreak.LOW, {}, {}) }

  // The size of the block that serves a request.
  function Need(size: int): int {
    var a := if size + HEADER < MIN_BLOCK then MIN_BLOCK else size + HEADER;
    (a + 7) / 8 * 8
  }

  function Chunk(need: int): int { ((need + 0xFFF) / PAGE + 1) * PAGE }

  // The first block of the list, from i on, that is large enough.
  function FirstFit(h: Heap, need: int, i: nat): nat
    decreases |h.list| - i
  {
    if i >= |h.list| || (h.list[i] in h.blocks && h.blocks[h.list[i]].size >= need) then i
    else FirstFit(h, need, i + 1)
  }

  function Take(h: Heap, i: nat, need: int): Heap
    requires i < |h.list| && h.list[i] in h.blocks
  {
    var a := h.list[i];
    var size := h.blocks[a].size;
    if size >= need + MIN_BLOCK then
      h.(blocks := h.blocks[a := Blk(need, true)][a + need := Blk(size - need, false)],
         list := h.list[i := a + need])
    else
      h.(blocks := h.blocks[a := Blk(size, true)], list := h.list[..i] + h.list[i + 1..])
  }

  function Grow(h: Heap, need: int): Heap {
    var c := Chunk(need);
    h.(blocks := h.blocks[h.brk := Blk(need, true)][h.brk + need := Blk(c - need, false)],
       list := [h.brk + need] + h.list,
       brk := h.brk + c,
       chunks := h.chunks + {(h.brk, c)})
  }

  function Given(h: Heap, p: int): Heap { h.(given := h.given + {p}) }

  // The pointer returned, 0 for a null pointer.
  function Alloc(h: Heap, size: int, avail: nat): (Heap, int) {
    if size <= 0 then (h, 0) else Serve(h, Need(size), avail)
  }

  // A block of `need` bytes: from the list, or else from a new chunk.
  function Serve(h: Heap, need: int, avail: nat): (Heap, int) {
    var i := FirstFit(h, need, 0);
    if i < |h.list| && h.list[i] in h.blocks then
      var p := h.list[i] + HEADER;
      (Given(Take(h, i, need), p), p)
    else if ProgramBreak.Sbrk(h.brk, Chunk(need), avail).1 == -1 then (h, 0)
    else (Given(Grow(h, need), h.brk + HEADER), h.brk + HEADER)
  }

  function Free(h: Heap, p: int): Heap {
    var a := p - HEADER;
    if p == 0 || a !in h.blocks || !h.blocks[a].used then h
    else h.(blocks := h.blocks[a := h.blocks[a].(used := false)], list := [a] + h.list)
  }

  // Another program moves the break, which they share.
  function Others(h: Heap, pages: nat): Heap {
    if h.brk + pages * PAGE <= ProgramBreak.HIGH then h.(brk := h.brk + pages * PAGE) else h
  }

  // ---------------------------------------------------------------- well-formedness

  predicate BlockOk(h: Heap, a: int)
    requires a in h.blocks
  {
    var b := h.blocks[a];
    a % 8 == 0 && b.size % 8 == 0 && b.size >= MIN_BLOCK && ProgramBreak.LOW <= a && a + b.size <= h.brk
  }

  predicate Below(h: Heap, a: int, b: int)
    requires a in h.blocks && b in h.blocks
  {
    a < b ==> a + h.blocks[a].size <= b
  }

  predicate InBlock(blocks: map<int, Blk>, a: int, x: int) { a in blocks && a <= x < a + blocks[a].size }
  predicate InChunk(c: (int, int), x: int) { c.0 <= x < c.0 + c.1 }

  ghost predicate Covered(blocks: map<int, Blk>, x: int) { exists a :: InBlock(blocks, a, x) }
  predicate Granted(chunks: set<(int, int)>, x: int) { exists c :: c in chunks && InChunk(c, x) }

  // The blocks are aligned, do not overlap and make up exactly the memory
  // obtained from sbrk.
  ghost predicate Tiled(h: Heap) {
    && (forall a {:trigger BlockOk(h, a)} :: a in h.blocks ==> BlockOk(h, a))
    && (forall a, b {:trigger Below(h, a, b)} :: a in h.blocks && b in h.blocks ==> Below(h, a, b))
    && (forall x :: Covered(h.blocks, x) <==> Granted(h.chunks, x))
  }

  // The list holds every free block once and no block in use.
  predicate ListOk(h: Heap) {
    && (forall i, j :: 0 <= i < j < |h.list| ==> h.list[i] != h.list[j])
    && (forall i :: 0 <= i < |h.list| ==> h.list[i] in h.blocks)
    && (forall a :: a in h.blocks ==> (h.blocks[a].used <==> a !in h.list))
  }

  ghost function Check(h: Heap): Sealed {
    if && ProgramBreak.InRange(h.brk) && h.brk % PAGE == 0
       && Tiled(h) && ListOk(h)
       && (forall p :: p in h.given ==> p - HEADER in h.blocks)
    then Intact else Broken
  }

  ghost predicate Ok(h: Heap) { Check(h) == Intact }

  // ---------------------------------------------------------------- each operation keeps it

  lemma NeedFits(size: int)
    requires size > 0
    ensures Need(size) >= size + HEADER && Need(size) >= MIN_BLOCK && Need(size) % 8 == 0
  {
  }

  // A fresh chunk always leaves room for a second block: the branch of malloc
  // that hands out a whole chunk is never taken.
  lemma ChunkSplits(need: int)
    requires need >= MIN_BLOCK && need % 8 == 0
    ensures Chunk(need) >= need + PAGE >= need + MIN_BLOCK && Chunk(need) % PAGE == 0 && Chunk(need) % 8 == 0
  {
  }

  // Blocks keep their places; only flags change.
  lemma SamePlaces(h: Heap, r: Heap)
    requires Tiled(h) && r.chunks == h.chunks && r.brk >= h.brk && r.blocks.Keys == h.blocks.Keys
    requires forall a :: a in h.blocks ==> r.blocks[a].size == h.blocks[a].size
    ensures Tiled(r)
  {
    forall a | a in r.blocks ensures BlockOk(r, a) { assert BlockOk(h, a); }
    forall a, b | a in r.blocks && b in r.blocks ensures Below(r, a, b) { assert Below(h, a, b); }
    forall x ensures Covered(r.blocks, x) <==> Granted(r.chunks, x) {
      assert Covered(h.blocks, x) <==> Granted(h.chunks, x);
      if Covered(r.blocks, x) { var a :| InBlock(r.blocks, a, x); assert InBlock(h.blocks, a, x); }
      if Covered(h.blocks, x) { var a :| InBlock(h.blocks, a, x); assert InBlock(r.blocks, a, x); }
    }
  }

  function Cut(blocks: map<int, Blk>, a: int, need: int, u: bool, v: bool): map<int, Blk>
    requires a in blocks
  {
    blocks[a := Blk(need, u)][a + need := Blk(blocks[a].size - need, v)]
  }

  // Cutting a block in two.
  lemma CutTiled(h: Heap, a: int, need: int, u: bool, v: bool)
    requires Tiled(h) && a in h.blocks && need % 8 == 0
    requires MIN_BLOCK <= need && need + MIN_BLOCK <= h.blocks[a].size
    ensures Tiled(h.(blocks := Cut(h.blocks, a, need, u, v)))
    ensures a + need !in h.blocks
  {
    var r := h.(blocks := Cut(h.blocks, a, need, u, v));
    var m := a + need;
    assert BlockOk(h, a);
    assert m in h.blocks ==> Below(h, a, m);
    forall b | b in r.blocks ensures BlockOk(r, b) {
      if b in h.blocks { assert BlockOk(h, b); }
    }
    forall b, c | b in r.blocks && c in r.blocks ensures Below(r, b, c) {
      var b0, c0 := if b == m then a else b, if c == m then a else c;
      assert Below(h, b0, c0) && Below(h, c0, b0);
    }
    forall x ensures Covered(r.blocks, x) <==> Granted(r.chunks, x) {
      assert Covered(h.blocks, x) <==> Granted(h.chunks, x);
      CutCovers(h.blocks, a, need, u, v, x);
    }
  }

  lemma CutCovers(blocks: map<int, Blk>, a: int, need: int, u: bool, v: bool, x: int)
    requires a in blocks && 0 < need < blocks[a].size && a + need !in blocks
    ensures Covered(Cut(blocks, a, need, u, v), x) <==> Covered(blocks, x)
  {
    var r := Cut(blocks, a, need, u, v);
    if Covered(blocks, x) {
      var b :| InBlock(blocks, b, x);
      assert InBlock(r, if b == a && x >= a + need then a + need else b, x);
    }
    if Covered(r, x) {
      var b :| InBlock(r, b, x);
      assert InBlock(blocks, if b == a + need then a else b, x);
    }
  }

  // A new chunk above all blocks, as one block.
  lemma NewChunk(h: Heap, size: int, used: bool)
    requires Tiled(h) && h.brk % 8 == 0 && size % 8 == 0 && size >= MIN_BLOCK && h.brk >= ProgramBreak.LOW
    ensures h.brk !in h.blocks
    ensures Tiled(h.(blocks := h.blocks[h.brk := Blk(size, used)], brk := h.brk + size,
                     chunks := h.chunks + {(h.brk, size)}))
  {
    var a := h.brk;
    assert a in h.blocks ==> BlockOk(h, a);
    var r := h.(blocks := h.blocks[a := Blk(size, used)], brk := a + size, chunks := h.chunks + {(a, size)});
    forall b | b in r.blocks ensures BlockOk(r, b) {
      if b != a { assert BlockOk(h, b); }
    }
    forall b, c | b in r.blocks && c in r.blocks ensures Below(r, b, c) {
      if b != a { assert BlockOk(h, b); }
      if c != a { assert BlockOk(h, c); }
      if b != a && c != a { assert Below(h, b, c); }
    }
    forall x ensures Covered(r.blocks, x) <==> Granted(r.chunks, x) {
      assert Covered(h.blocks, x) <==> Granted(h.chunks, x);
      if Covered(r.blocks, x) {
        var b :| InBlock(r.blocks, b, x);
        if b == a { assert InChunk((a, size), x); }
        else { assert InBlock(h.blocks, b, x); }
      }
      if Granted(r.chunks, x) {
        var c :| c in r.chunks && InChunk(c, x);
        if c == (a, size) { assert InBlock(r.blocks, a, x); }
        else {
          assert Granted(h.chunks, x);
          var b :| InBlock(h.blocks, b, x);
          assert InBlock(r.blocks, b, x);
        }
      }
    }
  }

  lemma {:induction false} FitBounds(h: Heap, need: int, i: nat)
    requires ListOk(h) && i <= |h.list|
    ensures var k := FirstFit(h, need, i);
            && i <= k <= |h.list|
            && (k < |h.list| ==> h.list[k] in h.blocks && h.blocks[h.list[k]].size >= need)
            && forall j :: i <= j < k ==> h.blocks[h.list[j]].size < need
    decreases |h.list| - i
  {
    if i < |h.list| { FitBounds(h, need, i + 1); }
  }

  lemma TakeKeeps(h: Heap, i: nat, need: int)
    requires Ok(h) && i < |h.list| && need >= MIN_BLOCK && need % 8 == 0
    requires h.blocks[h.list[i]].size >= need
    ensures Ok(Take(h, i, need))
  {
    var a := h.list[i];
    var r := Take(h, i, need);
    if h.blocks[a].size >= need + MIN_BLOCK {
      CutTiled(h, a, need, true, false);
      assert r.blocks == Cut(h.blocks, a, need, true, false);
      var c := h.(blocks := r.blocks);
      SamePlaces(c, r);
      forall b | b in r.blocks ensures r.blocks[b].used <==> b !in r.list {
        if b == a + need { assert r.list[i] == b; }
        else if b != a && b in h.list { var k :| 0 <= k < |h.list| && h.list[k] == b; assert r.list[k] == b; }
      }
    } else {
      SamePlaces(h, r);
      RemoveAt(h.list, i);
    }
  }

  lemma RemoveAt(s: seq<int>, i: nat)
    requires i < |s| && forall j, k :: 0 <= j < k < |s| ==> s[j] != s[k]
    ensures var r := s[..i] + s[i + 1..];
            && (forall j, k :: 0 <= j < k < |r| ==> r[j] != r[k])
            && (forall x :: x in r <==> x in s && x != s[i])
  {
    var r := s[..i] + s[i + 1..];
    forall x ensures x in r <==> x in s && x != s[i] {
      if x in s && x != s[i] {
        var k :| 0 <= k < |s| && s[k] == x;
        assert r[if k < i then k else k - 1] == x;
      }
    }
  }

  lemma GrowKeeps(h: Heap, need: int)
    requires Ok(h) && need >= MIN_BLOCK && need % 8 == 0 && h.brk + Chunk(need) <= ProgramBreak.HIGH
    ensures Ok(Grow(h, need))
    ensures h.brk !in h.blocks && h.brk + need !in h.blocks
  {
    var c := Chunk(need);
    var a := h.brk;
    var r := Grow(h, need);
    ChunkSplits(need);
    NewChunk(h, c, false);
    var m := h.(blocks := h.blocks[a := Blk(c, false)], brk := a + c, chunks := h.chunks + {(a, c)});
    CutTiled(m, a, need, true, false);
    assert r.blocks == Cut(m.blocks, a, need, true, false);
    SamePlaces(m.(blocks := r.blocks), r);
    forall b | b in r.blocks ensures r.blocks[b].used <==> b !in r.list {
      assert b == a + need || b == a || b in h.blocks;
    }
  }

  lemma FreeKeeps(h: Heap, p: int)
    requires Ok(h)
    ensures Ok(Free(h, p))
  {
    SamePlaces(h, Free(h, p));
  }

  lemma OthersKeep(h: Heap, pages: nat)
    requires Ok(h)
    ensures Ok(Others(h, pages))
  {
    SamePlaces(h, Others(h, pages));
  }

  lemma GiveKeeps(h: Heap, p: int)
    requires Ok(h) && p - HEADER in h.blocks
    ensures Ok(Given(h, p))
  {
    SamePlaces(h, Given(h, p));
  }

  // The two ways in which a request can be served.
  lemma AllocCases(h: Heap, size: int, avail: nat)
    requires Ok(h) && size > 0
    ensures var need := Need(size);
            var i := FirstFit(h, need, 0);
            var (r, p) := Alloc(h, size, avail);
            && need % 8 == 0 && need >= MIN_BLOCK && need >= size + HEADER
            && (i < |h.list| ==>
                && h.list[i] in h.blocks && h.blocks[h.list[i]].size >= need
                && p == h.list[i] + HEADER && r == Given(Take(h, i, need), p))
            && (i >= |h.list| ==> forall a :: a in h.blocks && !h.blocks[a].used ==> h.blocks[a].size < need)
            && (i >= |h.list| && ProgramBreak.Sbrk(h.brk, Chunk(need), avail).1 != -1 ==>
                && h.brk + Chunk(need) <= ProgramBreak.HIGH
                && p == h.brk + HEADER && r == Given(Grow(h, need), p))
  {
    var need := Need(size);
    NeedFits(size);
    FitBounds(h, need, 0);
    ChunkSplits(need);
    ProgramBreak.BreakStays(h.brk, Chunk(need), avail);
  }

  lemma AllocKeeps(h: Heap, size: int, avail: nat)
    requires Ok(h)
    ensures Ok(Alloc(h, size, avail).0)
  {
    if size > 0 {
      var need := Need(size);
      var i := FirstFit(h, need, 0);
      AllocCases(h, size, avail);
      if i < |h.list| {
        TakeKeeps(h, i, need);
        GiveKeeps(Take(h, i, need), h.list[i] + HEADER);
      } else if ProgramBreak.Sbrk(h.brk, Chunk(need), avail).1 != -1 {
        GrowKeeps(h, need);
        GiveKeeps(Grow(h, need), h.brk + HEADER);
      }
    }
  }

  // ---------------------------------------------------------------- what malloc and free promise

  // Blocks in use keep their place and size, and headers stay headers.
  predicate Steady(h: Heap, r: Heap) {
    && (forall a :: a in h.blocks ==> a in r.blocks)
    && (forall a :: a in h.blocks && h.blocks[a].used ==> r.blocks[a] == h.blocks[a])
  }

  lemma AllocSteady(h: Heap, size: int, avail: nat)
    requires Ok(h)
    ensures Steady(h, Alloc(h, size, avail).0)
  {
    if size > 0 {
      var need := Need(size);
      var i := FirstFit(h, need, 0);
      AllocCases(h, size, avail);
      if i < |h.list| {
        assert !h.blocks[h.list[i]].used;
        if h.blocks[h.list[i]].size >= need + MIN_BLOCK { CutTiled(h, h.list[i], need, true, false); }
      } else if ProgramBreak.Sbrk(h.brk, Chunk(need), avail).1 != -1 {
        GrowKeeps(h, need);
      }
    }
  }

  // Block a, aligned and of at least `need` bytes, was not in use and is now,
  // and it is the only one of which that is true.
  predicate Obtained(h: Heap, r: Heap, a: int, need: int) {
    && a % 8 == 0
    && a in r.blocks && r.blocks[a].used && r.blocks[a].size >= need
    && (a in h.blocks ==> !h.blocks[a].used)
    && (forall b :: b in r.blocks && b != a && r.blocks[b].used ==> b in h.blocks && h.blocks[b] == r.blocks[b])
  }

  // The pointer malloc returns is aligned, and the block behind it has just
  // been obtained and has room for the header and the request.
  lemma AllocGives(h: Heap, size: int, avail: nat)
    requires Ok(h) && Alloc(h, size, avail).1 != 0
    ensures var (r, p) := Alloc(h, size, avail);
            p % 8 == 0 && Obtained(h, r, p - HEADER, size + HEADER) && p in r.given
  {
    var need := Need(size);
    var i := FirstFit(h, need, 0);
    AllocCases(h, size, avail);
    if i < |h.list| {
      TakeGives(h, i, need);
      ObtainedGiven(h, Take(h, i, need), h.list[i], need, size + HEADER);
    } else {
      GrowGives(h, need);
      ObtainedGiven(h, Grow(h, need), h.brk, need, size + HEADER);
    }
  }

  lemma ObtainedGiven(h: Heap, r: Heap, a: int, need: int, less: int)
    requires Obtained(h, r, a, need) && less <= need
    ensures Obtained(h, Given(r, a + HEADER), a, less) && (a + HEADER) % 8 == 0
  {
  }

  lemma TakeGives(h: Heap, i: nat, need: int)
    requires Ok(h) && i < |h.list| && h.blocks[h.list[i]].size >= need >= MIN_BLOCK
    ensures Obtained(h, Take(h, i, need), h.list[i], need)
  {
    assert BlockOk(h, h.list[i]) && !h.blocks[h.list[i]].used;
  }

  lemma GrowGives(h: Heap, need: int)
    requires Ok(h) && need >= MIN_BLOCK && need % 8 == 0 && h.brk + Chunk(need) <= ProgramBreak.HIGH
    ensures Obtained(h, Grow(h, need), h.brk, need)
  {
    GrowKeeps(h, need);
  }

  // No byte of one block's payload belongs to another block.
  lemma PayloadsApart(h: Heap, a: int, b: int, x: int)
    requires Ok(h) && a in h.blocks && b in h.blocks && a != b
    requires a + HEADER <= x < a + h.blocks[a].size
    ensures !(b <= x < b + h.blocks[b].size) && Granted(h.chunks, x)
  {
    assert Below(h, a, b) && Below(h, b, a);
    assert InBlock(h.blocks, a, x);
    assert Covered(h.blocks, x);
  }

  // malloc fails only for a size that is not positive, or when no free block is
  // large enough and the break cannot be moved; then nothing changes.
  lemma AllocFailsIff(h: Heap, size: int, avail: nat)
    requires Ok(h)
    ensures Alloc(h, size, avail).1 == 0 <==>
            || size <= 0
            || ((forall a :: a in h.blocks && !h.blocks[a].used ==> h.blocks[a].size < Need(size))
                && (h.brk + Chunk(Need(size)) > ProgramBreak.HIGH || Chunk(Need(size)) / PAGE > avail))
    ensures Alloc(h, size, avail).1 == 0 ==> Alloc(h, size, avail).0 == h
  {
    if size > 0 {
      var need := Need(size);
      AllocCases(h, size, avail);
      ChunkSplits(need);
      var i := FirstFit(h, need, 0);
      if i < |h.list| {
        assert BlockOk(h, h.list[i]) && !h.blocks[h.list[i]].used;
      } else {
        SbrkPages(h.brk, Chunk(need), avail);
      }
    }
  }

  // n is the request with its header, or the least block, rounded up to 8 bytes.
  predicate Rounded(size: int, n: int) {
    n % 8 == 0 && if size + 16 < 32 then n == 32 else size + 16 <= n < size + 24
  }

  // A request that some free block can serve is served by the first such block of the list:
  // what is left of it, if it is 32 bytes or more, takes its place in the list.
  lemma AllocTakes(h: Heap, size: int, avail: nat, i: nat, n: int)
    requires Ok(h) && size > 0 && Rounded(size, n) && i < |h.list|
    requires forall j :: 0 <= j < |h.list| ==> h.list[j] in h.blocks
    requires h.blocks[h.list[i]].size >= n && forall j :: 0 <= j < i ==> h.blocks[h.list[j]].size < n
    ensures var (r, p) := Alloc(h, size, avail);
            var a := h.list[i];
            var all := h.blocks[a].size;
            && p == a + 16 && r.brk == h.brk && r.chunks == h.chunks
            && if all >= n + 32
               then r.blocks == h.blocks[a := Blk(n, true)][a + n := Blk(all - n, false)]
                    && r.list == h.list[i := a + n]
               else r.blocks == h.blocks[a := Blk(all, true)] && r.list == h.list[..i] + h.list[i + 1..]
  {
    assert Need(size) == n;
    FirstFitAt(h, n, 0, i);
  }

  lemma {:induction false} FirstFitAt(h: Heap, need: int, i: nat, k: nat)
    requires i <= k <= |h.list| && forall j :: 0 <= j < |h.list| ==> h.list[j] in h.blocks
    requires k < |h.list| ==> h.blocks[h.list[k]].size >= need
    requires forall j :: i <= j < k ==> h.blocks[h.list[j]].size < need
    ensures FirstFit(h, need, i) == k
    decreases k - i
  {
    if i < k { FirstFitAt(h, need, i + 1, k); }
  }

  // Otherwise the break moves by c, which is the request rounded up to whole pages and one
  // page more, and the rest of the new chunk goes to the head of the list.
  lemma AllocGrows(h: Heap, size: int, avail: nat, n: int, c: int)
    requires Ok(h) && size > 0 && Rounded(size, n) && c % PAGE == 0 && n + PAGE <= c < n + 2 * PAGE
    requires forall j :: 0 <= j < |h.list| ==> h.list[j] in h.blocks && h.blocks[h.list[j]].size < n
    requires h.brk + c <= ProgramBreak.HIGH && c / PAGE <= avail
    ensures var (r, p) := Alloc(h, size, avail);
            && p == h.brk + 16 && r.brk == h.brk + c && r.chunks == h.chunks + {(h.brk, c)}
            && r.blocks == h.blocks[h.brk := Blk(n, true)][h.brk + n := Blk(c - n, false)]
            && r.list == [h.brk + n] + h.list
  {
    assert Need(size) == n && Chunk(n) == c;
    FirstFitAt(h, n, 0, |h.list|);
    SbrkPages(h.brk, c, avail);
  }

  lemma SbrkPages(brk: int, c: int, avail: nat)
    requires ProgramBreak.InRange(brk) && brk % PAGE == 0 && c % PAGE == 0 && c > 0
    ensures ProgramBreak.Sbrk(brk, c, avail).1 == -1 <==> brk + c > ProgramBreak.HIGH || c / PAGE > avail
  {
    assert ProgramBreak.PageUp(brk) == brk;
    assert ProgramBreak.PageUp(brk + c) == brk + c;
  }

  // The list is last in, first out: what was just freed is handed out again
  // when it is large enough.
  lemma FreeThenAlloc(h: Heap, p: int, size: int, avail: nat)
    requires Ok(h) && p != 0 && p - HEADER in h.blocks && h.blocks[p - HEADER].used
    requires size > 0 && Need(size) <= h.blocks[p - HEADER].size
    ensures Alloc(Free(h, p), size, avail).1 == p
  {
    assert FirstFit(Free(h, p), Need(size), 0) == 0;
  }

  lemma FreeTwice(h: Heap, p: int)
    ensures Free(Free(h, p), p) == Free(h, p)
  {
  }

  // ---------------------------------------------------------------- whole runs

  datatype Op = DoAlloc(size: int, avail: nat) | DoFree(p: int) | DoOthers(pages: nat)

  // A program frees only null or a pointer it was given, however often.
  function Next(h: Heap, op: Op): Heap {
    match op
    case DoAlloc(size, avail) => Alloc(h, size, avail).0
    case DoFree(p) => if p == 0 || p in h.given then Free(h, p) else h
    case DoOthers(pages) => Others(h, pages)
  }

  function Run(h: Heap, ops: seq<Op>): Heap
    decreases |ops|
  {
    if ops == [] then h else Run(Next(h, ops[0]), ops[1..])
  }

  lemma NextKeeps(h: Heap, op: Op)
    requires Ok(h)
    ensures Ok(Next(h, op)) && h.given <= Next(h, op).given
    ensures forall a :: a in h.blocks ==> a in Next(h, op).blocks
    ensures forall a :: a in h.blocks && h.blocks[a].used && op != DoFree(a + HEADER) ==>
            Next(h, op).blocks[a] == h.blocks[a]
  {
    match op
    case DoAlloc(size, avail) =>
      AllocKeeps(h, size, avail);
      AllocSteady(h, size, avail);
      if size > 0 { AllocCases(h, size, avail); }
    case DoFree(p) => FreeKeeps(h, p);
    case DoOthers(pages) => OthersKeep(h, pages);
  }

  // Over any run the blocks tile the memory obtained, a header address stays a
  // header, and a block in use is untouched until it is freed.
  lemma {:induction false} RunKeeps(h: Heap, ops: seq<Op>)
    requires Ok(h)
    ensures Ok(Run(h, ops)) && h.given <= Run(h, ops).given
    ensures forall a :: a in h.blocks ==> a in Run(h, ops).blocks
    ensures forall a :: a in h.blocks && h.blocks[a].used && DoFree(a + HEADER) !in ops ==>
            Run(h, ops).blocks[a] == h.blocks[a]
    decreases |ops|
  {
    if ops != [] {
      NextKeeps(h, ops[0]);
      RunKeeps(Next(h, ops[0]), ops[1..]);
    }
  }

  lemma InitOk()
    ensures Ok(Init())
  {
  }

  // In every reachable state a pointer that was ever returned has its header,
  // and freeing it again when it is already free changes nothing.
  lemma FreeIsSafe(ops: seq<Op>, p: int)
    requires p in Run(Init(), ops).given
    ensures var h := Run(Init(), ops);
            && p - HEADER in h.blocks
            && (!h.blocks[p - HEADER].used ==> Free(h, p) == h)
  {
    InitOk();
    RunKeeps(Init(), ops);
  }

  // ---------------------------------------------------------------- headers and links

  datatype Magic = FREE | USED
  datatype Header = Header(size: int, magic: Magic, next: int)

  // The links from `head` run through `list` and end in null.
  predicate Linked(mem: map<int, Header>, head: int, list: seq<int>)
    decreases |list|
  {
    if list == [] then head == 0
    else head == list[0] && head != 0 && head in mem && Linked(mem, mem[head].next, list[1..])
  }

  lemma {:induction false} LinkedSame(mem: map<int, Header>, mem2: map<int, Header>, head: int, list: seq<int>)
    requires Linked(mem, head, list)
    requires forall a :: a in list && a in mem ==> a in mem2 && mem2[a].next == mem[a].next
    ensures Linked(mem2, head, list)
    decreases |list|
  {
    if list != [] { LinkedSame(mem, mem2, mem[head].next, list[1..]); }
  }

  // The list from its i-th element on.
  lemma {:induction false} LinkedAt(mem: map<int, Header>, head: int, list: seq<int>, i: nat)
    requires Linked(mem, head, list) && i < |list|
    ensures list[i] in mem && list[i] != 0 && Linked(mem, mem[list[i]].next, list[i + 1..])
    ensures mem[list[i]].next == if i + 1 < |list| then list[i + 1] else 0
    decreases i
  {
    if i == 0 {
      assert list[1..] == [] || list[1..][0] == list[1];
    } else {
      LinkedAt(mem, mem[head].next, list[1..], i - 1);
      assert list[1..][i..] == list[i + 1..];
    }
  }

  // Changing the links at and after one element: `mid` replaces list[i].
  lemma {:induction false} Relinked(mem: map<int, Header>, mem2: map<int, Header>, head: int, head2: int,
                                    list: seq<int>, i: nat, tail: seq<int>, to: int)
    requires Linked(mem, head, list) && i < |list|
    requires Linked(mem2, to, tail)
    requires forall j :: 0 <= j < i ==> list[j] in mem2 && list[j] in mem
    requires forall j :: 0 <= j < i ==> mem2[list[j]].next == if j + 1 == i then to else mem[list[j]].next
    requires head2 == if i == 0 then to else head
    ensures Linked(mem2, head2, list[..i] + tail)
    decreases i
  {
    if i == 0 {
      assert list[..0] + tail == tail;
    } else {
      var l := list[..i] + tail;
      assert l[1..] == list[1..][..i - 1] + tail;
      assert forall j :: 0 <= j < i - 1 ==> list[1..][j] == list[j + 1];
      Relinked(mem, mem2, mem[head].next, mem2[head].next, list[1..], i - 1, tail, to);
    }
  }

  // Outside the predecessor of list[i] the links of mem2 are those of mem.
  predicate Patched(mem: map<int, Header>, mem2: map<int, Header>, head: int, head2: int,
                    list: seq<int>, i: nat, to: int)
    requires i < |list|
  {
    && (forall a :: a in mem ==> a in mem2)
    && (forall a :: a in mem ==> mem2[a].next == if i > 0 && a == list[i - 1] then to else mem[a].next)
    && head2 == (if i == 0 then to else head)
  }

  predicate Distinct(list: seq<int>) { forall i, j :: 0 <= i < j < |list| ==> list[i] != list[j] }

  // The tail after list[i] is untouched.
  lemma PatchedTail(mem: map<int, Header>, mem2: map<int, Header>, head: int, head2: int,
                    list: seq<int>, i: nat, to: int)
    requires Linked(mem, head, list) && i < |list| && Distinct(list)
    requires Patched(mem, mem2, head, head2, list, i, to)
    ensures list[i] in mem && Linked(mem2, mem[list[i]].next, list[i + 1..])
    ensures forall j :: 0 <= j < i ==> list[j] in mem && list[j] in mem2
  {
    LinkedAt(mem, head, list, i);
    forall a | a in list[i + 1..] && a in mem ensures a in mem2 && mem2[a].next == mem[a].next {
      var j :| i + 1 <= j < |list| && list[j] == a;
    }
    LinkedSame(mem, mem2, mem[list[i]].next, list[i + 1..]);
    forall j | 0 <= j < i ensures list[j] in mem && list[j] in mem2 { LinkedAt(mem, head, list, j); }
  }

  lemma DropLink(mem: map<int, Header>, mem2: map<int, Header>, head: int, head2: int, list: seq<int>, i: nat)
    requires Linked(mem, head, list) && i < |list| && Distinct(list) && list[i] in mem
    requires Patched(mem, mem2, head, head2, list, i, mem[list[i]].next)
    ensures Linked(mem2, head2, list[..i] + list[i + 1..])
  {
    var to := mem[list[i]].next;
    PatchedTail(mem, mem2, head, head2, list, i, to);
    Relinked(mem, mem2, head, head2, list, i, list[i + 1..], to);
  }

  lemma SwapLink(mem: map<int, Header>, mem2: map<int, Header>, head: int, head2: int, list: seq<int>, i: nat, x: int)
    requires Linked(mem, head, list) && i < |list| && Distinct(list) && list[i] in mem
    requires Patched(mem, mem2, head, head2, list, i, x)
    requires x in mem2 && x != 0 && mem2[x].next == mem[list[i]].next
    ensures Linked(mem2, head2, list[i := x])
  {
    PatchedTail(mem, mem2, head, head2, list, i, x);
    var tail := [x] + list[i + 1..];
    assert tail[1..] == list[i + 1..];
    Relinked(mem, mem2, head, head2, list, i, tail, x);
    assert list[i := x] == list[..i] + tail;
  }

  function Blocks(mem: map<int, Header>): map<int, Blk> {
    map a | a in mem :: Blk(mem[a].size, mem[a].magic == USED)
  }

  lemma BlocksPut(mem: map<int, Header>, a: int, x: Header)
    ensures Blocks(mem[a := x]) == Blocks(mem)[a := Blk(x.size, x.magic == USED)]
  {
  }

  function Point(mem: map<int, Header>, prev: int, to: int): map<int, Header> {
    if prev != 0 && prev in mem then mem[prev := mem[prev].(next := to)] else mem
  }

  lemma BlocksPoint(mem: map<int, Header>, prev: int, to: int)
    ensures Blocks(Point(mem, prev, to)) == Blocks(mem) && Point(mem, prev, to).Keys == mem.Keys
  {
  }

  // The headers after the block at curr has been cut, the rest linked in its place.
  function MemSplit(mem: map<int, Header>, prev: int, curr: int, need: int): map<int, Header>
    requires curr in mem
  {
    var rest := curr + need;
    var m1 := mem[rest := Header(mem[curr].size - need, FREE, mem[curr].next)];
    var m2 := m1[curr := m1[curr].(size := need)];
    var m3 := Point(m2, prev, rest);
    m3[curr := m3[curr].(magic := USED)]
  }

  function MemDrop(mem: map<int, Header>, prev: int, curr: int): map<int, Header>
    requires curr in mem
  {
    var m := Point(mem, prev, mem[curr].next);
    m[curr := m[curr].(magic := USED)]
  }

  lemma MemSplitBlocks(mem: map<int, Header>, prev: int, curr: int, need: int)
    requires curr in mem && curr + need !in mem && need != 0
    ensures Blocks(MemSplit(mem, prev, curr, need)) == Cut(Blocks(mem), curr, need, true, false)
  {
    var rest := curr + need;
    var m1 := mem[rest := Header(mem[curr].size - need, FREE, mem[curr].next)];
    var m2 := m1[curr := m1[curr].(size := need)];
    var m3 := Point(m2, prev, rest);
    BlocksPoint(m2, prev, rest);
    assert Blocks(m2)[curr].size == need == m3[curr].size by { assert Blocks(m3)[curr] == Blocks(m2)[curr]; }
    BlocksPut(mem, rest, m1[rest]);
    BlocksPut(m1, curr, m2[curr]);
    BlocksPut(m3, curr, m3[curr].(magic := USED));
  }

  lemma MemDropBlocks(mem: map<int, Header>, prev: int, curr: int)
    requires curr in mem
    ensures Blocks(MemDrop(mem, prev, curr)) == Blocks(mem)[curr := Blk(mem[curr].size, true)]
  {
    var m := Point(mem, prev, mem[curr].next);
    BlocksPoint(mem, prev, mem[curr].next);
    assert m[curr].size == mem[curr].size by { assert Blocks(m)[curr] == Blocks(mem)[curr]; }
    BlocksPut(m, curr, m[curr].(magic := USED));
  }

  predicate Before(list: seq<int>, i: nat, prev: int) { i < |list| && prev == if 0 < i then list[i - 1] else 0 }

  lemma SplitLinked(mem: map<int, Header>, head: int, list: seq<int>, i: nat, prev: int, need: int)
    requires Linked(mem, head, list) && Distinct(list) && Before(list, i, prev) && list[i] in mem
    requires list[i] + need !in mem && list[i] + need != 0 && need != 0
    ensures var rest := list[i] + need;
            Linked(MemSplit(mem, prev, list[i], need), if i == 0 then rest else head, list[i := rest])
  {
    var rest := list[i] + need;
    if i > 0 { LinkedAt(mem, head, list, i - 1); }
    SwapLink(mem, MemSplit(mem, prev, list[i], need), head, if i == 0 then rest else head, list, i, rest);
  }

  lemma DropLinked(mem: map<int, Header>, head: int, list: seq<int>, i: nat, prev: int)
    requires Linked(mem, head, list) && Distinct(list) && Before(list, i, prev) && list[i] in mem
    ensures var next := mem[list[i]].next;
            Linked(MemDrop(mem, prev, list[i]), if i == 0 then next else head, list[..i] + list[i + 1..])
  {
    var next := mem[list[i]].next;
    if i > 0 { LinkedAt(mem, head, list, i - 1); }
    DropLink(mem, MemDrop(mem, prev, list[i]), head, if i == 0 then next else head, list, i);
  }

  // A new first element.
  lemma PushLinked(mem: map<int, Header>, mem2: map<int, Header>, head: int, list: seq<int>, a: int)
    requires Linked(mem, head, list) && a != 0 && a in mem2 && mem2[a].next == head
    requires forall b :: b in mem && b in list ==> b in mem2 && mem2[b].next == mem[b].next
    ensures Linked(mem2, a, [a] + list)
  {
    LinkedSame(mem, mem2, head, list);
    assert ([a] + list)[1..] == list;
  }

  // The headers after a chunk of c bytes at `at` has been added and split.
  function MemGrow(mem: map<int, Header>, at: int, c: int, need: int, head: int): map<int, Header> {
    mem[at := Header(need, USED, head)][at + need := Header(c - need, FREE, head)]
  }

  lemma MemGrowBlocks(mem: map<int, Header>, at: int, c: int, need: int, head: int)
    ensures Blocks(MemGrow(mem, at, c, need, head))
         == Blocks(mem)[at := Blk(need, true)][at + need := Blk(c - need, false)]
  {
    BlocksPut(mem, at, Header(need, USED, head));
    BlocksPut(mem[at := Header(need, USED, head)], at + need, Header(c - need, FREE, head));
  }

  ghost function Verdict(h: Heap, mem: map<int, Header>, head: int): Sealed {
    if Ok(h) && h.blocks == Blocks(mem) && Linked(mem, head, h.list) then Intact else Broken
  }

  // The headers and links represent a well-formed heap.
  ghost predicate Represents(h: Heap, mem: map<int, Header>, head: int) { Verdict(h, mem, head) == Intact }

  lemma TakeRepresents(h: Heap, mem: map<int, Header>, head: int, i: nat, prev: int, need: int)
    requires Represents(h, mem, head) && Before(h.list, i, prev) && need >= MIN_BLOCK && need % 8 == 0
    requires h.list[i] in mem && mem[h.list[i]].size >= need
    ensures var a := h.list[i];
            if mem[a].size >= need + MIN_BLOCK
            then Represents(Take(h, i, need), MemSplit(mem, prev, a, need), if i == 0 then a + need else head)
            else Represents(Take(h, i, need), MemDrop(mem, prev, a), if i == 0 then mem[a].next else head)
  {
    var a := h.list[i];
    assert BlockOk(h, a);
    assert a in h.blocks && h.blocks[a].size == mem[a].size;
    if mem[a].size >= need + MIN_BLOCK {
      SplitRepresents(h, mem, head, i, prev, need);
    } else {
      TakeKeeps(h, i, need);
      MemDropBlocks(mem, prev, a);
      DropLinked(mem, head, h.list, i, prev);
    }
  }

  lemma SplitRepresents(h: Heap, mem: map<int, Header>, head: int, i: nat, prev: int, need: int)
    requires Represents(h, mem, head) && Before(h.list, i, prev) && need >= MIN_BLOCK && need % 8 == 0
    requires h.list[i] in mem && mem[h.list[i]].size >= need + MIN_BLOCK
    requires h.list[i] in h.blocks && h.blocks[h.list[i]].size == mem[h.list[i]].size && BlockOk(h, h.list[i])
    ensures var a := h.list[i];
            Represents(Take(h, i, need), MemSplit(mem, prev, a, need), if i == 0 then a + need else head)
  {
    var a := h.list[i];
    TakeKeeps(h, i, need);
    CutTiled(h, a, need, true, false);
    MemSplitBlocks(mem, prev, a, need);
    SplitLinked(mem, head, h.list, i, prev, need);
  }

  lemma GrowRepresents(h: Heap, mem: map<int, Header>, head: int, need: int)
    requires Represents(h, mem, head) && need >= MIN_BLOCK && need % 8 == 0
    requires h.brk + Chunk(need) <= ProgramBreak.HIGH
    ensures Represents(Grow(h, need), MemGrow(mem, h.brk, Chunk(need), need, head), h.brk + need)
  {
    GrowKeeps(h, need);
    MemGrowBlocks(mem, h.brk, Chunk(need), need, head);
    PushLinked(mem, MemGrow(mem, h.brk, Chunk(need), need, head), head, h.list, h.brk + need);
  }

  lemma FreeRepresents(h: Heap, mem: map<int, Header>, head: int, p: int)
    requires Represents(h, mem, head) && p != 0 && p - HEADER in mem && mem[p - HEADER].magic == USED
    ensures Represents(Free(h, p), mem[p - HEADER := Header(mem[p - HEADER].size, FREE, head)], p - HEADER)
  {
    var a := p - HEADER;
    assert a in h.blocks && BlockOk(h, a) && h.blocks[a].used;
    var mem2 := mem[a := Header(mem[a].size, FREE, head)];
    FreeKeeps(h, p);
    BlocksPut(mem, a, mem2[a]);
    PushLinked(mem, mem2, head, h.list, a);
  }

  lemma GiveRepresents(h: Heap, mem: map<int, Header>, head: int, p: int)
    requires Represents(h, mem, head) && p - HEADER in h.blocks
    ensures Represents(Given(h, p), mem, head)
  {
    GiveKeeps(h, p);
  }

  lemma ListAt(h: Heap, mem: map<int, Header>, head: int, i: nat)
    requires Represents(h, mem, head) && i < |h.list|
    ensures var a := h.list[i];
            && a in mem && a != 0 && a in h.blocks && mem[a].size == h.blocks[a].size
            && mem[a].magic == FREE && mem[a].next == if i + 1 < |h.list| then h.list[i + 1] else 0
  {
    LinkedAt(mem, head, h.list, i);
    assert !h.blocks[h.list[i]].used;
  }

  lemma ServeIs(h: Heap, need: int, avail: nat, i: nat)
    requires i == FirstFit(h, need, 0) && (i < |h.list| ==> h.list[i] in h.blocks)
    ensures i < |h.list| ==> Serve(h, need, avail) == (Given(Take(h, i, need), h.list[i] + HEADER), h.list[i] + HEADER)
    ensures i >= |h.list| ==>
      Serve(h, need, avail) == if ProgramBreak.Sbrk(h.brk, Chunk(need), avail).1 == -1 then (h, 0)
                               else (Given(Grow(h, need), h.brk + HEADER), h.brk + HEADER)
  {
  }

  class Library {
    var mem: map<int, Header>   // the block headers
    var freeList: int
    var brk: int                // the kernel's break
    ghost var heap: Heap

    ghost predicate Valid() reads this { Represents(heap, mem, freeList) && heap.brk == brk }

    constructor ()
      ensures Valid() && heap == Init()
    {
      mem, freeList, brk := map[], 0, ProgramBreak.LOW;
      heap := Init();
      new;
      InitOk();
      assert Blocks(mem) == map[];
    }

    // The search: the first block of the list that is large enough, and the
    // one before it; 0 for none.  Every block met is marked free, so the
    // loop's other branch is never taken.
    method Search(need: int) returns (prev: int, curr: int, ghost i: nat)
      requires Valid()
      ensures i == FirstFit(heap, need, 0) && i <= |heap.list|
      ensures curr == if i < |heap.list| then heap.list[i] else 0
      ensures prev == if 0 < i then heap.list[i - 1] else 0
      ensures curr != 0 <==> i < |heap.list|
      ensures curr != 0 ==> curr in mem && curr in heap.blocks && mem[curr].size >= need
    {
      prev, curr, i := 0, freeList, 0;
      while curr != 0
        invariant i <= |heap.list| && curr == (if i < |heap.list| then heap.list[i] else 0)
        invariant prev == if 0 < i then heap.list[i - 1] else 0
        invariant FirstFit(heap, need, 0) == FirstFit(heap, need, i)
        decreases |heap.list| - i
      {
        ListAt(heap, mem, freeList, i);
        assert mem[curr].magic == FREE;
        if mem[curr].size >= need { return; }
        prev := curr;
        curr := mem[curr].next;
        i := i + 1;
      }
      if i < |heap.list| { ListAt(heap, mem, freeList, i); }
    }

    method SetNext(prev: int, to: int)
      requires prev == 0 || prev in mem
      modifies this`mem, this`freeList
      ensures mem == Point(old(mem), prev, to)
      ensures freeList == if prev == 0 then to else old(freeList)
    {
      if prev != 0 { mem := mem[prev := mem[prev].(next := to)]; } else { freeList := to; }
    }

    // Cuts `need` bytes off the block at curr and links the rest in its place.
    method SplitBlock(prev: int, curr: int, need: int)
      requires curr in mem && need > 0 && (prev == 0 || prev in mem)
      modifies this`mem, this`freeList
      ensures mem == MemSplit(old(mem), prev, curr, need)
      ensures freeList == if prev == 0 then curr + need else old(freeList)
    {
      var rest := curr + need;
      mem := mem[rest := Header(mem[curr].size - need, FREE, mem[curr].next)];
      mem := mem[curr := mem[curr].(size := need)];
      SetNext(prev, rest);
      mem := mem[curr := mem[curr].(magic := USED)];
    }

    // Unlinks the whole block at curr.
    method DropBlock(prev: int, curr: int)
      requires curr in mem && (prev == 0 || prev in mem)
      modifies this`mem, this`freeList
      ensures mem == MemDrop(old(mem), prev, curr)
      ensures freeList == if prev == 0 then old(mem)[curr].next else old(freeList)
    {
      SetNext(prev, mem[curr].next);
      mem := mem[curr := mem[curr].(magic := USED)];
    }

    method TakeBlock(prev: int, curr: int, need: int, ghost i: nat)
      requires Valid() && Before(heap.list, i, prev) && curr == heap.list[i] && curr in mem && curr in heap.blocks
      requires need >= MIN_BLOCK && need % 8 == 0 && mem[curr].size >= need
      modifies this`mem, this`freeList, this`heap
      ensures heap == Given(Take(old(heap), i, need), curr + HEADER)
      ensures Valid()
    {
      ghost var r := Take(heap, i, need);
      TakeRepresents(heap, mem, freeList, i, prev, need);
      if i > 0 { ListAt(heap, mem, freeList, i - 1); }
      if mem[curr].size >= need + MIN_BLOCK { SplitBlock(prev, curr, need); } else { DropBlock(prev, curr); }
      GiveRepresents(r, mem, freeList, curr + HEADER);
      heap := Given(r, curr + HEADER);
    }

    method Malloc(size: int, avail: nat) returns (p: int)
      requires Valid()
      modifies this
      ensures heap == Alloc(old(heap), size, avail).0
      ensures p == Alloc(old(heap), size, avail).1
      ensures Valid()
    {
      if size <= 0 { return 0; }
      NeedFits(size);
      p := ServeBlock(Need(size), avail);
    }

    method ServeBlock(need: int, avail: nat) returns (p: int)
      requires Valid() && need >= MIN_BLOCK && need % 8 == 0
      modifies this
      ensures heap == Serve(old(heap), need, avail).0 && p == Serve(old(heap), need, avail).1
      ensures Valid()
    {
      var prev, curr, i := Search(need);
      ServeIs(heap, need, avail, i);
      if curr != 0 {
        TakeBlock(prev, curr, need, i);
        p := curr + HEADER;
      } else {
        p := Extend(need, avail);
      }
    }

    // The headers of a new chunk: it goes on the list and is split at once.
    method CutChunk(block: int, size: int, need: int)
      requires size >= need + MIN_BLOCK && need > 0
      modifies this`mem, this`freeList
      ensures mem == MemGrow(old(mem), block, size, need, old(freeList))
      ensures freeList == block + need
    {
      mem := mem[block := Header(size, FREE, freeList)];
      freeList := block;
      assert mem[freeList].size >= need + MIN_BLOCK;
      var rest := block + need;
      mem := mem[rest := Header(mem[block].size - need, FREE, mem[block].next)];
      mem := mem[block := mem[block].(size := need)];
      mem := mem[block := mem[block].(magic := USED)];
      freeList := rest;
      assert mem == MemGrow(old(mem), block, size, need, old(freeList));
    }

    // A new chunk, split at once.
    method Extend(need: int, avail: nat) returns (p: int)
      requires Valid() && need >= MIN_BLOCK && need % 8 == 0
      modifies this
      ensures var c := ProgramBreak.Sbrk(old(brk), Chunk(need), avail);
              && (c.1 == -1 ==> p == 0 && heap == old(heap))
              && (c.1 != -1 ==> p == old(brk) + HEADER && p != 0 && heap == Given(Grow(old(heap), need), p))
      ensures Valid()
    {
      var size := Chunk(need);
      ChunkSplits(need);
      ProgramBreak.BreakStays(brk, size, avail);
      var (b, block) := ProgramBreak.Sbrk(brk, size, avail);
      if block == -1 { return 0; }
      GrowRepresents(heap, mem, freeList, need);
      brk := b;
      CutChunk(block, size, need);
      GiveRepresents(Grow(heap, need), mem, freeList, block + HEADER);
      heap := Given(Grow(heap, need), block + HEADER);
      return block + HEADER;
    }

    method FreeBlock(p: int)
      requires Valid() && (p == 0 || p in heap.given)
      modifies this`mem, this`freeList, this`heap
      ensures heap == Free(old(heap), p)
      ensures Valid()
    {
      if p == 0 { return; }
      var a := p - HEADER;
      assert a in heap.blocks;
      if mem[a].magic != USED { return; }
      FreeRepresents(heap, mem, freeList, p);
      ghost var was, head := mem, freeList;
      mem := mem[a := mem[a].(magic := FREE)];
      mem := mem[a := mem[a].(next := freeList)];
      freeList := a;
      assert mem == was[a := Header(was[a].size, FREE, head)];
      heap := Free(heap, p);
    }
  }
}
