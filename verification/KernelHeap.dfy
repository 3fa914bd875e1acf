/**
 * The kernel heap (kernel/memory.c): first fit over an address-ordered list of blocks kept
 * in the heap itself, with splitting on allocation and full coalescing on free.
 */
module KernelHeap {
  const HEADER: nat := 24  // sizeof(block_t)

  // A block of the heap: header address, payload size, and whether it is free.
  datatype Block = Block(addr: nat, size: nat, free: bool) {
    function End(): nat { addr + HEADER + size }
  }

  // ---------------------------------------------------------------- the shape of the heap

  // The blocks cover [base, end) exactly, in order and without gap or overlap.
  ghost predicate Tiles(bs: seq<Block>, base: nat, end: nat) {
    && |bs| > 0 && bs[0].addr == base && bs[|bs| - 1].End() == end
    && forall i :: 0 <= i < |bs| - 1 ==> bs[i].End() == bs[i + 1].addr
  }

  ghost predicate Coalesced(bs: seq<Block>) {
    forall i :: 0 <= i < |bs| - 1 ==> !(bs[i].free && bs[i + 1].free)
  }

  ghost function Live(bs: seq<Block>): set<Block> {
    set b | b in bs && !b.free
  }

  lemma LiveConcat(a: seq<Block>, b: seq<Block>)
    ensures Live(a + b) == Live(a) + Live(b)
  {
  }

  lemma {:induction false} Ordered(bs: seq<Block>, base: nat, end: nat, i: nat, j: nat)
    requires Tiles(bs, base, end) && i < j < |bs|
    ensures bs[i].End() <= bs[j].addr
    decreases j - i
  {
    if i + 1 < j {
      Ordered(bs, base, end, i, j - 1);
    }
  }

  // ---------------------------------------------------------------- what the operations do to the list

  // The first free block that can hold n bytes, or the length of the list.
  function FirstFit(bs: seq<Block>, n: nat): (k: nat)
    ensures k <= |bs|
    ensures k < |bs| ==> bs[k].free && bs[k].size >= n
    ensures forall i :: 0 <= i < k ==> !(bs[i].free && bs[i].size >= n)
  {
    if bs == [] then 0
    else if bs[0].free && bs[0].size >= n then 0
    else 1 + FirstFit(bs[1..], n)
  }

  // Block k handed out for n bytes, split when more than a header and eight bytes remain.
  function Taken(bs: seq<Block>, k: nat, n: nat): seq<Block>
    requires k < |bs| && bs[k].size >= n
  {
    var b := bs[k];
    if b.size > n + HEADER + 8
    then bs[..k] + [Block(b.addr, n, false), Block(b.addr + HEADER + n, b.size - n - HEADER, true)] + bs[k + 1..]
    else bs[k := b.(free := false)]
  }

  function Coalesce(bs: seq<Block>): seq<Block>
    decreases |bs|
  {
    if |bs| < 2 then bs
    else if bs[0].free && bs[1].free
    then Coalesce([Block(bs[0].addr, bs[0].size + HEADER + bs[1].size, true)] + bs[2..])
    else [bs[0]] + Coalesce(bs[1..])
  }

  function Released(bs: seq<Block>, k: nat): seq<Block>
    requires k < |bs|
  {
    Coalesce(bs[k := bs[k].(free := true)])
  }

  // ---------------------------------------------------------------- allocation

  lemma TakenTiles(bs: seq<Block>, base: nat, end: nat, k: nat, n: nat)
    requires Tiles(bs, base, end) && Coalesced(bs) && k < |bs| && bs[k].free && bs[k].size >= n
    ensures Tiles(Taken(bs, k, n), base, end) && Coalesced(Taken(bs, k, n))
  {
    var t, b := Taken(bs, k, n), bs[k];
    if b.size > n + HEADER + 8 {
      assert forall i :: 0 <= i < k ==> t[i] == bs[i];
      assert forall i :: k + 2 <= i < |t| ==> t[i] == bs[i - 1];
    }
  }

  // Allocation adds exactly the block handed out; no other live block is touched.
  lemma TakenLive(bs: seq<Block>, base: nat, end: nat, k: nat, n: nat)
    requires Tiles(bs, base, end) && k < |bs| && bs[k].free && bs[k].size >= n
    ensures var t := Taken(bs, k, n);
      && k < |t| && t[k] == Block(bs[k].addr, if bs[k].size > n + HEADER + 8 then n else bs[k].size, false)
      && Live(t) == Live(bs) + {t[k]} && t[k] !in Live(bs)
  {
    var t, b := Taken(bs, k, n), bs[k];
    var l, r := bs[..k], bs[k + 1..];
    assert bs == l + [b] + r;
    LiveConcat(l + [b], r);
    LiveConcat(l, [b]);
    if b.size > n + HEADER + 8 {
      var mid := [t[k], t[k + 1]];
      assert t == l + mid + r;
      LiveConcat(l + mid, r);
      LiveConcat(l, mid);
    } else {
      assert t == l + [t[k]] + r;
      LiveConcat(l + [t[k]], r);
      LiveConcat(l, [t[k]]);
    }
    forall c | c in Live(bs) ensures c != t[k] {
      var i :| 0 <= i < |bs| && bs[i] == c;
      if i < k { Ordered(bs, base, end, i, k); } else { Ordered(bs, base, end, k, i); }
    }
  }

  // ---------------------------------------------------------------- coalescing

  lemma {:induction false} CoalesceShape(bs: seq<Block>, base: nat, end: nat)
    requires Tiles(bs, base, end)
    ensures Tiles(Coalesce(bs), base, end) && Coalesced(Coalesce(bs)) && Live(Coalesce(bs)) == Live(bs)
    ensures Coalesce(bs)[0].free == bs[0].free
    decreases |bs|
  {
    if |bs| >= 2 {
      if bs[0].free && bs[1].free {
        var c := [Block(bs[0].addr, bs[0].size + HEADER + bs[1].size, true)] + bs[2..];
        PairMerged(bs, base, end, c);
        CoalesceShape(c, base, end);
      } else {
        CoalesceShape(bs[1..], bs[1].addr, end);
        FirstStays(bs, base, end, Coalesce(bs[1..]));
      }
    }
  }

  lemma PairMerged(bs: seq<Block>, base: nat, end: nat, c: seq<Block>)
    requires Tiles(bs, base, end) && |bs| >= 2 && bs[0].free && bs[1].free
    requires c == [Block(bs[0].addr, bs[0].size + HEADER + bs[1].size, true)] + bs[2..]
    ensures Tiles(c, base, end) && Live(c) == Live(bs)
  {
    assert forall i :: 1 <= i < |c| ==> c[i] == bs[i + 1];
    assert bs == bs[..2] + bs[2..];
    LiveConcat(bs[..2], bs[2..]);
    LiveConcat(c[..1], bs[2..]);
    assert c[..1] + bs[2..] == c;
  }

  lemma FirstStays(bs: seq<Block>, base: nat, end: nat, c: seq<Block>)
    requires Tiles(bs, base, end) && |bs| >= 2 && !(bs[0].free && bs[1].free)
    requires Tiles(c, bs[1].addr, end) && Coalesced(c) && Live(c) == Live(bs[1..]) && c[0].free == bs[1].free
    ensures var t := [bs[0]] + c; Tiles(t, base, end) && Coalesced(t) && Live(t) == Live(bs)
  {
    var t := [bs[0]] + c;
    assert bs == [bs[0]] + bs[1..];
    assert forall i :: 1 <= i < |t| ==> t[i] == c[i - 1];
    LiveConcat([bs[0]], c);
    LiveConcat([bs[0]], bs[1..]);
  }

  // Freeing takes exactly that block out of the live ones.
  lemma ReleasedShape(bs: seq<Block>, base: nat, end: nat, k: nat)
    requires Tiles(bs, base, end) && k < |bs| && !bs[k].free
    ensures Tiles(Released(bs, k), base, end) && Coalesced(Released(bs, k))
    ensures Live(Released(bs, k)) == Live(bs) - {bs[k]}
  {
    var c := bs[k := bs[k].(free := true)];
    assert forall i :: 0 <= i < |bs| && i != k ==> c[i] == bs[i];
    CoalesceShape(c, base, end);
    forall b | b in Live(bs) - {bs[k]} ensures b in Live(c) {
      var i :| 0 <= i < |bs| && bs[i] == b;
      assert c[i] == b;
    }
    forall b | b in Live(c) ensures b in Live(bs) && b != bs[k] {
      var i :| 0 <= i < |c| && c[i] == b;
      if i < k { Ordered(bs, base, end, i, k); } else if i > k { Ordered(bs, base, end, k, i); }
    }
  }

  // ---------------------------------------------------------------- the live blocks determine the heap

  lemma Tail(bs: seq<Block>, base: nat, end: nat)
    requires Tiles(bs, base, end) && |bs| > 1
    ensures Tiles(bs[1..], bs[1].addr, end) && Live(bs[1..]) == Live(bs) - {bs[0]}
    ensures Coalesced(bs) ==> Coalesced(bs[1..])
  {
    var c := bs[1..];
    assert bs == [bs[0]] + c;
    forall b | b in c ensures b != bs[0] {
      var i :| 0 <= i < |c| && c[i] == b;
      Ordered(bs, base, end, 0, i + 1);
    }
  }

  // A live block at the start of one heap is the first block of the other.
  lemma FirstLive(bs: seq<Block>, cs: seq<Block>, base: nat, end: nat)
    requires Tiles(bs, base, end) && Tiles(cs, base, end) && Live(bs) == Live(cs) && !bs[0].free
    ensures cs[0] == bs[0]
  {
    assert bs[0] in Live(cs);
    var i :| 0 <= i < |cs| && cs[i] == bs[0];
    if i > 0 { Ordered(cs, base, end, 0, i); }
  }

  lemma FirstGap(bs: seq<Block>, cs: seq<Block>, base: nat, end: nat)
    requires Tiles(bs, base, end) && Tiles(cs, base, end) && Live(bs) == Live(cs) && Coalesced(bs)
    requires bs[0].free && cs[0].free
    ensures bs[0].size >= cs[0].size
  {
    if |bs| > 1 {
      assert bs[1] in Live(cs);
      var i :| 0 <= i < |cs| && cs[i] == bs[1];
      Ordered(cs, base, end, 0, i);
    } else if |cs| > 1 {
      Ordered(cs, base, end, 0, |cs| - 1);
    }
  }

  // Two heaps over the same memory, both coalesced, with the same live blocks, are equal:
  // nothing of the order of past calls remains in the free space.
  lemma {:induction false} Canonical(bs: seq<Block>, cs: seq<Block>, base: nat, end: nat)
    requires Tiles(bs, base, end) && Tiles(cs, base, end) && Coalesced(bs) && Coalesced(cs) && Live(bs) == Live(cs)
    ensures bs == cs
    decreases |bs|
  {
    if bs[0].free && cs[0].free {
      FirstGap(bs, cs, base, end);
      FirstGap(cs, bs, base, end);
    } else if !bs[0].free {
      FirstLive(bs, cs, base, end);
    } else {
      FirstLive(cs, bs, base, end);
    }
    if |bs| == 1 {
      if |cs| > 1 { Ordered(cs, base, end, 0, |cs| - 1); }
    } else if |cs| == 1 {
      Ordered(bs, base, end, 0, |bs| - 1);
    } else {
      Tail(bs, base, end);
      Tail(cs, base, end);
      Canonical(bs[1..], cs[1..], bs[1].addr, end);
      assert bs == [bs[0]] + bs[1..] && cs == [cs[0]] + cs[1..];
    }
  }

  // ---------------------------------------------------------------- whole runs

  datatype Op = Alloc(n: nat) | Free(addr: nat)

  // The address returned by an allocation from list bs, 0 for NULL.
  function Answer(bs: seq<Block>, n: nat): nat {
    var k := FirstFit(bs, n);
    if k < |bs| then bs[k].addr + HEADER else 0
  }

  // A free is valid when it names the payload of a live block.
  ghost predicate Valid(bs: seq<Block>, op: Op) {
    op.Free? ==> exists k :: 0 <= k < |bs| && !bs[k].free && bs[k].addr + HEADER == op.addr
  }

  ghost function Step(bs: seq<Block>, op: Op): seq<Block>
    requires Valid(bs, op)
  {
    match op
    case Alloc(n) => var k := FirstFit(bs, n); if k < |bs| then Taken(bs, k, n) else bs
    case Free(a) => var k :| 0 <= k < |bs| && !bs[k].free && bs[k].addr + HEADER == a; Released(bs, k)
  }

  // The request for n bytes was served at p by block k, the first free one that is large
  // enough: the live blocks gain one at its address. It has n bytes when more than a header
  // and eight bytes would remain, and else all that block k had.
  ghost predicate ServedBy(was: seq<Block>, now: seq<Block>, n: nat, p: nat, k: nat) {
    && k < |was| && was[k].free && was[k].size >= n
    && (forall i :: 0 <= i < k ==> !(was[i].free && was[i].size >= n))
    && p == was[k].addr + HEADER
    && var b := Block(was[k].addr, if was[k].size > n + HEADER + 8 then n else was[k].size, false);
       b !in Live(was) && Live(now) == Live(was) + {b} && n <= b.size <= n + HEADER + 8
  }

  // A request is refused, with nothing changed, exactly when no free block is large enough.
  lemma AllocServes(bs: seq<Block>, base: nat, end: nat, n: nat)
    requires Tiles(bs, base, end) && Coalesced(bs)
    ensures var t, p := Step(bs, Op.Alloc(n)), Answer(bs, n);
      && Tiles(t, base, end) && Coalesced(t)
      && (if exists i :: 0 <= i < |bs| && bs[i].free && bs[i].size >= n
          then exists k :: ServedBy(bs, t, n, p, k) else t == bs && p == 0)
  {
    StepShape(bs, base, end, Op.Alloc(n));
    var k := FirstFit(bs, n);
    if k < |bs| {
      TakenLive(bs, base, end, k, n);
      assert ServedBy(bs, Step(bs, Op.Alloc(n)), n, Answer(bs, n), k);
    }
  }

  // On an empty heap with room for both, two requests are served one behind the other.
  lemma FirstTwo(base: nat, size: nat, n: nat, m: nat)
    requires base > 0 && size > 2 * HEADER + n + m + 8
    ensures var one := Step(Initial(base, size), Op.Alloc(n));
      && Answer(Initial(base, size), n) == base + HEADER
      && Answer(one, m) == base + HEADER + n + HEADER
      && Live(Step(one, Op.Alloc(m))) >= {Block(base, n, false)}
  {
    var bs := Initial(base, size);
    var one := Step(bs, Op.Alloc(n));
    FitUnique(bs, n, 0);
    assert one == [Block(base, n, false), Block(base + HEADER + n, size - HEADER - n - HEADER, true)];
    FitUnique(one, m, 1);
    StepShape(one, base, base + size, Op.Alloc(m));
  }

  ghost predicate Run(states: seq<seq<Block>>, ops: seq<Op>) {
    && |states| == |ops| + 1
    && forall i :: 0 <= i < |ops| ==> Valid(states[i], ops[i]) && states[i + 1] == Step(states[i], ops[i])
  }

  function Initial(base: nat, size: nat): seq<Block>
    requires size >= HEADER
  {
    [Block(base, size - HEADER, true)]
  }

  lemma StepShape(bs: seq<Block>, base: nat, end: nat, op: Op)
    requires Tiles(bs, base, end) && Coalesced(bs) && Valid(bs, op)
    ensures Tiles(Step(bs, op), base, end) && Coalesced(Step(bs, op))
    ensures forall b :: b in Live(bs) && !(op.Free? && b.addr + HEADER == op.addr) ==> b in Live(Step(bs, op))
    ensures op.Free? ==> forall b :: b in Live(Step(bs, op)) ==> b in Live(bs) && b.addr + HEADER != op.addr
  {
    match op
    case Alloc(n) =>
      var k := FirstFit(bs, n);
      if k < |bs| {
        TakenTiles(bs, base, end, k, n);
        TakenLive(bs, base, end, k, n);
      }
    case Free(a) =>
      var k :| 0 <= k < |bs| && !bs[k].free && bs[k].addr + HEADER == a && Step(bs, op) == Released(bs, k);
      ReleasedShape(bs, base, end, k);
      forall b | b in Live(bs) && b != bs[k] ensures b.addr != bs[k].addr {
        var i :| 0 <= i < |bs| && bs[i] == b;
        if i < k { Ordered(bs, base, end, i, k); } else { Ordered(bs, base, end, k, i); }
      }
  }

  lemma {:induction false} RunShape(states: seq<seq<Block>>, ops: seq<Op>, base: nat, size: nat, i: nat)
    requires size >= HEADER && Run(states, ops) && states[0] == Initial(base, size) && i <= |ops|
    ensures Tiles(states[i], base, base + size) && Coalesced(states[i])
  {
    if i > 0 {
      RunShape(states, ops, base, size, i - 1);
      StepShape(states[i - 1], base, base + size, ops[i - 1]);
    }
  }

  // A live block stays where it is, at its size, until it is freed.
  lemma {:induction false} LiveStays(states: seq<seq<Block>>, ops: seq<Op>, base: nat, size: nat, i: nat, j: nat,
                                     b: Block)
    requires size >= HEADER && Run(states, ops) && states[0] == Initial(base, size) && i <= j <= |ops|
    requires b in Live(states[i]) && forall x :: i <= x < j ==> !(ops[x].Free? && ops[x].addr == b.addr + HEADER)
    ensures b in Live(states[j])
    decreases j
  {
    if i < j {
      LiveStays(states, ops, base, size, i, j - 1, b);
      RunShape(states, ops, base, size, j - 1);
      StepShape(states[j - 1], base, base + size, ops[j - 1]);
    }
  }

  // Whatever the run, once nothing is live the heap is the single initial block again.
  lemma AllFreed(states: seq<seq<Block>>, ops: seq<Op>, base: nat, size: nat, i: nat)
    requires size >= HEADER && Run(states, ops) && states[0] == Initial(base, size) && i <= |ops|
    requires Live(states[i]) == {}
    ensures states[i] == Initial(base, size)
  {
    RunShape(states, ops, base, size, i);
    Canonical(states[i], Initial(base, size), base, base + size);
  }

  // Two runs that leave the same blocks live leave the same heap, and so answer every
  // later request alike.
  lemma HistoryForgotten(s: seq<seq<Block>>, p: seq<Op>, t: seq<seq<Block>>, q: seq<Op>, base: nat, size: nat, n: nat)
    requires size >= HEADER && Run(s, p) && Run(t, q) && s[0] == Initial(base, size) && t[0] == Initial(base, size)
    requires Live(s[|p|]) == Live(t[|q|])
    ensures s[|p|] == t[|q|] && Answer(s[|p|], n) == Answer(t[|q|], n)
  {
    RunShape(s, p, base, size, |p|);
    RunShape(t, q, base, size, |q|);
    Canonical(s[|p|], t[|q|], base, base + size);
  }

  // Freeing what was just allocated restores the heap exactly.
  lemma FreeUndoesAlloc(bs: seq<Block>, base: nat, end: nat, n: nat)
    requires Tiles(bs, base, end) && Coalesced(bs) && FirstFit(bs, n) < |bs|
    ensures var k := FirstFit(bs, n); k < |Taken(bs, k, n)| && Released(Taken(bs, k, n), k) == bs
  {
    var k := FirstFit(bs, n);
    TakenTiles(bs, base, end, k, n);
    TakenLive(bs, base, end, k, n);
    ReleasedShape(Taken(bs, k, n), base, end, k);
    Canonical(Released(Taken(bs, k, n), k), bs, base, end);
  }

  // ---------------------------------------------------------------- the list in memory

  datatype Header = Header(size: nat, free: bool, next: nat)

  // The header of block i, as the code keeps it.
  function HeaderOf(bs: seq<Block>, i: nat): Header
    requires i < |bs|
  {
    Header(bs[i].size, bs[i].free, if i + 1 < |bs| then bs[i + 1].addr else 0)
  }

  // Memory holds the headers of the list bs; stale headers may lie elsewhere.
  ghost predicate Linked(hdr: map<nat, Header>, bs: seq<Block>) {
    forall i {:trigger LinkedAt(hdr, bs, i)} :: 0 <= i < |bs| ==> LinkedAt(hdr, bs, i)
  }

  ghost predicate LinkedAt(hdr: map<nat, Header>, bs: seq<Block>, i: nat)
    requires i < |bs|
  {
    bs[i].addr in hdr && hdr[bs[i].addr] == HeaderOf(bs, i)
  }

  lemma AddrsDiffer(bs: seq<Block>, base: nat, end: nat, k: nat)
    requires Tiles(bs, base, end) && k < |bs|
    ensures forall i :: 0 <= i < |bs| && i != k ==> bs[i].addr < bs[k].addr || bs[i].addr >= bs[k].End()
    ensures base <= bs[k].addr
  {
    forall i | 0 <= i < |bs| && i != k ensures bs[i].addr < bs[k].addr || bs[i].addr >= bs[k].End() {
      if i < k { Ordered(bs, base, end, i, k); } else { Ordered(bs, base, end, k, i); }
    }
    if k > 0 { Ordered(bs, base, end, 0, k); }
  }

  // Lines 28-36: the three header writes of a split, or the one of a plain hand-out.
  function TakenHeaders(hdr: map<nat, Header>, a: nat, n: nat): map<nat, Header>
    requires a in hdr && hdr[a].size >= n
  {
    var h := hdr[a];
    var split := if h.size > n + HEADER + 8
                 then hdr[a + HEADER + n := Header(h.size - n - HEADER, true, h.next)]
                         [a := Header(n, true, a + HEADER + n)]
                 else hdr;
    split[a := split[a].(free := false)]
  }

  lemma TakenLinked(hdr: map<nat, Header>, bs: seq<Block>, base: nat, end: nat, k: nat, n: nat)
    requires Linked(hdr, bs) && Tiles(bs, base, end) && k < |bs| && bs[k].free && bs[k].size >= n
    ensures LinkedAt(hdr, bs, k) && Linked(TakenHeaders(hdr, bs[k].addr, n), Taken(bs, k, n))
  {
    assert LinkedAt(hdr, bs, k);
    var t, b, now := Taken(bs, k, n), bs[k], TakenHeaders(hdr, bs[k].addr, n);
    AddrsDiffer(bs, base, end, k);
    var d := if b.size > n + HEADER + 8 then 1 else 0;
    forall i | 0 <= i < |t| ensures LinkedAt(now, t, i) {
      if i < k {
        assert LinkedAt(hdr, bs, i) && t[i] == bs[i] && t[i + 1].addr == bs[i + 1].addr;
      } else if i > k + d {
        assert LinkedAt(hdr, bs, i - d) && t[i] == bs[i - d];
        assert i + 1 < |t| ==> t[i + 1] == bs[i + 1 - d];
      } else if d == 1 {
        assert i == k + 1 && i + 1 < |t| ==> t[i + 1] == bs[k + 1];
      }
    }
  }

  lemma FreedLinked(hdr: map<nat, Header>, bs: seq<Block>, base: nat, end: nat, k: nat)
    requires Linked(hdr, bs) && Tiles(bs, base, end) && k < |bs|
    ensures LinkedAt(hdr, bs, k)
    ensures var now := bs[k := bs[k].(free := true)];
      Tiles(now, base, end) && Linked(hdr[bs[k].addr := hdr[bs[k].addr].(free := true)], now)
  {
    assert LinkedAt(hdr, bs, k);
    AddrsDiffer(bs, base, end, k);
    var now, h := bs[k := bs[k].(free := true)], hdr[bs[k].addr := hdr[bs[k].addr].(free := true)];
    forall i | 0 <= i < |now| ensures LinkedAt(h, now, i) {
      assert LinkedAt(hdr, bs, i);
      assert i + 1 < |bs| ==> now[i + 1].addr == bs[i + 1].addr;
    }
  }

  // Block i swallows its free successor.
  function Merged(bs: seq<Block>, i: nat): seq<Block>
    requires i + 1 < |bs|
  {
    bs[..i] + [Block(bs[i].addr, bs[i].size + HEADER + bs[i + 1].size, bs[i].free)] + bs[i + 2..]
  }

  lemma MergedTiles(bs: seq<Block>, base: nat, end: nat, i: nat)
    requires Tiles(bs, base, end) && i + 1 < |bs|
    ensures Tiles(Merged(bs, i), base, end)
    ensures forall j :: 0 <= j < i ==> Merged(bs, i)[j] == bs[j]
    ensures forall j :: i + 1 <= j < |Merged(bs, i)| ==> Merged(bs, i)[j] == bs[j + 1]
  {
  }

  lemma MergedLinked(hdr: map<nat, Header>, bs: seq<Block>, base: nat, end: nat, i: nat)
    requires Linked(hdr, bs) && Tiles(bs, base, end) && i + 1 < |bs|
    ensures Tiles(Merged(bs, i), base, end)
    ensures var h, g := HeaderOf(bs, i), HeaderOf(bs, i + 1);
      Linked(hdr[bs[i].addr := Header(h.size + HEADER + g.size, h.free, g.next)], Merged(bs, i))
  {
    var t := Merged(bs, i);
    AddrsDiffer(bs, base, end, i);
    MergedTiles(bs, base, end, i);
    var h, g := HeaderOf(bs, i), HeaderOf(bs, i + 1);
    var now := hdr[bs[i].addr := Header(h.size + HEADER + g.size, h.free, g.next)];
    forall j | 0 <= j < |t| ensures LinkedAt(now, t, j) {
      if j < i {
        assert LinkedAt(hdr, bs, j) && t[j + 1].addr == bs[j + 1].addr;
      } else if j > i {
        assert LinkedAt(hdr, bs, j + 1);
      }
    }
  }

  // The merge loop at position i: what lies before it is final.
  function MergeFrom(bs: seq<Block>, i: nat): seq<Block>
    requires i <= |bs|
  {
    bs[..i] + Coalesce(bs[i..])
  }

  lemma MergeJoin(bs: seq<Block>, i: nat)
    requires i + 1 < |bs| && bs[i].free && bs[i + 1].free
    ensures i < |Merged(bs, i)| && MergeFrom(Merged(bs, i), i) == MergeFrom(bs, i)
  {
    assert Merged(bs, i)[..i] == bs[..i];
    assert Merged(bs, i)[i..] == [Block(bs[i].addr, bs[i].size + HEADER + bs[i + 1].size, true)] + bs[i..][2..];
  }

  lemma MergePass(bs: seq<Block>, i: nat)
    requires i + 1 < |bs| && !(bs[i].free && bs[i + 1].free)
    ensures MergeFrom(bs, i + 1) == MergeFrom(bs, i)
  {
    assert bs[i..][1..] == bs[i + 1..];
    assert bs[..i + 1] == bs[..i] + [bs[i]];
  }

  lemma MergeEnds(bs: seq<Block>)
    requires |bs| > 0
    ensures MergeFrom(bs, 0) == Coalesce(bs) && MergeFrom(bs, |bs| - 1) == bs
  {
    assert bs[..0] == [] && bs[0..] == bs;
  }

  // ---------------------------------------------------------------- the code

  class Heap {
    const start: nat
    ghost const end: nat
    var hdr: map<nat, Header>     // headers in memory
    ghost var blocks: seq<Block>  // the list they form

    ghost predicate Inv()
      reads this
    {
      start > 0 && Tiles(blocks, start, end) && Coalesced(blocks) && Linked(hdr, blocks)
    }

    // memory_init
    constructor (base: nat, size: nat)
      requires base > 0 && size >= HEADER
      ensures Inv() && start == base && end == base + size && blocks == Initial(base, size)
    {
      start := base;
      end := base + size;
      hdr := map[base := Header(size - HEADER, true, 0)];
      blocks := Initial(base, size);
    }

    // memory_alloc: first fit, split where enough remains; NULL only when no free block is
    // large enough.
    method Alloc(n: nat) returns (p: nat)
      requires Inv()
      modifies `hdr, `blocks
      ensures Inv() && p == Answer(old(blocks), n)
      ensures blocks == Step(old(blocks), Op.Alloc(n))
      ensures p != 0 ==> exists k :: ServedBy(old(blocks), blocks, n, p, k)
      ensures p == 0 ==> blocks == old(blocks)
      ensures p == 0 <==> forall i :: 0 <= i < |old(blocks)| ==> !(old(blocks)[i].free && old(blocks)[i].size >= n)
    {
      var curr := start;
      ghost var i := 0;
      while curr != 0
        invariant i <= |blocks| && Inv() && blocks == old(blocks) && hdr == old(hdr)
        invariant curr == if i < |blocks| then blocks[i].addr else 0
        invariant i < |blocks| ==> curr > 0
        invariant forall j :: 0 <= j < i ==> !(blocks[j].free && blocks[j].size >= n)
        decreases |blocks| - i
      {
        assert LinkedAt(hdr, blocks, i);
        if hdr[curr].free && hdr[curr].size >= n {
          FitUnique(blocks, n, i);
          AllocServes(blocks, start, end, n);
          Take(curr, n, i);
          return curr + HEADER;
        }
        if i + 1 < |blocks| { AddrsDiffer(blocks, start, end, i + 1); }
        curr := hdr[curr].next;
        i := i + 1;
      }
      FitUnique(blocks, n, |blocks|);
      p := 0;
    }

    // Lines 28-36: hand out the block at curr.
    method Take(curr: nat, n: nat, ghost i: nat)
      requires Inv() && i < |blocks| && blocks[i].addr == curr && blocks[i].free && blocks[i].size >= n
      modifies `hdr, `blocks
      ensures Inv() && blocks == Taken(old(blocks), i, n)
    {
      TakenTiles(blocks, start, end, i, n);
      TakenLinked(hdr, blocks, start, end, i, n);
      blocks := Taken(blocks, i, n);
      if hdr[curr].size > n + HEADER + 8 {
        var rest := curr + HEADER + n;
        hdr := hdr[rest := Header(hdr[curr].size - n - HEADER, true, hdr[curr].next)];
        hdr := hdr[curr := Header(n, true, rest)];
      }
      hdr := hdr[curr := hdr[curr].(free := false)];
    }

    // memory_free of NULL or of a live payload, then heap_merge.
    method Free(p: nat)
      requires Inv()
      requires p != 0 ==> exists k :: 0 <= k < |blocks| && !blocks[k].free && blocks[k].addr + HEADER == p
      modifies `hdr, `blocks
      ensures Inv()
      ensures p == 0 ==> blocks == old(blocks) && hdr == old(hdr)
      ensures p != 0 ==> Valid(old(blocks), Op.Free(p)) && blocks == Step(old(blocks), Op.Free(p))
      ensures p != 0 ==>
        exists b :: b in Live(old(blocks)) && b.addr + HEADER == p && Live(blocks) == Live(old(blocks)) - {b}
    {
      if p == 0 {
        return;
      }
      ghost var k :| 0 <= k < |blocks| && !blocks[k].free && blocks[k].addr + HEADER == p
          && Step(blocks, Op.Free(p)) == Released(blocks, k);
      ReleasedShape(blocks, start, end, k);
      FreedLinked(hdr, blocks, start, end, k);
      var block := p - HEADER;
      hdr := hdr[block := hdr[block].(free := true)];
      blocks := blocks[k := blocks[k].(free := true)];
      Merge();
    }

    // Lines 48-49: the block at curr swallows its successor.
    method Join(curr: nat, next: nat, ghost i: nat)
      requires Tiles(blocks, start, end) && Linked(hdr, blocks) && i + 1 < |blocks|
      requires LinkedAt(hdr, blocks, i) && LinkedAt(hdr, blocks, i + 1) && blocks[i].addr == curr
               && blocks[i + 1].addr == next
      modifies `hdr, `blocks
      ensures Tiles(blocks, start, end) && Linked(hdr, blocks) && blocks == Merged(old(blocks), i)
    {
      MergedLinked(hdr, blocks, start, end, i);
      AddrsDiffer(blocks, start, end, i);
      ghost var h, g, was := hdr[curr], hdr[next], hdr;
      hdr := hdr[curr := hdr[curr].(size := hdr[curr].size + HEADER + hdr[next].size)];
      hdr := hdr[curr := hdr[curr].(next := hdr[next].next)];
      assert hdr == was[curr := Header(h.size + HEADER + g.size, h.free, g.next)];
      blocks := Merged(blocks, i);
    }

    // heap_merge
    method Merge()
      requires start > 0 && Tiles(blocks, start, end) && Linked(hdr, blocks)
      modifies `hdr, `blocks
      ensures Tiles(blocks, start, end) && Linked(hdr, blocks) && blocks == Coalesce(old(blocks))
    {
      var curr := start;
      ghost var i := 0;
      ghost var goal := Coalesce(blocks);
      MergeEnds(blocks);
      assert LinkedAt(hdr, blocks, 0);
      while curr != 0 && hdr[curr].next != 0
        invariant i < |blocks| && LinkedAt(hdr, blocks, i) && curr == blocks[i].addr && curr > 0
        invariant Tiles(blocks, start, end) && Linked(hdr, blocks) && goal == MergeFrom(blocks, i)
        decreases 2 * |blocks| - i
      {
        var next := hdr[curr].next;
        assert LinkedAt(hdr, blocks, i + 1);
        if hdr[curr].free && hdr[next].free {
          MergeJoin(blocks, i);
          Join(curr, next, i);
          assert LinkedAt(hdr, blocks, i);
        } else {
          MergePass(blocks, i);
          AddrsDiffer(blocks, start, end, i + 1);
          curr := next;
          i := i + 1;
        }
      }
      MergeEnds(blocks);
    }
  }

  lemma FitUnique(bs: seq<Block>, n: nat, i: nat)
    requires i <= |bs| && (i < |bs| ==> bs[i].free && bs[i].size >= n)
    requires forall j :: 0 <= j < i ==> !(bs[j].free && bs[j].size >= n)
    ensures FirstFit(bs, n) == i
  {
  }
}
