/**
 * Descriptor tables and the reference counts of pipe ends.
 *
 * Sixteen tasks own eight descriptor slots each; a slot is empty or names one
 * end of one of the 32 pipes.  Each pipe counts the slots that name its two
 * ends, closes an end when its count falls to zero and becomes reusable when
 * both ends are closed.
 *
 * A pipe record also carries `life`, the number of times it has been created,
 * and every descriptor remembers the life it was made in.  No operation looks
 * at these numbers: they let the theorems say that a record is never reused
 * under a task that still holds a descriptor to it.  `lost` likewise records
 * the references that failed forks took and never gave back.
 */
module Descriptors {
  import Scheduler

  const MAX_TASKS: nat := Scheduler.MAX_TASKS
  const MAX_FDS: nat := 8
  const MAX_PIPES: nat := 32

  datatype Slot = Empty | End(pipe: nat, write: bool, life: nat)

  datatype Ends = Ends(used: bool, readOpen: bool, writeOpen: bool, readRefs: nat, writeRefs: nat, life: nat)
  {
    function Open(write: bool): bool { if write then writeOpen else readOpen }
    function Refs(write: bool): nat { if write then writeRefs else readRefs }
  }

  datatype Sys = Sys(fds: seq<seq<Slot>>, live: nat, pipes: seq<Ends>, lost: multiset<Slot>)

  const NoPipe := Ends(false, false, false, 0, 0, 0)

  // One task, the kernel's own, with an empty table, and a cleared pool.
  function Init(): (s: Sys)
    ensures Inv(s)
  {
    var s := Sys(seq(MAX_TASKS, _ => Blank()), 1, seq(MAX_PIPES, _ => NoPipe), multiset{});
    InitInv(s);
    s
  }

  function Blank(): seq<Slot> { seq(MAX_FDS, _ => Empty) }

  // ---------------------------------------------------------------- pipe ends

  function CloseEnd(e: Ends, write: bool): Ends {
    var refs := if e.Refs(write) > 0 then e.Refs(write) - 1 else 0;
    var open := e.Open(write) && refs > 0;
    var f := if write then e.(writeRefs := refs, writeOpen := open) else e.(readRefs := refs, readOpen := open);
    if f.readOpen || f.writeOpen then f else f.(used := false)
  }

  function IncEnd(e: Ends, write: bool): Ends {
    if write then e.(writeRefs := e.writeRefs + 1) else e.(readRefs := e.readRefs + 1)
  }

  function FirstUnused(pipes: seq<Ends>, i: nat): nat
    decreases |pipes| - i
  {
    if i >= |pipes| || !pipes[i].used then i else FirstUnused(pipes, i + 1)
  }

  function FirstFree(table: seq<Slot>, i: nat): nat
    decreases |table| - i
  {
    if i >= |table| || table[i].Empty? then i else FirstFree(table, i + 1)
  }

  // ---------------------------------------------------------------- system calls

  predicate Shape(s: Sys) {
    && |s.fds| == MAX_TASKS
    && |s.pipes| == MAX_PIPES
    && 1 <= s.live <= MAX_TASKS
    && forall t :: 0 <= t < MAX_TASKS ==> |s.fds[t]| == MAX_FDS
  }

  function Put(s: Sys, t: nat, i: nat, x: Slot): Sys
    requires t < |s.fds| && i < |s.fds[t]|
  {
    s.(fds := s.fds[t := s.fds[t][i := x]])
  }

  function Drop(s: Sys, x: Slot): Sys {
    if x.Empty? || x.pipe >= |s.pipes| then s
    else s.(pipes := s.pipes[x.pipe := CloseEnd(s.pipes[x.pipe], x.write)])
  }

  function Hold(s: Sys, x: Slot): Sys {
    if x.Empty? || x.pipe >= |s.pipes| then s
    else s.(pipes := s.pipes[x.pipe := IncEnd(s.pipes[x.pipe], x.write)])
  }

  function Release(s: Sys, t: nat, i: nat): Sys
    requires t < |s.fds| && i < |s.fds[t]|
  {
    Put(Drop(s, s.fds[t][i]), t, i, Empty)
  }

  function MakePipe(s: Sys, t: nat): Sys
    requires Shape(s) && t < s.live
  {
    var a := FirstFree(s.fds[t], 3);
    var b := FirstFree(s.fds[t], a + 1);
    var p := FirstUnused(s.pipes, 0);
    if a >= MAX_FDS || b >= MAX_FDS || p >= MAX_PIPES then s
    else WithPipe(s, t, a, b, p)
  }

  // Pipe p starts a new life, its ends named by slots a and b of task t.
  function WithPipe(s: Sys, t: nat, a: nat, b: nat, p: nat): Sys
    requires t < |s.fds| && a < |s.fds[t]| && b < |s.fds[t]| && p < |s.pipes|
  {
    var life := s.pipes[p].life + 1;
    s.(fds := s.fds[t := s.fds[t][a := End(p, false, life)][b := End(p, true, life)]],
       pipes := s.pipes[p := Ends(true, true, true, 1, 1, life)])
  }

  function Dup2(s: Sys, t: nat, from: int, to: int): Sys
    requires Shape(s) && t < s.live
  {
    if !(0 <= from < MAX_FDS && 0 <= to < MAX_FDS) || s.fds[t][from].Empty? || from == to then s
    else
      var x := s.fds[t][from];
      Hold(Put(Drop(s, s.fds[t][to]), t, to, x), x)
  }

  function Close(s: Sys, t: nat, fd: int): Sys
    requires Shape(s) && t < s.live
  {
    if 3 <= fd < MAX_FDS then Release(s, t, fd) else s
  }

  function CloseFrom(s: Sys, t: nat, i: nat): Sys
    requires t < |s.fds|
    decreases |s.fds[t]| - i
  {
    if i >= |s.fds[t]| then s else CloseFrom(Release(s, t, i), t, i + 1)
  }

  function CopyFrom(s: Sys, dst: nat, src: nat, i: nat): Sys
    requires dst < |s.fds| && src < |s.fds| && dst != src && |s.fds[dst]| == |s.fds[src]|
    decreases |s.fds[src]| - i
  {
    if i >= |s.fds[src]| then s
    else CopyFrom(Hold(Put(s, dst, i, s.fds[src][i]), s.fds[src][i]), dst, src, i + 1)
  }

  // `fits`: the child's kernel stack and page tables could be allocated.  The
  // descriptors are copied before that is known and are not given back.
  function Fork(s: Sys, t: nat, fits: bool): Sys
    requires Shape(s) && t < s.live
  {
    if s.live >= MAX_TASKS then s
    else
      var c := CopyFrom(s, s.live, t, 0);
      if fits then c.(live := s.live + 1) else c.(lost := s.lost + multiset(s.fds[t]))
  }

  function Spawn(s: Sys, fits: bool): Sys
    requires Shape(s)
  {
    if s.live >= MAX_TASKS then s
    else
      var c := s.(fds := s.fds[s.live := Blank()]);
      if fits then c.(live := s.live + 1) else c
  }

  // ---------------------------------------------------------------- the accounts

  // How many slots of the first `n` tables hold x.
  function Count(fds: seq<seq<Slot>>, n: nat, x: Slot): nat
    requires n <= |fds|
  {
    if n == 0 then 0 else Count(fds, n - 1, x) + multiset(fds[n - 1])[x]
  }

  predicate EndsOk(e: Ends) {
    && (e.readOpen <==> e.readRefs > 0)
    && (e.writeOpen <==> e.writeRefs > 0)
    && (e.used <==> e.readOpen || e.writeOpen)
  }

  predicate Names(s: Sys, x: Slot) {
    x.Empty? || (x.pipe < |s.pipes| && x.life == s.pipes[x.pipe].life)
  }

  predicate Balanced(s: Sys, extra: multiset<Slot>, p: nat, w: bool)
    requires Shape(s) && p < MAX_PIPES
  {
    var x := End(p, w, s.pipes[p].life);
    s.pipes[p].Refs(w) == Count(s.fds, s.live, x) + extra[x]
  }

  // Every live slot and every reference in `extra` is of its pipe's present
  // life, and each count is the number of live slots plus those in `extra`.
  predicate Account(s: Sys, extra: multiset<Slot>) {
    && Shape(s)
    && (forall p :: 0 <= p < MAX_PIPES ==> EndsOk(s.pipes[p]))
    && (forall t, i :: 0 <= t < s.live && 0 <= i < MAX_FDS ==> Names(s, s.fds[t][i]))
    && (forall x :: x in extra ==> Names(s, x))
    && (forall p, w :: 0 <= p < MAX_PIPES ==> Balanced(s, extra, p, w))
  }

  predicate Inv(s: Sys) { Account(s, s.lost) }

  // ---------------------------------------------------------------- counting

  lemma {:induction false} CountPut(fds: seq<seq<Slot>>, n: nat, t: nat, table: seq<Slot>, x: Slot)
    requires n <= |fds| && t < |fds|
    ensures Count(fds[t := table], n, x) + (if t < n then multiset(fds[t])[x] else 0)
         == Count(fds, n, x) + (if t < n then multiset(table)[x] else 0)
  {
    if n > 0 { CountPut(fds, n - 1, t, table, x); }
  }

  lemma {:induction false} CountSome(fds: seq<seq<Slot>>, n: nat, t: nat, i: nat)
    requires t < n <= |fds| && i < |fds[t]|
    ensures Count(fds, n, fds[t][i]) > 0
  {
    if t == n - 1 {
      assert fds[t][i] in multiset(fds[t]);
    } else {
      CountSome(fds, n - 1, t, i);
    }
  }

  lemma {:induction false} CountNone(fds: seq<seq<Slot>>, n: nat, x: Slot)
    requires n <= |fds|
    requires forall t, i :: 0 <= t < n && 0 <= i < |fds[t]| ==> fds[t][i] != x
    ensures Count(fds, n, x) == 0
  {
    if n > 0 {
      CountNone(fds, n - 1, x);
      assert x !in fds[n - 1];
    }
  }

  lemma CountSlot(s: Sys, t: nat, i: nat, y: Slot, x: Slot)
    requires Shape(s) && t < MAX_TASKS && i < MAX_FDS
    ensures Count(Put(s, t, i, y).fds, s.live, x)
         == Count(s.fds, s.live, x)
            + (if t < s.live then (if x == y then 1 else 0) - (if x == s.fds[t][i] then 1 else 0) else 0)
  {
    CountPut(s.fds, s.live, t, s.fds[t][i := y], x);
    assert s.fds[t][i] in multiset(s.fds[t]);
    assert multiset(s.fds[t][i := y]) == multiset(s.fds[t]) - multiset{s.fds[t][i]} + multiset{y};
  }

  // ---------------------------------------------------------------- each call keeps the accounts

  lemma ReleaseBalances(s: Sys, extra: multiset<Slot>, t: nat, i: nat, p: nat, w: bool)
    requires Shape(s) && t < s.live && i < MAX_FDS && p < MAX_PIPES
    requires Names(s, s.fds[t][i]) && Balanced(s, extra, p, w)
    ensures Balanced(Release(s, t, i), extra, p, w)
  {
    CountSlot(s, t, i, Empty, End(p, w, s.pipes[p].life));
    CountSome(s.fds, s.live, t, i);
  }

  // Closing the descriptor in a live slot and emptying the slot.
  lemma ReleaseKeeps(s: Sys, extra: multiset<Slot>, t: nat, i: nat)
    requires Account(s, extra) && t < s.live && i < MAX_FDS
    ensures Account(Release(s, t, i), extra)
  {
    var r := Release(s, t, i);
    assert Names(s, s.fds[t][i]);
    assert forall x: Slot :: Names(s, x) ==> Names(r, x);
    forall p, w | 0 <= p < MAX_PIPES ensures Balanced(r, extra, p, w) {
      assert Balanced(s, extra, p, w);
      ReleaseBalances(s, extra, t, i, p, w);
    }
    forall u, j | 0 <= u < r.live && 0 <= j < MAX_FDS ensures Names(r, r.fds[u][j]) {
      assert Names(s, s.fds[u][j]);
    }
  }

  // Filling an empty live slot with a copy of a descriptor someone holds.
  lemma AcquireKeeps(s: Sys, extra: multiset<Slot>, t: nat, i: nat, x: Slot)
    requires Account(s, extra) && t < s.live && i < MAX_FDS && s.fds[t][i].Empty?
    requires x.End? && Names(s, x) && s.pipes[x.pipe].Refs(x.write) > 0
    ensures Account(Hold(Put(s, t, i, x), x), extra)
  {
    var r := Hold(Put(s, t, i, x), x);
    forall p, w | 0 <= p < MAX_PIPES ensures Balanced(r, extra, p, w) {
      assert Balanced(s, extra, p, w);
      CountSlot(s, t, i, x, End(p, w, s.pipes[p].life));
    }
  }

  // A live descriptor's end is open and its count is positive.
  lemma HeldIsOpen(s: Sys, extra: multiset<Slot>, t: nat, i: nat)
    requires Account(s, extra) && t < s.live && i < MAX_FDS && s.fds[t][i].End?
    ensures var x := s.fds[t][i];
            && x.pipe < MAX_PIPES
            && x.life == s.pipes[x.pipe].life
            && s.pipes[x.pipe].Refs(x.write) > 0
            && s.pipes[x.pipe].Open(x.write)
            && s.pipes[x.pipe].used
  {
    var x := s.fds[t][i];
    assert Names(s, x);
    assert Balanced(s, extra, x.pipe, x.write);
    CountSome(s.fds, s.live, t, i);
    assert EndsOk(s.pipes[x.pipe]);
  }

  lemma Dup2Keeps(s: Sys, t: nat, from: int, to: int)
    requires Inv(s) && t < s.live
    ensures Inv(Dup2(s, t, from, to))
  {
    if 0 <= from < MAX_FDS && 0 <= to < MAX_FDS && s.fds[t][from].End? && from != to {
      var x := s.fds[t][from];
      var r := Release(s, t, to);
      ReleaseKeeps(s, s.lost, t, to);
      assert r.fds[t][from] == x;
      HeldIsOpen(r, r.lost, t, from);
      AcquireKeeps(r, r.lost, t, to, x);
      assert Put(r, t, to, x) == Put(Drop(s, s.fds[t][to]), t, to, x) by {
        var a := r.fds[t := r.fds[t][to := x]];
        var b := s.fds[t := s.fds[t][to := x]];
        assert r.fds[t][to := x] == s.fds[t][to := x];
        assert a == b;
      }
    }
  }

  lemma {:induction false} CloseFromKeeps(s: Sys, t: nat, i: nat)
    requires Inv(s) && t < s.live && i <= MAX_FDS
    ensures Inv(CloseFrom(s, t, i))
    decreases MAX_FDS - i
  {
    if i < MAX_FDS {
      ReleaseKeeps(s, s.lost, t, i);
      CloseFromKeeps(Release(s, t, i), t, i + 1);
    }
  }

  // After the loop the table is empty and no other table has changed.
  lemma {:induction false} CloseFromEmpties(s: Sys, t: nat, i: nat)
    requires Shape(s) && t < s.live && i <= MAX_FDS
    requires forall j :: 0 <= j < i ==> s.fds[t][j].Empty?
    ensures var c := CloseFrom(s, t, i);
            Shape(c) && c.fds == s.fds[t := Blank()] && c.live == s.live && c.lost == s.lost
    decreases MAX_FDS - i
  {
    if i < MAX_FDS {
      var r := Release(s, t, i);
      CloseFromEmpties(r, t, i + 1);
      assert r.fds[t := Blank()] == s.fds[t := Blank()];
    } else {
      assert s.fds[t] == Blank();
    }
  }

  lemma CopyBalances(s: Sys, extra: multiset<Slot>, dst: nat, x: Slot, i: nat, p: nat, w: bool)
    requires Shape(s) && s.live <= dst < MAX_TASKS && i < MAX_FDS && p < MAX_PIPES
    requires Names(s, x) && Balanced(s, extra, p, w)
    ensures Balanced(Hold(Put(s, dst, i, x), x), extra + multiset{x}, p, w)
  {
    CountSlot(s, dst, i, x, End(p, w, s.pipes[p].life));
  }

  // One turn of the copying loop: the spare table is not live yet, so the new
  // reference goes to `extra`.
  lemma CopyTurn(s: Sys, extra: multiset<Slot>, dst: nat, src: nat, i: nat)
    requires Account(s, extra) && src < s.live <= dst < MAX_TASKS && i < MAX_FDS
    ensures Account(Hold(Put(s, dst, i, s.fds[src][i]), s.fds[src][i]), extra + multiset{s.fds[src][i]})
  {
    var x := s.fds[src][i];
    var m := extra + multiset{x};
    var r := Hold(Put(s, dst, i, x), x);
    assert Names(s, x);
    if x.End? { HeldIsOpen(s, extra, src, i); }
    forall p, w | 0 <= p < MAX_PIPES ensures Balanced(r, m, p, w) {
      assert Balanced(s, extra, p, w);
      CopyBalances(s, extra, dst, x, i, p, w);
    }
    forall u, j | 0 <= u < r.live && 0 <= j < MAX_FDS ensures Names(r, r.fds[u][j]) {
      assert Names(s, s.fds[u][j]);
    }
  }

  lemma {:induction false} CopyFromKeeps(s: Sys, extra: multiset<Slot>, dst: nat, src: nat, i: nat)
    requires Account(s, extra) && src < s.live <= dst < MAX_TASKS && i <= MAX_FDS
    requires s.fds[dst][..i] == s.fds[src][..i]
    ensures var c := CopyFrom(s, dst, src, i);
            && Account(c, extra + multiset(s.fds[src][i..]))
            && c.fds == s.fds[dst := s.fds[src]]
            && c.live == s.live
            && c.lost == s.lost
    decreases MAX_FDS - i
  {
    if i < MAX_FDS {
      var x := s.fds[src][i];
      var r := Hold(Put(s, dst, i, x), x);
      CopyTurn(s, extra, dst, src, i);
      OneCopied(s.fds[dst], s.fds[src], i);
      CopyFromKeeps(r, extra + multiset{x}, dst, src, i + 1);
      RestOf(s.fds[src], i, extra);
      assert r.fds[dst := r.fds[src]] == s.fds[dst := s.fds[src]];
    } else {
      assert s.fds[dst] == s.fds[dst][..i] && s.fds[src] == s.fds[src][..i];
      assert extra + multiset(s.fds[src][i..]) == extra;
      assert s.fds[dst := s.fds[src]] == s.fds;
    }
  }

  lemma OneCopied(a: seq<Slot>, b: seq<Slot>, i: nat)
    requires |a| == |b| && i < |b| && a[..i] == b[..i]
    ensures a[i := b[i]][..i + 1] == b[..i + 1]
  {
    assert forall j :: 0 <= j < i ==> a[..i][j] == b[..i][j];
  }

  lemma RestOf(table: seq<Slot>, i: nat, extra: multiset<Slot>)
    requires i < |table|
    ensures extra + multiset{table[i]} + multiset(table[i + 1..]) == extra + multiset(table[i..])
  {
    assert table[i..] == [table[i]] + table[i + 1..];
  }

  lemma ForkKeeps(s: Sys, t: nat, fits: bool)
    requires Inv(s) && t < s.live
    ensures Inv(Fork(s, t, fits))
  {
    if s.live < MAX_TASKS {
      var c := CopyFrom(s, s.live, t, 0);
      var m := s.lost + multiset(s.fds[t]);
      CopyFromKeeps(s, s.lost, s.live, t, 0);
      assert s.fds[t][0..] == s.fds[t];
      if fits {
        var r := c.(live := s.live + 1);
        forall p, w | 0 <= p < MAX_PIPES ensures Balanced(r, s.lost, p, w) {
          assert Balanced(c, m, p, w);
        }
        forall u, i | 0 <= u < r.live && 0 <= i < MAX_FDS ensures Names(r, r.fds[u][i]) {
          if u == s.live { assert Names(s, s.fds[t][i]); assert s.fds[t][i] in m; assert Names(c, c.fds[u][i]); }
          else { assert Names(c, c.fds[u][i]); }
        }
        assert forall x :: x in s.lost ==> x in m;
      } else {
        var r := c.(lost := m);
        forall p, w | 0 <= p < MAX_PIPES ensures Balanced(r, m, p, w) {
          assert Balanced(c, m, p, w);
        }
      }
    }
  }

  lemma SpawnKeeps(s: Sys, fits: bool)
    requires Inv(s)
    ensures Inv(Spawn(s, fits))
  {
    if s.live < MAX_TASKS {
      var r := Spawn(s, fits);
      forall p, w | 0 <= p < MAX_PIPES ensures Balanced(r, s.lost, p, w) {
        var x := End(p, w, s.pipes[p].life);
        assert Balanced(s, s.lost, p, w);
        CountPut(s.fds, s.live, s.live, Blank(), x);
        CountNone([Blank()], 1, x);
        assert [Blank()][0] == Blank();
      }
    }
  }

  lemma FreeBounds(table: seq<Slot>, i: nat)
    requires i <= |table|
    ensures i <= FirstFree(table, i) <= |table|
    ensures FirstFree(table, i) < |table| ==> table[FirstFree(table, i)].Empty?
    ensures forall j :: i <= j < FirstFree(table, i) ==> table[j].End?
    decreases |table| - i
  {
  }

  lemma UnusedBounds(pipes: seq<Ends>, i: nat)
    requires i <= |pipes|
    ensures i <= FirstUnused(pipes, i) <= |pipes|
    ensures FirstUnused(pipes, i) < |pipes| ==> !pipes[FirstUnused(pipes, i)].used
    ensures forall j :: i <= j < FirstUnused(pipes, i) ==> pipes[j].used
    decreases |pipes| - i
  {
  }

  // An unused record has no holder at all, live or lost.
  lemma UnusedUnheld(s: Sys, p: nat)
    requires Inv(s) && p < MAX_PIPES && !s.pipes[p].used
    ensures forall t, i :: 0 <= t < s.live && 0 <= i < MAX_FDS && s.fds[t][i].End? ==> s.fds[t][i].pipe != p
    ensures forall x :: x in s.lost && x.End? ==> x.pipe != p
  {
    assert EndsOk(s.pipes[p]);
    forall t, i | 0 <= t < s.live && 0 <= i < MAX_FDS && s.fds[t][i].End? ensures s.fds[t][i].pipe != p {
      HeldIsOpen(s, s.lost, t, i);
    }
    forall x | x in s.lost && x.End? ensures x.pipe != p {
      assert Names(s, x);
      assert Balanced(s, s.lost, p, x.write);
    }
  }

  // Two empty slots of a live table name the two ends of a fresh pipe.
  lemma FreshPipe(s: Sys, t: nat, a: nat, b: nat, p: nat)
    requires Inv(s) && t < s.live && a < b < MAX_FDS && p < MAX_PIPES
    requires s.fds[t][a].Empty? && s.fds[t][b].Empty? && !s.pipes[p].used
    ensures Inv(WithPipe(s, t, a, b, p))
  {
    UnusedUnheld(s, p);
    var r := WithPipe(s, t, a, b, p);
    forall q, w | 0 <= q < MAX_PIPES ensures Balanced(r, s.lost, q, w) {
      assert Balanced(s, s.lost, q, w);
      FreshBalances(s, t, a, b, p, q, w);
    }
    forall u, i | 0 <= u < r.live && 0 <= i < MAX_FDS ensures Names(r, r.fds[u][i]) {
      assert Names(s, s.fds[u][i]);
    }
  }

  lemma FreshBalances(s: Sys, t: nat, a: nat, b: nat, p: nat, q: nat, w: bool)
    requires Shape(s) && t < s.live && a < b < MAX_FDS && p < MAX_PIPES && q < MAX_PIPES
    requires s.fds[t][a].Empty? && s.fds[t][b].Empty?
    requires forall u, i :: 0 <= u < s.live && 0 <= i < MAX_FDS && s.fds[u][i].End? ==> s.fds[u][i].pipe != p
    requires forall x :: x in s.lost && x.End? ==> x.pipe != p
    requires Balanced(s, s.lost, q, w)
    ensures Balanced(WithPipe(s, t, a, b, p), s.lost, q, w)
  {
    var r := WithPipe(s, t, a, b, p);
    var life := s.pipes[p].life + 1;
    var x := End(q, w, r.pipes[q].life);
    var r1 := Put(s, t, a, End(p, false, life));
    var r2 := Put(r1, t, b, End(p, true, life));
    assert r2.fds == r.fds;
    CountSlot(s, t, a, End(p, false, life), x);
    CountSlot(r1, t, b, End(p, true, life), x);
    if q == p { CountNone(s.fds, s.live, x); }
  }

  lemma MakePipeKeeps(s: Sys, t: nat)
    requires Inv(s) && t < s.live
    ensures Inv(MakePipe(s, t))
  {
    var a := FirstFree(s.fds[t], 3);
    FreeBounds(s.fds[t], 3);
    if a < MAX_FDS { FreeBounds(s.fds[t], a + 1); }
    var b := FirstFree(s.fds[t], a + 1);
    UnusedBounds(s.pipes, 0);
    var p := FirstUnused(s.pipes, 0);
    if a < MAX_FDS && b < MAX_FDS && p < MAX_PIPES {
      FreshPipe(s, t, a, b, p);
    }
  }

  // Slots a and b are the two lowest empty ones from 3 on, and p is the first unused record:
  // a names the read end and b the write end of p, each counted once, and nothing else changes.
  lemma PipeMade(s: Sys, t: nat, a: nat, b: nat, p: nat)
    requires Shape(s) && t < s.live && 3 <= a < b < MAX_FDS && s.fds[t][a].Empty? && s.fds[t][b].Empty?
    requires forall i :: 3 <= i < b && i != a ==> s.fds[t][i].End?
    requires p < MAX_PIPES && !s.pipes[p].used && forall q :: 0 <= q < p ==> s.pipes[q].used
    ensures var r, life := MakePipe(s, t), s.pipes[p].life + 1;
            && Shape(r) && r.live == s.live && r.lost == s.lost
            && r.fds[t][a] == End(p, false, life) && r.fds[t][b] == End(p, true, life)
            && r.pipes[p] == Ends(true, true, true, 1, 1, life)
            && (forall q :: 0 <= q < MAX_PIPES && q != p ==> r.pipes[q] == s.pipes[q])
            && (forall u, i :: 0 <= u < MAX_TASKS && 0 <= i < MAX_FDS && (u != t || (i != a && i != b)) ==>
                  r.fds[u][i] == s.fds[u][i])
  {
    FirstFreeIs(s.fds[t], 3, a);
    FirstFreeIs(s.fds[t], a + 1, b);
    FirstUnusedIs(s.pipes, 0, p);
  }

  lemma {:induction false} FirstFreeIs(table: seq<Slot>, i: nat, a: nat)
    requires i <= a < |table| && table[a].Empty? && forall j :: i <= j < a ==> table[j].End?
    ensures FirstFree(table, i) == a
    decreases a - i
  {
    if i < a { FirstFreeIs(table, i + 1, a); }
  }

  lemma {:induction false} FirstUnusedIs(pipes: seq<Ends>, i: nat, p: nat)
    requires i <= p < |pipes| && !pipes[p].used && forall q :: i <= q < p ==> pipes[q].used
    ensures FirstUnused(pipes, i) == p
    decreases p - i
  {
    if i < p { FirstUnusedIs(pipes, i + 1, p); }
  }

  // pipe fails, with nothing changed, exactly when a task has no two empty slots from 3 on,
  // or every record is in use.
  lemma PipeFailsIff(s: Sys, t: nat)
    requires Shape(s) && t < s.live
    ensures MakePipe(s, t) == s <==>
              || (forall i, j :: 3 <= i < j < MAX_FDS ==> s.fds[t][i].End? || s.fds[t][j].End?)
              || (forall p :: 0 <= p < MAX_PIPES ==> s.pipes[p].used)
  {
    var a := FirstFree(s.fds[t], 3);
    FreeBounds(s.fds[t], 3);
    if a < MAX_FDS { FreeBounds(s.fds[t], a + 1); }
    var b, p := FirstFree(s.fds[t], a + 1), FirstUnused(s.pipes, 0);
    UnusedBounds(s.pipes, 0);
    if a < MAX_FDS && b < MAX_FDS && p < MAX_PIPES {
      PipeMade(s, t, a, b, p);
      assert MakePipe(s, t).fds[t][a] != s.fds[t][a];
    }
  }

  // ---------------------------------------------------------------- whole runs

  datatype Op =
    | OpPipe(t: nat)
    | OpDup2(t: nat, from: int, to: int)
    | OpClose(t: nat, fd: int)
    | OpFork(t: nat, fits: bool)
    | OpSpawn(fits: bool)
    | OpCloseAll(t: nat)   // exit, and again when the zombie is removed

  // An operation by a task that does not exist does nothing.
  function Step(s: Sys, op: Op): Sys
    requires Shape(s)
  {
    if !op.OpSpawn? && op.t >= s.live then s
    else match op
      case OpPipe(t) => MakePipe(s, t)
      case OpDup2(t, o, n) => Dup2(s, t, o, n)
      case OpClose(t, fd) => Close(s, t, fd)
      case OpFork(t, fits) => Fork(s, t, fits)
      case OpSpawn(fits) => Spawn(s, fits)
      case OpCloseAll(t) => CloseFrom(s, t, 0)
  }

  lemma StepKeeps(s: Sys, op: Op)
    requires Inv(s)
    ensures Inv(Step(s, op))
  {
    if op.OpSpawn? || op.t < s.live {
      match op
      case OpPipe(t) => MakePipeKeeps(s, t);
      case OpDup2(t, o, n) => Dup2Keeps(s, t, o, n);
      case OpClose(t, fd) => if 3 <= fd < MAX_FDS { ReleaseKeeps(s, s.lost, t, fd); }
      case OpFork(t, fits) => ForkKeeps(s, t, fits);
      case OpSpawn(fits) => SpawnKeeps(s, fits);
      case OpCloseAll(t) => CloseFromKeeps(s, t, 0);
    }
  }

  lemma {:induction false} CountBlank(fds: seq<seq<Slot>>, n: nat, x: Slot)
    requires n <= |fds| && x.End?
    requires forall t, i :: 0 <= t < n && 0 <= i < |fds[t]| ==> fds[t][i].Empty?
    ensures Count(fds, n, x) == 0
  {
    CountNone(fds, n, x);
  }

  lemma InitInv(s: Sys)
    requires s == Sys(seq(MAX_TASKS, _ => Blank()), 1, seq(MAX_PIPES, _ => NoPipe), multiset{})
    ensures Inv(s)
  {
    forall p, w | 0 <= p < MAX_PIPES ensures Balanced(s, s.lost, p, w) {
      CountBlank(s.fds, s.live, End(p, w, s.pipes[p].life));
    }
  }

  // The states of a run, from the state s.
  function Run(s: Sys, ops: seq<Op>): (r: Sys)
    requires Inv(s)
    ensures Inv(r)
    decreases |ops|
  {
    if ops == [] then s
    else
      StepKeeps(s, ops[0]);
      Run(Step(s, ops[0]), ops[1..])
  }

  // A fork that gets as far as copying descriptors and then fails.
  predicate Leaks(s: Sys, op: Op) {
    op.OpFork? && op.t < s.live < MAX_TASKS && !op.fits
  }

  predicate NoLeak(s: Sys, ops: seq<Op>)
    requires Inv(s)
    decreases |ops|
  {
    ops == [] || (!Leaks(s, ops[0]) && (StepKeeps(s, ops[0]); NoLeak(Step(s, ops[0]), ops[1..])))
  }

  lemma StepLost(s: Sys, op: Op)
    requires Inv(s)
    ensures s.lost <= Step(s, op).lost
    ensures !Leaks(s, op) ==> Step(s, op).lost == s.lost
  {
    if op.OpSpawn? || op.t < s.live {
      match op
      case OpFork(t, fits) => if s.live < MAX_TASKS { CopyFromKeeps(s, s.lost, s.live, t, 0); }
      case OpCloseAll(t) => CloseFromEmpties(s, t, 0);
      case _ =>
    }
  }

  lemma {:induction false} RunLost(s: Sys, ops: seq<Op>)
    requires Inv(s)
    ensures s.lost <= Run(s, ops).lost
    ensures NoLeak(s, ops) ==> Run(s, ops).lost == s.lost
    decreases |ops|
  {
    if ops != [] {
      StepKeeps(s, ops[0]);
      StepLost(s, ops[0]);
      RunLost(Step(s, ops[0]), ops[1..]);
    }
  }

  // In every reachable state each end's count is at least the number of live
  // slots naming the pipe's present life; it is exactly that number when and
  // only when no failed fork has lost a reference to that end; and an end is
  // open exactly while it is counted.
  lemma CountsCover(ops: seq<Op>, p: nat, w: bool)
    requires p < MAX_PIPES
    ensures var s := Run(Init(), ops);
            var e := s.pipes[p];
            var holders := Count(s.fds, s.live, End(p, w, e.life));
            && e.Refs(w) >= holders
            && (e.Refs(w) == holders <==> End(p, w, e.life) !in s.lost)
            && (NoLeak(Init(), ops) ==> e.Refs(w) == holders)
            && (e.Open(w) <==> e.Refs(w) > 0)
            && (e.used <==> e.Open(false) || e.Open(true))
  {
    var s := Run(Init(), ops);
    assert Balanced(s, s.lost, p, w);
    assert EndsOk(s.pipes[p]);
    RunLost(Init(), ops);
  }

  lemma {:induction false} RunMore(s: Sys, ops: seq<Op>, op: Op)
    requires Inv(s)
    ensures Run(s, ops + [op]) == Step(Run(s, ops), op)
    decreases |ops|
  {
    var all := ops + [op];
    if ops == [] {
      assert all[1..] == [];
    } else {
      assert all[0] == ops[0] && all[1..] == ops[1..] + [op];
      StepKeeps(s, ops[0]);
      RunMore(Step(s, ops[0]), ops[1..], op);
    }
  }

  // The i-th operation is a fork that fails after copying a descriptor x.
  predicate Loses(ops: seq<Op>, i: nat, x: Slot) {
    i < |ops| && var s := Run(Init(), ops[..i]); Leaks(s, ops[i]) && x in s.fds[ops[i].t]
  }

  lemma StepLoses(s: Sys, op: Op, x: Slot)
    requires Inv(s)
    ensures x in Step(s, op).lost <==> x in s.lost || (Leaks(s, op) && x in s.fds[op.t])
  {
    StepLost(s, op);
    if Leaks(s, op) {
      CopyFromKeeps(s, s.lost, s.live, op.t, 0);
      assert Step(s, op).lost == s.lost + multiset(s.fds[op.t]);
    }
  }

  // A reference is lost exactly when some fork of the run failed after copying
  // it: with the above, a count is exact exactly when no such fork occurred.
  lemma {:induction false} LostIff(ops: seq<Op>, x: Slot)
    ensures x in Run(Init(), ops).lost <==> exists i: nat :: Loses(ops, i, x)
    decreases |ops|
  {
    if ops != [] {
      var n := |ops| - 1;
      var rest, s := ops[..n], Run(Init(), ops[..n]);
      assert ops == rest + [ops[n]];
      RunMore(Init(), rest, ops[n]);
      LostIff(rest, x);
      StepLoses(s, ops[n], x);
      forall i: nat | i < n ensures Loses(ops, i, x) <==> Loses(rest, i, x) { assert rest[..i] == ops[..i]; }
      assert Loses(ops, n, x) <==> Leaks(s, ops[n]) && x in s.fds[ops[n].t];
    }
  }

  // A live descriptor always belongs to its pipe's present life and its end is
  // open: the record is never recycled under it.
  lemma NeverRecycled(ops: seq<Op>, t: nat, i: nat)
    requires t < Run(Init(), ops).live && i < MAX_FDS && Run(Init(), ops).fds[t][i].End?
    ensures var s := Run(Init(), ops);
            var x := s.fds[t][i];
            && x.pipe < MAX_PIPES
            && s.pipes[x.pipe].life == x.life
            && s.pipes[x.pipe].used
            && s.pipes[x.pipe].Open(x.write)
  {
    var s := Run(Init(), ops);
    HeldIsOpen(s, s.lost, t, i);
  }

  // A reference lost by a failed fork keeps its pipe end open, in the same
  // life, whatever happens afterwards.
  lemma LeakIsForever(s: Sys, ops: seq<Op>, x: Slot)
    requires Inv(s) && x.End? && x in s.lost
    ensures var r := Run(s, ops);
            && x.pipe < MAX_PIPES
            && r.pipes[x.pipe].life == x.life
            && r.pipes[x.pipe].Open(x.write)
  {
    var r := Run(s, ops);
    RunLost(s, ops);
    assert x in r.lost;
    assert Names(r, x);
    assert Balanced(r, r.lost, x.pipe, x.write);
    assert EndsOk(r.pipes[x.pipe]);
  }

  // The shortest run that leaks: a task makes a pipe, forks in vain and exits.
  const LeakingRun: seq<Op> := [OpPipe(0), OpFork(0, false), OpCloseAll(0)]

  lemma ThreeSteps(s: Sys, a: Op, b: Op, c: Op)
    requires Inv(s)
    ensures Inv(Step(s, a)) && Inv(Step(Step(s, a), b))
    ensures Run(s, [a, b, c]) == Step(Step(Step(s, a), b), c)
  {
    StepKeeps(s, a);
    StepKeeps(Step(s, a), b);
    RunMore(s, [], a);
    RunMore(s, [a], b);
    RunMore(s, [a, b], c);
    assert [] + [a] == [a] && [a] + [b] == [a, b] && [a, b] + [c] == [a, b, c];
  }

  lemma PipeIsNamed(s: Sys)
    requires Shape(s) && s.fds[0] == Blank() && s.pipes[0] == NoPipe
    ensures var r := Step(s, OpPipe(0));
            r.live == s.live && r.fds[0][3] == End(0, false, 1) && r.fds[0][4] == End(0, true, 1)
  {
    assert FirstFree(s.fds[0], 3) == 3 && FirstFree(s.fds[0], 4) == 4;
  }

  lemma ForkLoses(s: Sys, i: nat, j: nat)
    requires Inv(s) && s.live == 1 && i < MAX_FDS && j < MAX_FDS
    ensures var r := Step(s, OpFork(0, false)); Inv(r) && r.live == 1 && s.fds[0][i] in r.lost && s.fds[0][j] in r.lost
  {
    StepKeeps(s, OpFork(0, false));
    StepLoses(s, OpFork(0, false), s.fds[0][i]);
    StepLoses(s, OpFork(0, false), s.fds[0][j]);
    CopyFromKeeps(s, s.lost, s.live, 0, 0);
  }

  lemma ExitLoses(s: Sys)
    requires Inv(s) && s.live == 1
    ensures var r := Step(s, OpCloseAll(0)); Shape(r) && r.live == 1 && r.fds[0] == Blank() && r.lost == s.lost
  {
    CloseFromEmpties(s, 0, 0);
  }

  lemma LeakBy(s: Sys, a: Op, b: Op, c: Op)
    requires Inv(s) && s.live == 1 && s.fds[0] == Blank() && s.pipes[0] == NoPipe
    requires a == OpPipe(0) && b == OpFork(0, false) && c == OpCloseAll(0)
    ensures var r := Run(s, [a, b, c]);
            r.live == 1 && r.fds[0] == Blank() && End(0, false, 1) in r.lost && End(0, true, 1) in r.lost
  {
    ThreeSteps(s, a, b, c);
    PipeIsNamed(s);
    ForkLoses(Step(s, a), 3, 4);
    ExitLoses(Step(Step(s, a), b));
  }

  lemma LeakFrom(s: Sys)
    requires Inv(s) && s.live == 1 && s.fds[0] == Blank() && s.pipes[0] == NoPipe
    ensures var r := Run(s, LeakingRun);
            r.live == 1 && r.fds[0] == Blank() && End(0, false, 1) in r.lost && End(0, true, 1) in r.lost
  {
    LeakBy(s, LeakingRun[0], LeakingRun[1], LeakingRun[2]);
    assert LeakingRun == [LeakingRun[0], LeakingRun[1], LeakingRun[2]];
  }

  lemma HeldByNobody(s: Sys, more: seq<Op>)
    requires Inv(s) && s.live == 1 && s.fds[0] == Blank() && End(0, false, 1) in s.lost
    ensures forall t, i :: 0 <= t < s.live && 0 <= i < MAX_FDS ==> s.fds[t][i].Empty?
    ensures Run(s, more).pipes[0].used && Run(s, more).pipes[0].life == 1
  {
    LeakIsForever(s, more, End(0, false, 1));
    assert EndsOk(Run(s, more).pipes[0]);
  }

  // After it nobody holds the pipe, and no operations ever make it reusable.
  lemma LeakingRunLeaks(more: seq<Op>)
    ensures var s := Run(Init(), LeakingRun);
            && (forall t, i :: 0 <= t < s.live && 0 <= i < MAX_FDS ==> s.fds[t][i].Empty?)
            && Run(s, more).pipes[0].used && Run(s, more).pipes[0].life == 1
  {
    LeakFrom(Init());
    HeldByNobody(Run(Init(), LeakingRun), more);
  }

  // A pipe record is reusable exactly when no live slot names it and no failed
  // fork lost a reference to it.
  lemma ReusableIffUnheld(s: Sys, p: nat)
    requires Inv(s) && p < MAX_PIPES
    ensures !s.pipes[p].used <==>
            (forall w :: Count(s.fds, s.live, End(p, w, s.pipes[p].life)) == 0
                         && End(p, w, s.pipes[p].life) !in s.lost)
  {
    assert EndsOk(s.pipes[p]);
    assert Balanced(s, s.lost, p, false);
    assert Balanced(s, s.lost, p, true);
  }

  // ---------------------------------------------------------------- the kernel's loops

  class Kernel {
    var fds: seq<seq<Slot>>
    var live: nat
    var pipes: seq<Ends>
    ghost var lost: multiset<Slot>

    ghost function Now(): Sys reads this { Sys(fds, live, pipes, lost) }

    constructor ()
      ensures Now() == Init()
    {
      fds := seq(MAX_TASKS, _ => Blank());
      live := 1;
      pipes := seq(MAX_PIPES, _ => NoPipe);
      lost := multiset{};
    }

    method PipeCreate() returns (p: nat)
      requires Shape(Now())
      modifies this`pipes
      ensures p == FirstUnused(old(pipes), 0)
      ensures pipes == if p < MAX_PIPES
                       then old(pipes)[p := Ends(true, true, true, 0, 0, old(pipes)[p].life + 1)]
                       else old(pipes)
    {
      p := 0;
      UnusedBounds(pipes, 0);
      while p < MAX_PIPES && pipes[p].used
        invariant p <= MAX_PIPES
        invariant FirstUnused(pipes, 0) == FirstUnused(pipes, p)
      {
        p := p + 1;
      }
      if p < MAX_PIPES {
        pipes := pipes[p := Ends(true, true, true, 0, 0, pipes[p].life + 1)];
      }
    }

    method PipeCloseEnd(x: Slot)
      requires Shape(Now()) && (x.End? ==> x.pipe < MAX_PIPES)
      modifies this`pipes
      ensures Now() == Drop(old(Now()), x)
    {
      if x.End? {
        var e := pipes[x.pipe];
        if !x.write {
          if e.readRefs > 0 { e := e.(readRefs := e.readRefs - 1); }
          if e.readRefs == 0 { e := e.(readOpen := false); }
        } else {
          if e.writeRefs > 0 { e := e.(writeRefs := e.writeRefs - 1); }
          if e.writeRefs == 0 { e := e.(writeOpen := false); }
        }
        if !e.readOpen && !e.writeOpen { e := e.(used := false); }
        pipes := pipes[x.pipe := e];
      }
    }

    method PipeRefInc(x: Slot)
      requires Shape(Now()) && (x.End? ==> x.pipe < MAX_PIPES)
      modifies this`pipes
      ensures Now() == Hold(old(Now()), x)
    {
      if x.End? {
        var e := pipes[x.pipe];
        pipes := pipes[x.pipe := if x.write then e.(writeRefs := e.writeRefs + 1) else e.(readRefs := e.readRefs + 1)];
      }
    }

    // The two lowest empty slots from 3 on, or -1.
    method TwoFree(t: nat) returns (a: int, b: int)
      requires Shape(Now()) && t < live
      ensures a == -1 <==> FirstFree(fds[t], 3) >= MAX_FDS
      ensures a != -1 ==> 3 <= a < MAX_FDS && fds[t][a].Empty? && a == FirstFree(fds[t], 3)
      ensures b == -1 <==> FirstFree(fds[t], FirstFree(fds[t], 3) + 1) >= MAX_FDS
      ensures b != -1 ==> 3 <= a < b < MAX_FDS && fds[t][b].Empty? && b == FirstFree(fds[t], a + 1)
    {
      a, b := -1, -1;
      var i: nat := 3;
      while i < MAX_FDS && b == -1
        invariant 3 <= i <= MAX_FDS
        invariant a == -1 ==> b == -1 && FirstFree(fds[t], 3) == FirstFree(fds[t], i)
        invariant a != -1 ==> 3 <= a < i && fds[t][a].Empty? && a == FirstFree(fds[t], 3)
        invariant a != -1 && b == -1 ==> FirstFree(fds[t], a + 1) == FirstFree(fds[t], i)
        invariant b != -1 ==> 3 <= a < b < i && fds[t][b].Empty? && b == FirstFree(fds[t], a + 1)
      {
        if fds[t][i].Empty? {
          if a == -1 { a := i; } else { b := i; }
        }
        i := i + 1;
      }
    }

    method SysPipe(t: nat) returns (a: int, b: int)
      requires Inv(Now()) && t < live
      modifies this`fds, this`pipes
      ensures Now() == MakePipe(old(Now()), t) && Inv(Now())
      ensures a == -1 <==> Now() == old(Now())
      ensures a != -1 ==> 3 <= a < b < MAX_FDS && fds[t][a].End? && !fds[t][a].write
      ensures a != -1 ==> fds[t][b] == fds[t][a].(write := true) && !old(pipes)[fds[t][a].pipe].used
    {
      MakePipeKeeps(Now(), t);
      a, b := TwoFree(t);
      if a == -1 || b == -1 {
        a, b := -1, -1;
        return;
      }
      UnusedBounds(pipes, 0);
      var p := PipeCreate();
      if p >= MAX_PIPES {
        a, b := -1, -1;
        return;
      }
      NamePipe(t, a, b, p);
    }

    // Slots a and b get the two ends of the new pipe p.
    method NamePipe(t: nat, a: nat, b: nat, p: nat)
      requires Shape(Now()) && t < live && 3 <= a < b < MAX_FDS && fds[t][a].Empty? && p < MAX_PIPES
      requires pipes[p].readRefs == 0 && pipes[p].writeRefs == 0
      modifies this`fds, this`pipes
      ensures var life := old(pipes)[p].life;
        fds == old(fds)[t := old(fds)[t][a := End(p, false, life)][b := End(p, true, life)]]
      ensures pipes == old(pipes)[p := old(pipes)[p].(readRefs := 1, writeRefs := 1)]
      ensures fds[t][a] == End(p, false, old(pipes)[p].life) && fds[t][b] == End(p, true, old(pipes)[p].life)
      ensures Now() != old(Now())
    {
      var life := pipes[p].life;
      fds := fds[t := fds[t][a := End(p, false, life)][b := End(p, true, life)]];
      PipeRefInc(fds[t][a]);
      PipeRefInc(fds[t][b]);
      assert fds[t][a] != old(fds)[t][a];
    }

    method SysDup2(t: nat, oldfd: int, newfd: int) returns (r: int)
      requires Inv(Now()) && t < live
      modifies this`fds, this`pipes
      ensures Now() == Dup2(old(Now()), t, oldfd, newfd) && Inv(Now())
      ensures r == -1 <==> !(0 <= oldfd < MAX_FDS && 0 <= newfd < MAX_FDS && old(fds)[t][oldfd].End?)
      ensures r == -1 ==> Now() == old(Now())
      ensures r != -1 ==> r == newfd && fds[t][newfd] == fds[t][oldfd] == old(fds)[t][oldfd]
    {
      Dup2Keeps(Now(), t, oldfd, newfd);
      if oldfd < 0 || oldfd >= MAX_FDS || newfd < 0 || newfd >= MAX_FDS { return -1; }
      if fds[t][oldfd].Empty? { return -1; }
      if oldfd == newfd { return newfd; }
      assert Names(Now(), fds[t][newfd]) && Names(Now(), fds[t][oldfd]);
      if fds[t][newfd].End? { PipeCloseEnd(fds[t][newfd]); }
      fds := fds[t := fds[t][newfd := fds[t][oldfd]]];
      PipeRefInc(fds[t][newfd]);
      return newfd;
    }

    method SysClose(t: nat, fd: int) returns (r: int)
      requires Inv(Now()) && t < live
      modifies this`fds, this`pipes
      ensures Now() == Close(old(Now()), t, fd) && Inv(Now())
      ensures r == if 3 <= fd < MAX_FDS then 0 else -1
      ensures r == 0 ==> fds == old(fds)[t := old(fds)[t][fd := Empty]]
      ensures r == -1 ==> Now() == old(Now())
    {
      if fd < 0 || fd >= MAX_FDS || fd < 3 { return -1; }
      ReleaseKeeps(Now(), lost, t, fd);
      assert Names(Now(), fds[t][fd]);
      PipeCloseEnd(fds[t][fd]);
      fds := fds[t := fds[t][fd := Empty]];
      return 0;
    }

    method TaskCloseFds(t: nat)
      requires Inv(Now()) && t < live
      modifies this`fds, this`pipes
      ensures Now() == CloseFrom(old(Now()), t, 0) && Inv(Now())
      ensures fds == old(fds)[t := Blank()]
    {
      ghost var was := Now();
      CloseFromKeeps(was, t, 0);
      CloseFromEmpties(was, t, 0);
      var i: nat := 0;
      while i < MAX_FDS
        invariant i <= MAX_FDS && Inv(Now()) && live == was.live && lost == was.lost
        invariant CloseFrom(Now(), t, i) == CloseFrom(was, t, 0)
      {
        ReleaseKeeps(Now(), lost, t, i);
        assert Names(Now(), fds[t][i]);
        ghost var before := Now();
        if fds[t][i].End? {
          PipeCloseEnd(fds[t][i]);
          fds := fds[t := fds[t][i := Empty]];
        } else {
          assert fds[t][i := Empty] == fds[t];
          assert fds[t := fds[t]] == fds;
        }
        assert Now() == Release(before, t, i);
        i := i + 1;
      }
    }

    // Copies the descriptors of src into the spare table dst.
    method TaskCopyFds(dst: nat, src: nat)
      requires Inv(Now()) && src < live <= dst < MAX_TASKS
      modifies this`fds, this`pipes
      ensures Now() == CopyFrom(old(Now()), dst, src, 0)
      ensures fds == old(fds)[dst := old(fds)[src]]
    {
      ghost var was := Now();
      CopyFromKeeps(was, lost, dst, src, 0);
      var i: nat := 0;
      ghost var extra := lost;
      while i < MAX_FDS
        invariant i <= MAX_FDS && Account(Now(), extra) && live == was.live && lost == was.lost
        invariant CopyFrom(Now(), dst, src, i) == CopyFrom(was, dst, src, 0)
      {
        CopyTurn(Now(), extra, dst, src, i);
        extra := extra + multiset{fds[src][i]};
        ghost var before := Now();
        var x := fds[src][i];
        assert Names(before, x);
        fds := fds[dst := fds[dst][i := x]];
        PipeRefInc(x);
        assert Now() == Hold(Put(before, dst, i, x), x);
        i := i + 1;
      }
    }

    // The descriptor part of fork; `fits` tells whether the stack and the page
    // tables of the child could be allocated.
    method SysFork(t: nat, fits: bool) returns (child: int)
      requires Inv(Now()) && t < live
      modifies this
      ensures Now() == Fork(old(Now()), t, fits) && Inv(Now())
      ensures child == if old(live) < MAX_TASKS && fits then old(live) else -1
      ensures child != -1 ==> live == old(live) + 1 && fds == old(fds)[child := old(fds)[t]]
    {
      ForkKeeps(Now(), t, fits);
      if live >= MAX_TASKS { return -1; }
      TaskCopyFds(live, t);
      if !fits {
        lost := lost + multiset(old(fds)[t]);
        return -1;
      }
      child := live;
      live := live + 1;
    }
  }
}
