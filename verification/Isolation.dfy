/**
 * Address spaces stay apart: whatever is done to some spaces, and whatever programs write,
 * the pages of every other space keep leading to the same frames.
 */
module Isolation {
  import opened Prelude
  import opened PageTables
  import opened PagingSteps
  import opened Paging
  import opened AddressSpaces
  import opened CowFork

  ghost function StepState(s: Vm, t: Vm, writers: set<nat>): Sealed {
    if && Wf(s) && Wf(t)
       && |s.roots| <= |t.roots| && t.roots[..|s.roots|] == s.roots
       && OwnerGrown(s, t.(roots := s.roots)) && TablesKept(s, t.(roots := s.roots), writers)
    then Intact else Broken
  }

  // One operation: between well-formed states only tables of the spaces in writers change,
  // and spaces are only added. The contents of data frames may change at will.
  ghost predicate Step(s: Vm, t: Vm, writers: set<nat>) {
    StepState(s, t, writers) == Intact
  }

  ghost predicate Run(ss: seq<Vm>, ws: seq<set<nat>>) {
    && |ss| == |ws| + 1
    && forall i :: 0 <= i < |ws| ==> Step(ss[i], ss[i + 1], ws[i])
  }

  // ---------------------------------------------------------------- what the operations ensure makes them steps

  // Map, Unmap, the fault handlers: Extends on the space they are given.
  lemma ExtendsIsStep(s: Vm, t: Vm, root: nat)
    requires Wf(s) && Wf(t) && Extends(s, t, {root})
    ensures Step(s, t, {root})
  {
    assert t.(roots := s.roots) == t;
  }

  // Create: no space at all is written.
  lemma CreateIsStep(s: Vm, t: Vm)
    requires Wf(s) && Wf(t) && Extends(s, t.(roots := s.roots), {})
    requires t.roots == s.roots || exists n :: t.roots == s.roots + [n]
    ensures Step(s, t, {})
  {
  }

  // A copy-on-write clone: its two spaces. An eager clone has src == dst.
  lemma CloneIsStep(s: Vm, t: Vm, src: nat, dst: nat)
    requires Wf(s) && Cloning(s, t, src, dst)
    ensures Step(s, t, {src, dst})
  {
    CloningFacts(s, t, src, dst);
    assert t.(roots := s.roots) == t;
  }

  // A program's write to any data frame: nothing is written as far as tables go.
  lemma WriteIsStep(s: Vm, f: nat, page: Page)
    requires Wf(s) && f < s.cur && f !in s.owner
    ensures Step(s, s.(mem := s.mem[f := page]), {})
  {
    var t := s.(mem := s.mem[f := page]);
    assert Owned(s);
    DataWrite(s, f, page);
    assert t.(roots := s.roots) == t;
  }

  // ---------------------------------------------------------------- whole runs

  lemma StepKeeps(s: Vm, t: Vm, writers: set<nat>, k: nat, v: Path)
    requires Step(s, t, writers) && k < |s.roots| && s.roots[k] !in writers && |v| == 4
    ensures k < |t.roots| && t.roots[k] == s.roots[k]
    ensures Translate(t.mem, s.roots[k], v) == Translate(s.mem, s.roots[k], v)
  {
    assert t.roots[..|s.roots|][k] == s.roots[k];
    assert SameTables(s, t.(roots := s.roots), s.roots[k]);
    assert IsRoot(s, s.roots[k]);
    SameTranslate(s, t.(roots := s.roots), s.roots[k], v);
  }

  // No run of steps on other spaces moves a page of space k.
  lemma {:induction false} OthersNeverMove(ss: seq<Vm>, ws: seq<set<nat>>, k: nat, n: nat, v: Path)
    requires Run(ss, ws) && k < |ss[0].roots| && n <= |ws| && |v| == 4
    requires forall i :: 0 <= i < n ==> ss[0].roots[k] !in ws[i]
    ensures k < |ss[n].roots| && ss[n].roots[k] == ss[0].roots[k]
    ensures Translate(ss[n].mem, ss[0].roots[k], v) == Translate(ss[0].mem, ss[0].roots[k], v)
  {
    if n > 0 {
      OthersNeverMove(ss, ws, k, n - 1, v);
      StepKeeps(ss[n - 1], ss[n], ws[n - 1], k, v);
    }
  }
}
