/**
 * The directory tree of TinyFS, without its blocks: which inodes are in use and
 * what the directories among them contain.
 *
 * The file system's operations change the tree in three ways, Attach, Detach
 * and Move, and each keeps it well formed.
 */
module FsTree {
  const SLOTS: nat := 128      // entries in a directory block
  const NAME_MAX: nat := 27    // characters of a stored name

  // An empty name marks a free entry.
  datatype Dirent = Dirent(inode: nat, name: string)

  datatype Tree = Tree(live: set<nat>, dirs: map<nat, seq<Dirent>>)

  predicate Dot(n: string) { n == "." || n == ".." }
  predicate Proper(n: string) { n != "" && !Dot(n) }

  // ---------------------------------------------------------------- searching a directory

  function FindName(es: seq<Dirent>, name: string, i: nat): nat
    decreases |es| - i
  {
    if i >= |es| || (es[i].name != "" && es[i].name == name) then i else FindName(es, name, i + 1)
  }

  function FreeSlot(es: seq<Dirent>, i: nat): nat
    decreases |es| - i
  {
    if i >= |es| || es[i].name == "" then i else FreeSlot(es, i + 1)
  }

  lemma {:induction false} FindNameIs(es: seq<Dirent>, name: string, i: nat)
    requires i <= |es|
    ensures var k := FindName(es, name, i);
            && i <= k <= |es|
            && (k < |es| ==> es[k].name == name && name != "")
            && (forall j :: i <= j < k ==> es[j].name == "" || es[j].name != name)
    decreases |es| - i
  {
    if i < |es| { FindNameIs(es, name, i + 1); }
  }

  lemma {:induction false} FreeSlotIs(es: seq<Dirent>, i: nat)
    requires i <= |es|
    ensures var k := FreeSlot(es, i);
            && i <= k <= |es|
            && (k < |es| ==> es[k].name == "")
            && (forall j :: i <= j < k ==> es[j].name != "")
    decreases |es| - i
  {
    if i < |es| { FreeSlotIs(es, i + 1); }
  }

  // Once a free slot is filled, its entry is found if it comes first.
  lemma {:induction false} FindNameSet(es: seq<Dirent>, j: nat, x: Dirent, name: string, i: nat)
    requires j < |es| && es[j].name == "" && i <= |es|
    ensures var k := FindName(es, name, i);
            FindName(es[j := x], name, i) == if name != "" && x.name == name && i <= j < k then j else k
    decreases |es| - i
  {
    FindNameIs(es, name, i);
    if i < |es| { FindNameSet(es, j, x, name, i + 1); }
  }

  predicate Has(es: seq<Dirent>, name: string) { exists k :: 0 <= k < |es| && es[k].name == name }

  lemma FindNameHas(es: seq<Dirent>, name: string)
    requires name != ""
    ensures FindName(es, name, 0) < |es| <==> Has(es, name)
  {
    FindNameIs(es, name, 0);
  }

  // ---------------------------------------------------------------- well-formed trees

  predicate Differ(es: seq<Dirent>, j: nat, k: nat) {
    j < k < |es| && es[j].name != "" ==> es[j].name != es[k].name
  }

  predicate Distinct(es: seq<Dirent>) {
    forall j: nat, k: nat {:trigger Differ(es, j, k)} :: j < k < |es| ==> Differ(es, j, k)
  }

  // Entry k of directory d is a proper entry for inode i.
  predicate Holds(t: Tree, d: nat, k: nat, i: nat) {
    d in t.dirs && k < |t.dirs[d]| && Proper(t.dirs[d][k].name) && t.dirs[d][k].inode == i
  }

  predicate Parent(t: Tree, p: nat, d: nat) {
    p in t.dirs && exists k :: 0 <= k < |t.dirs[p]| && Holds(t, p, k, d)
  }

  predicate EntryOk(t: Tree, d: nat, e: Dirent) {
    e.name != "" ==>
      && |e.name| <= NAME_MAX
      && e.inode in t.live
      && (Proper(e.name) ==> e.inode != 0)
      && (e.name == "." ==> e.inode == d)
      && (e.name == ".." ==> if d == 0 then e.inode == 0 else Parent(t, e.inode, d))
  }

  predicate SlotOk(t: Tree, d: nat, k: nat) {
    d in t.dirs && k < |t.dirs[d]| ==> EntryOk(t, d, t.dirs[d][k])
  }

  predicate NamesOk(es: seq<Dirent>) {
    |es| == SLOTS && Distinct(es) && Has(es, ".") && Has(es, "..")
  }

  predicate DirOk(t: Tree, d: nat)
    requires d in t.dirs
  {
    && NamesOk(t.dirs[d])
    && forall k: nat {:trigger SlotOk(t, d, k)} :: k < SLOTS ==> SlotOk(t, d, k)
  }

  // No inode has two proper entries.
  predicate Alone(t: Tree, d: nat, k: nat, e: nat, j: nat, i: nat) {
    Holds(t, d, k, i) && Holds(t, e, j, i) ==> d == e && k == j
  }

  ghost predicate Once(t: Tree) {
    forall d: nat, k: nat, e: nat, j: nat, i: nat {:trigger Alone(t, d, k, e, j, i)} :: Alone(t, d, k, e, j, i)
  }

  ghost predicate Somewhere(t: Tree, i: nat) { exists d, k :: Holds(t, d, k, i) }

  // Every inode in use but the root has a proper entry.
  ghost predicate Placed(t: Tree) {
    forall i :: i in t.live && i != 0 ==> Somewhere(t, i)
  }

  ghost predicate TreeOk(t: Tree) {
    && 0 in t.dirs && t.dirs.Keys <= t.live
    && (forall d :: d in t.dirs ==> DirOk(t, d))
    && Once(t) && Placed(t)
  }

  // ---------------------------------------------------------------- the three changes

  function SetEntry(t: Tree, d: nat, k: nat, e: Dirent): Tree
    requires d in t.dirs && k < |t.dirs[d]|
  {
    t.(dirs := t.dirs[d := t.dirs[d][k := e]])
  }

  const FreeEntry := Dirent(0, "")

  // The block of a new directory i below p.
  function Dots(i: nat, p: nat): seq<Dirent> {
    [Dirent(i, "."), Dirent(p, "..")] + seq(SLOTS - 2, _ => FreeEntry)
  }

  // A new inode i, entered as `name` in slot k of directory d.
  function Attach(t: Tree, d: nat, k: nat, i: nat, name: string, dir: bool): Tree
    requires d in t.dirs && k < |t.dirs[d]|
  {
    var u := SetEntry(t, d, k, Dirent(i, name));
    Tree(t.live + {i}, if dir then u.dirs[i := Dots(i, d)] else u.dirs)
  }

  function Detach(t: Tree, d: nat, k: nat, i: nat): Tree
    requires d in t.dirs && k < |t.dirs[d]|
  {
    var u := SetEntry(t, d, k, FreeEntry);
    Tree(t.live - {i}, u.dirs - {i})
  }

  function Move(t: Tree, d: nat, k: nat, e: nat, j: nat, i: nat, name: string): Tree
    requires d in t.dirs && k < |t.dirs[d]| && e in t.dirs && j < |t.dirs[e]|
  {
    var u := SetEntry(t, e, j, Dirent(i, name));
    SetEntry(u, d, k, FreeEntry)
  }

  // ---------------------------------------------------------------- Attach

  predicate Attachable(t: Tree, d: nat, k: nat, i: nat, name: string) {
    && d in t.dirs && k < |t.dirs[d]| && t.dirs[d][k].name == ""
    && i !in t.live && i != 0
    && Proper(name) && |name| <= NAME_MAX && !Has(t.dirs[d], name)
  }

  lemma AttachHolds(t: Tree, d: nat, k: nat, i: nat, name: string, dir: bool, e: nat, j: nat, x: nat)
    requires Attachable(t, d, k, i, name) && i !in t.dirs
    ensures Holds(Attach(t, d, k, i, name, dir), e, j, x) <==> (Holds(t, e, j, x) || (e == d && j == k && x == i))
  {
    var r := Attach(t, d, k, i, name, dir);
    if e == i && dir {
      assert r.dirs[e] == Dots(i, d);
      assert j < SLOTS ==> !Proper(Dots(i, d)[j].name);
    }
  }

  lemma AttachEntry(t: Tree, d: nat, k: nat, i: nat, name: string, dir: bool, e: nat, x: Dirent)
    requires Attachable(t, d, k, i, name) && i !in t.dirs && EntryOk(t, e, x)
    ensures EntryOk(Attach(t, d, k, i, name, dir), e, x)
  {
    var r := Attach(t, d, k, i, name, dir);
    if x.name == ".." && e != 0 {
      var m :| 0 <= m < |t.dirs[x.inode]| && Holds(t, x.inode, m, e);
      AttachHolds(t, d, k, i, name, dir, x.inode, m, e);
    }
  }

  // The new directory.
  lemma DotsOk(t: Tree, i: nat, p: nat)
    requires i in t.live && p in t.live && i != 0 && Parent(t, p, i)
    requires i in t.dirs && t.dirs[i] == Dots(i, p)
    ensures DirOk(t, i)
  {
    var es := Dots(i, p);
    assert es[0].name == "." && es[1].name == "..";
    forall k: nat | k < SLOTS ensures SlotOk(t, i, k) {
      assert k >= 2 ==> es[k] == FreeEntry;
    }
  }

  lemma AttachDir(t: Tree, d: nat, k: nat, i: nat, name: string, dir: bool, e: nat)
    requires Attachable(t, d, k, i, name) && i !in t.dirs
    requires e in t.dirs && DirOk(t, e)
    ensures DirOk(Attach(t, d, k, i, name, dir), e)
  {
    var r := Attach(t, d, k, i, name, dir);
    var es := t.dirs[e];
    forall m: nat | m < SLOTS ensures SlotOk(r, e, m) {
      assert SlotOk(t, e, m);
      if e != d || m != k { AttachEntry(t, d, k, i, name, dir, e, es[m]); }
    }
    if e == d { KeepsNames(es, k, Dirent(i, name)); }
  }

  // Replacing a free entry by one with a new name.
  lemma KeepsNames(es: seq<Dirent>, k: nat, e: Dirent)
    requires NamesOk(es) && k < |es| && es[k].name == "" && !Has(es, e.name)
    ensures NamesOk(es[k := e])
  {
    var r := es[k := e];
    var a :| 0 <= a < |es| && es[a].name == ".";
    var b :| 0 <= b < |es| && es[b].name == "..";
    assert r[a].name == "." && r[b].name == "..";
    forall m: nat, n: nat | m < n < |r| ensures Differ(r, m, n) {
      assert Differ(es, m, n);
      assert m != k ==> es[m].name != e.name;
      assert n != k ==> es[n].name != e.name;
    }
  }

  lemma AttachKeeps(t: Tree, d: nat, k: nat, i: nat, name: string, dir: bool)
    requires TreeOk(t) && Attachable(t, d, k, i, name)
    ensures TreeOk(Attach(t, d, k, i, name, dir))
  {
    var r := Attach(t, d, k, i, name, dir);
    AttachHolds(t, d, k, i, name, dir, d, k, i);
    forall e | e in r.dirs ensures DirOk(r, e) {
      if e == i { DotsOk(r, i, d); } else { AttachDir(t, d, k, i, name, dir, e); }
    }
    AttachOnce(t, d, k, i, name, dir);
    forall x | x in r.live && x != 0 ensures Somewhere(r, x) {
      if x != i {
        assert Somewhere(t, x);
        var e, j :| Holds(t, e, j, x);
        AttachHolds(t, d, k, i, name, dir, e, j, x);
      }
    }
  }

  lemma AttachOnce(t: Tree, d: nat, k: nat, i: nat, name: string, dir: bool)
    requires TreeOk(t) && Attachable(t, d, k, i, name)
    ensures Once(Attach(t, d, k, i, name, dir))
  {
    var r := Attach(t, d, k, i, name, dir);
    forall e: nat, j: nat, f: nat, m: nat, x: nat ensures Alone(r, e, j, f, m, x) {
      AttachHolds(t, d, k, i, name, dir, e, j, x);
      AttachHolds(t, d, k, i, name, dir, f, m, x);
      assert Alone(t, e, j, f, m, x);
      NotHeld(t, i, e, j);
      NotHeld(t, i, f, m);
    }
  }

  // No entry names an inode that is not in use.
  lemma NotHeld(t: Tree, i: nat, d: nat, k: nat)
    requires TreeOk(t) && i !in t.live
    ensures !Holds(t, d, k, i)
  {
    if d in t.dirs { assert DirOk(t, d) && SlotOk(t, d, k); }
  }

  // ---------------------------------------------------------------- Detach

  // Only the entries "." and "..".
  predicate Bare(es: seq<Dirent>) {
    forall k :: 0 <= k < |es| && es[k].name != "" ==> Dot(es[k].name)
  }

  predicate Detachable(t: Tree, d: nat, k: nat, i: nat) {
    Holds(t, d, k, i) && (i in t.dirs ==> Bare(t.dirs[i]))
  }

  lemma DetachHolds(t: Tree, d: nat, k: nat, i: nat, e: nat, j: nat, x: nat)
    requires Detachable(t, d, k, i) && Once(t)
    ensures d != i
    ensures Holds(Detach(t, d, k, i), e, j, x) <==> (Holds(t, e, j, x) && x != i)
  {
    assert Alone(t, e, j, d, k, i);
  }

  lemma DetachEntry(t: Tree, d: nat, k: nat, i: nat, e: nat, j: nat)
    requires Detachable(t, d, k, i) && Once(t)
    requires e in t.dirs && e != i && j < |t.dirs[e]| && (e != d || j != k) && SlotOk(t, e, j)
    ensures EntryOk(Detach(t, d, k, i), e, t.dirs[e][j])
  {
    var x := t.dirs[e][j];
    DetachHolds(t, d, k, i, e, j, x.inode);
    assert Alone(t, e, j, d, k, i);
    if x.name == ".." && e != 0 {
      var m :| 0 <= m < |t.dirs[x.inode]| && Holds(t, x.inode, m, e);
      DetachHolds(t, d, k, i, x.inode, m, e);
    }
  }

  // Freeing an entry with a proper name.
  lemma DropsName(es: seq<Dirent>, k: nat)
    requires NamesOk(es) && k < |es| && Proper(es[k].name)
    ensures NamesOk(es[k := FreeEntry])
  {
    var r := es[k := FreeEntry];
    var a :| 0 <= a < |es| && es[a].name == ".";
    var b :| 0 <= b < |es| && es[b].name == "..";
    assert r[a].name == "." && r[b].name == "..";
    forall m: nat, n: nat | m < n < |r| ensures Differ(r, m, n) { assert Differ(es, m, n); }
  }

  lemma DetachDir(t: Tree, d: nat, k: nat, i: nat, e: nat)
    requires Detachable(t, d, k, i) && Once(t) && e in t.dirs && e != i && DirOk(t, e)
    ensures e in Detach(t, d, k, i).dirs && DirOk(Detach(t, d, k, i), e)
  {
    var r := Detach(t, d, k, i);
    DetachHolds(t, d, k, i, d, k, i);
    forall m: nat | m < SLOTS ensures SlotOk(r, e, m) {
      assert SlotOk(t, e, m);
      if e != d || m != k { DetachEntry(t, d, k, i, e, m); }
    }
    if e == d { DropsName(t.dirs[e], k); }
  }

  lemma DetachKeeps(t: Tree, d: nat, k: nat, i: nat)
    requires TreeOk(t) && Detachable(t, d, k, i)
    ensures TreeOk(Detach(t, d, k, i))
  {
    var r := Detach(t, d, k, i);
    assert DirOk(t, d) && SlotOk(t, d, k);
    forall e | e in r.dirs ensures DirOk(r, e) { DetachDir(t, d, k, i, e); }
    forall e: nat, j: nat, f: nat, m: nat, x: nat ensures Alone(r, e, j, f, m, x) {
      DetachHolds(t, d, k, i, e, j, x);
      DetachHolds(t, d, k, i, f, m, x);
      assert Alone(t, e, j, f, m, x);
    }
    forall x | x in r.live && x != 0 ensures Somewhere(r, x) {
      assert Somewhere(t, x);
      var e, j :| Holds(t, e, j, x);
      DetachHolds(t, d, k, i, e, j, x);
    }
    DetachHolds(t, d, k, i, d, k, i);
  }

  // A directory loses one of its dots.
  lemma DotLost(t: Tree, d: nat, k: nat, i: nat)
    requires d in t.dirs && NamesOk(t.dirs[d]) && k < |t.dirs[d]| && Dot(t.dirs[d][k].name) && d != i
    ensures !TreeOk(Detach(t, d, k, i))
  {
    var r := Detach(t, d, k, i);
    NameGone(t.dirs[d], k, t.dirs[d][k].name);
    assert d in r.dirs && !DirOk(r, d);
  }

  // A bare directory goes by its own dot entry, and its parent's entry stays.
  lemma EntryStays(t: Tree, k: nat, i: nat, f: nat, m: nat)
    requires i in t.dirs && k < |t.dirs[i]| && Bare(t.dirs[i]) && Holds(t, f, m, i) && NamesOk(t.dirs[f])
    ensures !TreeOk(Detach(t, i, k, i))
  {
    var r := Detach(t, i, k, i);
    assert f != i && r.dirs[f] == t.dirs[f] && !SlotOk(r, f, m);
    assert !DirOk(r, f);
  }

  // Freeing an inode other than the one whose entry goes, or a directory by its
  // own dot entry, breaks the tree.
  lemma DetachBreaks(t: Tree, d: nat, k: nat, i: nat)
    requires TreeOk(t) && d in t.dirs && k < |t.dirs[d]| && t.dirs[d][k].name != ""
    requires i in t.live && (i in t.dirs ==> Bare(t.dirs[i])) && !Holds(t, d, k, i)
    ensures !TreeOk(Detach(t, d, k, i))
  {
    assert DirOk(t, d);
    if Proper(t.dirs[d][k].name) {
      assert SlotOk(t, d, k);
      Unplaced(t, d, k, i);
    } else if d != i {
      DotLost(t, d, k, i);
    } else if i != 0 {
      assert Somewhere(t, i);
      var f, m :| Holds(t, f, m, i);
      assert DirOk(t, f);
      EntryStays(t, k, i, f, m);
    }
  }

  // The inode whose only entry went is still in use.
  lemma Unplaced(t: Tree, d: nat, k: nat, i: nat)
    requires Once(t) && d in t.dirs && k < |t.dirs[d]| && Proper(t.dirs[d][k].name) && SlotOk(t, d, k)
    requires (i in t.dirs ==> Bare(t.dirs[i])) && t.dirs[d][k].inode != i
    ensures !Placed(Detach(t, d, k, i))
  {
    var r, x := Detach(t, d, k, i), t.dirs[d][k].inode;
    assert Holds(t, d, k, x);
    forall f: nat, m: nat ensures !Holds(r, f, m, x) { assert Alone(t, f, m, d, k, x); }
    assert x in r.live && x != 0 && !Somewhere(r, x);
  }

  // Freeing the entry of a name leaves none.
  lemma NameGone(es: seq<Dirent>, k: nat, name: string)
    requires Distinct(es) && k < |es| && es[k].name == name && name != ""
    ensures !Has(es[k := FreeEntry], name)
  {
    forall m | 0 <= m < |es| && m != k ensures es[m].name != name {
      assert Differ(es, m, k) && Differ(es, k, m);
    }
  }

  // ---------------------------------------------------------------- Move

  // No entry of directory e has this name, except perhaps entry k of d.
  predicate Vacant(t: Tree, d: nat, k: nat, e: nat, name: string)
    requires e in t.dirs
  {
    forall m :: 0 <= m < |t.dirs[e]| && t.dirs[e][m].name == name ==> d == e && m == k
  }

  // An entry moves to a free slot, under a name that nothing else has there.
  predicate Movable(t: Tree, d: nat, k: nat, e: nat, j: nat, i: nat, name: string) {
    && Holds(t, d, k, i)
    && e in t.dirs && j < |t.dirs[e]| && t.dirs[e][j].name == ""
    && Proper(name) && |name| <= NAME_MAX && Vacant(t, d, k, e, name)
  }

  lemma MoveHolds(t: Tree, d: nat, k: nat, e: nat, j: nat, i: nat, name: string, f: nat, m: nat, x: nat)
    requires Movable(t, d, k, e, j, i, name) && Once(t)
    ensures Holds(Move(t, d, k, e, j, i, name), f, m, x) <==>
            (if x == i then f == e && m == j else Holds(t, f, m, x))
  {
    assert Alone(t, f, m, d, k, i);
  }

  lemma MoveEntry(t: Tree, d: nat, k: nat, e: nat, j: nat, i: nat, name: string, f: nat, m: nat)
    requires Movable(t, d, k, e, j, i, name) && Once(t)
    requires f in t.dirs && m < |t.dirs[f]| && SlotOk(t, f, m) && (i in t.dirs ==> d == e)
    ensures EntryOk(Move(t, d, k, e, j, i, name), f, t.dirs[f][m])
  {
    var x := t.dirs[f][m];
    if x.name == ".." && f != 0 {
      var n :| 0 <= n < |t.dirs[x.inode]| && Holds(t, x.inode, n, f);
      assert Alone(t, x.inode, n, d, k, i);
      MoveHolds(t, d, k, e, j, i, name, x.inode, n, f);
      MoveHolds(t, d, k, e, j, i, name, e, j, i);
    }
  }

  lemma MoveDir(t: Tree, d: nat, k: nat, e: nat, j: nat, i: nat, name: string, f: nat)
    requires Movable(t, d, k, e, j, i, name) && Once(t) && f in t.dirs && DirOk(t, f)
    requires i in t.live && i != 0 && (i in t.dirs ==> d == e)
    ensures DirOk(Move(t, d, k, e, j, i, name), f)
  {
    var r := Move(t, d, k, e, j, i, name);
    forall m: nat | m < SLOTS ensures SlotOk(r, f, m) {
      assert SlotOk(t, f, m);
      MoveEntry(t, d, k, e, j, i, name, f, m);
      assert r.dirs[f][m] == t.dirs[f][m] || r.dirs[f][m] == FreeEntry || r.dirs[f][m] == Dirent(i, name);
    }
    MovedNamesOk(t, d, k, e, j, i, name, f);
  }

  lemma MovedNamesOk(t: Tree, d: nat, k: nat, e: nat, j: nat, i: nat, name: string, f: nat)
    requires Movable(t, d, k, e, j, i, name) && f in t.dirs && NamesOk(t.dirs[f])
    ensures NamesOk(Move(t, d, k, e, j, i, name).dirs[f])
  {
    var es, x := t.dirs[f], Dirent(i, name);
    if f == d { DropsName(es, k); es := es[k := FreeEntry]; }
    if f == e {
      KeepsNames(es, j, x);
      if f == d { assert es[j := x] == t.dirs[f][j := x][k := FreeEntry]; }
    }
  }

  lemma MovedLive(t: Tree, d: nat, k: nat, i: nat)
    requires TreeOk(t) && Holds(t, d, k, i)
    ensures i in t.live && i != 0
  {
    assert DirOk(t, d) && SlotOk(t, d, k);
  }

  lemma MoveKeeps(t: Tree, d: nat, k: nat, e: nat, j: nat, i: nat, name: string)
    requires TreeOk(t) && Movable(t, d, k, e, j, i, name) && (i in t.dirs ==> d == e)
    ensures TreeOk(Move(t, d, k, e, j, i, name))
  {
    var r := Move(t, d, k, e, j, i, name);
    MovedLive(t, d, k, i);
    forall f | f in r.dirs ensures DirOk(r, f) { MoveDir(t, d, k, e, j, i, name, f); }
    MoveOnce(t, d, k, e, j, i, name);
    MovePlaced(t, d, k, e, j, i, name);
  }

  lemma MoveOnce(t: Tree, d: nat, k: nat, e: nat, j: nat, i: nat, name: string)
    requires Once(t) && Movable(t, d, k, e, j, i, name)
    ensures Once(Move(t, d, k, e, j, i, name))
  {
    var r := Move(t, d, k, e, j, i, name);
    forall f: nat, m: nat, g: nat, n: nat, x: nat ensures Alone(r, f, m, g, n, x) {
      MoveHolds(t, d, k, e, j, i, name, f, m, x);
      MoveHolds(t, d, k, e, j, i, name, g, n, x);
      assert Alone(t, f, m, g, n, x);
    }
  }

  lemma MovePlaced(t: Tree, d: nat, k: nat, e: nat, j: nat, i: nat, name: string)
    requires Once(t) && Placed(t) && Movable(t, d, k, e, j, i, name)
    ensures Placed(Move(t, d, k, e, j, i, name))
  {
    var r := Move(t, d, k, e, j, i, name);
    forall x | x in r.live && x != 0 ensures Somewhere(r, x) {
      assert Somewhere(t, x);
      var f, m :| Holds(t, f, m, x);
      MoveHolds(t, d, k, e, j, i, name, f, m, x);
      MoveHolds(t, d, k, e, j, i, name, e, j, i);
    }
  }

  // Moving a directory's entry to another directory leaves its ".." wrong.
  lemma MoveBreaks(t: Tree, d: nat, k: nat, e: nat, j: nat, i: nat, name: string)
    requires TreeOk(t) && Movable(t, d, k, e, j, i, name) && i in t.dirs && d != e
    ensures !TreeOk(Move(t, d, k, e, j, i, name))
  {
    var r := Move(t, d, k, e, j, i, name);
    assert DirOk(t, d) && SlotOk(t, d, k) && DirOk(t, i);
    var m :| 0 <= m < |t.dirs[i]| && t.dirs[i][m].name == "..";
    assert SlotOk(t, i, m);
    MovedDots(t, d, k, e, j, i, name, m);
    assert TreeOk(r) ==> DirOk(r, i);
  }

  // After the move the directory that ".." names does not hold this one.
  lemma MovedDots(t: Tree, d: nat, k: nat, e: nat, j: nat, i: nat, name: string, m: nat)
    requires Once(t) && Movable(t, d, k, e, j, i, name) && i in t.dirs && i != 0 && d != e
    requires m < |t.dirs[i]| && t.dirs[i][m].name == ".." && SlotOk(t, i, m)
    ensures !SlotOk(Move(t, d, k, e, j, i, name), i, m)
  {
    var r := Move(t, d, k, e, j, i, name);
    var p := t.dirs[i][m].inode;
    var n :| 0 <= n < |t.dirs[p]| && Holds(t, p, n, i);
    assert Alone(t, p, n, d, k, i);
    assert r.dirs[i][m] == t.dirs[i][m];
    forall x | 0 <= x < |r.dirs[d]| ensures !Holds(r, d, x, i) { MoveHolds(t, d, k, e, j, i, name, d, x, i); }
  }

  // ---------------------------------------------------------------- a second entry that goes again

  lemma ClearNames(es: seq<Dirent>, j: nat)
    requires NamesOk(es) && j < |es| && es[j].name == ""
    ensures NamesOk(es[j := FreeEntry])
  {
    var r := es[j := FreeEntry];
    var a :| 0 <= a < |es| && es[a].name == ".";
    var b :| 0 <= b < |es| && es[b].name == "..";
    assert r[a].name == "." && r[b].name == "..";
    forall m: nat, n: nat | m < n < |r| ensures Differ(r, m, n) { assert Differ(es, m, n); }
  }

  lemma ClearEntry(t: Tree, d: nat, j: nat, f: nat, x: Dirent)
    requires d in t.dirs && j < |t.dirs[d]| && t.dirs[d][j].name == "" && EntryOk(t, f, x)
    ensures EntryOk(SetEntry(t, d, j, FreeEntry), f, x)
  {
    var r := SetEntry(t, d, j, FreeEntry);
    if x.name == ".." && f != 0 {
      var n :| 0 <= n < |t.dirs[x.inode]| && Holds(t, x.inode, n, f);
      assert Holds(r, x.inode, n, f);
    }
  }

  // A free entry may be cleared.
  lemma ClearKeeps(t: Tree, d: nat, j: nat)
    requires TreeOk(t) && d in t.dirs && j < |t.dirs[d]| && t.dirs[d][j].name == ""
    ensures TreeOk(SetEntry(t, d, j, FreeEntry))
  {
    var r := SetEntry(t, d, j, FreeEntry);
    assert forall f: nat, m: nat, x: nat :: Holds(r, f, m, x) <==> Holds(t, f, m, x);
    forall f | f in r.dirs ensures DirOk(r, f) {
      assert DirOk(t, f);
      ClearNames(t.dirs[d], j);
      forall m: nat | m < SLOTS ensures SlotOk(r, f, m) {
        assert SlotOk(t, f, m);
        ClearEntry(t, d, j, f, t.dirs[f][m]);
      }
    }
    forall f: nat, m: nat, g: nat, n: nat, x: nat ensures Alone(r, f, m, g, n, x) { assert Alone(t, f, m, g, n, x); }
    forall x | x in r.live && x != 0 ensures Somewhere(r, x) {
      assert Somewhere(t, x);
      var f, m :| Holds(t, f, m, x);
      assert Holds(r, f, m, x);
    }
  }

  // ---------------------------------------------------------------- a move of any kind

  // Inode i, in use, can be entered in the free slot j of e.
  predicate Enterable(t: Tree, e: nat, j: nat, i: nat, name: string) {
    && e in t.dirs && j < |t.dirs[e]| && t.dirs[e][j].name == "" && Proper(name) && |name| <= NAME_MAX
    && i in t.live
  }

  predicate Going(t: Tree, d: nat, q: nat) { d in t.dirs && q < |t.dirs[d]| && t.dirs[d][q].name != "" }

  // A second entry for an inode in use.
  lemma EnteredTwice(t: Tree, e: nat, j: nat, i: nat, name: string)
    requires TreeOk(t) && Enterable(t, e, j, i, name)
    ensures !TreeOk(SetEntry(t, e, j, Dirent(i, name)))
  {
    var r := SetEntry(t, e, j, Dirent(i, name));
    assert Holds(r, e, j, i);
    assert |t.dirs[e]| == SLOTS by { assert DirOk(t, e); }
    if i == 0 {
      assert !SlotOk(r, e, j);
      assert !DirOk(r, e);
    } else {
      assert Somewhere(t, i);
      var f, m :| Holds(t, f, m, i);
      assert Holds(r, f, m, i) && !Alone(r, f, m, e, j, i);
    }
  }

  // The new entry goes again.
  lemma EnteredAndCleared(t: Tree, d: nat, j: nat, i: nat, name: string)
    requires TreeOk(t) && Enterable(t, d, j, i, name)
    ensures TreeOk(Move(t, d, j, d, j, i, name))
  {
    assert t.dirs[d][j := Dirent(i, name)][j := FreeEntry] == t.dirs[d][j := FreeEntry];
    assert Move(t, d, j, d, j, i, name) == SetEntry(t, d, j, FreeEntry);
    ClearKeeps(t, d, j);
  }

  // A dot entry that goes is missing afterwards.
  lemma DotMoved(t: Tree, d: nat, q: nat, e: nat, j: nat, i: nat, name: string)
    requires Enterable(t, e, j, i, name) && Going(t, d, q) && NamesOk(t.dirs[d]) && Dot(t.dirs[d][q].name)
    ensures !TreeOk(Move(t, d, q, e, j, i, name))
  {
    var r, es := Move(t, d, q, e, j, i, name), t.dirs[d];
    NameGone(es, q, es[q].name);
    var gs := es[q := FreeEntry];
    assert r.dirs[d] == if d == e then gs[j := Dirent(i, name)] else gs;
    assert !DirOk(r, d);
  }

  // The entry of another inode goes, and with it that inode's only place.
  lemma OtherMoved(t: Tree, d: nat, q: nat, e: nat, j: nat, i: nat, name: string)
    requires Once(t) && Enterable(t, e, j, i, name) && Going(t, d, q) && SlotOk(t, d, q)
    requires Proper(t.dirs[d][q].name) && t.dirs[d][q].inode != i
    ensures !Placed(Move(t, d, q, e, j, i, name))
  {
    var r, x := Move(t, d, q, e, j, i, name), t.dirs[d][q].inode;
    assert Holds(t, d, q, x);
    forall f: nat, m: nat ensures !Holds(r, f, m, x) { assert Alone(t, f, m, d, q, x); }
    assert x in r.live && x != 0 && !Somewhere(r, x);
  }

  // Two entries of e have the new name.
  lemma NamedTwice(t: Tree, d: nat, q: nat, e: nat, j: nat, i: nat, name: string)
    requires Enterable(t, e, j, i, name) && Going(t, d, q) && !Vacant(t, d, q, e, name)
    ensures !TreeOk(Move(t, d, q, e, j, i, name))
  {
    var r := Move(t, d, q, e, j, i, name);
    var m :| 0 <= m < |t.dirs[e]| && t.dirs[e][m].name == name && !(d == e && m == q);
    var es := r.dirs[e];
    assert es[m].name == name && es[j].name == name && m != j;
    assert !Differ(es, if m < j then m else j, if m < j then j else m);
    assert !DirOk(r, e);
  }

  // The tree stays well formed exactly when the entry that goes is a proper one
  // for the same inode, a directory stays in its parent, and nothing else there
  // has the new name.
  lemma MoveKeepsIff(t: Tree, d: nat, q: nat, e: nat, j: nat, i: nat, name: string)
    requires TreeOk(t) && Enterable(t, e, j, i, name) && Going(t, d, q)
    ensures TreeOk(Move(t, d, q, e, j, i, name)) <==>
            Holds(t, d, q, i) && (i in t.dirs ==> d == e) && Vacant(t, d, q, e, name)
  {
    assert DirOk(t, d);
    if Dot(t.dirs[d][q].name) {
      DotMoved(t, d, q, e, j, i, name);
    } else if t.dirs[d][q].inode != i {
      assert SlotOk(t, d, q);
      OtherMoved(t, d, q, e, j, i, name);
    } else if !Vacant(t, d, q, e, name) {
      NamedTwice(t, d, q, e, j, i, name);
    } else if i in t.dirs && d != e {
      MoveBreaks(t, d, q, e, j, i, name);
    } else {
      MoveKeeps(t, d, q, e, j, i, name);
    }
  }

  // Whether another entry has the name, said without the slot.
  lemma VacantIff(t: Tree, d: nat, q: nat, e: nat, name: string)
    requires Going(t, d, q) && e in t.dirs && Distinct(t.dirs[d])
    ensures Vacant(t, d, q, e, name) <==> !Has(t.dirs[e], name) || (d == e && name == t.dirs[d][q].name)
  {
    if d == e && name == t.dirs[d][q].name {
      forall m | 0 <= m < |t.dirs[d]| && t.dirs[d][m].name == name ensures m == q {
        assert Differ(t.dirs[d], m, q) && Differ(t.dirs[d], q, m);
      }
    }
  }

  // ---------------------------------------------------------------- damage that a new entry does not repair

  // An inode in use is entered nowhere, or a directory has no dot entry that
  // leads to a directory.
  predicate DotLeadsOn(t: Tree, d: nat, k: nat, n: string)
    requires d in t.dirs
  {
    k < |t.dirs[d]| && t.dirs[d][k].name == n && t.dirs[d][k].inode in t.dirs
  }

  ghost predicate Adrift(t: Tree, x: nat) { x in t.live && x != 0 && !Somewhere(t, x) }

  ghost predicate Undotted(t: Tree, d: nat, n: string) {
    d in t.dirs && Dot(n) && forall k: nat :: !DotLeadsOn(t, d, k, n)
  }

  ghost predicate Damaged(t: Tree) { (exists x :: Adrift(t, x)) || (exists d, n :: Undotted(t, d, n)) }

  lemma DamagedBreaks(t: Tree)
    requires Damaged(t)
    ensures !TreeOk(t)
  {
    if TreeOk(t) {
      if d, n :| Undotted(t, d, n) {
        assert DirOk(t, d);
        var k :| 0 <= k < |t.dirs[d]| && t.dirs[d][k].name == n;
        assert SlotOk(t, d, k);
        assert DotLeadsOn(t, d, k, n);
      }
    }
  }

  lemma AdriftStays(t: Tree, d: nat, k: nat, i: nat, name: string, x: nat)
    requires d in t.dirs && k < |t.dirs[d]| && i !in t.live && Adrift(t, x)
    ensures Adrift(Attach(t, d, k, i, name, false), x)
  {
    var r := Attach(t, d, k, i, name, false);
    forall f: nat, m: nat ensures !Holds(r, f, m, x) { assert !Holds(t, f, m, x); }
  }

  lemma UndottedStays(t: Tree, d: nat, k: nat, i: nat, name: string, e: nat, n: string)
    requires d in t.dirs && k < |t.dirs[d]| && i !in t.dirs && Undotted(t, e, n)
    ensures Undotted(Attach(t, d, k, i, name, false), e, n)
  {
    var r := Attach(t, d, k, i, name, false);
    forall m: nat ensures !DotLeadsOn(r, e, m, n) { assert !DotLeadsOn(t, e, m, n); }
  }

  lemma DamagedStays(t: Tree, d: nat, k: nat, i: nat, name: string)
    requires d in t.dirs && k < |t.dirs[d]| && i !in t.live && i !in t.dirs && Damaged(t)
    ensures Damaged(Attach(t, d, k, i, name, false))
  {
    if x :| Adrift(t, x) {
      AdriftStays(t, d, k, i, name, x);
    } else {
      var e, n :| Undotted(t, e, n);
      UndottedStays(t, d, k, i, name, e, n);
    }
  }

  // A file goes by an entry that is not its own.
  lemma DetachDamages(t: Tree, d: nat, k: nat, i: nat)
    requires TreeOk(t) && d in t.dirs && k < |t.dirs[d]| && t.dirs[d][k].name != ""
    requires i in t.live && i !in t.dirs && !Holds(t, d, k, i)
    ensures Damaged(Detach(t, d, k, i))
  {
    var r, x, n := Detach(t, d, k, i), t.dirs[d][k].inode, t.dirs[d][k].name;
    assert DirOk(t, d) && SlotOk(t, d, k);
    if Proper(n) {
      assert Holds(t, d, k, x);
      forall f: nat, m: nat ensures !Holds(r, f, m, x) { assert Alone(t, f, m, d, k, x); }
      assert Adrift(r, x);
    } else {
      NameGone(t.dirs[d], k, n);
      forall m: nat ensures !DotLeadsOn(r, d, m, n) { assert r.dirs[d] == t.dirs[d][k := FreeEntry]; }
      assert Undotted(r, d, n);
    }
  }
}
