/**
 * Path names: resolution component by component, and the split of a path into
 * its parent and its last component, with the kernel's buffer limits.
 */
module Paths {
  import opened Prelude
  import opened FsTree
  import opened TinyFs
  import opened Vfs

  const COMPONENT_MAX: nat := 28   // characters of a component that are looked at
  const PARENT_MAX: nat := 255     // characters of a parent path that are looked at

  function Look(fs: Fs, d: nat, name: string): Option<nat> {
    if Found(fs, d, name) then Some(EntsAt(fs, d)[FindName(EntsAt(fs, d), name, 0)].inode) else None
  }

  function Step(fs: Fs, cur: nat, comp: string): Option<nat> {
    if comp == ".." then (if cur == 0 then Some(0) else Look(fs, cur, ".."))
    else if comp == "." then Some(cur)
    else Look(fs, cur, comp)
  }

  function Close(fs: Fs, cur: nat, comp: string): Option<nat> {
    if comp == "" then Some(cur) else Step(fs, cur, comp)
  }

  // Resolution from cur, with `comp` already read of the present component.
  function Walk(fs: Fs, cur: nat, path: string, comp: string): Option<nat>
    decreases |path|
  {
    if path == "" then Close(fs, cur, comp)
    else if path[0] == '/' then
      match Close(fs, cur, comp)
      case None => None
      case Some(next) => Walk(fs, next, path[1..], "")
    else Walk(fs, cur, path[1..], if |comp| < COMPONENT_MAX then comp + [path[0]] else comp)
  }

  function Resolve(fs: Fs, path: string): Option<nat> {
    if path != "" && path[0] == '/' then Walk(fs, 0, path[1..], "") else Walk(fs, fs.cwd, path, "")
  }

  // ---------------------------------------------------------------- splitting

  // One more than the index of the last '/', or 0.
  function AfterSlash(path: string): (n: nat)
    ensures n <= |path|
    ensures n > 0 ==> path[n - 1] == '/'
    ensures forall i :: n <= i < |path| ==> path[i] != '/'
  {
    if path == "" then 0
    else if path[|path| - 1] == '/' then |path|
    else AfterSlash(path[..|path| - 1])
  }

  function Upto(s: string, n: nat): string { if |s| > n then s[..n] else s }

  // What follows the last '/'.
  function Last(path: string): string { path[AfterSlash(path)..] }

  function Component(path: string): string { Upto(Last(path), COMPONENT_MAX) }

  function ParentPath(path: string): string {
    var n := AfterSlash(path);
    if n == 0 then "" else if n == 1 then "/" else Upto(path[..n - 1], PARENT_MAX)
  }

  function ParentOf(fs: Fs, path: string): Option<nat> {
    if ParentPath(path) == "" then Some(fs.cwd) else Resolve(fs, ParentPath(path))
  }

  // The parent path is not cut by the kernel's buffer.
  predicate ParentFits(path: string) { AfterSlash(path) <= PARENT_MAX + 1 }

  // The path is short enough for the kernel's buffers and ends in a proper name.
  predicate Plain(path: string) {
    ParentFits(path) && |Last(path)| <= NAME_MAX && Proper(Last(path))
  }

  // ---------------------------------------------------------------- resolution and splitting agree

  predicate NoSlash(name: string) { forall i :: 0 <= i < |name| ==> name[i] != '/' }

  // The last component, of which 28 characters are looked at.
  lemma {:induction false} WalkName(fs: Fs, cur: nat, name: string, comp: string)
    requires |comp| <= COMPONENT_MAX && NoSlash(name)
    ensures Walk(fs, cur, name, comp) == Close(fs, cur, Upto(comp + name, COMPONENT_MAX))
    decreases |name|
  {
    if name == "" {
      assert comp + name == comp;
    } else {
      assert name[0] != '/';
      var next := if |comp| < COMPONENT_MAX then comp + [name[0]] else comp;
      WalkName(fs, cur, name[1..], next);
      assert Upto(next + name[1..], COMPONENT_MAX) == Upto(comp + name, COMPONENT_MAX);
    }
  }

  lemma {:induction false} WalkSplit(fs: Fs, cur: nat, p: string, q: string, comp: string)
    ensures Walk(fs, cur, p + "/" + q, comp) ==
            match Walk(fs, cur, p, comp)
            case None => None
            case Some(m) => Walk(fs, m, q, "")
    decreases |p|
  {
    var s := p + "/" + q;
    if p == "" {
      assert s[1..] == q;
    } else {
      assert s[0] == p[0] && s[1..] == p[1..] + "/" + q;
      if p[0] == '/' {
        match Close(fs, cur, comp)
        case None =>
        case Some(next) => WalkSplit(fs, next, p[1..], q, "");
      } else {
        WalkSplit(fs, cur, p[1..], q, if |comp| < COMPONENT_MAX then comp + [p[0]] else comp);
      }
    }
  }

  function Under(fs: Fs, m: Option<nat>, name: string): Option<nat> {
    match m
    case None => None
    case Some(d) => Close(fs, d, name)
  }

  lemma WalkLast(fs: Fs, cur: nat, name: string)
    requires NoSlash(name)
    ensures Walk(fs, cur, name, "") == Close(fs, cur, Upto(name, COMPONENT_MAX))
  {
    WalkName(fs, cur, name, "");
    assert "" + name == name;
  }

  lemma WalkBelow(fs: Fs, cur: nat, p: string, name: string)
    requires NoSlash(name)
    ensures Walk(fs, cur, p + "/" + name, "") == Under(fs, Walk(fs, cur, p, ""), Upto(name, COMPONENT_MAX))
  {
    WalkSplit(fs, cur, p, name, "");
    var m := Walk(fs, cur, p, "");
    if m.Some? { WalkLast(fs, m.value, name); }
  }

  lemma ResolveBelow(fs: Fs, p: string, name: string)
    requires p != "" && NoSlash(name)
    ensures Resolve(fs, p + "/" + name) == Under(fs, Resolve(fs, p), Upto(name, COMPONENT_MAX))
  {
    var path := p + "/" + name;
    assert path[0] == p[0];
    if p[0] == '/' {
      assert path[1..] == p[1..] + "/" + name;
      WalkBelow(fs, 0, p[1..], name);
    } else {
      WalkBelow(fs, fs.cwd, p, name);
    }
  }

  lemma ResolveTop(fs: Fs, name: string)
    requires NoSlash(name)
    ensures Resolve(fs, name) == Close(fs, fs.cwd, Upto(name, COMPONENT_MAX))
    ensures Resolve(fs, "/" + name) == Close(fs, 0, Upto(name, COMPONENT_MAX))
    ensures Resolve(fs, "/") == Some(0)
  {
    WalkLast(fs, fs.cwd, name);
    WalkLast(fs, 0, name);
    assert ("/" + name)[1..] == name && "/"[1..] == "";
  }

  // A path whose parent is not cut leads where its last component leads from
  // its parent.
  lemma ResolveParent(fs: Fs, path: string)
    requires ParentFits(path)
    ensures Resolve(fs, path) == Under(fs, ParentOf(fs, path), Component(path))
  {
    var n := AfterSlash(path);
    var c := Last(path);
    ResolveTop(fs, c);
    if n == 0 {
      assert path == c;
    } else if n == 1 {
      assert path == "/" + c;
    } else {
      var p := path[..n - 1];
      assert path == p + "/" + c;
      ResolveBelow(fs, p, c);
    }
  }

  // A plain path leads where its parent's entry leads.
  lemma ResolveSplit(fs: Fs, path: string)
    requires Plain(path)
    ensures Component(path) == Last(path)
    ensures Resolve(fs, path) == match ParentOf(fs, path)
                                 case None => None
                                 case Some(d) => Look(fs, d, Last(path))
  {
    ResolveParent(fs, path);
  }

  // ---------------------------------------------------------------- resolution stays inside the file system

  lemma LookLive(fs: Fs, d: nat, name: string)
    requires Wf(fs) && Live(fs, d)
    ensures Look(fs, d, name).Some? ==> IsDir(fs, d) && Live(fs, Look(fs, d, name).value)
  {
    if Found(fs, d, name) {
      DirLive(fs, d);
      FindNameIs(EntsAt(fs, d), name, 0);
      assert DirOk(View(fs), d) && SlotOk(View(fs), d, FindName(EntsAt(fs, d), name, 0));
    }
  }

  lemma CloseLive(fs: Fs, cur: nat, comp: string)
    requires Wf(fs) && Live(fs, cur)
    ensures Close(fs, cur, comp).Some? ==> Live(fs, Close(fs, cur, comp).value)
  {
    LookLive(fs, cur, comp);
  }

  lemma {:induction false} WalkLive(fs: Fs, cur: nat, path: string, comp: string)
    requires Wf(fs) && Live(fs, cur)
    ensures Walk(fs, cur, path, comp).Some? ==> Live(fs, Walk(fs, cur, path, comp).value)
    decreases |path|
  {
    CloseLive(fs, cur, comp);
    if path != "" {
      if path[0] == '/' {
        match Close(fs, cur, comp)
        case None =>
        case Some(next) => WalkLive(fs, next, path[1..], "");
      } else {
        WalkLive(fs, cur, path[1..], if |comp| < COMPONENT_MAX then comp + [path[0]] else comp);
      }
    }
  }

  lemma RootLive(fs: Fs)
    requires Wf(fs)
    ensures IsDir(fs, 0) && IsDir(fs, fs.cwd)
  {
    assert 0 in View(fs).dirs;
  }

  lemma ResolveLive(fs: Fs, path: string)
    requires Wf(fs)
    ensures Resolve(fs, path).Some? ==> Live(fs, Resolve(fs, path).value)
    ensures ParentOf(fs, path).Some? ==> Live(fs, ParentOf(fs, path).value)
  {
    RootLive(fs);
    if path != "" && path[0] == '/' { WalkLive(fs, 0, path[1..], ""); } else { WalkLive(fs, fs.cwd, path, ""); }
    var p := ParentPath(path);
    if p != "" && p[0] == '/' { WalkLive(fs, 0, p[1..], ""); } else { WalkLive(fs, fs.cwd, p, ""); }
  }

  // Directory d has its two dots, and they lead where resolution goes.
  lemma DotsLead(fs: Fs, d: nat, name: string)
    requires Wf(fs) && IsDir(fs, d) && Dot(name)
    ensures Step(fs, d, name).Some? && Leads(fs, d, name, Step(fs, d, name).value)
  {
    Slots(fs, d);
    FoundIff(fs, d, name);
    DirLive(fs, d);
    FindNameIs(EntsAt(fs, d), name, 0);
    assert DirOk(View(fs), d) && SlotOk(View(fs), d, FindName(EntsAt(fs, d), name, 0));
  }

  // A path that resolves is an entry of its parent, whatever its last name.
  lemma ResolveLeads(fs: Fs, path: string)
    requires Wf(fs) && ParentFits(path) && Resolve(fs, path).Some? && Component(path) != ""
    ensures ParentOf(fs, path).Some?
    ensures var d := ParentOf(fs, path).value;
            Live(fs, d) && (IsDir(fs, d) || !Dot(Component(path)) ==>
                Leads(fs, d, Component(path), Resolve(fs, path).value))
  {
    ResolveParent(fs, path);
    ResolveLive(fs, path);
    var d := ParentOf(fs, path).value;
    if Dot(Component(path)) {
      if IsDir(fs, d) { DotsLead(fs, d, Component(path)); }
    } else {
      LookLive(fs, d, Component(path));
    }
  }
}
