/**
 * The shell's environment variables and the file /env that keeps them: one line
 * "key=value" for each variable.
 */
module ShellEnv {
  import opened Prelude
  import opened TinyFs
  import opened Paths
  import opened FileOps

  const ENV_MAX: nat := 32
  const KEY_MAX: nat := 32     // including the terminating zero
  const VAL_MAX: nat := 96
  const TEXT_MAX: nat := 4094
  const EQ: Byte := 61
  const NL: Byte := 10

  type Text = seq<Byte>

  datatype Entry = Entry(key: Text, val: Text)

  // An entry that the shell can hold and the file can carry.
  predicate EntryOk(e: Entry) {
    && 0 < |e.key| < KEY_MAX && EQ !in e.key && NL !in e.key
    && |e.val| < VAL_MAX && NL !in e.val
  }

  predicate EnvOk(es: seq<Entry>) {
    |es| <= ENV_MAX && forall i :: 0 <= i < |es| ==> EntryOk(es[i])
  }

  // ---------------------------------------------------------------- saving

  function Body(e: Entry): Text { e.key + [EQ] + e.val }
  function Line(e: Entry): Text { Body(e) + [NL] }

  function Lines(es: seq<Entry>): Text { if es == [] then [] else Line(es[0]) + Lines(es[1..]) }

  // The text that is saved when `pos` bytes are already in the buffer: entries
  // are dropped from the first one that does not fit.
  function Save(es: seq<Entry>, pos: nat): Text
    decreases |es|
  {
    if es == [] || pos + |Line(es[0])| >= TEXT_MAX + 1 then []
    else Line(es[0]) + Save(es[1..], pos + |Line(es[0])|)
  }

  // How many entries are saved.
  function Fitting(es: seq<Entry>, pos: nat): (n: nat)
    ensures n <= |es|
    decreases |es|
  {
    if es == [] || pos + |Line(es[0])| >= TEXT_MAX + 1 then 0 else 1 + Fitting(es[1..], pos + |Line(es[0])|)
  }

  // They are the longest prefix whose lines fit, and their lines are the text.
  lemma {:induction false} SaveIs(es: seq<Entry>, pos: nat)
    requires pos <= TEXT_MAX
    ensures var n := Fitting(es, pos);
            && Save(es, pos) == Lines(es[..n])
            && pos + |Lines(es[..n])| <= TEXT_MAX
            && (n < |es| ==> pos + |Lines(es[..n + 1])| > TEXT_MAX)
    decreases |es|
  {
    var n := Fitting(es, pos);
    if es != [] {
      if pos + |Line(es[0])| <= TEXT_MAX {
        SaveIs(es[1..], pos + |Line(es[0])|);
        assert es[..n][1..] == es[1..][..n - 1];
        if n < |es| { assert es[..n + 1][1..] == es[1..][..n]; }
      } else {
        assert es[..1] == [es[0]];
        assert Lines([es[0]]) == Line(es[0]) + Lines([es[0]][1..]);
      }
    }
  }

  // ---------------------------------------------------------------- loading

  // The index of x in s from i on, or |s|.
  function Index(s: Text, x: Byte, i: nat): (k: nat)
    requires i <= |s|
    ensures i <= k <= |s|
    decreases |s| - i
  {
    if i == |s| || s[i] == x then i else Index(s, x, i + 1)
  }

  // What a line adds to the table.
  function Parsed(line: Text): seq<Entry> {
    var eq := Index(line, EQ, 0);
    if eq < |line| && 0 < eq < KEY_MAX && |line| - eq - 1 < VAL_MAX then [Entry(line[..eq], line[eq + 1..])] else []
  }

  // The lines from `start` on are added to the table acc; what follows the last
  // newline is a line too.
  function LoadFrom(text: Text, start: nat, acc: seq<Entry>): seq<Entry>
    decreases |text| + 1 - start
  {
    if start > |text| || |acc| >= ENV_MAX then acc
    else
      var i := Index(text, NL, start);
      LoadFrom(text, i + 1, acc + Parsed(text[start..i]))
  }

  function Load(text: Text): seq<Entry> { LoadFrom(text, 0, []) }

  lemma {:induction false} IndexIs(s: Text, x: Byte, i: nat, k: nat)
    requires i <= k <= |s| && (k < |s| ==> s[k] == x) && forall j :: i <= j < k ==> s[j] != x
    ensures Index(s, x, i) == k
    decreases k - i
  {
    if i < k { IndexIs(s, x, i + 1, k); }
  }

  lemma ParsedLine(e: Entry)
    requires EntryOk(e)
    ensures Parsed(Body(e)) == [e]
  {
    var line := Body(e);
    IndexIs(line, EQ, 0, |e.key|);
    assert line[..|e.key|] == e.key && line[|e.key| + 1..] == e.val;
  }

  lemma LineClear(e: Entry)
    requires EntryOk(e)
    ensures forall j :: 0 <= j < |Body(e)| ==> Body(e)[j] != NL
  {
  }

  // The text from `start` on is a line, a newline and the rest.
  lemma LineAt(text: Text, start: nat, line: Text, rest: Text)
    requires start <= |text| && text[start..] == line + [NL] + rest
    requires forall j :: 0 <= j < |line| ==> line[j] != NL
    ensures var i := start + |line|;
            i < |text| && Index(text, NL, start) == i && text[start..i] == line && text[i + 1..] == rest
  {
    var t, i := text[start..], start + |line|;
    assert t[|line|] == NL && t[..|line|] == line && t[|line| + 1..] == rest;
    assert text[i + 1..] == t[|line| + 1..] && text[start..i] == t[..|line|];
    forall j | start <= j < i ensures text[j] != NL { assert t[j - start] == line[j - start]; }
    IndexIs(text, NL, start, i);
  }

  // Reading one line: the place after it and the table with its entry.
  lemma LoadEntry(text: Text, start: nat, e: Entry, rest: Text, acc: seq<Entry>) returns (next: nat, more: seq<Entry>)
    requires start <= |text| && text[start..] == Line(e) + rest && EntryOk(e) && |acc| < ENV_MAX
    ensures next <= |text| && text[next..] == rest && more == acc + [e]
    ensures LoadFrom(text, start, acc) == LoadFrom(text, next, more)
  {
    LineClear(e);
    LineAt(text, start, Body(e), rest);
    ParsedLine(e);
    next, more := LoadStep(text, start, acc, Index(text, NL, start), Body(e));
  }

  lemma LoadStep(text: Text, start: nat, acc: seq<Entry>, i: nat, line: Text) returns (next: nat, more: seq<Entry>)
    requires start <= |text| && |acc| < ENV_MAX && i == Index(text, NL, start) && line == text[start..i]
    ensures next == i + 1 && more == acc + Parsed(line) && LoadFrom(text, start, acc) == LoadFrom(text, next, more)
  {
    next, more := i + 1, acc + Parsed(line);
  }

  lemma LoadEnd(text: Text, acc: seq<Entry>)
    ensures LoadFrom(text, |text|, acc) == acc
  {
    if |acc| < ENV_MAX {
      assert text[|text|..|text|] == [] && Parsed([]) == [] && acc + [] == acc;
    }
  }

  lemma LinesFrom(es: seq<Entry>, k: nat)
    requires k < |es|
    ensures Lines(es[k..]) == Line(es[k]) + Lines(es[k + 1..]) && es[..k] + [es[k]] == es[..k + 1]
  {
    assert es[k..][1..] == es[k + 1..];
  }

  // Reading back the lines of a table.
  lemma LoadLines(es: seq<Entry>)
    requires |es| <= ENV_MAX && forall i :: 0 <= i < |es| ==> EntryOk(es[i])
    ensures Load(Lines(es)) == es
  {
    var text := Lines(es);
    var pos: nat, acc: seq<Entry>, rest: Text, all := 0, [], text, Load(text);
    assert text[0..] == text && es[0..] == es;
    for k := 0 to |es|
      invariant pos <= |text| && text[pos..] == rest && rest == Lines(es[k..]) && acc == es[..k]
      invariant all == LoadFrom(text, pos, acc)
    {
      LinesFrom(es, k);
      rest := Lines(es[k + 1..]);
      pos, acc := LoadEntry(text, pos, es[k], rest, acc);
    }
    assert acc == es;
    LoadEnd(text, es);
  }

  // Whatever the text, what is loaded fits the shell's table.
  lemma LoadFits(text: Text)
    ensures EnvOk(Load(text))
  {
    LoadFromFits(text, 0, []);
  }

  lemma {:induction false} LoadFromFits(text: Text, start: nat, acc: seq<Entry>)
    requires EnvOk(acc)
    ensures EnvOk(LoadFrom(text, start, acc))
    decreases |text| + 1 - start
  {
    if start <= |text| && |acc| < ENV_MAX {
      var i := Index(text, NL, start);
      IndexBefore(text, NL, start);
      ParsedFits(text[start..i]);
      LoadFromFits(text, i + 1, acc + Parsed(text[start..i]));
    }
  }

  lemma {:induction false} IndexBefore(s: Text, x: Byte, i: nat)
    requires i <= |s|
    ensures x !in s[i..Index(s, x, i)]
    decreases |s| - i
  {
    if i < |s| && s[i] != x { IndexBefore(s, x, i + 1); }
  }

  lemma ParsedFits(line: Text)
    requires NL !in line
    ensures |Parsed(line)| <= 1 && forall i :: 0 <= i < |Parsed(line)| ==> EntryOk(Parsed(line)[i])
  {
    IndexBefore(line, EQ, 0);
  }

  // What is loaded after a save is the longest prefix that fits.
  lemma SaveThenLoad(es: seq<Entry>)
    requires EnvOk(es)
    ensures Load(Save(es, 0)) == es[..Fitting(es, 0)]
  {
    SaveIs(es, 0);
    LoadLines(es[..Fitting(es, 0)]);
  }

  // The same through the file system: the file is read into 4096 bytes.
  lemma SaveLoadFile(fs: Fs, es: seq<Entry>)
    requires Wf(fs) && EnvOk(es) && WriteFile(fs, "/env", Save(es, 0)).1 >= 0
    ensures var text := Cat(WriteFile(fs, "/env", Save(es, 0)).0, "/env", 4096);
            text.Some? && Load(text.value) == es[..Fitting(es, 0)]
  {
    EnvPlain();
    SaveLoadAt(fs, es, "/env");
  }

  lemma EnvPlain()
    ensures Plain("/env")
  {
    assert "/env"[0] == '/' && AfterSlash("/env") == 1;
    assert Last("/env") == "env";
  }

  lemma SaveLoadAt(fs: Fs, es: seq<Entry>, path: string)
    requires Wf(fs) && EnvOk(es) && Plain(path) && WriteFile(fs, path, Save(es, 0)).1 >= 0
    ensures var text := Cat(WriteFile(fs, path, Save(es, 0)).0, path, 4096);
            text.Some? && Load(text.value) == es[..Fitting(es, 0)]
  {
    SaveIs(es, 0);
    SaveThenLoad(es);
    WholeRead(fs, path, Save(es, 0), 4096);
  }

  lemma WholeRead(fs: Fs, path: string, data: seq<Byte>, cap: nat)
    requires Wf(fs) && Plain(path) && WriteFile(fs, path, data).1 >= 0 && |data| < cap <= BLOCK_SIZE
    ensures Cat(WriteFile(fs, path, data).0, path, cap) == Some(data)
  {
    WriteReads(fs, path, data, cap);
    assert data[..|data|] == data;
  }

  // ---------------------------------------------------------------- get, set and unset

  function Cut(s: Text, n: nat): Text { if |s| > n then s[..n] else s }

  function Find(es: seq<Entry>, key: Text, i: nat): (k: nat)
    requires i <= |es|
    ensures i <= k <= |es|
    ensures k < |es| ==> es[k].key == key
    ensures forall j :: i <= j < k ==> es[j].key != key
    decreases |es| - i
  {
    if i == |es| || es[i].key == key then i else Find(es, key, i + 1)
  }

  function Get(es: seq<Entry>, key: Text): Option<Text> {
    var k := Find(es, key, 0);
    if k < |es| then Some(es[k].val) else None
  }

  function Set(es: seq<Entry>, key: Text, val: Text): seq<Entry> {
    var k := Find(es, key, 0);
    if k < |es| then es[k := es[k].(val := Cut(val, VAL_MAX - 1))]
    else if |es| >= ENV_MAX then es
    else es + [Entry(Cut(key, KEY_MAX - 1), Cut(val, VAL_MAX - 1))]
  }

  function Unset(es: seq<Entry>, key: Text): seq<Entry> {
    var k := Find(es, key, 0);
    if k < |es| then es[..k] + es[k + 1..] else es
  }

  predicate Distinct(es: seq<Entry>) { forall i, j :: 0 <= i < j < |es| ==> es[i].key != es[j].key }

  lemma {:induction false} FindIs(es: seq<Entry>, key: Text, i: nat, k: nat)
    requires i <= k <= |es| && (k < |es| ==> es[k].key == key) && forall j :: i <= j < k ==> es[j].key != key
    ensures Find(es, key, i) == k
    decreases k - i
  {
    if i < k { FindIs(es, key, i + 1, k); }
  }

  // A variable that is set reads back, cut to 95 bytes, and no other changes; a new one in a
  // full table changes nothing.
  lemma SetThenGet(es: seq<Entry>, key: Text, val: Text, other: Text)
    requires |key| < KEY_MAX
    ensures Get(es, key).Some? || |es| < ENV_MAX ==>
              Get(Set(es, key, val), key) == Some(if |val| < VAL_MAX then val else val[..VAL_MAX - 1])
    ensures Get(es, key).None? && |es| >= ENV_MAX ==> Set(es, key, val) == es
    ensures other != key ==> Get(Set(es, key, val), other) == Get(es, other)
    ensures Distinct(es) ==> Distinct(Set(es, key, val))
  {
    var r := Set(es, key, val);
    if Get(es, key).Some? || |es| < ENV_MAX { FindIs(r, key, 0, Find(es, key, 0)); }
    if other != key {
      var k := Find(es, other, 0);
      FindIs(r, other, 0, if k == |es| then |r| else k);
    }
  }

  // A variable that is unset is gone when keys are distinct, and no other changes.
  lemma UnsetThenGet(es: seq<Entry>, key: Text, other: Text)
    requires Distinct(es)
    ensures Get(Unset(es, key), key) == None && Distinct(Unset(es, key))
    ensures other != key ==> Get(Unset(es, key), other) == Get(es, other)
  {
    var r, k := Unset(es, key), Find(es, key, 0);
    if k < |es| {
      assert forall j :: 0 <= j < |r| ==> r[j] == es[if j < k then j else j + 1];
      FindIs(r, key, 0, |r|);
      if other != key {
        var m := Find(es, other, 0);
        FindIs(r, other, 0, if m < k then m else m - 1);
      }
    }
  }

  // ---------------------------------------------------------------- the shell's loops

  class Shell {
    var entries: seq<Entry>

    constructor ()
      ensures entries == []
    {
      entries := [];
    }

    // The text that env_save writes to the file.
    method EnvSave() returns (buf: Text)
      ensures buf == Save(entries, 0) && |buf| <= TEXT_MAX
    {
      buf := [];
      SaveIs(entries, 0);
      ghost var all := Save(entries, 0);
      ghost var rest := all;
      var i: nat := 0;
      assert entries[0..] == entries;
      while i < |entries|
        invariant i <= |entries| && rest == Save(entries[i..], |buf|) && all == buf + rest
      {
        var e := entries[i];
        if |buf| + |e.key| + 1 + |e.val| + 1 >= 4095 { return; }
        SaveFirst(entries, i, |buf|);
        rest := Save(entries[i + 1..], |buf| + |Line(e)|);
        Assoc(buf, Line(e), rest);
        buf := buf + Line(e);
        i := i + 1;
      }
    }

    // env_load, given the bytes that cat returned.
    method EnvLoad(buf: Text)
      modifies this
      ensures entries == Load(buf)
    {
      entries := [];
      var start: nat := 0;
      while start <= |buf| && |entries| < ENV_MAX
        invariant LoadFrom(buf, start, entries) == LoadFrom(buf, 0, [])
        decreases |buf| + 1 - start
      {
        var i := NewlineFrom(buf, start);
        var es := ParseLine(buf[start..i]);
        entries := entries + es;
        start := i + 1;
      }
    }

    // The end of the line that begins at start.
    method NewlineFrom(buf: Text, start: nat) returns (i: nat)
      requires start <= |buf|
      ensures i == Index(buf, NL, start)
    {
      i := start;
      while i < |buf| && buf[i] != NL
        invariant start <= i <= |buf| && Index(buf, NL, start) == Index(buf, NL, i)
      {
        i := i + 1;
      }
    }

    method ParseLine(line: Text) returns (es: seq<Entry>)
      ensures es == Parsed(line)
    {
      var eq := 0;
      while eq < |line| && line[eq] != EQ
        invariant 0 <= eq <= |line| && Index(line, EQ, 0) == Index(line, EQ, eq)
      {
        eq := eq + 1;
      }
      if eq < |line| && 0 < eq < KEY_MAX && |line| - eq - 1 < VAL_MAX {
        es := [Entry(line[..eq], line[eq + 1..])];
      } else {
        es := [];
      }
    }

    method EnvGet(key: Text) returns (r: Option<Text>)
      ensures r == Get(entries, key)
    {
      var i: nat := 0;
      while i < |entries|
        invariant i <= |entries| && Find(entries, key, 0) == Find(entries, key, i)
      {
        if entries[i].key == key { return Some(entries[i].val); }
        i := i + 1;
      }
      return None;
    }

    // `saved` is the text handed to the file, if it is written at all.
    method EnvSet(key: Text, val: Text) returns (saved: Option<Text>)
      modifies this
      ensures entries == Set(old(entries), key, val)
      ensures saved == if Find(old(entries), key, 0) < |old(entries)| || |old(entries)| < ENV_MAX
                       then Some(Save(entries, 0)) else None
    {
      var i: nat := 0;
      while i < |entries|
        invariant i <= |entries| && entries == old(entries) && Find(entries, key, 0) == Find(entries, key, i)
      {
        if entries[i].key == key {
          entries := entries[i := entries[i].(val := Cut(val, VAL_MAX - 1))];
          var text := EnvSave();
          return Some(text);
        }
        i := i + 1;
      }
      if |entries| >= ENV_MAX { return None; }
      entries := entries + [Entry(Cut(key, KEY_MAX - 1), Cut(val, VAL_MAX - 1))];
      var text := EnvSave();
      return Some(text);
    }

    method EnvUnset(key: Text) returns (saved: Option<Text>)
      modifies this
      ensures entries == Unset(old(entries), key)
      ensures saved == if Find(old(entries), key, 0) < |old(entries)| then Some(Save(entries, 0)) else None
    {
      var i: nat := 0;
      while i < |entries|
        invariant i <= |entries| && entries == old(entries) && Find(entries, key, 0) == Find(entries, key, i)
      {
        if entries[i].key == key {
          var j := i;
          while j < |entries| - 1
            invariant i <= j < |entries| == |old(entries)|
            invariant forall k :: 0 <= k < |entries| ==>
                        entries[k] == old(entries)[if i <= k < j then k + 1 else k]
          {
            entries := entries[j := entries[j + 1]];
            j := j + 1;
          }
          entries := entries[..|entries| - 1];
          assert entries == old(entries)[..i] + old(entries)[i + 1..];
          var text := EnvSave();
          return Some(text);
        }
        i := i + 1;
      }
      return None;
    }
  }

  lemma SaveFirst(es: seq<Entry>, i: nat, pos: nat)
    requires i < |es| && pos + |Line(es[i])| <= TEXT_MAX
    ensures Save(es[i..], pos) == Line(es[i]) + Save(es[i + 1..], pos + |Line(es[i])|)
  {
    assert es[i..][1..] == es[i + 1..];
  }

  lemma Assoc<T>(a: seq<T>, b: seq<T>, c: seq<T>)
    ensures a + (b + c) == (a + b) + c
  {
  }
}
