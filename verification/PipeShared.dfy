/**
 * A pipe whose ends are shared, by fork or dup2, among any number of tasks.
 *
 * Here a step is one transfer: the loop that moves bytes out of the ring or into
 * it runs without a switch.  Several reads and writes may be under way, and a
 * long write goes in parts between which others come.  Every call has a number
 * of its own, and every byte remembers the call that moved it.
 *
 * When a switch may come between any two statements, two writers spoil the ring.
 */
module PipeShared {
  import opened Prelude
  import opened PipeBuffer
  import F = PipeFifo

  datatype Call =
    | Writing(data: seq<char>, total: nat)
    | Wrote(data: seq<char>, total: nat)    // the call returned total
    | Reading(len: nat)
    | Got(out: seq<char>)                   // the call returned these bytes

  datatype Item = Item(call: nat, byte: char)

  datatype Sys = Sys(ring: Ring, readOpen: bool, writeOpen: bool, calls: map<nat, Call>,
                     accepted: seq<Item>, returned: seq<Item>)

  function Created(buf: seq<char>): Sys { Sys(Ring(buf, 0, 0, 0), true, true, map[], [], []) }

  function Tagged(c: nat, data: seq<char>): seq<Item> {
    seq(|data|, i requires 0 <= i < |data| => Item(c, data[i]))
  }

  function BytesOf(items: seq<Item>): seq<char> {
    seq(|items|, i requires 0 <= i < |items| => items[i].byte)
  }

  // The bytes that call c moved, in order.
  function MovedBy(items: seq<Item>, c: nat): seq<char> {
    if items == [] then []
    else
      var n := |items| - 1;
      MovedBy(items[..n], c) + if items[n].call == c then [items[n].byte] else []
  }

  datatype Step =
    | CallWrite(c: nat, data: seq<char>)
    | CallRead(c: nat, len: nat)
    | Transfer(c: nat)
    | Return(c: nat)
    | CloseRead
    | CloseWrite

  // One round of pipe_write, lines 70-79.
  function PutRound(s: Sys, c: nat, data: seq<char>, total: nat): Sys
    requires Ok(s.ring) && total <= |data|
  {
    var chunk := Min(|data| - total, N - s.ring.count);
    var part := data[total..total + chunk];
    s.(ring := PutIn(s.ring, part), accepted := s.accepted + Tagged(c, part),
       calls := s.calls[c := Writing(data, total + chunk)])
  }

  // The loop of pipe_read, lines 40-45.
  function TakeRound(s: Sys, c: nat, len: nat): Sys
    requires Ok(s.ring)
  {
    var n := Min(len, s.ring.count);
    var out := Contents(s.ring)[..n];
    s.(ring := TakeOut(s.ring, n), returned := s.returned + Tagged(c, out), calls := s.calls[c := Got(out)])
  }

  ghost predicate Next(s: Sys, t: Sys, step: Step)
    requires Ok(s.ring)
  {
    match step
    case CallWrite(c, data) =>
      c !in s.calls && |data| > 0 && s.readOpen && t == s.(calls := s.calls[c := Writing(data, 0)])
    case CallRead(c, len) => c !in s.calls && len > 0 && t == s.(calls := s.calls[c := Reading(len)])
    case Transfer(c) =>
      c in s.calls &&
      (match s.calls[c]
       case Writing(data, total) => total < |data| && s.ring.count < N && t == PutRound(s, c, data, total)
       case Reading(len) => s.ring.count > 0 && t == TakeRound(s, c, len)
       case _ => false)
    case Return(c) =>
      c in s.calls &&
      (match s.calls[c]
       case Writing(data, total) =>
         (total == |data| || !s.readOpen) && t == s.(calls := s.calls[c := Wrote(data, total)])
       case Reading(len) => s.ring.count == 0 && !s.writeOpen && t == s.(calls := s.calls[c := Got([])])
       case _ => false)
    case CloseRead => t == s.(readOpen := false)
    case CloseWrite => t == s.(writeOpen := false)
  }

  // ---------------------------------------------------------------- the accounts

  predicate CallOk(s: Sys, c: nat) {
    if c !in s.calls then MovedBy(s.accepted, c) == [] && MovedBy(s.returned, c) == []
    else match s.calls[c]
      case Writing(data, total) => total <= |data| && MovedBy(s.accepted, c) == data[..total]
      case Wrote(data, total) =>
        total <= |data| && MovedBy(s.accepted, c) == data[..total] && (total < |data| ==> !s.readOpen)
      case Reading(_) => MovedBy(s.returned, c) == []
      case Got(out) => MovedBy(s.returned, c) == out
  }

  ghost predicate Inv(s: Sys) {
    && Ok(s.ring) && BytesOf(s.returned) + Contents(s.ring) == BytesOf(s.accepted)
    && forall c: nat :: CallOk(s, c)
  }

  lemma {:induction false} MovedMore(items: seq<Item>, c: nat, data: seq<char>, d: nat)
    ensures MovedBy(items + Tagged(c, data), d) == MovedBy(items, d) + if c == d then data else []
    decreases |data|
  {
    var all := items + Tagged(c, data);
    if data == [] {
      assert all == items;
    } else {
      var n := |data| - 1;
      assert all[..|all| - 1] == items + Tagged(c, data[..n]);
      MovedMore(items, c, data[..n], d);
      assert data == data[..n] + [data[n]];
    }
  }

  lemma BytesMore(items: seq<Item>, c: nat, data: seq<char>)
    ensures BytesOf(items + Tagged(c, data)) == BytesOf(items) + data
  {
  }

  lemma PutKeeps(s: Sys, c: nat, data: seq<char>, total: nat)
    requires Inv(s) && c in s.calls && s.calls[c] == Writing(data, total) && total < |data| && s.ring.count < N
    ensures Inv(PutRound(s, c, data, total))
  {
    var t := PutRound(s, c, data, total);
    var chunk := Min(|data| - total, N - s.ring.count);
    var part := data[total..total + chunk];
    assert CallOk(s, c);
    PutInIs(s.ring, part);
    BytesMore(s.accepted, c, part);
    assert BytesOf(s.returned) + (Contents(s.ring) + part) == BytesOf(s.returned) + Contents(s.ring) + part;
    forall d: nat ensures CallOk(t, d) { PutCall(s, t, c, data, total, chunk, d); }
  }

  lemma PutCall(s: Sys, t: Sys, c: nat, data: seq<char>, total: nat, chunk: nat, d: nat)
    requires c in s.calls && s.calls[c] == Writing(data, total) && total + chunk <= |data|
    requires CallOk(s, c) && CallOk(s, d)
    requires t.calls == s.calls[c := Writing(data, total + chunk)] && t.returned == s.returned
    requires t.accepted == s.accepted + Tagged(c, data[total..total + chunk]) && t.readOpen == s.readOpen
    ensures CallOk(t, d)
  {
    MovedMore(s.accepted, c, data[total..total + chunk], d);
    assert data[..total] + data[total..total + chunk] == data[..total + chunk];
    assert d != c ==> MovedBy(s.accepted, d) + [] == MovedBy(s.accepted, d);
  }

  lemma TakeKeeps(s: Sys, c: nat, len: nat)
    requires Inv(s) && c in s.calls && s.calls[c] == Reading(len) && s.ring.count > 0
    ensures Inv(TakeRound(s, c, len))
  {
    var t := TakeRound(s, c, len);
    var n := Min(len, s.ring.count);
    var all := Contents(s.ring);
    assert CallOk(s, c);
    TakeOutIs(s.ring, n);
    BytesMore(s.returned, c, all[..n]);
    assert BytesOf(s.returned) + all[..n] + all[n..] == BytesOf(s.returned) + all;
    forall d: nat ensures CallOk(t, d) {
      assert CallOk(s, d);
      MovedMore(s.returned, c, all[..n], d);
    }
  }

  lemma NextKeeps(s: Sys, t: Sys, step: Step)
    requires Inv(s) && Next(s, t, step)
    ensures Inv(t)
  {
    match step
    case Transfer(c) =>
      match s.calls[c] {
        case Writing(data, total) => PutKeeps(s, c, data, total);
        case Reading(len) => TakeKeeps(s, c, len);
        case _ =>
      }
    case _ =>
      forall d: nat ensures CallOk(t, d) { assert CallOk(s, d); }
  }

  ghost predicate Run(ss: seq<Sys>, steps: seq<Step>) {
    && |ss| == |steps| + 1
    && forall i :: 0 <= i < |steps| ==> Ok(ss[i].ring) && Next(ss[i], ss[i + 1], steps[i])
  }

  lemma {:induction false} RunKeeps(ss: seq<Sys>, steps: seq<Step>, buf: seq<char>, i: nat)
    requires Run(ss, steps) && |buf| == N && ss[0] == Created(buf) && i <= |steps|
    ensures Inv(ss[i])
  {
    if i > 0 {
      RunKeeps(ss, steps, buf, i - 1);
      NextKeeps(ss[i - 1], ss[i], steps[i - 1]);
    }
  }

  // Whatever calls of whatever tasks are under way: the bytes returned, followed
  // by the bytes in the ring, are the bytes accepted; each write has had a
  // prefix of its data accepted, in order, and all of it if it returned while
  // the read end was open; and each read got the bytes it returned.
  lemma SharedFifo(ss: seq<Sys>, steps: seq<Step>, buf: seq<char>, i: nat, c: nat)
    requires Run(ss, steps) && |buf| == N && ss[0] == Created(buf) && i <= |steps|
    ensures var s := ss[i];
            && Ok(s.ring) && s.ring.head == Wrap(s.ring.tail + s.ring.count)
            && BytesOf(s.returned) + Unroll(s.ring.buf, s.ring.tail, s.ring.count) == BytesOf(s.accepted)
            && (c in s.calls && (s.calls[c].Writing? || s.calls[c].Wrote?) ==>
                && s.calls[c].total <= |s.calls[c].data|
                && MovedBy(s.accepted, c) == s.calls[c].data[..s.calls[c].total])
            && (c in s.calls && s.calls[c].Wrote? && s.calls[c].total < |s.calls[c].data| ==> !s.readOpen)
            && (c in s.calls && s.calls[c].Got? ==> MovedBy(s.returned, c) == s.calls[c].out)
  {
    RunKeeps(ss, steps, buf, i);
    assert CallOk(ss[i], c);
  }

  // ---------------------------------------------------------------- two writers, statement by statement

  // The pipe with its first writer, and a second writer.
  datatype Two = Two(s: F.State, other: F.Writer)

  ghost predicate TwoStep(a: Two, b: Two, second: bool) {
    if second then F.WriterStep(a.s.(w := a.other), b.s.(w := b.other)) && b.s.w == a.s.w
    else F.WriterStep(a.s, b.s) && b.other == a.other
  }

  // Each has one byte to write.  Both store it before either moves the head.
  function Race(buf: F.Buffer, x: char, y: char, k: nat): Two
    requires k <= 18
  {
    var s := F.Fresh(buf);
    var g := s.ring;
    var one := s.(ring := g.(buf := buf[0 := x]));
    var both := s.(ring := g.(buf := buf[0 := y]));
    var moved := both.(ring := both.ring.(head := 1), moved := [x]);
    var first := moved.(ring := moved.ring.(count := 1), w := F.WDone([x], 1));
    var last := first.(ring := first.ring.(head := 2), moved := [x, y]);
    var done := last.(ring := last.ring.(count := 2));
    if k == 0 then Two(s.(w := F.WLoop([x], 0)), F.WLoop([y], 0))
    else if k == 1 then Two(s.(w := F.WFull([x], 0)), F.WLoop([y], 0))
    else if k == 2 then Two(s.(w := F.WSpace([x], 0)), F.WLoop([y], 0))
    else if k == 3 then Two(s.(w := F.WStore([x], 0, 1, 0)), F.WLoop([y], 0))
    else if k == 4 then Two(one.(w := F.WHead([x], 0, 1, 0)), F.WLoop([y], 0))
    else if k == 5 then Two(one.(w := F.WHead([x], 0, 1, 0)), F.WFull([y], 0))
    else if k == 6 then Two(one.(w := F.WHead([x], 0, 1, 0)), F.WSpace([y], 0))
    else if k == 7 then Two(one.(w := F.WHead([x], 0, 1, 0)), F.WStore([y], 0, 1, 0))
    else if k == 8 then Two(both.(w := F.WHead([x], 0, 1, 0)), F.WHead([y], 0, 1, 0))
    else if k == 9 then Two(moved.(w := F.WStore([x], 0, 1, 1)), F.WHead([y], 0, 1, 0))
    else if k == 10 then Two(moved.(w := F.WCount([x], 0, 1)), F.WHead([y], 0, 1, 0))
    else if k == 11 then Two(first.(w := F.WTotal([x], 0, 1)), F.WHead([y], 0, 1, 0))
    else if k == 12 then Two(first.(w := F.WLoop([x], 1)), F.WHead([y], 0, 1, 0))
    else if k == 13 then Two(first, F.WHead([y], 0, 1, 0))
    else if k == 14 then Two(last, F.WStore([y], 0, 1, 1))
    else if k == 15 then Two(last, F.WCount([y], 0, 1))
    else if k == 16 then Two(done, F.WTotal([y], 0, 1))
    else if k == 17 then Two(done, F.WLoop([y], 1))
    else Two(done, F.WDone([y], 1))
  }

  predicate Second(k: nat) { 4 <= k < 8 || 13 <= k }

  lemma RaceStarts(buf: F.Buffer, x: char, y: char, k: nat)
    requires k < 8
    ensures TwoStep(Race(buf, x, y, k), Race(buf, x, y, k + 1), Second(k))
  {
    assert buf[0 := x][0 := y] == buf[0 := y];
  }

  lemma RaceEnds(buf: F.Buffer, x: char, y: char, k: nat)
    requires 8 <= k < 18
    ensures TwoStep(Race(buf, x, y, k), Race(buf, x, y, k + 1), Second(k))
  {
    assert [] + [x] == [x] && [x] + [y] == [x, y];
  }

  // Both calls return 1, and the ring holds two bytes: the second writer's and
  // one that nobody wrote.
  lemma TwoWritersSpoil(buf: F.Buffer, x: char, y: char)
    ensures forall k :: 0 <= k < 18 ==> TwoStep(Race(buf, x, y, k), Race(buf, x, y, k + 1), Second(k))
    ensures var r := Race(buf, x, y, 18);
            && r.s.w == F.WDone([x], 1) && r.other == F.WDone([y], 1)
            && r.s.moved == [x, y] && F.Contents(r.s.ring) == [y, buf[1]]
  {
    forall k | 0 <= k < 18 ensures TwoStep(Race(buf, x, y, k), Race(buf, x, y, k + 1), Second(k)) {
      if k < 8 { RaceStarts(buf, x, y, k); } else { RaceEnds(buf, x, y, k); }
    }
    var g := Race(buf, x, y, 18).s.ring;
    assert F.Contents(g) == [g.buf[0], g.buf[1]];
  }
}
