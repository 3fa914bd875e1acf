/**
 * A pipe (kernel/pipe.c) at the granularity of single statements. System calls run with
 * interrupts on, so a timer tick may switch between the reader and the writer between any
 * two statements of pipe_read and pipe_write; the bytes still come out in order.
 */
module PipeFifo {
  import PipeBuffer

  const N: nat := PipeBuffer.N

  type Buffer = b: seq<char> | |b| == N witness seq(N, _ => ' ')

  datatype Ring = Ring(buf: Buffer, head: nat, tail: nat, count: nat, readOpen: bool, writeOpen: bool)

  // Where the writer stands in pipe_write, with its locals.
  datatype Writer =
    | WIdle
    | WLoop(data: seq<char>, total: nat)                          // the test of line 61
    | WFull(data: seq<char>, total: nat)                          // the test of line 62
    | WShut(data: seq<char>, total: nat)                          // the test of line 63
    | WSleep(data: seq<char>, total: nat)                         // lines 64-66, then the test of line 67
    | WSpace(data: seq<char>, total: nat)                         // lines 70-72
    | WStore(data: seq<char>, total: nat, chunk: nat, i: nat)     // the test of line 74, then line 75
    | WHead(data: seq<char>, total: nat, chunk: nat, i: nat)      // line 76
    | WCount(data: seq<char>, total: nat, chunk: nat)             // line 78
    | WTotal(data: seq<char>, total: nat, chunk: nat)             // line 79
    | WDone(data: seq<char>, total: nat)                          // the call returned total

  // Where the reader stands in pipe_read.
  datatype Reader =
    | RIdle
    | REmpty(len: nat)               // the test of line 33
    | RShut(len: nat)                // the test of line 34
    | RSleep(len: nat)               // lines 35-37
    | RLoop(len: nat, got: nat)      // the test of line 41
    | RTake(len: nat, got: nat)      // line 42
    | RTail(len: nat, got: nat)      // line 43
    | RCount(len: nat, got: nat)     // line 44
    | RDone(got: nat)                // the call returned got

  // The pipe, its reader and its writer. Over the whole life of the pipe, moved records the
  // bytes that head has passed and out the bytes copied to readers; wfrom and rfrom are
  // their lengths when the current, or last, call of either began.
  datatype State = State(ring: Ring, w: Writer, r: Reader, moved: seq<char>, out: seq<char>, wfrom: nat, rfrom: nat)

  // pipe_create
  function Fresh(buf: Buffer): State {
    State(Ring(buf, 0, 0, 0, true, true), WIdle, RIdle, [], [], 0, 0)
  }

  datatype Step =
    | CallWrite(data: seq<char>) | CallRead(len: nat)  // a system call begins; both demand a positive length
    | WriterMoves | ReaderMoves                        // the next statement of either
    | CloseRead | CloseWrite                           // the last descriptor of an end is closed

  // One statement of pipe_write. Sleeping and waking leave the ring alone.
  ghost predicate WriterStep(s: State, t: State) {
    var g := s.ring;
    match s.w
    case WLoop(d, n) => t == s.(w := if n < |d| then WFull(d, n) else WDone(d, n))
    case WFull(d, n) => t == s.(w := if g.count >= N then WShut(d, n) else WSpace(d, n))
    case WShut(d, n) => t == s.(w := if g.readOpen then WSleep(d, n) else WDone(d, n))
    case WSleep(d, n) => t == s || t == s.(w := if g.readOpen then WFull(d, n) else WDone(d, n))
    case WSpace(d, n) =>
      g.count <= N && n <= |d| &&
      var space := N - g.count;
      t == s.(w := WStore(d, n, if |d| - n > space then space else |d| - n, 0))
    case WStore(d, n, c, i) =>
      if i < c then
        && n + i < |d| && g.head < N
        && t == s.(ring := g.(buf := g.buf[g.head := d[n + i]]), w := WHead(d, n, c, i))
      else t == s.(w := WCount(d, n, c))
    case WHead(d, n, c, i) =>
      && n + i < |d|
      && t == s.(ring := g.(head := (g.head + 1) % N), w := WStore(d, n, c, i + 1), moved := s.moved + [d[n + i]])
    case WCount(d, n, c) => t == s.(ring := g.(count := g.count + c), w := WTotal(d, n, c))
    case WTotal(d, n, c) => t == s.(w := WLoop(d, n + c))
    case _ => false
  }

  // One statement of pipe_read.
  ghost predicate ReaderStep(s: State, t: State) {
    var g := s.ring;
    match s.r
    case REmpty(len) => t == s.(r := if g.count == 0 then RShut(len) else RLoop(len, 0))
    case RShut(len) => t == s.(r := if g.writeOpen then RSleep(len) else RDone(0))
    case RSleep(len) => t == s || t == s.(r := REmpty(len))
    case RLoop(len, n) => t == s.(r := if n < len && g.count > 0 then RTake(len, n) else RDone(n))
    case RTake(len, n) => g.tail < N && t == s.(r := RTail(len, n + 1), out := s.out + [g.buf[g.tail]])
    case RTail(len, n) => t == s.(ring := g.(tail := (g.tail + 1) % N), r := RCount(len, n))
    case RCount(len, n) => g.count > 0 && t == s.(ring := g.(count := g.count - 1), r := RLoop(len, n))
    case _ => false
  }

  ghost predicate Next(s: State, t: State, step: Step) {
    match step
    case CallWrite(d) => (s.w.WIdle? || s.w.WDone?) && |d| > 0 && s.ring.readOpen
        && t == s.(w := WLoop(d, 0), wfrom := |s.moved|)
    case CallRead(len) => (s.r.RIdle? || s.r.RDone?) && len > 0 && t == s.(r := REmpty(len), rfrom := |s.out|)
    case WriterMoves => WriterStep(s, t)
    case ReaderMoves => ReaderStep(s, t)
    case CloseRead => t == s.(ring := s.ring.(readOpen := false))
    case CloseWrite => t == s.(ring := s.ring.(writeOpen := false))
  }

  // ---------------------------------------------------------------- the invariant, with the terms in flight

  // Bytes placed and passed by head but not yet in count.
  function PlacedUncounted(w: Writer): nat {
    match w
    case WStore(_, _, _, i) => i
    case WHead(_, _, _, i) => i
    case WCount(_, _, c) => c
    case _ => 0
  }

  // Bytes of the current chunk still to be placed.
  function ToPlace(w: Writer): int {
    match w
    case WStore(_, _, c, i) => c - i
    case WHead(_, _, c, i) => c - i
    case _ => 0
  }

  // How much of its data the writer's call has moved so far.
  function Progress(w: Writer): nat {
    match w
    case WIdle => 0
    case WLoop(_, n) => n
    case WFull(_, n) => n
    case WShut(_, n) => n
    case WSleep(_, n) => n
    case WSpace(_, n) => n
    case WStore(_, n, _, i) => n + i
    case WHead(_, n, _, i) => n + i
    case WCount(_, n, c) => n + c
    case WTotal(_, n, c) => n + c
    case WDone(_, n) => n
  }

  // How often tail has moved: a byte is copied out before tail passes it.
  function Passed(s: State): int {
    |s.out| - (if s.r.RTail? then 1 else 0)
  }

  // Taken, passed by tail, but still in count.
  function TakenUncounted(r: Reader): nat {
    if r.RCount? then 1 else 0
  }

  // How many bytes the reader's call has copied out.
  function Got(r: Reader): nat {
    match r
    case RIdle => 0
    case REmpty(_) => 0
    case RShut(_) => 0
    case RSleep(_) => 0
    case RLoop(_, n) => n
    case RTake(_, n) => n
    case RTail(_, n) => n
    case RCount(_, n) => n
    case RDone(n) => n
  }

  ghost predicate WriterOk(w: Writer) {
    match w
    case WIdle => true
    case WLoop(d, n) => n <= |d|
    case WFull(d, n) => n < |d|
    case WShut(d, n) => n < |d|
    case WSleep(d, n) => n < |d|
    case WSpace(d, n) => n < |d|
    case WStore(d, n, c, i) => i <= c && n + c <= |d|
    case WHead(d, n, c, i) => i < c && n + c <= |d|
    case WCount(d, n, c) => n + c <= |d|
    case WTotal(d, n, c) => n + c <= |d|
    case WDone(d, n) => n <= |d|
  }

  ghost predicate Inv(s: State) {
    var p, q := |s.moved|, Passed(s);
    && WriterOk(s.w)
    && 0 <= q <= p && s.ring.head == p % N && s.ring.tail == q % N
    && s.ring.count == (p - PlacedUncounted(s.w)) - (q - TakenUncounted(s.r))
    && p + ToPlace(s.w) <= q + N
    && s.out <= s.moved
    && (s.r.RTake? || s.r.RTail? ==> q < p - PlacedUncounted(s.w))
    && (s.w.WHead? ==> s.ring.buf[s.ring.head] == s.w.data[s.w.total + s.w.i])
    && (forall j :: q <= j < p ==> s.ring.buf[j % N] == s.moved[j])
    && s.wfrom <= p && (!s.w.WIdle? ==> s.moved[s.wfrom..] == s.w.data[..Progress(s.w)])
    && s.rfrom + Got(s.r) == |s.out|
  }

  lemma ModNext(a: nat)
    ensures (a % N + 1) % N == (a + 1) % N
  {
  }

  // Positions less than a buffer apart fall on different cells.
  lemma ModApart(a: nat, b: nat)
    requires a < b < a + N
    ensures a % N != b % N
  {
  }

  lemma StoreKeeps(s: State, t: State)
    requires Inv(s) && s.w.WStore? && WriterStep(s, t)
    ensures Inv(t)
  {
    var p, q := |s.moved|, Passed(s);
    if s.w.i < s.w.chunk {
      forall j | q <= j < p ensures t.ring.buf[j % N] == s.moved[j] {
        ModApart(j, p);
      }
    }
  }

  lemma OneMore(buf: Buffer, moved: seq<char>, q: nat, x: char)
    requires q <= |moved| && buf[|moved| % N] == x && forall j :: q <= j < |moved| ==> buf[j % N] == moved[j]
    ensures forall j :: q <= j < |moved| + 1 ==> buf[j % N] == (moved + [x])[j]
  {
  }

  lemma Suffix(moved: seq<char>, from: nat, d: seq<char>, k: nat)
    requires from <= |moved| && k < |d| && moved[from..] == d[..k]
    ensures (moved + [d[k]])[from..] == d[..k + 1]
  {
    assert (moved + [d[k]])[from..] == moved[from..] + [d[k]];
    assert d[..k + 1] == d[..k] + [d[k]];
  }

  lemma HeadKeeps(s: State, t: State)
    requires Inv(s) && s.w.WHead? && WriterStep(s, t)
    ensures Inv(t)
  {
    var d, k := s.w.data, s.w.total + s.w.i;
    ModNext(|s.moved|);
    Suffix(s.moved, s.wfrom, d, k);
    OneMore(s.ring.buf, s.moved, Passed(s), d[k]);
  }

  lemma SpaceKeeps(s: State, t: State)
    requires Inv(s) && s.w.WSpace? && WriterStep(s, t)
    ensures Inv(t)
  {
  }

  lemma CountKeeps(s: State, t: State)
    requires Inv(s) && s.w.WCount? && WriterStep(s, t)
    ensures Inv(t)
  {
  }

  lemma TestKeeps(s: State, t: State)
    requires Inv(s) && (s.w.WLoop? || s.w.WFull? || s.w.WShut? || s.w.WSleep? || s.w.WTotal?) && WriterStep(s, t)
    ensures Inv(t)
  {
  }

  lemma WriterKeeps(s: State, t: State)
    requires Inv(s) && WriterStep(s, t)
    ensures Inv(t)
  {
    match s.w
    case WStore(_, _, _, _) => StoreKeeps(s, t);
    case WHead(_, _, _, _) => HeadKeeps(s, t);
    case WSpace(_, _) => SpaceKeeps(s, t);
    case WCount(_, _, _) => CountKeeps(s, t);
    case _ => TestKeeps(s, t);
  }

  lemma TakeKeeps(s: State, t: State)
    requires Inv(s) && s.r.RTake? && ReaderStep(s, t)
    ensures Inv(t)
  {
    assert s.ring.buf[s.ring.tail] == s.moved[Passed(s)];
  }

  lemma TailKeeps(s: State, t: State)
    requires Inv(s) && s.r.RTail? && ReaderStep(s, t)
    ensures Inv(t)
  {
    ModNext(Passed(s));
  }

  lemma ReaderKeeps(s: State, t: State)
    requires Inv(s) && ReaderStep(s, t)
    ensures Inv(t)
  {
    if s.r.RTake? { TakeKeeps(s, t); } else if s.r.RTail? { TailKeeps(s, t); }
  }

  lemma NextKeeps(s: State, t: State, step: Step)
    requires Inv(s) && Next(s, t, step)
    ensures Inv(t)
  {
    match step
    case WriterMoves => WriterKeeps(s, t);
    case ReaderMoves => ReaderKeeps(s, t);
    case CallWrite(d) => CallKeeps(s, t, d);
    case _ => OtherKeeps(s, t, step);
  }

  lemma OtherKeeps(s: State, t: State, step: Step)
    requires Inv(s) && Next(s, t, step) && (step.CallRead? || step.CloseRead? || step.CloseWrite?)
    ensures Inv(t)
  {
  }

  lemma CallKeeps(s: State, t: State, d: seq<char>)
    requires Inv(s) && (s.w.WIdle? || s.w.WDone?) && t == s.(w := WLoop(d, 0), wfrom := |s.moved|)
    ensures Inv(t)
  {
    assert t.moved[t.wfrom..] == [] && d[..0] == [];
  }

  ghost predicate Run(ss: seq<State>, steps: seq<Step>) {
    && |ss| == |steps| + 1
    && forall i :: 0 <= i < |steps| ==> Next(ss[i], ss[i + 1], steps[i])
  }

  lemma {:induction false} RunKeeps(ss: seq<State>, steps: seq<Step>, buf: Buffer, i: nat)
    requires Run(ss, steps) && ss[0] == Fresh(buf) && i <= |steps|
    ensures Inv(ss[i])
  {
    if i > 0 {
      RunKeeps(ss, steps, buf, i - 1);
      NextKeeps(ss[i - 1], ss[i], steps[i - 1]);
    }
  }

  // ---------------------------------------------------------------- what a user sees

  // The bytes in the ring, from tail on.
  ghost function Contents(g: Ring): (c: seq<char>) {
    seq(g.count, (k: nat) => g.buf[(g.tail + k) % N])
  }

  // Through any interleaving, wraparound, partial writes and blocking: what readers got is a
  // prefix of what writers put in, and whenever neither call is under way the bytes read
  // followed by the bytes in the ring are exactly the bytes accepted, at most 4096 of them
  // unread.
  lemma Fifo(ss: seq<State>, steps: seq<Step>, buf: Buffer, i: nat)
    requires Run(ss, steps) && ss[0] == Fresh(buf) && i <= |steps|
    ensures ss[i].out <= ss[i].moved
    ensures ss[i].w.WIdle? || ss[i].w.WDone? ==>
      ss[i].ring.head == (ss[i].ring.tail + ss[i].ring.count - TakenUncounted(ss[i].r)) % N
    ensures (ss[i].w.WIdle? || ss[i].w.WDone?) && (ss[i].r.RIdle? || ss[i].r.RDone?) ==>
      ss[i].out + Contents(ss[i].ring) == ss[i].moved && ss[i].ring.count <= N
  {
    RunKeeps(ss, steps, buf, i);
    var s := ss[i];
    var q := Passed(s);
    if s.w.WIdle? || s.w.WDone? {
      ModSum(q, |s.moved| - q);
      if s.r.RIdle? || s.r.RDone? {
        var c := Contents(s.ring);
        forall k | 0 <= k < |c| ensures c[k] == s.moved[q + k] {
          ModSum(q, k);
        }
      }
    }
  }

  // Each call does what it returns: a write that returned n accepted exactly the first n
  // bytes of its data, and all of them unless the read end is closed; a read that
  // returned n copied out exactly the next n bytes, at least one unless the write end is
  // closed.
  lemma CallsAccount(ss: seq<State>, steps: seq<Step>, buf: Buffer, i: nat)
    requires Run(ss, steps) && ss[0] == Fresh(buf) && i <= |steps|
    ensures ss[i].w.WDone? ==> ss[i].w.total <= |ss[i].w.data| && ss[i].wfrom <= |ss[i].moved|
    ensures ss[i].w.WDone? ==> ss[i].moved[ss[i].wfrom..] == ss[i].w.data[..ss[i].w.total]
    ensures ss[i].w.WDone? && ss[i].w.total < |ss[i].w.data| ==> !ss[i].ring.readOpen
    ensures ss[i].r.RDone? ==> ss[i].rfrom <= |ss[i].out| && |ss[i].out[ss[i].rfrom..]| == ss[i].r.got
    ensures ss[i].r.RDone? && ss[i].r.got == 0 ==> !ss[i].ring.writeOpen
  {
    RunKeeps(ss, steps, buf, i);
    ShortMeansClosed(ss, steps, buf, i);
    ZeroMeansClosed(ss, steps, buf, i);
  }

  lemma {:induction false} ShortMeansClosed(ss: seq<State>, steps: seq<Step>, buf: Buffer, i: nat)
    requires Run(ss, steps) && ss[0] == Fresh(buf) && i <= |steps|
    ensures ss[i].w.WDone? && ss[i].w.total < |ss[i].w.data| ==> !ss[i].ring.readOpen
  {
    if i > 0 {
      ShortMeansClosed(ss, steps, buf, i - 1);
      var s, t := ss[i - 1], ss[i];
      assert Next(s, t, steps[i - 1]);
    }
  }

  // A reader past the loop has something to take, and took nothing only at a closed end.
  ghost predicate TakesSome(s: State) {
    match s.r
    case RIdle => true
    case REmpty(len) => len > 0
    case RShut(len) => len > 0
    case RSleep(len) => len > 0
    case RLoop(len, n) => n == 0 ==> len > 0 && s.ring.count > 0
    case RTake(_, _) => true
    case RTail(_, n) => n > 0
    case RCount(_, n) => n > 0
    case RDone(n) => n == 0 ==> !s.ring.writeOpen
  }

  lemma {:induction false} ZeroMeansClosed(ss: seq<State>, steps: seq<Step>, buf: Buffer, i: nat)
    requires Run(ss, steps) && ss[0] == Fresh(buf) && i <= |steps|
    ensures TakesSome(ss[i])
  {
    if i > 0 {
      ZeroMeansClosed(ss, steps, buf, i - 1);
      var s, t := ss[i - 1], ss[i];
      assert Next(s, t, steps[i - 1]);
    }
  }

  predicate WithinLen(r: Reader) {
    match r
    case RLoop(len, n) => n <= len
    case RTake(len, n) => n < len
    case RTail(len, n) => n <= len
    case RCount(len, n) => n <= len
    case _ => true
  }

  lemma {:induction false} ReadsWithin(ss: seq<State>, steps: seq<Step>, buf: Buffer, i: nat)
    requires Run(ss, steps) && ss[0] == Fresh(buf) && i <= |steps|
    ensures WithinLen(ss[i].r)
  {
    if i > 0 {
      ReadsWithin(ss, steps, buf, i - 1);
      assert Next(ss[i - 1], ss[i], steps[i - 1]);
    }
  }

  // A read that has found bytes returns as many as were asked for, or fewer once it has
  // emptied the ring.
  lemma ReadStops(ss: seq<State>, steps: seq<Step>, buf: Buffer, i: nat)
    requires Run(ss, steps) && ss[0] == Fresh(buf) && i < |steps| && steps[i] == ReaderMoves
    requires ss[i].r.RLoop? && ss[i + 1].r.RDone?
    ensures ss[i + 1].r.got == ss[i].r.len || (ss[i + 1].r.got < ss[i].r.len && ss[i].ring.count == 0)
  {
    ReadsWithin(ss, steps, buf, i);
    assert Next(ss[i], ss[i + 1], steps[i]);
  }

  // End of file is decided by two tests. A read that returns 0 at the second has left bytes
  // behind exactly when the ring filled since the first: when it is not empty now.
  lemma EofIff(ss: seq<State>, steps: seq<Step>, buf: Buffer, i: nat)
    requires Run(ss, steps) && ss[0] == Fresh(buf) && i < |steps| && steps[i] == ReaderMoves
    requires ss[i].r.RShut? && !ss[i].ring.writeOpen && (ss[i].w.WIdle? || ss[i].w.WDone?)
    ensures ss[i + 1].r == RDone(0)
    ensures ss[i + 1].out == ss[i + 1].moved <==> ss[i].ring.count == 0
  {
    RunKeeps(ss, steps, buf, i);
    assert Next(ss[i], ss[i + 1], steps[i]);
  }

  // Runs are built step by step.
  lemma Extend(ss: seq<State>, steps: seq<Step>, t: State, step: Step)
    requires Run(ss, steps) && Next(ss[|steps|], t, step)
    ensures Run(ss + [t], steps + [step])
  {
  }

  // The write of one byte into an empty ring, from the call to its return.
  function WrittenOne(s: State, x: char, k: nat): State
    requires 1 <= k <= 10
  {
    var d, g := [x], s.ring;
    var a := s.(wfrom := |s.moved|);
    var b := a.(ring := g.(buf := g.buf[0 := x]));
    var c := b.(ring := b.ring.(head := 1), moved := s.moved + [x]);
    var e := c.(ring := c.ring.(count := 1));
    if k == 1 then a.(w := WLoop(d, 0))
    else if k == 2 then a.(w := WFull(d, 0))
    else if k == 3 then a.(w := WSpace(d, 0))
    else if k == 4 then a.(w := WStore(d, 0, 1, 0))
    else if k == 5 then b.(w := WHead(d, 0, 1, 0))
    else if k == 6 then c.(w := WStore(d, 0, 1, 1))
    else if k == 7 then c.(w := WCount(d, 0, 1))
    else if k == 8 then e.(w := WTotal(d, 0, 1))
    else if k == 9 then e.(w := WLoop(d, 1))
    else e.(w := WDone(d, 1))
  }

  lemma WritesOne(s: State, x: char, k: nat)
    requires s.ring.head == 0 && s.ring.count == 0 && 1 <= k < 10
    ensures WriterStep(WrittenOne(s, x, k), WrittenOne(s, x, k + 1))
  {
  }

  // The schedule that does so: the reader finds the ring empty, then a whole write of one
  // byte and the close of the write end come between its two tests.
  lemma EarlyEof(buf: Buffer, x: char) returns (ss: seq<State>, steps: seq<Step>)
    ensures Run(ss, steps) && ss[0] == Fresh(buf)
    ensures ss[|steps|].r == RDone(0) && ss[|steps|].moved == [x] && ss[|steps|].out == []
  {
    var s := Fresh(buf).(r := RShut(1));
    ss, steps := [Fresh(buf)], [];
    Extend(ss, steps, s.(r := REmpty(1)), CallRead(1));
    ss, steps := ss + [s.(r := REmpty(1))], steps + [CallRead(1)];
    Extend(ss, steps, s, ReaderMoves);
    ss, steps := ss + [s], steps + [ReaderMoves];
    Extend(ss, steps, WrittenOne(s, x, 1), CallWrite([x]));
    ss, steps := ss + [WrittenOne(s, x, 1)], steps + [CallWrite([x])];
    for k := 1 to 10
      invariant Run(ss, steps) && ss[0] == Fresh(buf) && ss[|steps|] == WrittenOne(s, x, k)
    {
      WritesOne(s, x, k);
      Extend(ss, steps, WrittenOne(s, x, k + 1), WriterMoves);
      ss, steps := ss + [WrittenOne(s, x, k + 1)], steps + [WriterMoves];
    }
    ss, steps := CloseAndReturn(ss, steps);
  }

  lemma CloseAndReturn(ss: seq<State>, steps: seq<Step>) returns (tt: seq<State>, more: seq<Step>)
    requires Run(ss, steps) && ss[|steps|].r.RShut?
    ensures Run(tt, more) && tt[0] == ss[0] && tt[|more|].r == RDone(0)
    ensures tt[|more|].moved == ss[|steps|].moved && tt[|more|].out == ss[|steps|].out
  {
    var s := ss[|steps|].(ring := ss[|steps|].ring.(writeOpen := false));
    Extend(ss, steps, s, CloseWrite);
    tt, more := ss + [s], steps + [CloseWrite];
    Extend(tt, more, s.(r := RDone(0)), ReaderMoves);
    tt, more := tt + [s.(r := RDone(0))], more + [ReaderMoves];
  }

  lemma ModSum(a: nat, b: nat)
    ensures (a % N + b) % N == (a + b) % N
  {
    var r := a / N;
    assert a == N * r + a % N;
    ModShift(a % N + b, r);
  }

  lemma {:induction false} ModShift(x: nat, r: nat)
    ensures (x + N * r) % N == x % N
    decreases r
  {
    if r > 0 {
      ModShift(x, r - 1);
      assert x + N * r == (x + N * (r - 1)) + N;
    }
  }
}
