/**
 * A pipe (kernel/pipe.c) at the granularity of whole stretches of kernel code between task
 * switches: the transfer loops over the ring, and the sleeping and waking of its reader and
 * its writer.
 */
module PipeSleep {
  import opened Prelude
  import opened PipeBuffer

  // ---------------------------------------------------------------- the transfer loops

  class Pipe {
    var buf: array<char>
    var head: nat
    var tail: nat
    var count: nat

    ghost function Now(): Ring
      reads this, buf
    {
      Ring(buf[..], head, tail, count)
    }

    ghost predicate Valid()
      reads this, buf
    {
      Ok(Now())
    }

    // The bytes in the ring, oldest first.
    ghost function Bytes(): seq<char>
      requires Valid()
      reads this, buf
    {
      Contents(Now())
    }

    // pipe_create
    constructor ()
      ensures Valid() && fresh(buf) && Bytes() == []
    {
      buf := new char[N](_ => ' ');
      head, tail, count := 0, 0, 0;
    }

    // Lines 40-45 of pipe_read: move up to len bytes out of the ring.
    method Take(len: nat) returns (out: seq<char>)
      requires Valid()
      modifies `tail, `count
      ensures |out| == Min(len, |old(Bytes())|) && Now() == TakeOut(old(Now()), |out|)
      ensures Valid() && out == old(Bytes())[..|out|] && Bytes() == old(Bytes())[|out|..]
    {
      out := [];
      ghost var was, all := Now(), Bytes();
      ghost var total := Min(len, count);
      while |out| < len && count > 0
        invariant Valid() && |out| <= total && count == |all| - |out|
        invariant TakeOut(was, total) == TakeOut(Now(), total - |out|)
        invariant out == all[..|out|] && Bytes() == all[|out|..]
      {
        ghost var n := |out|;
        var x := TakeOne(all, n);
        out := out + [x];
        assert all[..n + 1] == all[..n] + [all[n]];
      }
    }

    // Lines 42-44.
    method TakeOne(ghost all: seq<char>, ghost n: nat) returns (x: char)
      requires Valid() && count > 0 && n < |all| && Bytes() == all[n..]
      modifies `tail, `count
      ensures Now() == old(Now()).(tail := (old(tail) + 1) % N, count := old(count) - 1)
      ensures Valid() && x == all[n] && Bytes() == all[n + 1..]
    {
      OneOut(Now(), all, n);
      x := buf[tail];
      tail := (tail + 1) % N;
      count := count - 1;
    }

    // Lines 70-79 of pipe_write: put as much of data as fits behind the bytes in the ring.
    method Put(data: seq<char>) returns (chunk: nat)
      requires Valid()
      modifies this`head, this`count, buf
      ensures buf == old(buf) && chunk == Min(|data|, N - |old(Bytes())|)
      ensures Now() == PutIn(old(Now()), data[..chunk])
      ensures Valid() && Bytes() == old(Bytes()) + data[..chunk]
    {
      var space := N - count;
      chunk := if |data| > space then space else |data|;
      ghost var was, part := Now(), data[..chunk];
      PutInIs(was, part);
      var i := 0;
      assert part[0..] == part;
      while i < chunk
        invariant i <= chunk && buf == old(buf) && buf.Length == N && head < N
        invariant count == was.count && tail == was.tail && Place(was, part) == Place(Now(), part[i..])
      {
        assert part[i..][0] == data[i] && part[i..][1..] == part[i + 1..];
        buf[head] := data[i];
        head := (head + 1) % N;
        i := i + 1;
      }
      assert part[i..] == [];
      count := count + chunk;
    }
  }

  // ---------------------------------------------------------------- sleeping and waking

  // A task that uses the pipe: outside the pipe code, asleep in task_block, or made ready
  // again but not yet running. rest is what its call still has to do, len its length.
  datatype Task = Outside | Asleep(rest: nat) | Woken(rest: nat)

  // count stands for the ring; the two waiter fields are blocked_reader and blocked_writer.
  datatype Sys = Sys(count: nat, readOpen: bool, writeOpen: bool, readerWaits: bool, writerWaits: bool,
                     reader: Task, writer: Task)

  // task_wakeup: only a blocked task becomes ready.
  function Wake(t: Task): Task {
    if t.Asleep? then Woken(t.rest) else t
  }

  // pipe_read from line 33 on, until it returns or sleeps.
  function Read(s: Sys, len: nat): Sys {
    if s.count == 0 then
      if !s.writeOpen then s.(reader := Outside)
      else s.(readerWaits := true, reader := Asleep(len))
    else
      var u := s.(count := s.count - Min(len, s.count), reader := Outside);
      if u.writerWaits then u.(writer := Wake(u.writer), writerWaits := false) else u
  }

  // pipe_write from line 61 on with rest bytes to go, until it returns or sleeps: each round
  // fills what space there is and wakes the reader.
  function Write(s: Sys, rest: nat): Sys
    requires s.count <= N
    decreases rest
  {
    if rest == 0 then s.(writer := Outside)
    else if s.count >= N then
      if !s.readOpen then s.(writer := Outside)
      else s.(writerWaits := true, writer := Asleep(rest))
    else
      var chunk := Min(rest, N - s.count);
      var u := s.(count := s.count + chunk);
      Write(if u.readerWaits then u.(reader := Wake(u.reader), readerWaits := false) else u, rest - chunk)
  }

  datatype Event =
    | CallRead(len: nat) | CallWrite(len: nat)  // system calls
    | ReaderRuns | WriterRuns                   // a woken task is scheduled and goes on
    | SignalReader | SignalWriter               // sys_kill makes a blocked task ready
    | CloseRead | CloseWrite                    // pipe_close_end on the last reference of an end

  ghost predicate Next(s: Sys, t: Sys, e: Event)
    requires s.count <= N
  {
    match e
    case CallRead(len) => s.reader == Outside && len > 0 && t == Read(s, len)
    case CallWrite(len) => s.writer == Outside && len > 0 && s.readOpen && t == Write(s, len)
    case ReaderRuns => s.reader.Woken? && t == Read(s.(readerWaits := false), s.reader.rest)
    case WriterRuns =>
      s.writer.Woken? &&
      var u := s.(writerWaits := false);
      t == if !u.readOpen then u.(writer := Outside) else Write(u, u.writer.rest)
    case SignalReader => t == s.(reader := Wake(s.reader))
    case SignalWriter => t == s.(writer := Wake(s.writer))
    case CloseRead =>
      var u := s.(readOpen := false);
      t == if u.readerWaits then u.(reader := Wake(u.reader), readerWaits := false) else u
    case CloseWrite =>
      var u := s.(writeOpen := false);
      t == if u.writerWaits then u.(writer := Wake(u.writer), writerWaits := false) else u
  }

  // A sleeping reader is the recorded waiter of an empty ring, a sleeping writer that of a full one.
  ghost predicate Inv(s: Sys) {
    && s.count <= N
    && (s.reader.Asleep? ==> s.count == 0 && s.readerWaits)
    && (s.writer.Asleep? ==> s.count == N && s.writerWaits)
  }

  lemma {:induction false} WriteKeeps(s: Sys, rest: nat)
    requires s.count <= N && !s.writer.Asleep? && (s.reader.Asleep? ==> s.count == 0 && s.readerWaits)
    ensures Inv(Write(s, rest))
    decreases rest
  {
    if rest != 0 && s.count < N {
      var chunk := Min(rest, N - s.count);
      var u := s.(count := s.count + chunk);
      WriteKeeps(if u.readerWaits then u.(reader := Wake(u.reader), readerWaits := false) else u, rest - chunk);
    }
  }

  lemma NextKeeps(s: Sys, t: Sys, e: Event)
    requires Inv(s) && Next(s, t, e)
    ensures Inv(t)
  {
    match e
    case CallWrite(len) => WriteKeeps(s, len);
    case WriterRuns =>
      if s.readOpen { WriteKeeps(s.(writerWaits := false), s.writer.rest); }
    case _ =>
  }

  ghost predicate Run(ss: seq<Sys>, es: seq<Event>) {
    && |ss| == |es| + 1
    && forall i :: 0 <= i < |es| ==> ss[i].count <= N && Next(ss[i], ss[i + 1], es[i])
  }

  const CREATED := Sys(0, true, true, false, false, Outside, Outside)

  lemma {:induction false} RunKeeps(ss: seq<Sys>, es: seq<Event>, i: nat)
    requires Run(ss, es) && ss[0] == CREATED && i <= |es|
    ensures Inv(ss[i])
  {
    if i > 0 {
      RunKeeps(ss, es, i - 1);
      NextKeeps(ss[i - 1], ss[i], es[i - 1]);
    }
  }

  // Reader and writer never sleep on the same pipe together, and a sleeper is always the
  // recorded waiter that the other side's next transfer wakes.
  lemma NeverBothAsleep(ss: seq<Sys>, es: seq<Event>, i: nat)
    requires Run(ss, es) && ss[0] == CREATED && i <= |es|
    ensures !(ss[i].reader.Asleep? && ss[i].writer.Asleep?)
    ensures ss[i].count <= N
    ensures ss[i].reader.Asleep? ==> forall len :: len > 0 ==> Write(ss[i], len).reader.Woken?
    ensures ss[i].writer.Asleep? ==> forall len :: len > 0 ==> Read(ss[i], len).writer.Woken?
  {
    RunKeeps(ss, es, i);
    if ss[i].reader.Asleep? {
      forall len | len > 0 ensures Write(ss[i], len).reader.Woken? {
        WriteWakes(ss[i], len);
      }
    }
  }

  lemma {:induction false} WriteWakes(s: Sys, rest: nat)
    requires s.count <= N && rest > 0 && ((s.reader.Asleep? && s.readerWaits && s.count == 0) || s.reader.Woken?)
    ensures Write(s, rest).reader.Woken?
    decreases rest
  {
    if s.count < N {
      var chunk := Min(rest, N - s.count);
      var u := s.(count := s.count + chunk);
      if rest - chunk > 0 {
        WriteWakes(if u.readerWaits then u.(reader := Wake(u.reader), readerWaits := false) else u, rest - chunk);
      }
    }
  }
}
