/**
 * The ring buffer of a pipe (kernel/pipe.c) as a value: taking bytes out at the
 * tail and putting bytes in at the head.
 */
module PipeBuffer {
  import opened Prelude

  const N: nat := 4096  // PIPE_BUF_SIZE

  // A position at most one round past the end.
  function Wrap(x: nat): (r: nat)
    ensures x < 2 * N ==> r == x % N
  {
    if x < N then x else x - N
  }

  // The count bytes of b from tail on, round the ring.
  function Unroll(b: seq<char>, tail: nat, count: nat): seq<char>
    requires |b| == N && tail < N && count <= N
  {
    seq(count, (k: nat) requires k < count => b[Wrap(tail + k)])
  }

  lemma UnrollRest(b: seq<char>, tail: nat, count: nat)
    requires |b| == N && tail < N && 0 < count <= N
    ensures Unroll(b, tail, count)[0] == b[tail]
    ensures Unroll(b, Wrap(tail + 1), count - 1) == Unroll(b, tail, count)[1..]
  {
    var c, d := Unroll(b, tail, count), Unroll(b, Wrap(tail + 1), count - 1);
    assert c[0] == b[Wrap(tail + 0)];
    forall k | 0 <= k < count - 1 ensures d[k] == c[k + 1] {
      assert Wrap(Wrap(tail + 1) + k) == Wrap(tail + (k + 1));
    }
  }

  lemma UnrollMore(b: seq<char>, tail: nat, count: nat, x: char)
    requires |b| == N && tail < N && count < N
    ensures Unroll(b[Wrap(tail + count) := x], tail, count + 1) == Unroll(b, tail, count) + [x]
  {
    var c := Unroll(b[Wrap(tail + count) := x], tail, count + 1);
    forall k | 0 <= k < count ensures c[k] == Unroll(b, tail, count)[k] {
      assert Wrap(tail + k) != Wrap(tail + count);
    }
  }

  // ---------------------------------------------------------------- the ring

  datatype Ring = Ring(buf: seq<char>, head: nat, tail: nat, count: nat)

  predicate Ok(r: Ring) { |r.buf| == N && r.tail < N && r.count <= N && r.head == Wrap(r.tail + r.count) }

  // The bytes in the ring, oldest first.
  function Contents(r: Ring): seq<char>
    requires Ok(r)
  {
    Unroll(r.buf, r.tail, r.count)
  }

  // n turns of the reading loop.
  function TakeOut(r: Ring, n: nat): Ring
    requires Ok(r) && n <= r.count
    decreases n
  {
    if n == 0 then r else TakeOut(r.(tail := (r.tail + 1) % N, count := r.count - 1), n - 1)
  }

  // The writing loop: the bytes are placed before they are counted.
  function Place(r: Ring, data: seq<char>): Ring
    requires |r.buf| == N && r.head < N
    decreases |data|
  {
    if data == [] then r
    else Place(r.(buf := r.buf[r.head := data[0]], head := (r.head + 1) % N), data[1..])
  }

  function PutIn(r: Ring, data: seq<char>): Ring
    requires |r.buf| == N && r.head < N
  {
    Place(r, data).(count := r.count + |data|)
  }

  // One turn: the byte at the tail is the next one.
  lemma OneOut(r: Ring, was: seq<char>, n: nat)
    requires Ok(r) && r.count > 0 && n < |was| && Contents(r) == was[n..]
    ensures var s := r.(tail := (r.tail + 1) % N, count := r.count - 1);
            r.buf[r.tail] == was[n] && Ok(s) && Contents(s) == was[n + 1..]
  {
    UnrollRest(r.buf, r.tail, r.count);
    assert was[n..][1..] == was[n + 1..];
  }

  // Taking bytes out gives the oldest ones and leaves the others.
  lemma {:induction false} TakeOutIs(r: Ring, n: nat)
    requires Ok(r) && n <= r.count
    ensures Ok(TakeOut(r, n)) && TakeOut(r, n).count == r.count - n
    ensures Contents(TakeOut(r, n)) == Contents(r)[n..]
    decreases n
  {
    if n > 0 {
      UnrollRest(r.buf, r.tail, r.count);
      TakeOutIs(r.(tail := (r.tail + 1) % N, count := r.count - 1), n - 1);
      assert Contents(r)[1..][n - 1..] == Contents(r)[n..];
    }
  }

  lemma {:induction false} PlaceIs(r: Ring, data: seq<char>, placed: nat)
    requires |r.buf| == N && r.tail < N && r.count + placed + |data| <= N && r.head == Wrap(r.tail + r.count + placed)
    ensures var s := Place(r, data);
            && |s.buf| == N && s.tail == r.tail && s.count == r.count
            && s.head == Wrap(r.tail + r.count + placed + |data|)
            && Unroll(s.buf, r.tail, r.count + placed + |data|) == Unroll(r.buf, r.tail, r.count + placed) + data
    decreases |data|
  {
    var was := Unroll(r.buf, r.tail, r.count + placed);
    if data == [] {
      assert was + data == was;
    } else {
      UnrollMore(r.buf, r.tail, r.count + placed, data[0]);
      PlaceIs(r.(buf := r.buf[r.head := data[0]], head := (r.head + 1) % N), data[1..], placed + 1);
      assert was + [data[0]] + data[1..] == was + data;
    }
  }

  // Putting bytes in appends them.
  lemma PutInIs(r: Ring, data: seq<char>)
    requires Ok(r) && r.count + |data| <= N
    ensures Ok(PutIn(r, data)) && Contents(PutIn(r, data)) == Contents(r) + data
  {
    PlaceIs(r, data, 0);
  }
}
