/**
 * How soon a killed task ends: the scheduler and the signals together.
 *
 * SIGKILL only marks a task and makes it READY.  It ends at its next delivery,
 * and a delivery comes on the way out of an interrupt of user mode, for the
 * task that is current by then.  A switch from inside the kernel delivers
 * nothing: the task goes on where it was, and may fall asleep again.
 */
module KilledTasks {
  import opened Prelude
  import S = Scheduler
  import G = Signals
  import P = PipeSleep

  datatype Both = Both(sched: S.Sys, sig: G.Sys)

  predicate Coupled(b: Both) {
    S.Shape(b.sched) && G.Shape(b.sig) && |b.sig.tasks| == |b.sched.tasks| && b.sig.cur == b.sched.cur
  }

  // A stretch of execution: what the current task does, `inner`, ends with a
  // step of the scheduler.  `user`: it was a timer interrupt of user mode.
  datatype Event = Event(inner: seq<G.Step>, step: S.Step, user: bool)

  predicate Local(step: G.Step) { !step.Switch? && !step.Preempt? }

  predicate AllLocal(inner: seq<G.Step>) { forall i :: 0 <= i < |inner| ==> Local(inner[i]) }

  // The signals' side of a tick that leads to task next.
  function Arrive(q: G.Sys, next: nat, user: bool): G.Sys
    requires G.Shape(q)
  {
    G.Next(q, if user then G.Preempt(next) else G.Switch(next))
  }

  function MoveState(a: Both, b: Both, e: Event): Sealed {
    if && Coupled(a) && Coupled(b) && AllLocal(e.inner) && (e.user ==> e.step == S.DoTick)
       && b.sched == S.Next(a.sched, e.step)
       && var m := G.Run(a.sig, e.inner);
          b.sig == if S.Ticks(a.sched, e.step) then Arrive(m, b.sched.cur, e.user) else m
    then Intact else Broken
  }

  predicate Moves(a: Both, b: Both, e: Event) { MoveState(a, b, e) == Intact }

  predicate Run(bs: seq<Both>, es: seq<Event>) {
    |bs| == |es| + 1 && forall i :: 0 <= i < |es| ==> Moves(bs[i], bs[i + 1], es[i])
  }

  // The task is marked and has not ended.
  predicate Marked(q: G.Sys, t: nat) {
    t < |q.tasks| && !q.tasks[t].zombie && q.tasks[t].pid != 0 && G.SIGKILL in q.tasks[t].pending
  }

  lemma LocalStep(q: G.Sys, step: G.Step, t: nat)
    requires G.Shape(q) && Local(step) && Marked(q, t) && t != q.cur
    ensures G.Shape(G.Next(q, step)) && G.Next(q, step).cur == q.cur && Marked(G.Next(q, step), t)
  {
    G.NextShape(q, step);
    G.StepCondemned(q, step, t);
  }

  // Nothing that another task does takes the mark away or ends the task.
  lemma {:induction false} LocalRun(q: G.Sys, inner: seq<G.Step>, t: nat)
    requires G.Shape(q) && AllLocal(inner) && Marked(q, t) && t != q.cur
    ensures G.Run(q, inner).cur == q.cur && Marked(G.Run(q, inner), t)
    decreases |inner|
  {
    if inner != [] {
      assert Local(inner[0]);
      LocalStep(q, inner[0], t);
      LocalRun(G.Next(q, inner[0]), inner[1..], t);
    }
  }

  // A switch to the marked task ends it exactly when it is a timer interrupt
  // of user mode; a switch to another task leaves it marked.
  lemma Arrival(q: G.Sys, next: nat, user: bool, t: nat)
    requires G.Shape(q) && Marked(q, t) && t != q.cur && Arrive(q, next, user).cur == next
    ensures G.Shape(Arrive(q, next, user)) && t < |Arrive(q, next, user).tasks|
    ensures next != t ==> Marked(Arrive(q, next, user), t)
    ensures next == t ==> (Arrive(q, next, user).tasks[t].zombie <==> user)
    ensures next == t && !user ==> Marked(Arrive(q, next, user), t)
  {
    var step := if user then G.Preempt(next) else G.Switch(next);
    G.NextShape(q, step);
    G.StepCondemned(q, step, t);
    if user && next < |q.tasks| { G.DeliverKeeps(q.tasks[next], q.frames[q.cur]); }
  }

  function WaitState(b: Both, idle: nat, t: nat): Sealed {
    if && S.Good(b.sched, idle) && Coupled(b) && Marked(b.sig, t)
       && t < |b.sched.tasks| && t != b.sched.cur && b.sched.tasks[t].state == S.Ready
    then Intact else Broken
  }

  // A killed task waits for its turn.
  predicate Waiting(b: Both, idle: nat, t: nat) { WaitState(b, idle, t) == Intact }

  function Away(b: Both, t: nat): nat {
    if b.sched.cur < S.MAX_TASKS && t < S.MAX_TASKS then S.Dist(b.sched.cur, t) else 0
  }

  predicate TicksIn(a: Both, e: Event) { S.Shape(a.sched) && S.Ticks(a.sched, e.step) }

  // It is current now: it has ended, or is still marked.
  predicate Arrived(a: Both, b: Both, e: Event, t: nat) { ArriveState(a, b, e, t) == Intact }

  function ArriveState(a: Both, b: Both, e: Event, t: nat): Sealed {
    if && b.sched.cur == t && t < |b.sig.tasks| && TicksIn(a, e)
       && (b.sig.tasks[t].zombie <==> e.user) && (!e.user ==> Marked(b.sig, t))
    then Intact else Broken
  }

  // With every tick it comes nearer.
  lemma OneEvent(a: Both, b: Both, e: Event, idle: nat, t: nat)
    requires Moves(a, b, e) && Waiting(a, idle, t) && S.Allowed(a.sched, idle, e.step)
    ensures b.sched.cur == t ==> Arrived(a, b, e, t)
    ensures b.sched.cur != t ==>
              Waiting(b, idle, t) && Away(b, t) + (if TicksIn(a, e) then 1 else 0) <= Away(a, t)
  {
    var m := G.Run(a.sig, e.inner);
    S.StepGood(a.sched, idle, e.step);
    LocalRun(a.sig, e.inner, t);
    if S.Ticks(a.sched, e.step) {
      S.TickingStep(a.sched, idle, e.step);
      S.TickNears(S.Before(a.sched, e.step), t);
      Arrival(m, b.sched.cur, e.user, t);
    } else {
      S.QuietStep(a.sched, idle, e.step);
    }
  }

  // The ticks of the first n events.
  function TickCount(bs: seq<Both>, es: seq<Event>, n: nat): nat
    requires n <= |es| < |bs|
  {
    if n == 0 then 0 else TickCount(bs, es, n - 1) + (if TicksIn(bs[n - 1], es[n - 1]) then 1 else 0)
  }

  predicate AllAllowed(bs: seq<Both>, es: seq<Event>, idle: nat)
    requires |bs| == |es| + 1
  {
    forall i :: 0 <= i < |es| ==> S.Allowed(bs[i].sched, idle, es[i].step)
  }

  // Until it is current it waits, and comes nearer with every tick.
  lemma {:induction false} StillWaits(bs: seq<Both>, es: seq<Event>, idle: nat, t: nat, n: nat)
    requires Run(bs, es) && AllAllowed(bs, es, idle) && Waiting(bs[0], idle, t) && n <= |es|
    requires forall j :: 0 <= j <= n ==> bs[j].sched.cur != t
    ensures Waiting(bs[n], idle, t) && Away(bs[n], t) + TickCount(bs, es, n) <= Away(bs[0], t)
  {
    if n > 0 {
      StillWaits(bs, es, idle, t, n - 1);
      OneMore(bs, es, idle, t, n - 1);
    }
  }

  // A killed task that is READY becomes current within MAX_TASKS - 1 ticks, and
  // it has ended then exactly when the tick that reached it was an interrupt of
  // user mode.  Otherwise the signal is still pending.
  lemma KilledEnds(bs: seq<Both>, es: seq<Event>, idle: nat, t: nat) returns (k: nat)
    requires Run(bs, es) && AllAllowed(bs, es, idle) && Waiting(bs[0], idle, t)
    requires TickCount(bs, es, |es|) >= Away(bs[0], t)
    ensures 0 < k <= |es| && Arrived(bs[k - 1], bs[k], es[k - 1], t)
    ensures forall j :: 0 <= j < k ==> bs[j].sched.cur != t
    ensures Away(bs[0], t) <= S.MAX_TASKS - 1
  {
    WaitingFacts(bs[0], idle, t);
    k := 0;
    while k < |es| && bs[k].sched.cur != t
      invariant k <= |es| && forall j :: 0 <= j < k ==> bs[j].sched.cur != t
    {
      k := k + 1;
    }
    if bs[k].sched.cur != t {
      StillWaits(bs, es, idle, t, k);
      WaitingFacts(bs[k], idle, t);
    } else {
      StillWaits(bs, es, idle, t, k - 1);
      OneMore(bs, es, idle, t, k - 1);
    }
  }

  lemma WaitingFacts(b: Both, idle: nat, t: nat)
    requires Waiting(b, idle, t)
    ensures b.sched.cur != t && 0 < Away(b, t) <= S.MAX_TASKS - 1
  {
  }

  lemma OneMore(bs: seq<Both>, es: seq<Event>, idle: nat, t: nat, i: nat)
    requires Run(bs, es) && AllAllowed(bs, es, idle) && i < |es| && Waiting(bs[i], idle, t)
    ensures bs[i + 1].sched.cur == t ==> Arrived(bs[i], bs[i + 1], es[i], t)
    ensures bs[i + 1].sched.cur != t ==>
              Waiting(bs[i + 1], idle, t)
              && Away(bs[i + 1], t) + (if TicksIn(bs[i], es[i]) then 1 else 0) <= Away(bs[i], t)
  {
    assert Moves(bs[i], bs[i + 1], es[i]);
    OneEvent(bs[i], bs[i + 1], es[i], idle, t);
  }

  // So it ends for certain when every tick interrupts user mode.
  lemma UserTicksEnd(bs: seq<Both>, es: seq<Event>, idle: nat, t: nat) returns (k: nat)
    requires Run(bs, es) && AllAllowed(bs, es, idle) && Waiting(bs[0], idle, t)
    requires TickCount(bs, es, |es|) >= S.MAX_TASKS - 1
    requires forall i :: 0 <= i < |es| && TicksIn(bs[i], es[i]) ==> es[i].user
    ensures k <= |es| && t < |bs[k].sig.tasks| && bs[k].sig.tasks[t].zombie
  {
    WaitingFacts(bs[0], idle, t);
    k := KilledEnds(bs, es, idle, t);
  }

  // ---------------------------------------------------------------- a killed task that sleeps on

  function Live(pid: nat, st: S.State): S.Task { S.Task(pid, st, 0, 0, false, pid, pid) }

  // The idle task, a task that runs, and one asleep in pipe_read on an empty
  // ring.
  function Asleep(f: G.Frame): Both {
    Both(S.Sys([Live(1, S.Ready), Live(2, S.Running), Live(3, S.Blocked)], 1, 4, 4, map[], []),
         G.Sys([G.Fresh(1), G.Fresh(2), G.Fresh(3)], [f, f, f], 1))
  }

  const Reading := P.Sys(0, true, true, true, false, P.Asleep(1), P.Outside)

  // Task 2 kills task 3 and blocks.
  const KillAndBlock: seq<Event> :=
    [Event([G.Kill(3, G.SIGKILL)], S.DoKill(3, G.SIGKILL), false), Event([], S.DoBlock, false)]

  function Killed(f: G.Frame): Both {
    Both(S.Sys([Live(1, S.Ready), Live(2, S.Running), Live(3, S.Ready)], 1, 4, 4, map[], []),
         G.Sys([G.Fresh(1), G.Fresh(2), G.Raise(G.Fresh(3), G.SIGKILL)], [f, f, f], 1))
  }

  function Resumed(f: G.Frame): Both {
    Both(S.Sys([Live(1, S.Ready), Live(2, S.Blocked), Live(3, S.Running)], 2, 4, 4, map[], []),
         Killed(f).sig.(cur := 2))
  }

  function Again(f: G.Frame): Both {
    Both(S.Sys([Live(1, S.Running), Live(2, S.Blocked), Live(3, S.Blocked)], 0, 4, 4, map[], []),
         Killed(f).sig.(cur := 0))
  }

  lemma KillMarks(f: G.Frame)
    ensures Moves(Asleep(f), Killed(f), Event([G.Kill(3, G.SIGKILL)], S.DoKill(3, G.SIGKILL), false))
  {
    var a := Asleep(f);
    assert S.FindLive(a.sched.tasks, 3, 0) == S.FindLive(a.sched.tasks, 3, 1) == S.FindLive(a.sched.tasks, 3, 2) == 2;
    assert G.Target(a.sig.tasks, 3, 0) == G.Target(a.sig.tasks, 3, 1) == G.Target(a.sig.tasks, 3, 2) == 2;
    assert G.Run(a.sig, [G.Kill(3, G.SIGKILL)]) == G.Next(a.sig, G.Kill(3, G.SIGKILL));
  }

  lemma BlockResumes(f: G.Frame)
    ensures Moves(Killed(f), Resumed(f), Event([], S.DoBlock, false))
  {
    var s := S.Before(Killed(f).sched, S.DoBlock);
    assert S.Pick(s.tasks, 1, 1) == 2;
  }

  lemma SleepsOn(f: G.Frame)
    ensures Moves(Resumed(f), Again(f), Event([], S.DoBlock, false))
  {
    var s := S.Before(Resumed(f).sched, S.DoBlock);
    assert S.Pick(s.tasks, 2, 1) == 0;
  }

  // The exception: the killed task wakes, finds the ring empty and sleeps again
  // (kernel/pipe.c:33-38), without leaving the kernel.  It is blocked as before
  // and its SIGKILL is still pending.
  lemma SleepsAgain(f: G.Frame)
    ensures Run([Asleep(f), Killed(f), Resumed(f), Again(f)], KillAndBlock + [Event([], S.DoBlock, false)])
    ensures var woken := Reading.(reader := P.Woken(1));
            P.Next(Reading, woken, P.SignalReader) && P.Next(woken, Reading, P.ReaderRuns)
    ensures Again(f).sched.tasks[2].state == S.Blocked && Marked(Again(f).sig, 2)
  {
    KillMarks(f);
    BlockResumes(f);
    SleepsOn(f);
  }
}
