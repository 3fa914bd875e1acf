/**
 * The round-robin scheduler, and the life of a task from creation to reaping.
 *
 * Tasks are linked in a ring in the order in which they were created; a tick
 * hands the processor to the next READY task along the ring.  A step of the
 * machine below is one stretch of kernel code between two switches.
 *
 * `log` is a history: it records every exit, every exit status handed out by
 * waitpid and every kernel stack given back to the heap.  Stacks are numbered
 * in the order of their allocation; number 0 is "no stack".  Reaping clears a
 * task's pid; `born` remembers the pid it was created with.
 */
module Scheduler {
  const MAX_TASKS: nat := 16
  const NSIGS: nat := 32

  datatype State = Ready | Running | Blocked | Zombie

  datatype Task = Task(pid: nat, state: State, parent: nat, code: int, waited: bool, stack: nat, born: nat)

  datatype Event =
    | Exited(task: nat, code: int)
    | Handed(to: nat, child: nat, code: int)   // a waitpid of task `to` returned the status
    | Reaped(task: nat, stack: nat)            // the stack of a reaped task was freed
    | Undone(stack: nat)                       // the stack of a fork that failed was freed

  // `waits[i] == (t, pid)`: task i is inside waitpid(pid), looping on task t.
  datatype Sys = Sys(tasks: seq<Task>, cur: nat, nextPid: nat, nextStack: nat,
                     waits: map<nat, (nat, nat)>, log: seq<Event>)

  const MainTask := Task(0, Running, 0, 0, false, 0, 0)

  function Init(): Sys { Sys([MainTask], 0, 1, 1, map[], []) }

  predicate Shape(s: Sys) { 1 <= |s.tasks| <= MAX_TASKS && s.cur < |s.tasks| }

  // ---------------------------------------------------------------- choosing a task

  // The task k places after i on a ring of n.
  function Ahead(n: nat, i: nat, k: nat): nat
    requires i < n && k <= n
  {
    if i + k < n then i + k else i + k - n
  }

  // The first READY task at least k places after cur, or cur itself.
  function Pick(tasks: seq<Task>, cur: nat, k: nat): nat
    requires cur < |tasks| && k <= |tasks|
    decreases |tasks| - k
  {
    if k == |tasks| then cur
    else if tasks[Ahead(|tasks|, cur, k)].state == Ready then Ahead(|tasks|, cur, k)
    else Pick(tasks, cur, k + 1)
  }

  function SetState(tasks: seq<Task>, i: nat, st: State): seq<Task>
    requires i < |tasks|
  {
    tasks[i := tasks[i].(state := st)]
  }

  function Tick(s: Sys): Sys
    requires Shape(s)
  {
    if |s.tasks| < 2 then s
    else
      var next := Pick(s.tasks, s.cur, 1);
      if next == s.cur || next >= |s.tasks| then s
      else
        var ts := if s.tasks[s.cur].state == Running then SetState(s.tasks, s.cur, Ready) else s.tasks;
        s.(tasks := SetState(ts, next, Running), cur := next)
  }

  lemma {:induction false} PickBounds(tasks: seq<Task>, cur: nat, k: nat)
    requires cur < |tasks| && 1 <= k <= |tasks|
    ensures Pick(tasks, cur, k) < |tasks|
    ensures Pick(tasks, cur, k) != cur ==> tasks[Pick(tasks, cur, k)].state == Ready
    decreases |tasks| - k
  {
    if k < |tasks| { PickBounds(tasks, cur, k + 1); }
  }

  // A READY task is never jumped over.
  lemma {:induction false} PickNear(tasks: seq<Task>, cur: nat, k: nat, m: nat)
    requires cur < |tasks| && 1 <= k <= m < |tasks|
    requires tasks[Ahead(|tasks|, cur, m)].state == Ready
    ensures exists j :: k <= j <= m && Pick(tasks, cur, k) == Ahead(|tasks|, cur, j)
    decreases m - k
  {
    if tasks[Ahead(|tasks|, cur, k)].state != Ready { PickNear(tasks, cur, k + 1, m); }
  }

  // ---------------------------------------------------------------- steps

  // A new READY task with a fresh pid and a fresh stack, linked last.
  function Append(s: Sys, parent: nat): Sys {
    s.(tasks := s.tasks + [Task(s.nextPid, Ready, parent, 0, false, s.nextStack, s.nextPid)],
       nextPid := s.nextPid + 1, nextStack := s.nextStack + 1)
  }

  function TaskCreate(s: Sys, fits: bool): Sys {
    if |s.tasks| >= MAX_TASKS then s
    else if !fits then s.(nextPid := s.nextPid + 1)
    else Append(s, 0)
  }

  // How far the allocations of a fork get.
  datatype Outcome = NoStack | NoTables | Done

  function Fork(s: Sys, o: Outcome): Sys
    requires Shape(s)
  {
    if |s.tasks| >= MAX_TASKS then s
    else match o
      case NoStack => s.(nextPid := s.nextPid + 1)
      case NoTables => s.(nextPid := s.nextPid + 1, nextStack := s.nextStack + 1,
                          log := s.log + [Undone(s.nextStack)])
      case Done => Append(s, s.tasks[s.cur].pid)
  }

  function Wake(s: Sys, t: nat): Sys {
    if t < |s.tasks| && s.tasks[t].state == Blocked then s.(tasks := SetState(s.tasks, t, Ready)) else s
  }

  // The first task from i on that has this pid and is no zombie.
  function FindLive(tasks: seq<Task>, pid: nat, i: nat): nat
    decreases |tasks| - i
  {
    if i >= |tasks| || (tasks[i].pid == pid && tasks[i].state != Zombie) then i else FindLive(tasks, pid, i + 1)
  }

  function Kill(s: Sys, pid: nat, sig: int): Sys {
    if sig < 1 || sig >= NSIGS then s else Wake(s, FindLive(s.tasks, pid, 0))
  }

  function Exit(s: Sys, code: int): Sys
    requires Shape(s)
  {
    Tick(s.(tasks := s.tasks[s.cur := s.tasks[s.cur].(state := Zombie, code := code)],
            log := s.log + [Exited(s.cur, code)]))
  }

  function Block(s: Sys): Sys
    requires Shape(s)
  {
    Tick(s.(tasks := SetState(s.tasks, s.cur, Blocked)))
  }

  predicate IsChild(t: Task, pid: nat, parent: nat) { t.pid == pid && t.parent == parent }

  function FindChild(tasks: seq<Task>, pid: nat, parent: nat, i: nat): nat
    decreases |tasks| - i
  {
    if i >= |tasks| || IsChild(tasks[i], pid, parent) then i else FindChild(tasks, pid, parent, i + 1)
  }

  predicate Reapable(t: Task, pid: nat) { t.pid == pid && t.state == Zombie && t.waited }

  function FindReapable(tasks: seq<Task>, pid: nat, i: nat): nat
    decreases |tasks| - i
  {
    if i >= |tasks| || Reapable(tasks[i], pid) then i else FindReapable(tasks, pid, i + 1)
  }

  lemma FindReapableFinds(tasks: seq<Task>, pid: nat, i: nat)
    ensures FindReapable(tasks, pid, i) < |tasks| ==> Reapable(tasks[FindReapable(tasks, pid, i)], pid)
    decreases |tasks| - i
  {
  }

  lemma FindChildFinds(tasks: seq<Task>, pid: nat, parent: nat, i: nat)
    ensures var k := FindChild(tasks, pid, parent, i);
            k >= i && (k < |tasks| ==> IsChild(tasks[k], pid, parent))
    decreases |tasks| - i
  {
  }

  function RemoveZombie(s: Sys, pid: nat): Sys {
    var i := FindReapable(s.tasks, pid, 0);
    if i >= |s.tasks| then s
    else
      s.(tasks := s.tasks[i := s.tasks[i].(stack := 0, pid := 0, state := Zombie)],
         log := if s.tasks[i].stack != 0 then s.log + [Reaped(i, s.tasks[i].stack)] else s.log)
  }

  // The current task takes the exit status of the zombie t.
  function Collect(s: Sys, t: nat, pid: nat): Sys
    requires Shape(s) && t < |s.tasks|
  {
    if s.tasks[t].waited then s
    else
      RemoveZombie(s.(tasks := s.tasks[t := s.tasks[t].(waited := true)],
                      log := s.log + [Handed(s.cur, t, s.tasks[t].code)]), pid)
  }

  function WaitCall(s: Sys, pid: nat): Sys
    requires Shape(s)
  {
    var t := FindChild(s.tasks, pid, s.tasks[s.cur].pid, 1);
    if t >= |s.tasks| then s
    else if s.tasks[t].state == Zombie then Collect(s, t, pid)
    else Tick(s.(waits := s.waits[s.cur := (t, pid)]))
  }

  function WaitAgain(s: Sys): Sys
    requires Shape(s) && s.cur in s.waits
  {
    var (t, pid) := s.waits[s.cur];
    if t >= |s.tasks| || s.tasks[t].state != Zombie then Tick(s)
    else Collect(s, t, pid).(waits := s.waits - {s.cur})
  }

  datatype Step =
    | DoTick
    | DoBlock
    | DoWake(t: nat)
    | DoKill(pid: nat, sig: int)
    | DoExit(code: int)
    | DoCreate(fits: bool)
    | DoFork(outcome: Outcome)
    | DoWait(pid: nat)
    | DoWaitAgain

  // Interrupts come at any time.  A zombie makes no calls, and a task inside
  // waitpid can only loop or be ended by a signal.
  predicate Enabled(s: Sys, step: Step)
    requires Shape(s)
  {
    match step
    case DoTick => true
    case DoWake(_) => true
    case DoExit(_) => s.tasks[s.cur].state != Zombie
    case DoWaitAgain => s.tasks[s.cur].state != Zombie && s.cur in s.waits
    case _ => s.tasks[s.cur].state != Zombie && s.cur !in s.waits
  }

  function Next(s: Sys, step: Step): Sys
    requires Shape(s)
  {
    if !Enabled(s, step) then s
    else match step
      case DoTick => Tick(s)
      case DoBlock => Block(s)
      case DoWake(t) => Wake(s, t)
      case DoKill(pid, sig) => Kill(s, pid, sig)
      case DoExit(code) => Exit(s, code)
      case DoCreate(fits) => TaskCreate(s, fits)
      case DoFork(o) => Fork(s, o)
      case DoWait(pid) => WaitCall(s, pid)
      case DoWaitAgain => WaitAgain(s)
  }

  lemma NextShape(s: Sys, step: Step)
    requires Shape(s)
    ensures Shape(Next(s, step))
  {
    match step
    case DoWait(pid) =>
      var t := FindChild(s.tasks, pid, s.tasks[s.cur].pid, 1);
      if t < |s.tasks| && s.tasks[t].state == Zombie { CollectStates(s, t, pid); }
    case DoWaitAgain =>
      if s.cur in s.waits {
        var (t, pid) := s.waits[s.cur];
        if t < |s.tasks| && s.tasks[t].state == Zombie { CollectStates(s, t, pid); }
      }
    case _ =>
  }

  function Run(s: Sys, steps: seq<Step>): (r: Sys)
    requires Shape(s)
    ensures Shape(r)
    decreases |steps|
  {
    if steps == [] then s
    else
      NextShape(s, steps[0]);
      Run(Next(s, steps[0]), steps[1..])
  }

  // ---------------------------------------------------------------- one task runs

  predicate OneRunning(s: Sys) {
    forall i :: 0 <= i < |s.tasks| ==> (s.tasks[i].state == Running <==> i == s.cur)
  }

  // The idle task is linked and has neither blocked nor ended.
  predicate Good(s: Sys, idle: nat) {
    && Shape(s)
    && OneRunning(s)
    && idle < |s.tasks|
    && (s.tasks[idle].state == Ready || s.tasks[idle].state == Running)
  }

  // The idle task loops for ever: it never blocks and never exits.
  predicate Allowed(s: Sys, idle: nat, step: Step) {
    (step.DoBlock? || step.DoExit?) ==> s.cur != idle
  }

  // What the state must be when a tick begins: the current task is running, or
  // it has just blocked or ended and another one is READY.
  predicate Switchable(s: Sys) {
    && Shape(s)
    && (forall i :: 0 <= i < |s.tasks| && i != s.cur ==> s.tasks[i].state != Running)
    && (s.tasks[s.cur].state == Running || exists i :: 0 <= i < |s.tasks| && i != s.cur && s.tasks[i].state == Ready)
  }

  function Offset(n: nat, i: nat, j: nat): nat
    requires i < n && j < n
  {
    if i <= j then j - i else j + n - i
  }

  // After a tick exactly one task is RUNNING, the current one, if and only if
  // before it nobody else was and the current task was or another is READY.
  // The new task was READY or stays; nobody else but the preempted one changes.
  lemma TickRuns(s: Sys)
    requires Shape(s)
    ensures var r := Tick(s);
            && Shape(r) && |r.tasks| == |s.tasks|
            && (OneRunning(r) <==> Switchable(s))
            && (r.cur == s.cur ==> r == s)
            && (r.cur != s.cur ==> s.tasks[r.cur].state == Ready)
            && (forall i :: 0 <= i < |s.tasks| && i != s.cur && i != r.cur ==> r.tasks[i] == s.tasks[i])
            && (r.cur != s.cur ==>
                r.tasks[s.cur].state == if s.tasks[s.cur].state == Running then Ready else s.tasks[s.cur].state)
  {
    PickBounds(s.tasks, s.cur, 1);
    if i :| 0 <= i < |s.tasks| && i != s.cur && s.tasks[i].state == Ready {
      PickNear(s.tasks, s.cur, 1, Offset(|s.tasks|, s.cur, i));
    }
    StrayRuns(s);
  }

  // A second RUNNING task would stay so.
  lemma StrayRuns(s: Sys)
    requires Shape(s)
    ensures var r := Tick(s); Shape(r) && (OneRunning(r) ==>
              forall i :: 0 <= i < |s.tasks| && i != s.cur ==> s.tasks[i].state != Running)
  {
    PickBounds(s.tasks, s.cur, 1);
    var r := Tick(s);
    if i :| 0 <= i < |s.tasks| && i != s.cur && s.tasks[i].state == Running {
      assert r.tasks[i].state == Running && i != r.cur;
    }
  }

  // ---------------------------------------------------------------- nobody starves

  // How far task t is ahead of cur, on a ring of full size.  Unlike the true
  // distance it does not grow when tasks are appended.
  function Dist(cur: nat, t: nat): nat
    requires cur < MAX_TASKS && t < MAX_TASKS
  {
    if cur <= t then t - cur else t + MAX_TASKS - cur
  }

  lemma TickNears(s: Sys, t: nat)
    requires Switchable(s) && t < |s.tasks| && t != s.cur && s.tasks[t].state == Ready
    ensures Shape(Tick(s)) && Dist(Tick(s).cur, t) < Dist(s.cur, t)
    ensures Tick(s).cur == t || Tick(s).tasks[t] == s.tasks[t]
  {
    var n := |s.tasks|;
    var m := Offset(n, s.cur, t);
    PickNear(s.tasks, s.cur, 1, m);
    var j :| 1 <= j <= m && Pick(s.tasks, s.cur, 1) == Ahead(n, s.cur, j);
  }

  // Does this step contain a tick?
  predicate Ticks(s: Sys, step: Step)
    requires Shape(s)
  {
    && Enabled(s, step)
    && match step
       case DoTick => true
       case DoBlock => true
       case DoExit(_) => true
       case DoWait(pid) =>
         var t := FindChild(s.tasks, pid, s.tasks[s.cur].pid, 1);
         t < |s.tasks| && s.tasks[t].state != Zombie
       case DoWaitAgain =>
         var (t, _) := s.waits[s.cur];
         t >= |s.tasks| || s.tasks[t].state != Zombie
       case _ => false
  }

  // The state in which the tick of such a step begins.
  function Before(s: Sys, step: Step): Sys
    requires Shape(s)
  {
    match step
    case DoBlock => s.(tasks := SetState(s.tasks, s.cur, Blocked))
    case DoExit(code) => s.(tasks := s.tasks[s.cur := s.tasks[s.cur].(state := Zombie, code := code)],
                            log := s.log + [Exited(s.cur, code)])
    case DoWait(pid) => s.(waits := s.waits[s.cur := (FindChild(s.tasks, pid, s.tasks[s.cur].pid, 1), pid)])
    case _ => s
  }

  lemma TickingStep(s: Sys, idle: nat, step: Step)
    requires Good(s, idle) && Allowed(s, idle, step) && Ticks(s, step)
    ensures Next(s, step) == Tick(Before(s, step)) && Switchable(Before(s, step))
    ensures Before(s, step).cur == s.cur && |Before(s, step).tasks| == |s.tasks|
    ensures forall i :: 0 <= i < |s.tasks| && i != s.cur ==> Before(s, step).tasks[i] == s.tasks[i]
  {
    var b := Before(s, step);
    if s.cur != idle { assert b.tasks[idle].state == Ready; }
  }

  // Collecting a child only ever touches zombies.
  lemma CollectStates(s: Sys, t: nat, pid: nat)
    requires Shape(s) && t < |s.tasks| && s.tasks[t].state == Zombie
    ensures var r := Collect(s, t, pid);
            && |r.tasks| == |s.tasks| && r.cur == s.cur && r.nextPid == s.nextPid
            && forall i :: 0 <= i < |s.tasks| ==> r.tasks[i].state == s.tasks[i].state
  {
    FindReapableFinds(s.tasks[t := s.tasks[t].(waited := true)], pid, 0);
  }

  // A step without a tick leaves the current task in place and no READY task
  // loses its turn.
  lemma QuietStep(s: Sys, idle: nat, step: Step)
    requires Good(s, idle) && !Ticks(s, step)
    ensures var r := Next(s, step);
            && Good(r, idle) && r.cur == s.cur && |r.tasks| >= |s.tasks|
            && forall i :: 0 <= i < |s.tasks| && s.tasks[i].state == Ready ==> r.tasks[i].state == Ready
  {
    match step
    case DoWait(pid) =>
      var t := FindChild(s.tasks, pid, s.tasks[s.cur].pid, 1);
      if t < |s.tasks| && s.tasks[t].state == Zombie { CollectStates(s, t, pid); }
    case DoWaitAgain =>
      if s.cur in s.waits {
        var (t, pid) := s.waits[s.cur];
        if t < |s.tasks| && s.tasks[t].state == Zombie { CollectStates(s, t, pid); }
      }
    case _ =>
  }

  lemma StepGood(s: Sys, idle: nat, step: Step)
    requires Good(s, idle) && Allowed(s, idle, step)
    ensures Good(Next(s, step), idle)
    ensures s.tasks[Next(s, step).cur].state != Zombie
  {
    if Ticks(s, step) {
      TickingStep(s, idle, step);
      TickRuns(Before(s, step));
    } else {
      QuietStep(s, idle, step);
    }
  }

  predicate AllAllowed(s: Sys, idle: nat, steps: seq<Step>)
    requires Shape(s)
    decreases |steps|
  {
    || steps == []
    || (Allowed(s, idle, steps[0])
        && (NextShape(s, steps[0]); AllAllowed(Next(s, steps[0]), idle, steps[1..])))
  }

  // In every state of every run exactly one task is RUNNING, and it is the
  // current one.
  lemma {:induction false} RunGood(s: Sys, idle: nat, steps: seq<Step>)
    requires Good(s, idle) && AllAllowed(s, idle, steps)
    ensures Good(Run(s, steps), idle)
    decreases |steps|
  {
    if steps != [] {
      StepGood(s, idle, steps[0]);
      RunGood(Next(s, steps[0]), idle, steps[1..]);
    }
  }

  function TickCount(s: Sys, steps: seq<Step>): nat
    requires Shape(s)
    decreases |steps|
  {
    if steps == [] then 0
    else
      NextShape(s, steps[0]);
      (if Ticks(s, steps[0]) then 1 else 0) + TickCount(Next(s, steps[0]), steps[1..])
  }

  // A READY task becomes current after at most MAX_TASKS - 1 ticks, whatever
  // else happens meanwhile and however many tasks are appended.
  lemma {:induction false} Served(s: Sys, idle: nat, steps: seq<Step>, t: nat)
    requires Good(s, idle) && AllAllowed(s, idle, steps)
    requires t < |s.tasks| && s.tasks[t].state == Ready
    requires TickCount(s, steps) >= Dist(s.cur, t)
    ensures exists k :: 0 <= k <= |steps| && Run(s, steps[..k]).cur == t
    ensures Dist(s.cur, t) <= MAX_TASKS - 1
    decreases |steps|
  {
    assert s.cur != t;
    var step, rest := steps[0], steps[1..];
    var r := Next(s, step);
    StepGood(s, idle, step);
    if Ticks(s, step) {
      TickingStep(s, idle, step);
      TickNears(Before(s, step), t);
    } else {
      QuietStep(s, idle, step);
    }
    var k: nat := 0;
    if r.cur != t {
      Served(r, idle, rest, t);
      k :| 0 <= k <= |rest| && Run(r, rest[..k]).cur == t;
    }
    assert steps[..k + 1] == [step] + rest[..k];
    assert Run(s, steps[..k + 1]) == Run(r, rest[..k]);
  }

  // A step that may rouse task t from its sleep.
  predicate Rouses(s: Sys, step: Step, t: nat)
    requires t < |s.tasks|
  {
    step == DoWake(t) || (step.DoKill? && step.pid == s.tasks[t].pid)
  }

  lemma FindLiveIs(tasks: seq<Task>, pid: nat, i: nat)
    ensures FindLive(tasks, pid, i) < |tasks| ==> tasks[FindLive(tasks, pid, i)].pid == pid
    decreases |tasks| - i
  {
  }

  // A task that is asleep, or a zombie, and not current stays so.
  lemma StillStep(s: Sys, idle: nat, step: Step, t: nat)
    requires Good(s, idle) && Allowed(s, idle, step) && t < |s.tasks| && !Rouses(s, step, t)
    requires s.tasks[t].state == Blocked || s.tasks[t].state == Zombie
    ensures Shape(Next(s, step)) && t < |Next(s, step).tasks| && Next(s, step).cur != t
    ensures Next(s, step).tasks[t].state == s.tasks[t].state
    ensures s.tasks[t].state == Blocked ==> Next(s, step).tasks[t].pid == s.tasks[t].pid
  {
    assert t != s.cur;
    StepGood(s, idle, step);
    if Ticks(s, step) {
      TickingStep(s, idle, step);
      TickRuns(Before(s, step));
    } else {
      match step
      case DoKill(pid, sig) => FindLiveIs(s.tasks, pid, 0);
      case DoWait(pid) =>
        var c := FindChild(s.tasks, pid, s.tasks[s.cur].pid, 1);
        if c < |s.tasks| && s.tasks[c].state == Zombie { CollectTouches(s, c, pid, t); }
      case DoWaitAgain =>
        if s.cur in s.waits {
          var (c, pid) := s.waits[s.cur];
          if c < |s.tasks| && s.tasks[c].state == Zombie { CollectTouches(s, c, pid, t); }
        }
      case _ =>
    }
  }

  // Collecting a child leaves every task that is no zombie alone.
  lemma CollectTouches(s: Sys, c: nat, pid: nat, t: nat)
    requires Shape(s) && c < |s.tasks| && s.tasks[c].state == Zombie && t < |s.tasks|
    ensures var r := Collect(s, c, pid);
            && |r.tasks| == |s.tasks| && r.tasks[t].state == s.tasks[t].state
            && (s.tasks[t].state != Zombie ==> r.tasks[t] == s.tasks[t])
  {
    FindReapableFinds(s.tasks[c := s.tasks[c].(waited := true)], pid, 0);
  }

  predicate NobodyRouses(s: Sys, steps: seq<Step>, t: nat)
    requires Shape(s)
    decreases |steps|
  {
    steps == [] ||
    (t < |s.tasks| && !Rouses(s, steps[0], t)
        && (NextShape(s, steps[0]); NobodyRouses(Next(s, steps[0]), steps[1..], t)))
  }

  // A blocked task does not run before it is woken or signalled, and a zombie
  // never runs again.
  lemma {:induction false} SleepersSleep(s: Sys, idle: nat, steps: seq<Step>, t: nat)
    requires Good(s, idle) && AllAllowed(s, idle, steps) && t < |s.tasks|
    requires s.tasks[t].state == Zombie || (s.tasks[t].state == Blocked && NobodyRouses(s, steps, t))
    ensures var r := Run(s, steps);
            t < |r.tasks| && r.tasks[t].state == s.tasks[t].state && r.cur != t
    decreases |steps|
  {
    if steps != [] {
      StepGood(s, idle, steps[0]);
      if s.tasks[t].state == Zombie { ZombieStep(s, idle, steps[0], t); } else { StillStep(s, idle, steps[0], t); }
      SleepersSleep(Next(s, steps[0]), idle, steps[1..], t);
    }
  }

  lemma ZombieStep(s: Sys, idle: nat, step: Step, t: nat)
    requires Good(s, idle) && Allowed(s, idle, step) && t < |s.tasks| && s.tasks[t].state == Zombie
    ensures Shape(Next(s, step)) && t < |Next(s, step).tasks| && Next(s, step).tasks[t].state == Zombie
  {
    match step
    case DoWake(x) =>
    case DoKill(pid, sig) =>
    case _ => StillStep(s, idle, step, t);
  }

  // ---------------------------------------------------------------- wait and reap

  predicate TaskOk(s: Sys, i: nat)
    requires i < |s.tasks|
  {
    var t := s.tasks[i];
    && t.born < s.nextPid && t.stack < s.nextStack
    && (t.born == 0 <==> i == 0)
    && t.pid == (if t.waited then 0 else t.born)
    && (t.waited ==> i > 0 && t.state == Zombie && t.stack == 0)
    && (i == 0 ==> t.stack == 0)
    && (t.state == Zombie ==> Exited(i, t.code) in s.log)
  }

  predicate Apart(a: Task, b: Task) {
    a.born != b.born && (a.stack == b.stack ==> a.stack == 0)
  }

  // What each event of the log still says about the present state.
  predicate EventOk(s: Sys, e: Event) {
    match e
    case Exited(i, code) => i < |s.tasks| && s.tasks[i].state == Zombie && s.tasks[i].code == code
    case Handed(to, c, code) =>
      && to < |s.tasks| && c < |s.tasks| && s.tasks[c].parent == s.tasks[to].born
      && s.tasks[c].waited && s.tasks[c].code == code
    case Reaped(i, st) => i < |s.tasks| && s.tasks[i].waited && 0 < st < s.nextStack
    case Undone(st) => 0 < st < s.nextStack
  }

  predicate Frees(e: Event, st: nat) { (e.Reaped? || e.Undone?) && e.stack == st }

  // At most one exit per task, one status per child and one release per stack.
  predicate Clash(a: Event, b: Event) {
    || (a.Exited? && b.Exited? && a.task == b.task)
    || (a.Handed? && b.Handed? && a.child == b.child)
    || ((a.Reaped? || a.Undone?) && Frees(b, a.stack))
  }

  // The stack of a linked task has not been freed.
  predicate Kept(s: Sys, i: nat, e: Event)
    requires i < |s.tasks|
  {
    s.tasks[i].stack != 0 ==> !Frees(e, s.tasks[i].stack)
  }

  predicate WaitOk(s: Sys, i: nat)
    requires i in s.waits && i < |s.tasks|
  {
    var (t, pid) := s.waits[i];
    0 < t < |s.tasks| && s.tasks[t].born == pid && s.tasks[t].parent == s.tasks[i].born
  }

  predicate LogOk(s: Sys) {
    && (forall e :: e in s.log ==> EventOk(s, e))
    && (forall a, b :: 0 <= a < b < |s.log| ==> !Clash(s.log[a], s.log[b]))
    && (forall i, e :: 0 <= i < |s.tasks| && e in s.log ==> Kept(s, i, e))
  }

  predicate Reaping(s: Sys) {
    && Shape(s)
    && s.nextPid > 0 && s.nextStack > 0
    && (forall i :: 0 <= i < |s.tasks| ==> TaskOk(s, i))
    && (forall i, j :: 0 <= i < j < |s.tasks| ==> Apart(s.tasks[i], s.tasks[j]))
    && (forall i :: i in s.waits ==> i < |s.tasks| && WaitOk(s, i))
    && LogOk(s)
  }

  // The same tasks, except that some have changed between READY, RUNNING and BLOCKED.
  predicate Rescheduled(s: Sys, r: Sys) {
    && |r.tasks| == |s.tasks| && r.log == s.log && r.nextPid == s.nextPid && r.nextStack == s.nextStack
    && (forall i :: 0 <= i < |s.tasks| ==>
        && r.tasks[i] == s.tasks[i].(state := r.tasks[i].state)
        && (r.tasks[i].state == Zombie <==> s.tasks[i].state == Zombie))
  }

  lemma RescheduledKeeps(s: Sys, r: Sys)
    requires Reaping(s) && Shape(r) && Rescheduled(s, r) && r.waits == s.waits
    ensures Reaping(r)
  {
    forall i | 0 <= i < |r.tasks| ensures TaskOk(r, i) { assert TaskOk(s, i); }
    forall i, j | 0 <= i < j < |r.tasks| ensures Apart(r.tasks[i], r.tasks[j]) {
      assert Apart(s.tasks[i], s.tasks[j]);
    }
    forall i | i in r.waits ensures i < |r.tasks| && WaitOk(r, i) { assert WaitOk(s, i); }
    forall e | e in r.log ensures EventOk(r, e) { assert EventOk(s, e); }
    forall i, e | 0 <= i < |r.tasks| && e in r.log ensures Kept(r, i, e) { assert Kept(s, i, e); }
  }

  lemma TickReschedules(s: Sys)
    requires Shape(s)
    ensures Shape(Tick(s)) && Rescheduled(s, Tick(s)) && Tick(s).waits == s.waits
  {
    PickBounds(s.tasks, s.cur, 1);
  }

  lemma TickReaping(s: Sys)
    requires Reaping(s)
    ensures Reaping(Tick(s))
  {
    TickReschedules(s);
    RescheduledKeeps(s, Tick(s));
  }

  // One more event on the log.
  lemma LogGrows(s: Sys, r: Sys, e: Event)
    requires LogOk(s) && r.log == s.log + [e]
    requires forall f :: f in s.log ==> EventOk(r, f) && !Clash(f, e)
    requires EventOk(r, e)
    requires forall i, f :: 0 <= i < |r.tasks| && f in s.log ==> Kept(r, i, f)
    requires forall i :: 0 <= i < |r.tasks| ==> Kept(r, i, e)
    ensures LogOk(r)
  {
    forall a, b | 0 <= a < b < |r.log| ensures !Clash(r.log[a], r.log[b]) {
      if b < |s.log| { assert !Clash(s.log[a], s.log[b]); } else { assert s.log[a] in s.log; }
    }
  }

  lemma ExitReaping(s: Sys, code: int)
    requires Reaping(s) && s.tasks[s.cur].state != Zombie
    ensures Reaping(Exit(s, code))
  {
    var r := s.(tasks := s.tasks[s.cur := s.tasks[s.cur].(state := Zombie, code := code)],
                log := s.log + [Exited(s.cur, code)]);
    assert TaskOk(s, s.cur);
    forall i | 0 <= i < |r.tasks| ensures TaskOk(r, i) { assert TaskOk(s, i); }
    forall i, j | 0 <= i < j < |r.tasks| ensures Apart(r.tasks[i], r.tasks[j]) {
      assert Apart(s.tasks[i], s.tasks[j]);
    }
    forall i | i in r.waits ensures i < |r.tasks| && WaitOk(r, i) { assert WaitOk(s, i); }
    forall f | f in s.log ensures EventOk(r, f) && !Clash(f, Exited(s.cur, code)) { assert EventOk(s, f); }
    forall i, f | 0 <= i < |r.tasks| && f in s.log ensures Kept(r, i, f) { assert Kept(s, i, f); }
    LogGrows(s, r, Exited(s.cur, code));
    TickReaping(r);
  }

  lemma AppendReaping(s: Sys, parent: nat)
    requires Reaping(s) && |s.tasks| < MAX_TASKS
    ensures Reaping(Append(s, parent))
  {
    var r := Append(s, parent);
    forall i | 0 <= i < |r.tasks| ensures TaskOk(r, i) {
      if i < |s.tasks| { assert TaskOk(s, i); }
    }
    forall i, j | 0 <= i < j < |r.tasks| ensures Apart(r.tasks[i], r.tasks[j]) {
      assert TaskOk(s, i);
      if j < |s.tasks| { assert Apart(s.tasks[i], s.tasks[j]); }
    }
    forall i | i in r.waits ensures i < |r.tasks| && WaitOk(r, i) { assert WaitOk(s, i); }
    forall f | f in r.log ensures EventOk(r, f) { assert EventOk(s, f); }
    forall i, f | 0 <= i < |r.tasks| && f in r.log ensures Kept(r, i, f) {
      assert EventOk(s, f);
      if i < |s.tasks| { assert Kept(s, i, f); }
    }
  }

  lemma {:induction false} FindReapableIs(tasks: seq<Task>, pid: nat, t: nat, i: nat)
    requires i <= t < |tasks| && Reapable(tasks[t], pid)
    requires forall j :: i <= j < t ==> !Reapable(tasks[j], pid)
    ensures FindReapable(tasks, pid, i) == t
    decreases t - i
  {
    if i < t { FindReapableIs(tasks, pid, t, i + 1); }
  }

  // The state after a child's status has been taken and its stack freed.
  function Collected(s: Sys, t: nat): Sys
    requires t < |s.tasks|
  {
    var log := s.log + [Handed(s.cur, t, s.tasks[t].code)];
    s.(tasks := s.tasks[t := s.tasks[t].(waited := true, stack := 0, pid := 0)],
       log := if s.tasks[t].stack != 0 then log + [Reaped(t, s.tasks[t].stack)] else log)
  }

  lemma CollectIs(s: Sys, t: nat, pid: nat)
    requires Reaping(s) && 0 < t < |s.tasks| && s.tasks[t].state == Zombie && !s.tasks[t].waited
    requires s.tasks[t].born == pid
    ensures Collect(s, t, pid) == Collected(s, t)
  {
    var m := s.tasks[t := s.tasks[t].(waited := true)];
    assert TaskOk(s, t);
    forall j | 0 <= j < t ensures !Reapable(m[j], pid) {
      assert TaskOk(s, j) && Apart(s.tasks[j], s.tasks[t]);
    }
    FindReapableIs(m, pid, t, 0);
    assert m[t := m[t].(stack := 0, pid := 0, state := Zombie)] == Collected(s, t).tasks;
  }

  lemma CollectedReaping(s: Sys, t: nat)
    requires Reaping(s) && 0 < t < |s.tasks| && s.tasks[t].state == Zombie && !s.tasks[t].waited
    requires s.tasks[t].parent == s.tasks[s.cur].born
    ensures Reaping(Collected(s, t))
  {
    var r := Collected(s, t);
    var st := s.tasks[t].stack;
    assert TaskOk(s, t);
    forall i | 0 <= i < |r.tasks| ensures TaskOk(r, i) { assert TaskOk(s, i); }
    forall i, j | 0 <= i < j < |r.tasks| ensures Apart(r.tasks[i], r.tasks[j]) {
      assert Apart(s.tasks[i], s.tasks[j]);
    }
    forall i | i in r.waits ensures i < |r.tasks| && WaitOk(r, i) { assert WaitOk(s, i); }
    CollectedLog(s, t);
  }

  lemma CollectedLog(s: Sys, t: nat)
    requires Reaping(s) && 0 < t < |s.tasks| && s.tasks[t].state == Zombie && !s.tasks[t].waited
    requires s.tasks[t].parent == s.tasks[s.cur].born
    ensures LogOk(Collected(s, t))
  {
    var r := Collected(s, t);
    var st := s.tasks[t].stack;
    var h := Handed(s.cur, t, s.tasks[t].code);
    var m := r.(log := s.log + [h]);
    assert TaskOk(s, t);
    forall f | f in s.log ensures EventOk(m, f) && !Clash(f, h) { assert EventOk(s, f); }
    forall i, f | 0 <= i < |m.tasks| && f in s.log ensures Kept(m, i, f) { assert Kept(s, i, f); }
    LogGrows(s, m, h);
    if st != 0 {
      var e := Reaped(t, st);
      forall f | f in m.log ensures EventOk(r, f) && !Clash(f, e) {
        assert EventOk(m, f);
        if f in s.log { assert Kept(s, t, f); }
      }
      forall i, f | 0 <= i < |r.tasks| && f in m.log ensures Kept(r, i, f) { assert Kept(m, i, f); }
      forall i | 0 <= i < |r.tasks| ensures Kept(r, i, e) {
        if i < t { assert Apart(s.tasks[i], s.tasks[t]); } else if i > t { assert Apart(s.tasks[t], s.tasks[i]); }
      }
      LogGrows(m, r, e);
    }
  }

  lemma CollectReaping(s: Sys, t: nat, pid: nat)
    requires Reaping(s) && 0 < t < |s.tasks| && s.tasks[t].state == Zombie
    requires s.tasks[t].waited || (s.tasks[t].born == pid && s.tasks[t].parent == s.tasks[s.cur].born)
    ensures Reaping(Collect(s, t, pid))
  {
    if !s.tasks[t].waited {
      CollectIs(s, t, pid);
      CollectedReaping(s, t);
    }
  }

  lemma WaitReaping(s: Sys, pid: nat)
    requires Reaping(s) && s.tasks[s.cur].state != Zombie
    ensures Reaping(WaitCall(s, pid))
  {
    var me := s.tasks[s.cur];
    var t := FindChild(s.tasks, pid, me.pid, 1);
    FindChildFinds(s.tasks, pid, me.pid, 1);
    assert TaskOk(s, s.cur);
    if t < |s.tasks| {
      assert TaskOk(s, t);
      if s.tasks[t].state == Zombie {
        CollectReaping(s, t, pid);
      } else {
        var r := s.(waits := s.waits[s.cur := (t, pid)]);
        forall i | i in r.waits ensures i < |r.tasks| && WaitOk(r, i) {
          if i != s.cur { assert WaitOk(s, i); }
        }
        SameTasks(s, r);
        TickReaping(r);
      }
    }
  }

  // Only the record of who is waiting changes.
  lemma SameTasks(s: Sys, r: Sys)
    requires Reaping(s) && r == s.(waits := r.waits)
    requires forall i :: i in r.waits ==> i < |r.tasks| && WaitOk(r, i)
    ensures Reaping(r)
  {
    forall i | 0 <= i < |r.tasks| ensures TaskOk(r, i) { assert TaskOk(s, i); }
    forall e | e in r.log ensures EventOk(r, e) { assert EventOk(s, e); }
    forall i, e | 0 <= i < |r.tasks| && e in r.log ensures Kept(r, i, e) { assert Kept(s, i, e); }
  }

  lemma WaitAgainReaping(s: Sys)
    requires Reaping(s) && s.cur in s.waits
    ensures Reaping(WaitAgain(s))
  {
    var (t, pid) := s.waits[s.cur];
    assert WaitOk(s, s.cur);
    if s.tasks[t].state == Zombie {
      CollectReaping(s, t, pid);
      var c := Collect(s, t, pid);
      assert c.waits == s.waits;
      var r := c.(waits := s.waits - {s.cur});
      forall i | i in r.waits ensures i < |r.tasks| && WaitOk(r, i) { assert WaitOk(c, i); }
      SameTasks(c, r);
    } else {
      TickReaping(s);
    }
  }

  lemma ForkReaping(s: Sys, o: Outcome)
    requires Reaping(s)
    ensures Reaping(Fork(s, o))
  {
    if |s.tasks| < MAX_TASKS {
      var r := Fork(s, o);
      if o == Done {
        AppendReaping(s, s.tasks[s.cur].pid);
      } else {
        forall i | 0 <= i < |r.tasks| ensures TaskOk(r, i) { assert TaskOk(s, i); }
        forall i | i in r.waits ensures i < |r.tasks| && WaitOk(r, i) { assert WaitOk(s, i); }
        forall f | f in s.log ensures EventOk(r, f) && !Clash(f, Undone(s.nextStack)) { assert EventOk(s, f); }
        forall i, f | 0 <= i < |r.tasks| && f in s.log ensures Kept(r, i, f) { assert Kept(s, i, f); }
        forall i | 0 <= i < |r.tasks| ensures Kept(r, i, Undone(s.nextStack)) { assert TaskOk(s, i); }
        if o == NoTables { LogGrows(s, r, Undone(s.nextStack)); }
      }
    }
  }

  lemma CreateReaping(s: Sys, fits: bool)
    requires Reaping(s)
    ensures Reaping(TaskCreate(s, fits))
  {
    if fits {
      if |s.tasks| < MAX_TASKS { AppendReaping(s, 0); }
    } else {
      ForkReaping(s, NoStack);
    }
  }

  lemma StepReaping(s: Sys, step: Step)
    requires Reaping(s)
    ensures Reaping(Next(s, step))
  {
    if Enabled(s, step) {
      match step
      case DoTick => TickReaping(s);
      case DoBlock =>
        var b := s.(tasks := SetState(s.tasks, s.cur, Blocked));
        RescheduledKeeps(s, b);
        TickReaping(b);
      case DoWake(t) => RescheduledKeeps(s, Wake(s, t));
      case DoKill(pid, sig) => RescheduledKeeps(s, Kill(s, pid, sig));
      case DoExit(code) => ExitReaping(s, code);
      case DoCreate(fits) => CreateReaping(s, fits);
      case DoFork(o) => ForkReaping(s, o);
      case DoWait(pid) => WaitReaping(s, pid);
      case DoWaitAgain => WaitAgainReaping(s);
    }
  }

  lemma {:induction false} RunReaping(s: Sys, steps: seq<Step>)
    requires Reaping(s)
    ensures Reaping(Run(s, steps))
    decreases |steps|
  {
    if steps != [] {
      StepReaping(s, steps[0]);
      RunReaping(Next(s, steps[0]), steps[1..]);
    }
  }

  lemma OnlyOne(s: Sys, a: nat, b: nat)
    requires LogOk(s) && a < |s.log| && b < |s.log|
    requires Clash(s.log[a], s.log[b]) && Clash(s.log[b], s.log[a])
    ensures a == b
  {
  }

  // An exit status is handed out at most once, to the task that created the
  // child, and it is the value of the child's only exit.
  lemma StatusOnce(steps: seq<Step>, a: nat)
    requires a < |Run(Init(), steps).log| && Run(Init(), steps).log[a].Handed?
    ensures var r := Run(Init(), steps);
            var e := r.log[a];
            && (forall b :: 0 <= b < |r.log| && r.log[b].Handed? && r.log[b].child == e.child ==> b == a)
            && e.to < |r.tasks| && e.child < |r.tasks|
            && r.tasks[e.child].parent == r.tasks[e.to].born
            && Exited(e.child, e.code) in r.log
            && (forall b :: 0 <= b < |r.log| && r.log[b].Exited? && r.log[b].task == e.child ==>
                r.log[b].code == e.code)
  {
    RunReaping(Init(), steps);
    var r := Run(Init(), steps);
    assert EventOk(r, r.log[a]) && TaskOk(r, r.log[a].child);
    forall b | 0 <= b < |r.log| && r.log[b].Handed? && r.log[b].child == r.log[a].child ensures b == a {
      OnlyOne(r, a, b);
    }
    forall b | 0 <= b < |r.log| && r.log[b].Exited? && r.log[b].task == r.log[a].child
      ensures r.log[b].code == r.log[a].code
    {
      assert EventOk(r, r.log[b]);
    }
  }

  // A stack is freed at most once; a reaped task is a zombie whose status was
  // collected; and no linked task is left on a freed stack.
  lemma StackOnce(steps: seq<Step>, a: nat, st: nat)
    requires a < |Run(Init(), steps).log| && Frees(Run(Init(), steps).log[a], st)
    ensures var r := Run(Init(), steps);
            var e := r.log[a];
            && (forall b :: 0 <= b < |r.log| && Frees(r.log[b], st) ==> b == a)
            && (e.Reaped? ==> e.task < |r.tasks| && r.tasks[e.task].state == Zombie && r.tasks[e.task].waited)
            && (forall i :: 0 <= i < |r.tasks| ==> r.tasks[i].stack != st)
  {
    RunReaping(Init(), steps);
    var r := Run(Init(), steps);
    var e := r.log[a];
    assert EventOk(r, e);
    if e.Reaped? { assert TaskOk(r, e.task); }
    forall b | 0 <= b < |r.log| && Frees(r.log[b], st) ensures b == a {
      OnlyOne(r, a, b);
    }
    forall i | 0 <= i < |r.tasks| ensures r.tasks[i].stack != st { assert Kept(r, i, e); }
  }

  // ---------------------------------------------------------------- what waitpid and exit do

  // Task t is the child with this pid of the current task, and its status has
  // not been collected.
  predicate Child(s: Sys, t: nat, pid: nat)
    requires s.cur < |s.tasks|
  {
    0 < t < |s.tasks| && s.tasks[t].born == pid && s.tasks[t].parent == s.tasks[s.cur].born && !s.tasks[t].waited
  }

  lemma {:induction false} FindChildIs(tasks: seq<Task>, pid: nat, parent: nat, t: nat, i: nat)
    requires i <= t < |tasks| && IsChild(tasks[t], pid, parent)
    requires forall j :: i <= j < t ==> !IsChild(tasks[j], pid, parent)
    ensures FindChild(tasks, pid, parent, i) == t
    decreases t - i
  {
    if i < t { FindChildIs(tasks, pid, parent, t, i + 1); }
  }

  lemma ChildFound(s: Sys, t: nat, pid: nat)
    requires Reaping(s) && s.tasks[s.cur].state != Zombie && Child(s, t, pid)
    ensures FindChild(s.tasks, pid, s.tasks[s.cur].pid, 1) == t
  {
    assert TaskOk(s, s.cur) && TaskOk(s, t);
    forall j | 1 <= j < t ensures !IsChild(s.tasks[j], pid, s.tasks[s.cur].pid) {
      assert TaskOk(s, j) && Apart(s.tasks[j], s.tasks[t]);
    }
    FindChildIs(s.tasks, pid, s.tasks[s.cur].pid, t, 1);
  }

  // waitpid for a child that has ended hands out its exit status and frees its
  // stack, at once.
  lemma WaitHandsOut(s: Sys, t: nat, pid: nat)
    requires Reaping(s) && s.tasks[s.cur].state != Zombie && s.cur !in s.waits
    requires Child(s, t, pid) && s.tasks[t].state == Zombie
    ensures var r, st := Next(s, DoWait(pid)), s.tasks[t].stack;
            && r.log == s.log + [Handed(s.cur, t, s.tasks[t].code)] + (if st != 0 then [Reaped(t, st)] else [])
            && r.tasks == s.tasks[t := s.tasks[t].(waited := true, stack := 0, pid := 0)]
            && r.cur == s.cur && r.waits == s.waits
  {
    ChildFound(s, t, pid);
    CollectIs(s, t, pid);
  }

  // For a child that has not ended it waits, and hands out nothing yet.
  lemma WaitWaits(s: Sys, t: nat, pid: nat)
    requires Reaping(s) && s.tasks[s.cur].state != Zombie && s.cur !in s.waits
    requires Child(s, t, pid) && s.tasks[t].state != Zombie
    ensures var r := Next(s, DoWait(pid)); r.log == s.log && r.waits == s.waits[s.cur := (t, pid)]
  {
    ChildFound(s, t, pid);
    TickReschedules(s.(waits := s.waits[s.cur := (t, pid)]));
  }

  // Without such a child it fails, and changes nothing.
  lemma WaitRefused(s: Sys, pid: nat)
    requires Reaping(s) && s.tasks[s.cur].state != Zombie && s.cur !in s.waits
    requires forall t :: !Child(s, t, pid)
    ensures Next(s, DoWait(pid)) == s
  {
    var t := FindChild(s.tasks, pid, s.tasks[s.cur].pid, 1);
    FindChildFinds(s.tasks, pid, s.tasks[s.cur].pid, 1);
    assert TaskOk(s, s.cur);
    if t < |s.tasks| { assert TaskOk(s, t) && !Child(s, t, pid); }
  }

  // The loop inside waitpid goes on until the child has ended, and then does
  // the same as above; it hands out nothing when the status is gone.
  lemma WaitGoesOn(s: Sys)
    requires Reaping(s) && s.tasks[s.cur].state != Zombie && s.cur in s.waits
    ensures var (t, pid) := s.waits[s.cur];
            var r := Next(s, DoWaitAgain);
            && 0 < t < |s.tasks|
            && (s.tasks[t].state != Zombie ==> r.log == s.log && r.waits == s.waits)
            && (s.tasks[t].state == Zombie && s.tasks[t].waited ==> r == s.(waits := s.waits - {s.cur}))
            && (s.tasks[t].state == Zombie && !s.tasks[t].waited ==>
                && r.log == s.log + [Handed(s.cur, t, s.tasks[t].code)]
                            + (if s.tasks[t].stack != 0 then [Reaped(t, s.tasks[t].stack)] else [])
                && r.tasks == s.tasks[t := s.tasks[t].(waited := true, stack := 0, pid := 0)]
                && r.cur == s.cur && r.waits == s.waits - {s.cur})
  {
    var (t, pid) := s.waits[s.cur];
    assert WaitOk(s, s.cur);
    if s.tasks[t].state != Zombie { TickReschedules(s); }
    else if !s.tasks[t].waited { CollectIs(s, t, pid); }
  }

  // exit makes the task a zombie with its exit code, and says so once.
  lemma ExitEnds(s: Sys, code: int)
    requires Reaping(s) && s.tasks[s.cur].state != Zombie
    ensures var r := Next(s, DoExit(code));
            && r.log == s.log + [Exited(s.cur, code)] && |r.tasks| == |s.tasks|
            && r.tasks[s.cur] == s.tasks[s.cur].(state := Zombie, code := code)
            && forall i :: 0 <= i < |s.tasks| && i != s.cur ==> r.tasks[i] == s.tasks[i].(state := r.tasks[i].state)
  {
    var b := s.(tasks := s.tasks[s.cur := s.tasks[s.cur].(state := Zombie, code := code)],
                log := s.log + [Exited(s.cur, code)]);
    TickReschedules(b);
  }

  // fork adds a READY task at the end, a child of the caller, with a pid that no
  // task has had; with a full pool or without memory it adds none.
  lemma ForkAdds(s: Sys, o: Outcome)
    requires Reaping(s) && s.tasks[s.cur].state != Zombie && s.cur !in s.waits
    ensures var r := Next(s, DoFork(o));
            && (if o == Done && |s.tasks| < MAX_TASKS then
                  && |r.tasks| == |s.tasks| + 1 && r.tasks[..|s.tasks|] == s.tasks && r.cur == s.cur
                  && var c := r.tasks[|s.tasks|];
                  && c.state == Ready && c.pid == c.born && c.parent == s.tasks[s.cur].born && !c.waited
                  && (forall i :: 0 <= i < |s.tasks| ==>
                        s.tasks[i].born != c.born && s.tasks[i].stack != c.stack)
                else r.tasks == s.tasks)
  {
    assert TaskOk(s, s.cur);
    forall i | 0 <= i < |s.tasks| ensures s.tasks[i].born != s.nextPid && s.tasks[i].stack != s.nextStack {
      assert TaskOk(s, i);
    }
  }

  // kill makes the first live task with the pid READY if it was blocked, and
  // touches no other; without one, or for no signal, it does nothing.
  lemma KillWakes(s: Sys, pid: nat, sig: int, t: nat)
    requires Shape(s) && s.tasks[s.cur].state != Zombie && s.cur !in s.waits && t <= |s.tasks|
    requires t < |s.tasks| ==> s.tasks[t].pid == pid && s.tasks[t].state != Zombie
    requires forall j :: 0 <= j < t ==> !(s.tasks[j].pid == pid && s.tasks[j].state != Zombie)
    ensures var r := Next(s, DoKill(pid, sig));
            if 1 <= sig < 32 && t < |s.tasks| && s.tasks[t].state == Blocked
            then r == s.(tasks := s.tasks[t := s.tasks[t].(state := Ready)]) else r == s
  {
    FirstLive(s.tasks, pid, t, 0);
  }

  lemma {:induction false} FirstLive(tasks: seq<Task>, pid: nat, t: nat, i: nat)
    requires i <= t <= |tasks|
    requires t < |tasks| ==> tasks[t].pid == pid && tasks[t].state != Zombie
    requires forall j :: i <= j < t ==> !(tasks[j].pid == pid && tasks[j].state != Zombie)
    ensures FindLive(tasks, pid, i) == t
    decreases t - i
  {
    if i < t { FirstLive(tasks, pid, t, i + 1); }
  }

  // A task that blocks is blocked until it is woken.
  lemma BlockSleeps(s: Sys)
    requires Shape(s) && s.tasks[s.cur].state != Zombie && s.cur !in s.waits
    ensures var r := Next(s, DoBlock);
            && |r.tasks| == |s.tasks| && r.tasks[s.cur] == s.tasks[s.cur].(state := Blocked)
            && Next(r, DoWake(s.cur)).tasks[s.cur].state == Ready
  {
    var b := s.(tasks := SetState(s.tasks, s.cur, Blocked));
    TickRuns(b);
  }

  // So the parent gets the code of the exit, whatever happened in between.
  lemma ExitedIsHanded(s: Sys, t: nat, pid: nat, code: int)
    requires Reaping(s) && s.tasks[s.cur].state != Zombie && s.cur !in s.waits
    requires Child(s, t, pid) && Exited(t, code) in s.log
    ensures Handed(s.cur, t, code) in Next(s, DoWait(pid)).log
  {
    assert EventOk(s, Exited(t, code));
    WaitHandsOut(s, t, pid);
  }

  // The kernel creates the idle task first.
  lemma IdleLinked()
    ensures Good(Next(Init(), DoCreate(true)), 1)
    ensures Reaping(Next(Init(), DoCreate(true)))
  {
    StepReaping(Init(), DoCreate(true));
  }

  // ---------------------------------------------------------------- the kernel's loops

  // The pool as the kernel keeps it: records and `next` links.
  class Pool {
    var tasks: seq<Task>
    var next: seq<nat>
    var cur: nat

    // The links form one ring, in the order of the pool.
    ghost predicate Valid() reads this {
      && 1 <= |tasks| <= MAX_TASKS && |next| == |tasks| && cur < |tasks|
      && forall i :: 0 <= i < |tasks| ==> next[i] == Ahead(|tasks|, i, 1)
    }

    constructor ()
      ensures Valid() && tasks == Init().tasks && cur == Init().cur
    {
      tasks, next, cur := [MainTask], [0], 0;
    }

    method SchedulerNext() returns (t: nat)
      requires Valid()
      ensures t == Pick(tasks, cur, 1) && t < |tasks|
    {
      t := next[cur];
      ghost var k: nat := 1;
      PickBounds(tasks, cur, 1);
      while t != cur
        invariant 1 <= k <= |tasks| && t == Ahead(|tasks|, cur, k)
        invariant Pick(tasks, cur, 1) == Pick(tasks, cur, k)
        decreases |tasks| - k
      {
        if tasks[t].state == Ready { return; }
        t := next[t];
        k := k + 1;
      }
    }

    method SchedulerTick(ghost s: Sys)
      requires Valid() && s.tasks == tasks && s.cur == cur
      modifies this`tasks, this`cur
      ensures Valid() && tasks == Tick(s).tasks && cur == Tick(s).cur
    {
      if |tasks| < 2 { return; }
      var t := SchedulerNext();
      if t == cur { return; }
      if tasks[cur].state == Running { tasks := tasks[cur := tasks[cur].(state := Ready)]; }
      cur := t;
      tasks := tasks[cur := tasks[cur].(state := Running)];
    }

    // Links a new record last in the ring.
    method Link(t: Task) returns (ok: bool)
      requires Valid()
      modifies this`tasks, this`next
      ensures Valid() && ok == (old(|tasks|) < MAX_TASKS)
      ensures tasks == if ok then old(tasks) + [t] else old(tasks)
    {
      if |tasks| >= MAX_TASKS { return false; }
      var last := 0;
      while next[last] != 0
        invariant 0 <= last < |tasks|
        decreases |tasks| - last
      {
        last := next[last];
      }
      next := next[last := |tasks|] + [0];
      tasks := tasks + [t];
      return true;
    }

    // waitpid's search, which starts after the first task of the list.
    method LookForChild(pid: nat) returns (t: nat)
      requires Valid()
      ensures t == FindChild(tasks, pid, tasks[cur].pid, 1) && 1 <= t <= |tasks|
      ensures t < |tasks| ==> IsChild(tasks[t], pid, tasks[cur].pid)
      ensures forall j :: 1 <= j < t ==> !IsChild(tasks[j], pid, tasks[cur].pid)
    {
      t := next[0];
      ghost var k: nat := 1;
      while t != 0
        invariant 1 <= k <= |tasks| && t == (if k < |tasks| then k else 0)
        invariant FindChild(tasks, pid, tasks[cur].pid, 1) == FindChild(tasks, pid, tasks[cur].pid, k)
        invariant forall j :: 1 <= j < k ==> !IsChild(tasks[j], pid, tasks[cur].pid)
        decreases |tasks| - k
      {
        if tasks[t].pid == pid && tasks[t].parent == tasks[cur].pid { return; }
        t := next[t];
        k := k + 1;
      }
      t := |tasks|;
    }

    // The stack to free is returned; 0 when there is none.
    method SchedulerRemoveZombie(pid: nat, ghost s: Sys) returns (stack: nat)
      requires Valid() && s.tasks == tasks && s.cur == cur
      modifies this`tasks
      ensures Valid() && tasks == RemoveZombie(s, pid).tasks
      ensures stack != 0 <==> RemoveZombie(s, pid).log != s.log
      ensures stack != 0 ==> exists i :: 0 <= i < |tasks| && old(tasks)[i].stack == stack
                               && RemoveZombie(s, pid).log == s.log + [Reaped(i, stack)]
    {
      var i: nat := 0;
      stack := 0;
      while i < |tasks|
        invariant i <= |tasks| && tasks == old(tasks)
        invariant FindReapable(tasks, pid, 0) == FindReapable(tasks, pid, i)
      {
        if tasks[i].pid == pid && tasks[i].state == Zombie && tasks[i].waited {
          if tasks[i].stack != 0 {
            stack := tasks[i].stack;
            tasks := tasks[i := tasks[i].(stack := 0)];
          }
          tasks := tasks[i := tasks[i].(pid := 0)];
          tasks := tasks[i := tasks[i].(state := Zombie)];
          return;
        }
        i := i + 1;
      }
    }

    // The scheduling part of kill; the index of the task signalled, or -1.
    method SysKill(pid: nat, sig: int, ghost s: Sys) returns (hit: int)
      requires Valid() && s.tasks == tasks && s.cur == cur
      modifies this`tasks
      ensures Valid() && tasks == Kill(s, pid, sig).tasks
      ensures hit == -1 <==> !(1 <= sig < NSIGS && exists i :: 0 <= i < |tasks| && old(tasks)[i].pid == pid
                                                               && old(tasks)[i].state != Zombie)
      ensures hit != -1 ==> 0 <= hit < |tasks| && tasks[hit].pid == pid && tasks[hit].state != Blocked
    {
      if sig < 1 || sig >= NSIGS { return -1; }
      var t := 0;
      ghost var k: nat := 0;
      while true
        invariant 0 <= k < |tasks| && t == k && tasks == old(tasks)
        invariant FindLive(tasks, pid, 0) == FindLive(tasks, pid, k)
        invariant forall i :: 0 <= i < k ==> tasks[i].pid != pid || tasks[i].state == Zombie
        decreases |tasks| - k
      {
        if tasks[t].pid == pid && tasks[t].state != Zombie {
          if tasks[t].state == Blocked { tasks := tasks[t := tasks[t].(state := Ready)]; }
          return t;
        }
        t := next[t];
        k := k + 1;
        if t == 0 { break; }
      }
      return -1;
    }
  }
}
