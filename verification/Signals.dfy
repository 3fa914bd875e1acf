/**
 * Signals: sigaction, kill, delivery on the way back to user mode, sigreturn.
 *
 * A delivery acts on the current task, but on the register frame of the
 * interrupt.  After a timer interrupt that switched tasks the two belong to
 * different tasks, and the model keeps it so.
 *
 * The bit sets `signal_pending` and `signal_mask` are sets of signal numbers.
 */
module Signals {
  import Scheduler

  const NSIGS: nat := Scheduler.NSIGS
  const SIG_DFL: nat := 0
  const SIG_IGN: nat := 1
  const SIGINT: nat := 2
  const SIGKILL: nat := 9
  const SIGALRM: nat := 14
  const SIGCHLD: nat := 17
  const SIGCONT: nat := 18
  const TRAP_FLAG: nat := 0x100
  const WORD: nat := 0x1_0000_0000_0000_0000

  datatype Context = Context(rip: nat, rsp: nat, rflags: nat)
  datatype Frame = Frame(ctx: Context, rdi: nat, rax: int)

  datatype Task = Task(pid: nat, zombie: bool, code: int,
                       handlers: seq<nat>, pending: set<nat>, mask: set<nat>,
                       saved: Context, trampoline: nat, inSignal: bool)

  predicate TaskOk(t: Task) { |t.handlers| == NSIGS }

  // ---------------------------------------------------------------- delivery

  datatype Action = Nothing | Terminate(code: nat) | Handle(sig: nat)

  // Does the default action end the task?
  predicate Fatal(sig: nat) { sig != SIGCHLD && sig != SIGALRM && sig != SIGCONT }

  predicate Ignored(t: Task, sig: nat)
    requires TaskOk(t) && sig < NSIGS
  {
    t.handlers[sig] == SIG_IGN || (t.handlers[sig] == SIG_DFL && !Fatal(sig))
  }

  function ClearTrap(rflags: nat): nat {
    if rflags / TRAP_FLAG % 2 == 1 then rflags - TRAP_FLAG else rflags
  }

  function Zombify(t: Task, code: int): Task { t.(zombie := true, code := code) }

  // The frame that starts the handler of sig.
  function Entry(t: Task, r: Frame, sig: nat): Frame
    requires TaskOk(t) && sig < NSIGS
  {
    Frame(Context(t.handlers[sig], (r.ctx.rsp + WORD - 8) % WORD, ClearTrap(r.ctx.rflags)), sig, r.rax)
  }

  // The loop over the signals, from sig on, with `eligible` fixed at its start.
  function Scan(t: Task, r: Frame, eligible: set<nat>, sig: nat): (Task, Frame, Action)
    requires TaskOk(t)
    decreases NSIGS - sig
  {
    if sig >= NSIGS then (t, r, Nothing)
    else if sig !in eligible then Scan(t, r, eligible, sig + 1)
    else
      var u := t.(pending := t.pending - {sig});
      if t.handlers[sig] == SIG_DFL then
        if Fatal(sig) then (Zombify(u, sig), r, Terminate(sig)) else Scan(u, r, eligible, sig + 1)
      else if t.handlers[sig] == SIG_IGN then Scan(u, r, eligible, sig + 1)
      else (u.(saved := r.ctx, inSignal := true), Entry(t, r, sig), Handle(sig))
  }

  function Deliver(t: Task, r: Frame): (Task, Frame, Action)
    requires TaskOk(t)
  {
    if t.pid == 0 then (t, r, Nothing)
    else if SIGKILL in t.pending then (Zombify(t.(pending := {}), SIGKILL), r, Terminate(SIGKILL))
    else if t.inSignal then (t, r, Nothing)
    else Scan(t, r, t.pending - t.mask, 1)
  }

  // ---------------------------------------------------------------- what a delivery does

  // The pending, unmasked signals a <= s < b.
  function Between(e: set<nat>, a: nat, b: nat): set<nat> { set s | s in e && a <= s < b }

  // The least member of e, from sig on, that is not ignored; NSIGS if there is none.
  function Hit(t: Task, e: set<nat>, sig: nat): (h: nat)
    requires TaskOk(t) && sig <= NSIGS
    ensures sig <= h <= NSIGS
    ensures h < NSIGS ==> h in e && !Ignored(t, h)
    ensures forall s :: s in e && sig <= s < h ==> Ignored(t, s)
    decreases NSIGS - sig
  {
    if sig == NSIGS || (sig in e && !Ignored(t, sig)) then sig else Hit(t, e, sig + 1)
  }

  // The members of e that are cleared when the scan starts at sig and stops at h.
  function Gone(e: set<nat>, sig: nat, h: nat): set<nat> {
    Between(e, sig, if h < NSIGS then h + 1 else NSIGS)
  }

  // Clears `gone` and acts on h.
  function Act(t: Task, r: Frame, gone: set<nat>, h: nat): (Task, Frame, Action)
    requires TaskOk(t)
  {
    var u := t.(pending := t.pending - gone);
    if h >= NSIGS then (u, r, Nothing)
    else if t.handlers[h] == SIG_DFL then (Zombify(u, h), r, Terminate(h))
    else (u.(saved := r.ctx, inSignal := true), Entry(t, r, h), Handle(h))
  }

  lemma {:induction false} HitSame(t: Task, u: Task, e: set<nat>, sig: nat)
    requires TaskOk(t) && sig <= NSIGS && u.handlers == t.handlers
    ensures Hit(u, e, sig) == Hit(t, e, sig)
    decreases NSIGS - sig
  {
    if sig < NSIGS { HitSame(t, u, e, sig + 1); }
  }

  // Clearing one signal and then the rest is clearing them all.
  lemma ActLater(t: Task, r: Frame, one: set<nat>, rest: set<nat>, h: nat)
    requires TaskOk(t)
    ensures Act(t.(pending := t.pending - one), r, rest, h) == Act(t, r, one + rest, h)
  {
    assert t.pending - one - rest == t.pending - (one + rest);
  }

  lemma {:induction false} ScanActs(t: Task, r: Frame, e: set<nat>, sig: nat)
    requires TaskOk(t) && sig <= NSIGS
    ensures var h := Hit(t, e, sig); Scan(t, r, e, sig) == Act(t, r, Gone(e, sig, h), h)
    decreases NSIGS - sig
  {
    var h := Hit(t, e, sig);
    if sig == NSIGS {
      assert t.pending - Gone(e, sig, h) == t.pending;
    } else if sig in e && !Ignored(t, sig) {
      assert Gone(e, sig, h) == {sig};
    } else {
      var one := if sig in e then {sig} else {};
      var u := t.(pending := t.pending - one);
      assert u.pending == t.pending || one == {sig};
      ScanActs(u, r, e, sig + 1);
      HitSame(t, u, e, sig + 1);
      ActLater(t, r, one, Gone(e, sig + 1, h), h);
      assert one + Gone(e, sig + 1, h) == Gone(e, sig, h);
    }
  }

  // A delivery to an ordinary task outside a handler acts on the least pending,
  // unmasked, not ignored signal, clears it and the ignored ones below it, and
  // clears nothing else.
  lemma DeliverActs(t: Task, r: Frame)
    requires TaskOk(t) && t.pid != 0 && SIGKILL !in t.pending && !t.inSignal
    ensures var e := t.pending - t.mask;
            var h := Hit(t, e, 1);
            && Deliver(t, r) == Act(t, r, Gone(e, 1, h), h)
            && (Deliver(t, r).2 == Nothing <==> forall s :: s in e && 1 <= s < NSIGS ==> Ignored(t, s))
  {
    ScanActs(t, r, t.pending - t.mask, 1);
  }

  lemma HitIs(t: Task, e: set<nat>, h: nat)
    requires TaskOk(t) && e == t.pending - t.mask && 1 <= h <= NSIGS && (h < NSIGS ==> h in e && !Ignored(t, h))
    requires forall s :: 1 <= s < h && s in t.pending && s !in t.mask ==> Ignored(t, s)
    ensures Hit(t, e, 1) == h
    ensures forall s :: s in t.pending - Gone(e, 1, h) <==>
              s in t.pending && (s in t.mask || s == 0 || s > h || s >= NSIGS)
  {
    var _ := Hit(t, e, 1);
  }

  // A delivery whose least eligible signal h has a handler starts that handler one word
  // further down the stack, with the trap flag off, the signal as its argument and every
  // other register kept; the interrupted registers are saved.
  lemma HandlerStarts(t: Task, r: Frame, h: nat)
    requires TaskOk(t) && t.pid != 0 && SIGKILL !in t.pending && !t.inSignal
    requires 1 <= h < NSIGS && h in t.pending && h !in t.mask && t.handlers[h] !in {SIG_DFL, SIG_IGN}
    requires forall s :: 1 <= s < h && s in t.pending && s !in t.mask ==>
      t.handlers[s] == SIG_IGN || (t.handlers[s] == SIG_DFL && s in {SIGALRM, SIGCHLD, SIGCONT})
    ensures var (u, f, a) := Deliver(t, r);
      && a == Handle(h)
      && f.ctx.rip == t.handlers[h] && f.rdi == h && f.rax == r.rax
      && (8 <= r.ctx.rsp < WORD ==> f.ctx.rsp == r.ctx.rsp - 8)
      && (r.ctx.rsp < 8 ==> f.ctx.rsp == r.ctx.rsp + WORD - 8)
      && f.ctx.rflags % 0x100 == r.ctx.rflags % 0x100 && f.ctx.rflags / 0x100 % 2 == 0
      && f.ctx.rflags / 0x200 == r.ctx.rflags / 0x200
      && u == t.(pending := u.pending, saved := r.ctx, inSignal := true)
      && forall s :: s in u.pending <==> s in t.pending && (s in t.mask || s == 0 || s > h)
  {
    DeliverActs(t, r);
    HitIs(t, t.pending - t.mask, h);
    ClearTrapIs(r.ctx.rflags);
  }

  lemma ClearTrapIs(rflags: nat)
    ensures ClearTrap(rflags) % 0x100 == rflags % 0x100
    ensures ClearTrap(rflags) / 0x100 % 2 == 0 && ClearTrap(rflags) / 0x200 == rflags / 0x200
  {
  }

  // One whose least eligible signal h has the default action, and is none of the three
  // that do nothing by default, ends the task with h as its code.
  lemma DefaultEnds(t: Task, r: Frame, h: nat)
    requires TaskOk(t) && t.pid != 0 && SIGKILL !in t.pending && !t.inSignal
    requires 1 <= h < NSIGS && h in t.pending && h !in t.mask
    requires t.handlers[h] == SIG_DFL && h !in {SIGALRM, SIGCHLD, SIGCONT}
    requires forall s :: 1 <= s < h && s in t.pending && s !in t.mask ==>
      t.handlers[s] == SIG_IGN || (t.handlers[s] == SIG_DFL && s in {SIGALRM, SIGCHLD, SIGCONT})
    ensures var (u, f, a) := Deliver(t, r);
      && a == Terminate(h) && f == r && u == t.(pending := u.pending, zombie := true, code := h)
      && forall s :: s in u.pending <==> s in t.pending && (s in t.mask || s == 0 || s > h)
  {
    DeliverActs(t, r);
    HitIs(t, t.pending - t.mask, h);
  }

  // One whose eligible signals all do nothing clears them.
  lemma IgnoredCleared(t: Task, r: Frame)
    requires TaskOk(t) && t.pid != 0 && SIGKILL !in t.pending && !t.inSignal
    requires forall s :: 1 <= s < NSIGS && s in t.pending && s !in t.mask ==>
      t.handlers[s] == SIG_IGN || (t.handlers[s] == SIG_DFL && s in {SIGALRM, SIGCHLD, SIGCONT})
    ensures var (u, f, a) := Deliver(t, r);
      && a == Nothing && f == r && u == t.(pending := u.pending)
      && forall s :: s in u.pending <==> s in t.pending && (s in t.mask || s == 0 || s >= NSIGS)
  {
    DeliverActs(t, r);
    HitIs(t, t.pending - t.mask, NSIGS);
  }

  lemma DeliverFields(t: Task, r: Frame)
    requires TaskOk(t)
    ensures var (u, f, a) := Deliver(t, r);
      && (a.Handle? ==> 1 <= a.sig < NSIGS && a.sig in t.pending)
      && (a.Handle? ==> f.ctx.rip == t.handlers[a.sig] && f.rdi == a.sig)
      && (a.Handle? && 8 <= r.ctx.rsp < WORD ==> f.ctx.rsp == r.ctx.rsp - 8)
      && (a.Terminate? ==> u.zombie && u.code == a.code)
      && (!a.Handle? ==> f == r)
  {
    if t.pid != 0 && SIGKILL !in t.pending && !t.inSignal { DeliverActs(t, r); }
  }

  // A SIGKILL ends the task with code 9 and clears all that was pending; otherwise a task
  // in a handler, like the one with pid 0, is left alone.
  lemma KillOrLeave(t: Task, r: Frame)
    requires TaskOk(t) && (t.pid == 0 || SIGKILL in t.pending || t.inSignal)
    ensures Deliver(t, r) ==
      if t.pid != 0 && SIGKILL in t.pending then (t.(pending := {}, zombie := true, code := 9), r, Terminate(9))
      else (t, r, Nothing)
  {
  }

  // ---------------------------------------------------------------- the machine

  datatype Sys = Sys(tasks: seq<Task>, frames: seq<Frame>, cur: nat)

  predicate Shape(s: Sys) {
    && |s.frames| == |s.tasks| && s.cur < |s.tasks|
    && forall i :: 0 <= i < |s.tasks| ==> TaskOk(s.tasks[i])
  }

  datatype Step =
    | UserRuns(f: Frame)        // user code, or a call that only sets result registers
    | Sigaction(sig: int, handler: nat, trampoline: nat)
    | Kill(pid: nat, sig: int)
    | CtrlC
    | Sigreturn
    | Fork(pid: nat, leftover: Context)   // the child's saved context is not initialised
    | Exit(code: int)
    | Switch(next: nat)         // a switch from inside the kernel
    | Leave                     // return to user mode without a switch
    | Preempt(next: nat)        // a timer interrupt of user mode

  predicate Enabled(s: Sys, step: Step)
    requires Shape(s)
  {
    match step
    case Switch(next) => next < |s.tasks| && !s.tasks[next].zombie
    case Preempt(next) => !s.tasks[s.cur].zombie && next < |s.tasks| && !s.tasks[next].zombie
    case _ => !s.tasks[s.cur].zombie
  }

  // The task that a kill of this pid marks: the first live one, as in the
  // scheduler, among the records that hold the signals.
  function Target(tasks: seq<Task>, pid: nat, i: nat): nat
    decreases |tasks| - i
  {
    if i >= |tasks| || (tasks[i].pid == pid && !tasks[i].zombie) then i else Target(tasks, pid, i + 1)
  }

  function Raise(t: Task, sig: nat): Task { t.(pending := t.pending + {sig}) }

  function Interrupted(tasks: seq<Task>): (r: seq<Task>)
    ensures |r| == |tasks|
    ensures forall i :: 0 <= i < |r| ==>
              r[i] == if tasks[i].pid != 0 && !tasks[i].zombie then Raise(tasks[i], SIGINT) else tasks[i]
  {
    seq(|tasks|, i requires 0 <= i < |tasks| =>
      if tasks[i].pid != 0 && !tasks[i].zombie then Raise(tasks[i], SIGINT) else tasks[i])
  }

  // Delivery to task t on the frame of task f.
  function DeliverOn(s: Sys, t: nat, f: nat): Sys
    requires Shape(s) && t < |s.tasks| && f < |s.tasks|
  {
    var (u, r, _) := Deliver(s.tasks[t], s.frames[f]);
    s.(tasks := s.tasks[t := u], frames := s.frames[f := r])
  }

  function Next(s: Sys, step: Step): Sys
    requires Shape(s)
  {
    if !Enabled(s, step) then s
    else
      var me := s.tasks[s.cur];
      match step
      case UserRuns(f) => s.(frames := s.frames[s.cur := f])
      case Sigaction(sig, handler, trampoline) =>
        if sig < 1 || sig >= NSIGS then s
        else s.(tasks := s.tasks[s.cur := me.(handlers := me.handlers[sig := handler],
                                              trampoline := if trampoline != 0 then trampoline else me.trampoline)])
      case Kill(pid, sig) =>
        var t := Target(s.tasks, pid, 0);
        if sig < 1 || sig >= NSIGS || t >= |s.tasks| then s
        else s.(tasks := s.tasks[t := Raise(s.tasks[t], sig)])
      case CtrlC => s.(tasks := Interrupted(s.tasks))
      case Sigreturn =>
        s.(tasks := s.tasks[s.cur := me.(inSignal := false)],
           frames := s.frames[s.cur := s.frames[s.cur].(ctx := me.saved, rax := 0)])
      case Fork(pid, leftover) =>
        s.(tasks := s.tasks + [Task(pid, false, 0, me.handlers, {}, me.mask, leftover, me.trampoline, false)],
           frames := s.frames + [s.frames[s.cur].(rax := 0)])
      case Exit(code) => s.(tasks := s.tasks[s.cur := Zombify(me, code)])
      case Switch(next) => s.(cur := next)
      case Leave => DeliverOn(s, s.cur, s.cur)
      case Preempt(next) => DeliverOn(s.(cur := next), next, s.cur)
  }

  lemma DeliverKeeps(t: Task, r: Frame)
    requires TaskOk(t)
    ensures var (u, _, a) := Deliver(t, r);
            && TaskOk(u) && u.pid == t.pid && u.handlers == t.handlers
            && (t.inSignal ==> u.inSignal && u.saved == t.saved && !a.Handle?)
            && (a.Handle? <==> !t.inSignal && u.inSignal)
            && (a.Handle? ==> u.saved == r.ctx)
            && (t.zombie || a.Terminate? ==> u.zombie)
            && (SIGKILL in t.pending && t.pid != 0 ==> a == Terminate(SIGKILL))
  {
    if t.pid != 0 && SIGKILL !in t.pending && !t.inSignal { DeliverActs(t, r); }
  }

  lemma NextShape(s: Sys, step: Step)
    requires Shape(s)
    ensures Shape(Next(s, step)) && |Next(s, step).tasks| >= |s.tasks|
  {
    if Enabled(s, step) {
      match step
      case Leave => DeliverKeeps(s.tasks[s.cur], s.frames[s.cur]);
      case Preempt(next) => DeliverKeeps(s.tasks[next], s.frames[s.cur]);
      case _ =>
    }
  }

  function Run(s: Sys, steps: seq<Step>): (r: Sys)
    requires Shape(s)
    ensures Shape(r) && |r.tasks| >= |s.tasks|
    decreases |steps|
  {
    if steps == [] then s
    else
      NextShape(s, steps[0]);
      Run(Next(s, steps[0]), steps[1..])
  }

  // ---------------------------------------------------------------- the saved context

  predicate Inside(s: Sys, c: nat, ctx: Context)
    requires c < |s.tasks|
  {
    s.tasks[c].inSignal && s.tasks[c].saved == ctx
  }

  predicate Returns(s: Sys, step: Step, c: nat) { step.Sigreturn? && s.cur == c }

  predicate Stays(s: Sys, steps: seq<Step>, c: nat)
    requires Shape(s)
    decreases |steps|
  {
    steps == [] || (!Returns(s, steps[0], c) && (NextShape(s, steps[0]); Stays(Next(s, steps[0]), steps[1..], c)))
  }

  // Which task a step delivers to, if any.
  predicate DeliversTo(s: Sys, step: Step, c: nat)
    requires Shape(s)
  {
    Enabled(s, step) && ((step.Leave? && s.cur == c) || (step.Preempt? && step.next == c))
  }

  lemma StepInside(s: Sys, step: Step, c: nat, ctx: Context)
    requires Shape(s) && c < |s.tasks| && Inside(s, c, ctx) && !Returns(s, step, c)
    ensures Shape(Next(s, step)) && c < |Next(s, step).tasks| && Inside(Next(s, step), c, ctx)
  {
    NextShape(s, step);
    if Enabled(s, step) {
      match step
      case Leave => DeliverKeeps(s.tasks[s.cur], s.frames[s.cur]);
      case Preempt(next) => DeliverKeeps(s.tasks[next], s.frames[s.cur]);
      case _ =>
    }
  }

  // From the entry of a handler to its sigreturn nothing alters the saved
  // context, and no second handler starts.
  lemma {:induction false} ContextHeld(s: Sys, steps: seq<Step>, c: nat, ctx: Context)
    requires Shape(s) && c < |s.tasks| && Inside(s, c, ctx) && Stays(s, steps, c)
    ensures Inside(Run(s, steps), c, ctx)
    ensures forall r: Frame :: !Deliver(Run(s, steps).tasks[c], r).2.Handle?
    decreases |steps|
  {
    if steps != [] {
      StepInside(s, steps[0], c, ctx);
      ContextHeld(Next(s, steps[0]), steps[1..], c, ctx);
    }
  }

  // The task whose handler this step starts, and the signal.
  predicate Starts(s: Sys, step: Step, c: nat)
    requires Shape(s) && c < |s.tasks|
  {
    DeliversTo(s, step, c) && Deliver(s.tasks[c], s.frames[s.cur]).2.Handle?
  }

  // The sigreturn that ends a handler restores the instruction pointer, stack
  // pointer and flags of the frame that was interrupted when it started.
  lemma HandlerReturns(s: Sys, step: Step, steps: seq<Step>, c: nat)
    requires Shape(s) && c < |s.tasks| && Starts(s, step, c)
    requires Shape(Next(s, step)) && Stays(Next(s, step), steps, c)
    requires var m := Run(Next(s, step), steps); m.cur == c && !m.tasks[c].zombie
    ensures var r := Next(Run(Next(s, step), steps), Sigreturn);
            && r.frames[c].ctx == s.frames[s.cur].ctx
            && !r.tasks[c].inSignal
  {
    var n := Next(s, step);
    DeliverKeeps(s.tasks[c], s.frames[s.cur]);
    assert Inside(n, c, s.frames[s.cur].ctx);
    ContextHeld(n, steps, c, s.frames[s.cur].ctx);
  }

  // So the task gets its own registers back exactly when it was the one that
  // was interrupted, or when the interrupted one had the same three registers.
  lemma OwnContextIff(s: Sys, step: Step, steps: seq<Step>, c: nat)
    requires Shape(s) && c < |s.tasks| && Starts(s, step, c)
    requires Shape(Next(s, step)) && Stays(Next(s, step), steps, c)
    requires var m := Run(Next(s, step), steps); m.cur == c && !m.tasks[c].zombie
    ensures var r := Next(Run(Next(s, step), steps), Sigreturn);
            r.frames[c].ctx == s.frames[c].ctx
            <==> (c == s.cur || s.frames[c].ctx == s.frames[s.cur].ctx)
  {
    HandlerReturns(s, step, steps, c);
  }

  // The task that is interrupted loses its registers when the tick switches to
  // a task that then starts a handler: its frame becomes the handler's.
  lemma PreemptedFrame(s: Sys, c: nat)
    requires Shape(s) && c < |s.tasks| && c != s.cur && Starts(s, Preempt(c), c)
    ensures var r := Next(s, Preempt(c));
            var h := Deliver(s.tasks[c], s.frames[s.cur]).2.sig;
            && h < NSIGS && r.frames[s.cur] == Entry(s.tasks[c], s.frames[s.cur], h)
            && r.frames[c] == s.frames[c]
  {
    DeliverKeeps(s.tasks[c], s.frames[s.cur]);
    DeliverActs(s.tasks[c], s.frames[s.cur]);
  }

  // ---------------------------------------------------------------- SIGKILL

  predicate Condemned(s: Sys, c: nat)
    requires c < |s.tasks|
  {
    s.tasks[c].zombie || (s.tasks[c].pid != 0 && SIGKILL in s.tasks[c].pending)
  }

  function Deliveries(s: Sys, steps: seq<Step>, c: nat): nat
    requires Shape(s)
    decreases |steps|
  {
    if steps == [] then 0
    else
      NextShape(s, steps[0]);
      (if DeliversTo(s, steps[0], c) then 1 else 0) + Deliveries(Next(s, steps[0]), steps[1..], c)
  }

  lemma StepCondemned(s: Sys, step: Step, c: nat)
    requires Shape(s) && c < |s.tasks| && Condemned(s, c)
    ensures Shape(Next(s, step)) && c < |Next(s, step).tasks| && Condemned(Next(s, step), c)
    ensures DeliversTo(s, step, c) || s.tasks[c].zombie ==> Next(s, step).tasks[c].zombie
  {
    NextShape(s, step);
    if Enabled(s, step) {
      match step
      case Leave => DeliverKeeps(s.tasks[s.cur], s.frames[s.cur]);
      case Preempt(next) => DeliverKeeps(s.tasks[next], s.frames[s.cur]);
      case _ =>
    }
  }

  // A pending SIGKILL stays pending until the task's next delivery, and that
  // one makes it a zombie, whatever its handlers, its mask or its nesting.
  lemma {:induction false} KillIsFatal(s: Sys, steps: seq<Step>, c: nat)
    requires Shape(s) && c < |s.tasks| && Condemned(s, c)
    ensures Condemned(Run(s, steps), c)
    ensures Deliveries(s, steps, c) > 0 || s.tasks[c].zombie ==> Run(s, steps).tasks[c].zombie
    decreases |steps|
  {
    if steps != [] {
      StepCondemned(s, steps[0], c);
      KillIsFatal(Next(s, steps[0]), steps[1..], c);
    }
  }

  lemma TargetIs(tasks: seq<Task>, pid: nat, i: nat)
    ensures var c := Target(tasks, pid, i); c < |tasks| ==> tasks[c].pid == pid && !tasks[c].zombie
    decreases |tasks| - i
  {
  }

  lemma {:induction false} TargetFirst(tasks: seq<Task>, pid: nat, i: nat, t: nat)
    requires i <= t <= |tasks| && (t < |tasks| ==> tasks[t].pid == pid && !tasks[t].zombie)
    requires forall j :: i <= j < t ==> tasks[j].pid != pid || tasks[j].zombie
    ensures Target(tasks, pid, i) == t
    decreases |tasks| - i
  {
    if i < t { TargetFirst(tasks, pid, i + 1, t); }
  }

  // kill makes the signal pending on t, the first live task with this pid, and does nothing
  // else; with t past the last task, or a signal out of range, it does nothing.
  lemma KillRaises(s: Sys, pid: nat, sig: int, t: nat)
    requires Shape(s) && !s.tasks[s.cur].zombie
    requires t <= |s.tasks| && (t < |s.tasks| ==> s.tasks[t].pid == pid && !s.tasks[t].zombie)
    requires forall j :: 0 <= j < t ==> s.tasks[j].pid != pid || s.tasks[j].zombie
    ensures var r := Next(s, Kill(pid, sig));
      if 1 <= sig < NSIGS && t < |s.tasks| then
        && |r.tasks| == |s.tasks| && r.frames == s.frames && r.cur == s.cur
        && r.tasks[t] == s.tasks[t].(pending := s.tasks[t].pending + {sig})
        && forall i :: 0 <= i < |s.tasks| && i != t ==> r.tasks[i] == s.tasks[i]
      else r == s
  {
    TargetFirst(s.tasks, pid, 0, t);
  }

  // A child that is signalled has that one signal pending, whatever its parent had, with its
  // parent's handlers and mask; it is in no handler and returns 0 from fork.
  lemma ChildSignalled(s: Sys, pid: nat, leftover: Context, sig: nat)
    requires Shape(s) && !s.tasks[s.cur].zombie && 1 <= sig < NSIGS
    requires forall j :: 0 <= j < |s.tasks| ==> s.tasks[j].pid != pid || s.tasks[j].zombie
    ensures var me, n, a := s.tasks[s.cur], |s.tasks|, Next(s, Fork(pid, leftover));
            Shape(a) &&
            var r := Next(a, Kill(pid, sig));
            && |r.tasks| == n + 1 && r.tasks[..n] == s.tasks && r.frames[..n] == s.frames && r.cur == s.cur
            && r.tasks[n].handlers == me.handlers && r.tasks[n].mask == me.mask && r.tasks[n].pending == {sig}
            && r.tasks[n].trampoline == me.trampoline && !r.tasks[n].inSignal && !r.tasks[n].zombie
            && r.frames[n].ctx == s.frames[s.cur].ctx && r.frames[n].rdi == s.frames[s.cur].rdi && r.frames[n].rax == 0
  {
    var n, a := |s.tasks|, Next(s, Fork(pid, leftover));
    NextShape(s, Fork(pid, leftover));
    KillRaises(a, pid, sig, n);
  }

  // kill with SIGKILL condemns the first live task with this pid.
  lemma KillCondemns(s: Sys, pid: nat)
    requires Shape(s) && !s.tasks[s.cur].zombie && pid != 0 && Target(s.tasks, pid, 0) < |s.tasks|
    ensures var r := Next(s, Kill(pid, SIGKILL));
            Shape(r) && |r.tasks| == |s.tasks| && Condemned(r, Target(s.tasks, pid, 0))
  {
    TargetIs(s.tasks, pid, 0);
    NextShape(s, Kill(pid, SIGKILL));
  }

  // A task that installs a handler and signals itself is, on its way back to
  // user mode, in that handler, with its registers saved.
  lemma SelfSignal(s: Sys, sig: nat, handler: nat, trampoline: nat)
    requires Shape(s) && !s.tasks[s.cur].zombie && s.tasks[s.cur].pid != 0 && !s.tasks[s.cur].inSignal
    requires Target(s.tasks, s.tasks[s.cur].pid, 0) == s.cur && s.tasks[s.cur].pending == {}
    requires 1 <= sig < NSIGS && sig != SIGKILL && sig !in s.tasks[s.cur].mask && handler > SIG_IGN
    ensures var a := Next(s, Sigaction(sig, handler, trampoline));
            Shape(a) &&
            var b := Next(a, Kill(s.tasks[s.cur].pid, sig));
            Shape(b) &&
            var r := Next(b, Leave);
            && r.frames[s.cur].ctx.rip == handler && r.frames[s.cur].rdi == sig
            && Inside(r, s.cur, s.frames[s.cur].ctx) && r.tasks[s.cur].pending == {}
  {
    var c, pid := s.cur, s.tasks[s.cur].pid;
    var a := Next(s, Sigaction(sig, handler, trampoline));
    NextShape(s, Sigaction(sig, handler, trampoline));
    TargetSame(s.tasks, a.tasks, pid, 0);
    var b := Next(a, Kill(pid, sig));
    NextShape(a, Kill(pid, sig));
    var t := b.tasks[c];
    assert t.pending == {sig} && t.handlers[sig] == handler && !Ignored(t, sig);
    OnlySignal(t, s.frames[c], sig);
  }

  lemma TargetSame(ts: seq<Task>, us: seq<Task>, pid: nat, i: nat)
    requires |ts| == |us| && forall j :: 0 <= j < |ts| ==> us[j].pid == ts[j].pid && us[j].zombie == ts[j].zombie
    ensures Target(us, pid, i) == Target(ts, pid, i)
    decreases |ts| - i
  {
  }

  // The only pending signal, with a handler of its own.
  lemma OnlySignal(t: Task, r: Frame, sig: nat)
    requires TaskOk(t) && t.pid != 0 && !t.inSignal && t.pending == {sig} && 1 <= sig < NSIGS && sig != SIGKILL
    requires sig !in t.mask && t.handlers[sig] > SIG_IGN
    ensures Deliver(t, r) == (t.(pending := {}, saved := r.ctx, inSignal := true), Entry(t, r, sig), Handle(sig))
  {
    var e := t.pending - t.mask;
    DeliverActs(t, r);
    var h := Hit(t, e, 1);
    assert sig in e && !Ignored(t, sig);
    assert h == sig;
    assert t.pending - Gone(e, 1, h) == {};
  }

  // ---------------------------------------------------------------- an idle task can end

  function Fresh(pid: nat): Task {
    Task(pid, false, 0, seq(NSIGS, _ => SIG_DFL), {}, {}, Context(0, 0, 0), 0, false)
  }

  // Ctrl-C marks every task but pid 0, and a tick from a user task to the idle
  // task then delivers to the idle task, which ends.
  lemma IdleEnds(f: Frame, g: Frame)
    ensures var s := Sys([Fresh(1), Fresh(2)], [f, g], 1);
            Run(s, [CtrlC, Preempt(0)]).tasks[0].zombie
  {
    var s := Sys([Fresh(1), Fresh(2)], [f, g], 1);
    var m := Next(s, CtrlC);
    var t := m.tasks[0];
    assert t == Raise(Fresh(1), SIGINT);
    assert t.handlers[SIGINT] == SIG_DFL && !Ignored(t, SIGINT);
    DeliverActs(t, g);
    assert [CtrlC, Preempt(0)][1..] == [Preempt(0)];
    assert Run(s, [CtrlC, Preempt(0)]) == Run(m, [Preempt(0)]);
    assert [Preempt(0)][1..] == [];
    assert Run(m, [Preempt(0)]) == Next(m, Preempt(0));
  }

  // ---------------------------------------------------------------- the delivery loop

  class Signalled {
    var task: Task
    var frame: Frame

    constructor (t: Task, f: Frame)
      ensures task == t && frame == f
    {
      task, frame := t, f;
    }

    method SignalDeliver() returns (action: Action)
      requires TaskOk(task)
      modifies this
      ensures (task, frame, action) == Deliver(old(task), old(frame))
      ensures action.Handle? ==> 1 <= action.sig < NSIGS && action.sig in old(task).pending
      ensures action.Handle? ==> frame.ctx.rip == old(task).handlers[action.sig] && frame.rdi == action.sig
      ensures action.Handle? && 8 <= old(frame).ctx.rsp < WORD ==> frame.ctx.rsp == old(frame).ctx.rsp - 8
      ensures action.Terminate? ==> task.zombie && task.code == action.code
      ensures !action.Handle? ==> frame == old(frame)
    {
      DeliverFields(task, frame);
      if task.pid == 0 { return Nothing; }
      if SIGKILL in task.pending {
        task := task.(pending := {});
        task := Zombify(task, SIGKILL);
        return Terminate(SIGKILL);
      }
      if task.inSignal { return Nothing; }
      var eligible := task.pending - task.mask;
      if eligible == {} {
        NothingEligible(task, frame, 1);
        return Nothing;
      }
      ghost var outcome := Deliver(task, frame);
      for sig := 1 to NSIGS
        invariant TaskOk(task) && Scan(task, frame, eligible, sig) == outcome
      {
        if sig in eligible {
          task := task.(pending := task.pending - {sig});
          var handler := task.handlers[sig];
          if handler == SIG_DFL {
            if Fatal(sig) {
              task := Zombify(task, sig);
              return Terminate(sig);
            }
          } else if handler != SIG_IGN {
            task := task.(saved := frame.ctx, inSignal := true);
            frame := Frame(Context(handler, (frame.ctx.rsp + WORD - 8) % WORD, ClearTrap(frame.ctx.rflags)),
                           sig, frame.rax);
            return Handle(sig);
          }
        }
      }
      return Nothing;
    }
  }

  lemma {:induction false} NothingEligible(t: Task, r: Frame, sig: nat)
    requires TaskOk(t)
    ensures Scan(t, r, {}, sig) == (t, r, Nothing)
    decreases NSIGS - sig
  {
    if sig < NSIGS { NothingEligible(t, r, sig + 1); }
  }
}
