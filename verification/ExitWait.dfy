/** fork, exit and wait as steps of processes that interleave at will. wait_lock is a field of
    the state; a section under a p->lock that does not switch away is one step, taken when
    the lock is free. A process that is switching away holds its own p->lock until the
    scheduler, on its own stack, releases it. */
module ExitWait {
  import opened ProcModes

  datatype Chan = Nothing | WaitChan(p: nat) | Other

  datatype Parent = NoParent | Parent(p: nat)

  /** Where the kernel thread of a process is. Outside fork, exit and wait it is Elsewhere. */
  datatype Pc =
    | Elsewhere
    | ForkUsed(c: nat)                  // kfork: the child's slot is taken
    | ForkParent(c: nat)                // kfork: the child has its parent
    | ExitStart(status: int)            // kexit, before acquire(&wait_lock)
    | Reparent(k: nat, status: int)     // reparent, before slot k
    | ReWake(k: nat, t: nat, status: int)   // reparent's wakeup(initproc), before slot t
    | WakeParent(t: nat, status: int)   // wakeup(p->parent), before slot t
    | ExitFinal(status: int)            // before acquire(&p->lock)
    | Gone                              // ZOMBIE
    | WaitScan(k: nat, kids: bool)      // kwait's scan, before slot k
    | WaitSleep                         // before sleep's acquire(&p->lock)
    | WaitSleepB                        // before sleep's release(&wait_lock)
    | WaitSleepC                        // before p->state = SLEEPING
    | WaitAsleep                        // inside sched
    | WaitWoken                         // before sleep's last acquire(&wait_lock)

  datatype Proc = Proc(mode: Mode, chan: Chan, parent: Parent, pid: nat, xstate: int, killed: bool, pc: Pc,
                       locked: bool, onCpu: bool)

  /** wl: the holder of wait_lock, or |procs|. exited and reaped: what kexit was given and
      what kwait handed out, by pid. */
  datatype State = State(procs: seq<Proc>, wl: nat, init: nat, nextpid: nat, exited: map<nat, int>,
                         reaped: map<nat, int>)

  predicate Free(s: State) { s.wl == |s.procs| }

  predicate HoldsWaitLock(pc: Pc) {
    pc.Reparent? || pc.ReWake? || pc.WakeParent? || pc.ExitFinal? || pc.WaitScan? || pc.WaitSleep? || pc.WaitSleepB?
  }

  predicate Exiting(pc: Pc) {
    pc.ExitStart? || pc.Reparent? || pc.ReWake? || pc.WakeParent? || pc.ExitFinal? || pc.Gone?
  }

  predicate Live(m: Mode) { m.SLEEPING? || m.RUNNABLE? || m.RUNNING? }

  predicate Started(m: Mode) { Live(m) || m.ZOMBIE? }

  /** Asleep in kwait, or past the point of return. */
  predicate Dozing(p: Proc) { p.pc.WaitSleepC? || (p.pc.WaitAsleep? && p.mode.SLEEPING?) }

  // ---------- what every reachable state satisfies ----------

  /** The state of one process is consistent. */
  predicate One(s: State, i: nat)
    requires i < |s.procs|
  {
    var p := s.procs[i];
    && (HoldsWaitLock(p.pc) <==> s.wl == i)
    && (HoldsWaitLock(p.pc) || p.pc.WaitSleepC? ==> p.mode.RUNNING?)
    && (p.pc.ExitStart? || p.pc.ForkUsed? || p.pc.ForkParent? || p.pc.WaitWoken? ==>
          p.mode.RUNNING? || p.mode.RUNNABLE?)
    && (p.pc.ForkUsed? || p.pc.ForkParent? ==> p.pc.c < |s.procs|)
    && (p.pc.Gone? <==> p.mode.ZOMBIE?)
    && (p.pc.WaitAsleep? ==> p.mode.RUNNABLE? || (p.mode.SLEEPING? && p.chan == WaitChan(i)))
    && (p.mode.UNUSED? || p.mode.USED? ==> p.pc.Elsewhere? && !p.onCpu)
    && (p.mode.SLEEPING? && p.chan.WaitChan? ==> p.pc.WaitAsleep? && p.chan.p == i)
    && (p.onCpu <==> p.mode.RUNNING? || p.locked)
    && (p.locked && p.mode.RUNNING? <==> p.pc.WaitSleepB? || p.pc.WaitSleepC?)
    && (p.mode.UNUSED? ==> p.parent.NoParent?)
    && (p.parent.Parent? ==> p.parent.p < |s.procs| && p.parent.p != i && i != s.init)
    && (Started(p.mode) && i != s.init ==> p.parent.Parent?)
    && (i == s.init ==> Live(p.mode) && !Exiting(p.pc))
    && (!p.mode.UNUSED? ==> 0 < p.pid < s.nextpid)
    && (p.mode.UNUSED? ==> p.pid == 0 && p.xstate == 0 && p.chan.Nothing?)
    && (p.mode.ZOMBIE? ==> p.pid in s.exited && s.exited[p.pid] == p.xstate && p.pid !in s.reaped)
    && (!p.mode.UNUSED? && !p.mode.ZOMBIE? ==> p.pid !in s.exited && p.pid !in s.reaped)
  }

  /** The wakeup that will reach init is still under way. */
  predicate InitWillWake(s: State) {
    s.wl < |s.procs| && s.procs[s.wl].pc.ReWake? && s.procs[s.wl].pc.t <= s.init
  }

  /** Two processes are consistent with each other. */
  predicate Two(s: State, i: nat, j: nat)
    requires i < |s.procs| && j < |s.procs|
  {
    var p, q := s.procs[i], s.procs[j];
    && (q.parent == Parent(i) ==> Live(p.mode))
    && (p.pc.ForkUsed? && p.pc.c == j ==> i != j && q.mode.USED? && q.parent.NoParent?)
    && (p.pc.ForkParent? && p.pc.c == j ==> i != j && q.mode.USED? && q.parent == Parent(i))
    && ((p.pc.ForkUsed? || p.pc.ForkParent?) && (q.pc.ForkUsed? || q.pc.ForkParent?) && p.pc.c == q.pc.c ==> i == j)
    && (q.parent == Parent(i) && p.pc.Reparent? ==> p.pc.k <= j)
    && (q.parent == Parent(i) && p.pc.ReWake? ==> p.pc.k < j)
    && (q.parent == Parent(i) ==> !p.pc.WakeParent? && !p.pc.ExitFinal?)
    && (q.parent == Parent(i) && q.mode.ZOMBIE? && Dozing(p) ==> i == s.init && InitWillWake(s))
    && (q.parent == Parent(i) && q.mode.ZOMBIE? && p.pc.WaitScan? ==> p.pc.k <= j)
    && (q.parent == Parent(i) && q.mode.ZOMBIE? ==> !p.pc.WaitSleep? && !p.pc.WaitSleepB?)
    && (q.parent == Parent(i) && q.pc.WakeParent? && Dozing(p) ==> q.pc.t <= i)
    && (q.parent == Parent(i) && q.pc.ExitFinal? ==> !Dozing(p))
    && (i != j && !p.mode.UNUSED? && !q.mode.UNUSED? ==> p.pid != q.pid)
  }

  ghost predicate Inv(s: State) {
    && s.init < |s.procs| && s.wl <= |s.procs| && s.nextpid > 0
    && (forall i: nat {:trigger One(s, i)} :: i < |s.procs| ==> One(s, i))
    && (forall i: nat, j: nat {:trigger Two(s, i, j)} :: i < |s.procs| && j < |s.procs| ==> Two(s, i, j))
    && (forall p {:trigger p in s.exited} :: p in s.exited ==> p < s.nextpid)
    && (forall p {:trigger s.reaped[p]} :: p in s.reaped ==> p in s.exited && s.reaped[p] == s.exited[p])
  }

  // ---------- steps ----------

  function Put(s: State, i: nat, p: Proc): (r: State)
    requires i < |s.procs|
    ensures |r.procs| == |s.procs| && r.procs[i] == p &&
            forall j {:trigger r.procs[j]} :: 0 <= j < |s.procs| && j != i ==> r.procs[j] == s.procs[j]
  {
    s.(procs := s.procs[i := p])
  }

  predicate At(s: State, i: nat) { i < |s.procs| && s.wl <= |s.procs| }

  /** The process runs, in the kernel or outside, and holds no p->lock of its own. */
  predicate Runs(p: Proc) { p.mode.RUNNING? && !p.locked }

  /** wakeup's visit to a slot: sleepers on the channel become runnable. */
  function Woken(p: Proc, chan: Chan): Proc {
    if p.mode.SLEEPING? && p.chan == chan then p.(mode := RUNNABLE) else p
  }

  /** A slot after freeproc. */
  function Freed(p: Proc): Proc {
    p.(mode := UNUSED, chan := Nothing, parent := NoParent, pid := 0, xstate := 0, killed := false, pc := Elsewhere)
  }

  // kfork

  ghost predicate TakeSlot(s: State, i: nat, c: nat, s': State) {
    At(s, i) && c < |s.procs| && Runs(s.procs[i]) && s.procs[i].pc.Elsewhere? && s.procs[c].mode.UNUSED? &&
    !s.procs[c].locked
    && s' == Put(Put(s, c, s.procs[c].(mode := USED, pid := s.nextpid)), i,
                 s.procs[i].(pc := ForkUsed(c))).(nextpid := s.nextpid + 1)
  }

  /** There is no memory: freeproc, and the fork fails. */
  ghost predicate FailFork(s: State, i: nat, s': State) {
    At(s, i) && Runs(s.procs[i]) && s.procs[i].pc.ForkUsed? &&
    var c := s.procs[i].pc.c;
    c < |s.procs| && !s.procs[c].locked &&
    s' == Put(Put(s, c, Freed(s.procs[c])), i, s.procs[i].(pc := Elsewhere))
  }

  ghost predicate SetParent(s: State, i: nat, s': State) {
    At(s, i) && Runs(s.procs[i]) && s.procs[i].pc.ForkUsed? && Free(s) &&
    var c := s.procs[i].pc.c;
    c < |s.procs| && s' == Put(Put(s, c, s.procs[c].(parent := Parent(i))), i, s.procs[i].(pc := ForkParent(c)))
  }

  ghost predicate StartChild(s: State, i: nat, s': State) {
    At(s, i) && Runs(s.procs[i]) && s.procs[i].pc.ForkParent? &&
    var c := s.procs[i].pc.c;
    c < |s.procs| && !s.procs[c].locked &&
    s' == Put(Put(s, c, s.procs[c].(mode := RUNNABLE)), i, s.procs[i].(pc := Elsewhere))
  }

  // kexit

  ghost predicate BeginExit(s: State, i: nat, status: int, s': State) {
    At(s, i) && Runs(s.procs[i]) && s.procs[i].pc.Elsewhere? && i != s.init
    && s' == Put(s, i, s.procs[i].(pc := ExitStart(status)))
  }

  ghost predicate LockForExit(s: State, i: nat, s': State) {
    At(s, i) && Runs(s.procs[i]) && s.procs[i].pc.ExitStart? && Free(s)
    && s' == Put(s, i, s.procs[i].(pc := Reparent(0, s.procs[i].pc.status))).(wl := i)
  }

  /** reparent's look at slot k, if it has another parent or there are no more slots. */
  ghost predicate PassSlot(s: State, i: nat, s': State) {
    At(s, i) && s.procs[i].pc.Reparent? &&
    var k, status := s.procs[i].pc.k, s.procs[i].pc.status;
    && (k < |s.procs| ==> s.procs[k].parent != Parent(i))
    && s' == Put(s, i, s.procs[i].(pc := if k < |s.procs| then Reparent(k + 1, status) else WakeParent(0, status)))
  }

  ghost predicate GiveToInit(s: State, i: nat, s': State) {
    At(s, i) && s.procs[i].pc.Reparent? &&
    var k, status := s.procs[i].pc.k, s.procs[i].pc.status;
    && k < |s.procs| && s.procs[k].parent == Parent(i)
    && s' == Put(Put(s, k, s.procs[k].(parent := Parent(s.init))), i, s.procs[i].(pc := ReWake(k, 0, status)))
  }

  /** wakeup(initproc): past the own slot, or at the end. */
  ghost predicate ReWakePass(s: State, i: nat, s': State) {
    At(s, i) && s.procs[i].pc.ReWake? &&
    var k, t, status := s.procs[i].pc.k, s.procs[i].pc.t, s.procs[i].pc.status;
    && (t >= |s.procs| || t == i)
    && s' == Put(s, i, s.procs[i].(pc := if t == i then ReWake(k, t + 1, status) else Reparent(k + 1, status)))
  }

  /** wakeup(initproc): a visit to slot t. */
  ghost predicate ReWakeVisit(s: State, i: nat, s': State) {
    At(s, i) && s.procs[i].pc.ReWake? &&
    var k, t, status := s.procs[i].pc.k, s.procs[i].pc.t, s.procs[i].pc.status;
    && t < |s.procs| && t != i && !s.procs[t].locked
    && s' == Put(Put(s, t, Woken(s.procs[t], WaitChan(s.init))), i, s.procs[i].(pc := ReWake(k, t + 1, status)))
  }

  /** wakeup(p->parent): past the own slot, or at the end. */
  ghost predicate WakePass(s: State, i: nat, s': State) {
    At(s, i) && s.procs[i].pc.WakeParent? &&
    var t, status := s.procs[i].pc.t, s.procs[i].pc.status;
    && (t >= |s.procs| || t == i)
    && s' == Put(s, i, s.procs[i].(pc := if t == i then WakeParent(t + 1, status) else ExitFinal(status)))
  }

  /** wakeup(p->parent): a visit to slot t. */
  ghost predicate WakeVisit(s: State, i: nat, s': State) {
    At(s, i) && s.procs[i].pc.WakeParent? && s.procs[i].parent.Parent? &&
    var t, status := s.procs[i].pc.t, s.procs[i].pc.status;
    && t < |s.procs| && t != i && !s.procs[t].locked
    && s' == Put(Put(s, t, Woken(s.procs[t], WaitChan(s.procs[i].parent.p))), i,
                 s.procs[i].(pc := WakeParent(t + 1, status)))
  }

  ghost predicate BecomeZombie(s: State, i: nat, s': State) {
    At(s, i) && s.procs[i].pc.ExitFinal? && !s.procs[i].locked &&
    var p := s.procs[i];
    s' == Put(s, i, p.(mode := ZOMBIE, xstate := p.pc.status, pc := Gone,
                       locked := true)).(wl := |s.procs|, exited := s.exited[p.pid := p.pc.status])
  }

  // kwait

  ghost predicate BeginWait(s: State, i: nat, s': State) {
    At(s, i) && Runs(s.procs[i]) && (s.procs[i].pc.Elsewhere? || s.procs[i].pc.WaitWoken?) && Free(s)
    && s' == Put(s, i, s.procs[i].(pc := WaitScan(0, false))).(wl := i)
  }

  /** The scan passes a slot that is not a ZOMBIE child. */
  ghost predicate ScanSlot(s: State, i: nat, s': State) {
    At(s, i) && s.procs[i].pc.WaitScan? &&
    var k := s.procs[i].pc.k;
    k < |s.procs| &&
    var child := s.procs[k].parent == Parent(i);
    && (child ==> !s.procs[k].locked && !s.procs[k].mode.ZOMBIE?)
    && s' == Put(s, i, s.procs[i].(pc := WaitScan(k + 1, s.procs[i].pc.kids || child)))
  }

  /** The scan is at a ZOMBIE child. */
  predicate AtZombie(s: State, i: nat) {
    At(s, i) && s.procs[i].pc.WaitScan? &&
    var k := s.procs[i].pc.k;
    k < |s.procs| && s.procs[k].parent == Parent(i) && !s.procs[k].locked && s.procs[k].mode.ZOMBIE?
  }

  /** The child is freed, its status copied out and its pid returned. */
  ghost predicate Reap(s: State, i: nat, pid: nat, status: int, s': State) {
    AtZombie(s, i) &&
    var k := s.procs[i].pc.k;
    var q := s.procs[k];
    pid == q.pid && status == q.xstate &&
    s' == Put(Put(s, k, Freed(q)), i, s.procs[i].(pc := Elsewhere)).(wl := |s.procs|,
                                                                     reaped := s.reaped[q.pid := q.xstate])
  }

  /** The state when kwait has returned -1. */
  function GivenUp(s: State, i: nat): State
    requires i < |s.procs|
  {
    Put(s, i, s.procs[i].(pc := Elsewhere)).(wl := |s.procs|)
  }

  /** The status of a ZOMBIE child cannot be copied out: -1, and the child stays. */
  ghost predicate CopyFails(s: State, i: nat, s': State) {
    AtZombie(s, i) && s' == GivenUp(s, i)
  }

  /** -1, as no children were found. */
  ghost predicate NoChildren(s: State, i: nat, s': State) {
    At(s, i) && s.procs[i].pc.WaitScan? && s.procs[i].pc.k >= |s.procs| && !s.procs[i].pc.kids && s' == GivenUp(s, i)
  }

  /** -1, as the caller has been killed. */
  ghost predicate WaitKilled(s: State, i: nat, s': State) {
    At(s, i) && s.procs[i].pc.WaitScan? && s.procs[i].pc.k >= |s.procs| && s.procs[i].killed && s' == GivenUp(s, i)
  }

  ghost predicate ScanEnd(s: State, i: nat, s': State) {
    At(s, i) && s.procs[i].pc.WaitScan? && s.procs[i].pc.k >= |s.procs| && s.procs[i].pc.kids && !s.procs[i].killed
    && s' == Put(s, i, s.procs[i].(pc := WaitSleep))
  }

  ghost predicate SleepLock(s: State, i: nat, s': State) {
    At(s, i) && s.procs[i].pc.WaitSleep? && !s.procs[i].locked
    && s' == Put(s, i, s.procs[i].(pc := WaitSleepB, locked := true))
  }

  ghost predicate SleepUnlock(s: State, i: nat, s': State) {
    At(s, i) && s.procs[i].pc.WaitSleepB?
    && s' == Put(s, i, s.procs[i].(pc := WaitSleepC)).(wl := |s.procs|)
  }

  ghost predicate FallAsleep(s: State, i: nat, s': State) {
    At(s, i) && s.procs[i].pc.WaitSleepC?
    && s' == Put(s, i, s.procs[i].(mode := SLEEPING, chan := WaitChan(i), pc := WaitAsleep))
  }

  // scheduling, and everything else that touches the state of a process

  ghost predicate SwitchOut(s: State, i: nat, s': State) {
    At(s, i) && s.procs[i].locked && !s.procs[i].mode.RUNNING?
    && s' == Put(s, i, s.procs[i].(locked := false, onCpu := false))
  }

  ghost predicate Dispatch(s: State, i: nat, s': State) {
    At(s, i) && s.procs[i].mode.RUNNABLE? && !s.procs[i].locked &&
    var p := s.procs[i];
    s' == Put(s, i,
              p.(mode := RUNNING, onCpu := true, chan := Nothing, pc := if p.pc.WaitAsleep? then WaitWoken else p.pc))
  }

  ghost predicate Yield(s: State, i: nat, s': State) {
    At(s, i) && Runs(s.procs[i]) && !HoldsWaitLock(s.procs[i].pc)
    && s' == Put(s, i, s.procs[i].(mode := RUNNABLE, locked := true))
  }

  ghost predicate SleepElsewhere(s: State, i: nat, s': State) {
    At(s, i) && Runs(s.procs[i]) && s.procs[i].pc.Elsewhere?
    && s' == Put(s, i, s.procs[i].(mode := SLEEPING, chan := Other, locked := true))
  }

  ghost predicate WakeElsewhere(s: State, i: nat, s': State) {
    At(s, i) && s.procs[i].mode.SLEEPING? && s.procs[i].chan.Other? && !s.procs[i].locked
    && s' == Put(s, i, s.procs[i].(mode := RUNNABLE))
  }

  /** kkill finds pid in slot i. */
  ghost predicate Kill(s: State, i: nat, pid: nat, s': State) {
    At(s, i) && !s.procs[i].locked && s.procs[i].pid == pid
    && s' == Put(s, i,
                 s.procs[i].(killed := true, mode := if s.procs[i].mode.SLEEPING? then RUNNABLE else s.procs[i].mode))
  }
}
