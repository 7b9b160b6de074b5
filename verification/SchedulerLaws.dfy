/** What the priority scheduler promises over whole runs: which process a scan ends with, that a
    CPU idles only if it saw nothing to run, and that no CPU gets stuck. */
module SchedulerLaws {
  import opened ProcModes
  import opened Scheduler
  import opened SchedulerProof

  lemma StepOfRun(states: seq<State>, acts: seq<Action>, t: nat)
    requires IsRun(states, acts) && t < |acts|
    ensures Inv(states[t]) && Next(states[t], acts[t], states[t + 1])
  {
    var u := t + 1;
    RunKeeps(states, acts, t);
    assert Next(states[t], acts[t], states[u]);
  }

  // ---------- a scan ----------

  predicate InScan(pc: Pc) { pc.Scan? || pc.Check? || pc.IntrWant? || pc.IntrHold? }

  /** The champion so far, or n. */
  function Champion(pc: Pc, n: nat): nat {
    match pc
    case Scan(_, h) => h
    case Check(_, h) => h
    case _ => n
  }

  /** CPU c is looking at slot j under its lock. */
  predicate LooksAt(s: State, c: nat, j: nat) {
    c < |s.cpus| && j < |s.procs| && s.cpus[c].pc.Check? && s.cpus[c].pc.k == j && s.procs[j].lock == c
  }

  /** Between u and t CPU c has neither begun a scan nor ended one. */
  ghost predicate SameScan(acts: seq<Action>, u: nat, t: nat, c: nat)
    requires t <= |acts|
  {
    forall v {:trigger acts[v]} :: u <= v < t ==> acts[v] !in {DoStartOver(c), DoSwitchIn(c), DoScanAgain(c)}
  }

  /** Process p of slot j, if RUNNABLE, loses against the champion h: its priority is lower, or
      the same and its slot higher. */
  predicate Loses(p: Proc, j: nat, s: State, h: nat) {
    p.mode.RUNNABLE? ==>
      h < |s.procs| && (p.priority < s.procs[h].priority || (p.priority == s.procs[h].priority && h <= j))
  }

  /** Other CPUs leave the scan of c and its champion alone. */
  lemma OthersLeave(s: State, a: Action, s': State, c: nat)
    requires Inv(s) && Next(s, a, s') && c < |s.cpus| && a.c != c
    ensures |s'.procs| == |s.procs| && |s'.cpus| == |s.cpus| && s'.cpus[c] == s.cpus[c]
    ensures var h := Champion(s.cpus[c].pc, |s.procs|); h < |s.procs| ==> s'.procs[h] == s.procs[h]
  {
    assert CpuOk(s, c) && a.c < |s.cpus| && CpuOk(s, a.c);
    var h := Champion(s.cpus[c].pc, |s.procs|);
    if h < |s.procs| {
      assert LockOk(s, c, h) && LockOk(s, a.c, h);
    }
  }

  /** What a step of c does to its scan: it goes on with the same slot and champion, or it is
      done with the slot that it looked at, or a scan begins. */
  lemma OwnStep(s: State, a: Action, s': State)
    requires Inv(s) && Next(s, a, s')
    ensures a.c < |s.cpus| == |s'.cpus| && |s'.procs| == |s.procs|
    ensures var pc, pc', n := s.cpus[a.c].pc, s'.cpus[a.c].pc, |s.procs|;
            InScan(pc') ==>
              || pc'.k == 0
              || (InScan(pc) && pc'.k == pc.k && Champion(pc', n) == Champion(pc, n)
                  && (Champion(pc, n) < n ==> SameRank(s.procs[Champion(pc, n)], s'.procs[Champion(pc, n)])))
              || (pc.Check? && pc'.k == pc.k + 1 && pc.k < n && LooksAt(s, a.c, pc.k)
                  && Loses(s.procs[pc.k], pc.k, s', Champion(pc', n))
                  && (pc.h < n ==> pc.h < pc.k && Loses(s.procs[pc.h].(mode := RUNNABLE), pc.h, s', Champion(pc', n))
                                   && (Champion(pc', n) != pc.h ==>
                                         s.procs[pc.h].priority < s'.procs[Champion(pc', n)].priority)))
    ensures a in {DoStartOver(a.c), DoSwitchIn(a.c), DoScanAgain(a.c)} ==>
              !InScan(s'.cpus[a.c].pc) || s'.cpus[a.c].pc.k == 0
  {
    assert CpuOk(s, a.c);
    var pc := s.cpus[a.c].pc;
    if pc.Check? {
      assert LockOk(s, a.c, pc.k);
    }
  }

  predicate SameRank(p: Proc, q: Proc) { p.mode == q.mode && p.priority == q.priority }

  /** Every slot before the one that a scan is at was looked at under its lock in this scan,
      and the process found there loses against the champion. */
  lemma {:induction false} Looked(states: seq<State>, acts: seq<Action>, t: nat, c: nat, j: nat) returns (u: nat)
    requires IsRun(states, acts) && t < |states| && c < |states[t].cpus|
    requires InScan(states[t].cpus[c].pc) && j < states[t].cpus[c].pc.k
    ensures u < t && LooksAt(states[u], c, j) && SameScan(acts, u, t, c)
    ensures Loses(states[u].procs[j], j, states[t], Champion(states[t].cpus[c].pc, |states[t].procs|))
  {
    if t == 0 {
      NothingScanned(states[0], c);
    } else {
      var b := t - 1;
      StepOfRun(states, acts, b);
      var s, a, s' := states[b], acts[b], states[t];
      OwnStep(s, a, s');
      if a.c != c {
        OthersLeave(s, a, s', c);
        u := Looked(states, acts, b, c, j);
      } else if s.cpus[c].pc.Check? && s'.cpus[c].pc.k == s.cpus[c].pc.k + 1 && j == s.cpus[c].pc.k {
        u := b;
      } else {
        u := Looked(states, acts, b, c, j);
      }
    }
  }

  lemma NothingScanned(s: State, c: nat)
    requires Boot(s) && c < |s.cpus|
    ensures s.cpus[c].pc == Scan(0, |s.procs|)
  {
  }

  // ---------- the theorems ----------

  /** When a CPU switches to a process h, it holds the lock of h and no other p->lock, noff is 1
      and h is RUNNABLE; and every slot j was looked at under its lock in this scan, where the
      process found there, if RUNNABLE, had a lower priority than h has, or the same in a slot
      that is not lower. */
  lemma ChampionWins(states: seq<State>, acts: seq<Action>, t: nat, c: nat, j: nat) returns (h: nat, u: nat)
    requires IsRun(states, acts) && t < |acts| && acts[t] == DoSwitchIn(c) && j < |states[t].procs|
    ensures c < |states[t].cpus| == |states[t + 1].cpus| && states[t + 1].cpus[c].pc == SwitchedIn(h)
    ensures h < |states[t].procs| && states[t].procs[h].mode.RUNNABLE? && states[t].cpus[c].noff == 1
    ensures states[t + 1].procs == states[t].procs[h := states[t].procs[h].(mode := RUNNING)]
    ensures forall i {:trigger states[t].procs[i]} :: 0 <= i < |states[t].procs| ==>
              (states[t].procs[i].lock == c <==> i == h)
    ensures u < t && LooksAt(states[u], c, j) && SameScan(acts, u, t, c)
    ensures Loses(states[u].procs[j], j, states[t], h)
  {
    StepOfRun(states, acts, t);
    var s := states[t];
    h := s.cpus[c].pc.h;
    assert CpuOk(s, c);
    forall i: nat | i < |s.procs|
      ensures s.procs[i].lock == c <==> i == h
    {
      assert LockOk(s, c, i);
    }
    u := Looked(states, acts, t, c, j);
  }

  /** A CPU gives up a scan only if it saw no RUNNABLE process: every slot was looked at under
      its lock in this scan, and was not RUNNABLE then. */
  lemma IdlesRightly(states: seq<State>, acts: seq<Action>, t: nat, c: nat, j: nat) returns (u: nat)
    requires IsRun(states, acts) && t < |acts| && acts[t] == DoStartOver(c) && j < |states[t].procs|
    ensures u < t && LooksAt(states[u], c, j) && SameScan(acts, u, t, c)
    ensures !states[u].procs[j].mode.RUNNABLE?
  {
    StepOfRun(states, acts, t);
    u := Looked(states, acts, t, c, j);
  }

  /** sched meets none of its panics on locks and state: when a process gives up the CPU, this
      CPU holds its lock and no other p->lock, noff is 1, and it is RUNNING no longer. */
  lemma SchedDoesNotPanic(states: seq<State>, acts: seq<Action>, t: nat, c: nat, mode: Mode)
    requires IsRun(states, acts) && t < |acts| && acts[t] == DoSwitchOut(c, mode)
    ensures c < |states[t].cpus| && states[t].cpus[c].pc.Hold? && states[t].cpus[c].noff == 1
    ensures var p := states[t].cpus[c].pc.p;
            && p < |states[t].procs| == |states[t + 1].procs|
            && states[t].procs[p].mode.RUNNING? && states[t + 1].procs[p].mode == mode && !mode.RUNNING?
            && forall i {:trigger states[t].procs[i]} :: 0 <= i < |states[t].procs| ==>
                 (states[t].procs[i].lock == c <==> i == p)
  {
    StepOfRun(states, acts, t);
    var s := states[t];
    assert CpuOk(s, c);
    forall i: nat | i < |s.procs|
      ensures s.procs[i].lock == c <==> i == s.cpus[c].pc.p
    {
      assert LockOk(s, c, i);
    }
  }

  datatype Rank = Rank(mode: Mode, priority: int)

  /** State and priority of the process in slot j, from what was done to it: who holds its lock
      may change both, switching to it makes it RUNNING, and leaving the CPU it sets its state. */
  ghost function RankOf(states: seq<State>, acts: seq<Action>, t: nat, j: nat): Rank
    requires t <= |acts| < |states| && j < |states[0].procs|
  {
    if t == 0 then Rank(states[0].procs[j].mode, states[0].procs[j].priority) else
      var s, a, r := states[t - 1], acts[t - 1], RankOf(states, acts, t - 1, j);
      if a.DoChangeOther? && Has(s, a.c, j) then Rank(a.mode, a.priority)
      else if a.DoSwitchOut? && Has(s, a.c, j) then Rank(a.mode, r.priority)
      else if a.DoSwitchIn? && Champions(s, a.c, j) then Rank(RUNNING, r.priority)
      else r
  }

  /** CPU c holds the lock of slot j, in a process or a handler. */
  predicate Has(s: State, c: nat, j: nat) {
    c < |s.cpus| && (s.cpus[c].pc.Hold? || s.cpus[c].pc.IntrHold?) && s.cpus[c].pc.j == j
  }

  /** CPU c has the process in slot j as its champion. */
  predicate Champions(s: State, c: nat, j: nat) {
    c < |s.cpus| && s.cpus[c].pc.Scan? && s.cpus[c].pc.h == j
  }

  lemma RankStep(s: State, a: Action, s': State, j: nat)
    requires Next(s, a, s') && j < |s.procs|
    ensures j < |s'.procs|
    ensures var p, p' := s.procs[j], s'.procs[j];
            if a.DoChangeOther? && Has(s, a.c, j) then p'.mode == a.mode && p'.priority == a.priority
            else if a.DoSwitchOut? && Has(s, a.c, j) then p'.mode == a.mode && p'.priority == p.priority
            else if a.DoSwitchIn? && Champions(s, a.c, j) then p'.mode == RUNNING && p'.priority == p.priority
            else SameRank(p, p')
  {
  }

  lemma {:induction false} RanksFollow(states: seq<State>, acts: seq<Action>, t: nat, j: nat)
    requires IsRun(states, acts) && t < |states| && j < |states[0].procs|
    ensures j < |states[t].procs| && states[t].procs[j].mode == RankOf(states, acts, t, j).mode
    ensures states[t].procs[j].priority == RankOf(states, acts, t, j).priority
  {
    if t > 0 {
      RanksFollow(states, acts, t - 1, j);
      StepOfRun(states, acts, t - 1);
      RankStep(states[t - 1], acts[t - 1], states[t], j);
    }
  }

  /** In every run each CPU can take a step, unless it waits for a p->lock that another holds. */
  lemma CpuGoesOn(states: seq<State>, acts: seq<Action>, t: nat, c: nat) returns (a: Action, s': State)
    requires IsRun(states, acts) && t < |states| && c < |states[t].cpus|
    requires forall d: nat {:trigger WaitsFor(states[t], c, d)} :: !WaitsFor(states[t], c, d)
    ensures Next(states[t], a, s') && a.c == c
  {
    RunKeeps(states, acts, t);
    var s := states[t];
    assert CpuOk(s, c);
    var n, noff := |s.procs|, s.cpus[c].noff;
    match s.cpus[c].pc
    case Scan(k, h) =>
      if k < n {
        FreeLock(s, c, k);
        a, s' := DoAcquireNext(c), PutCpu(Locked(s, k, c), c, Check(k, h), noff + 1);
      } else if h < n {
        a := DoSwitchIn(c);
        s' := PutCpu(PutProc(s, h, s.procs[h].(mode := RUNNING)), c, SwitchedIn(h), noff);
      } else {
        a, s' := DoStartOver(c), PutCpu(s, c, Scan(0, n), noff);
      }
    case Check(k, h) =>
      if s.procs[k].mode.RUNNABLE? && h >= n {
        a, s' := DoNewChampion(c), PutCpu(s, c, Scan(k + 1, k), noff);
      } else if s.procs[k].mode.RUNNABLE? && s.procs[k].priority > s.procs[h].priority {
        a, s' := DoNewChampion(c), PutCpu(Released(s, h), c, Scan(k + 1, k), noff - 1);
      } else {
        a, s' := DoPassOver(c), PutCpu(Released(s, k), c, Scan(k + 1, h), noff - 1);
      }
    case IntrWant(k, j) =>
      FreeLock(s, c, j);
      a, s' := DoIntrTake(c), PutCpu(Locked(s, j, c), c, IntrHold(k, j), noff + 1);
    case IntrHold(k, j) =>
      a, s' := DoIntrDrop(c), PutCpu(Released(s, j), c, Scan(k, n), noff - 1);
    case SwitchedIn(p) =>
      a, s' := DoGetGoing(c), PutCpu(Released(s, p), c, Run(p), noff - 1);
    case Run(p) =>
      a, s' := DoWantLock(c, p), PutCpu(s, c, Want(p, p), noff);
    case Want(p, j) =>
      FreeLock(s, c, j);
      a, s' := DoTakeLock(c), PutCpu(Locked(s, j, c), c, Hold(p, j), noff + 1);
    case Hold(p, j) =>
      a, s' := DoDropLock(c), PutCpu(Released(s, j), c, Run(p), noff - 1);
    case SwitchedOut(p) =>
      a, s' := DoScanAgain(c), PutCpu(Released(s, p), c, Scan(0, n), noff - 1);
  }

  lemma FreeLock(s: State, c: nat, j: nat)
    requires Wants(s, c, j) && forall d: nat {:trigger WaitsFor(s, c, d)} :: !WaitsFor(s, c, d)
    ensures Unlocked(s, j)
  {
    assert !WaitsFor(s, c, s.procs[j].lock);
  }
}
