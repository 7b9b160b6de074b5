/** Every step of the scheduler keeps the invariant; deadlock freedom and exclusion follow for
    all runs. */
module SchedulerProof {
  import opened ProcModes
  import opened Scheduler

  // ---------- what a step of CPU c leaves alone ----------

  /** Only CPU c changes, and only processes whose lock it held or took. */
  ghost predicate ByCpu(s: State, c: nat, s': State) {
    && c < |s.cpus| == |s'.cpus| && |s'.procs| == |s.procs|
    && (forall x {:trigger s'.cpus[x]} :: 0 <= x < |s.cpus| && x != c ==> s'.cpus[x] == s.cpus[x])
    && (forall j: nat {:trigger s'.procs[j]} :: j < |s.procs| && s'.procs[j] != s.procs[j] ==>
          && (s.procs[j].lock == c || Unlocked(s, j)) && (s'.procs[j].lock == c || Unlocked(s', j)))
  }

  /** CPU c comes to hold and give up the locks that its place in the code says. */
  ghost predicate LocksFollow(s: State, c: nat, s': State)
    requires c < |s.cpus| == |s'.cpus| && |s'.procs| == |s.procs|
  {
    forall j: nat {:trigger s'.procs[j]} :: j < |s.procs| ==>
      if s'.procs[j].lock == s.procs[j].lock then Holds(s'.cpus[c].pc, j) == Holds(s.cpus[c].pc, j)
      else s'.procs[j].lock == c <==> Holds(s'.cpus[c].pc, j)
  }

  /** Only a process's own CPU stops it, and a CPU takes up only a RUNNABLE one. */
  ghost predicate RunsFollow(s: State, c: nat, s': State)
    requires c < |s.cpus| == |s'.cpus| && |s'.procs| == |s.procs|
  {
    var pc, pc' := s.cpus[c].pc, s'.cpus[c].pc;
    && (forall j: nat {:trigger s'.procs[j]} ::
          j < |s.procs| && s.procs[j].mode.RUNNING? && !s'.procs[j].mode.RUNNING? ==>
            InProcess(pc) && pc.p == j)
    && (InProcess(pc') ==>
          || (InProcess(pc) && pc.p == pc'.p)
          || (pc'.p < |s.procs| && s.procs[pc'.p].mode.RUNNABLE? && s.procs[pc'.p].lock == c))
  }

  lemma Frame(s: State, c: nat, s': State)
    requires Inv(s) && ByCpu(s, c, s') && CpuOk(s', c) && LocksFollow(s, c, s') && RunsFollow(s, c, s')
    ensures Inv(s')
  {
    forall x: nat | x < |s.cpus|
      ensures CpuOk(s', x)
    {
      OtherCpu(s, c, s', x);
    }
    forall x: nat, j: nat | x < |s.cpus| && j < |s.procs|
      ensures LockOk(s', x, j)
    {
      assert LockOk(s, x, j) && LockOk(s, c, j);
    }
    forall x: nat, y: nat | x < |s.cpus| && y < |s.cpus|
      ensures Apart(s', x, y)
    {
      StillApart(s, c, s', x, y);
    }
  }

  lemma OtherCpu(s: State, c: nat, s': State, x: nat)
    requires Inv(s) && ByCpu(s, c, s') && CpuOk(s', c) && RunsFollow(s, c, s') && x < |s.cpus|
    ensures CpuOk(s', x)
  {
    if x != c {
      var pc := s.cpus[x].pc;
      assert CpuOk(s, x) && Apart(s, x, c) && s'.cpus[x] == s.cpus[x];
      if (pc.Scan? || pc.Check?) && pc.h < |s.procs| {
        assert LockOk(s, x, pc.h);
      } else if InProcess(pc) {
        assert LockOk(s, x, pc.p);
      }
    }
  }

  lemma StillApart(s: State, c: nat, s': State, x: nat, y: nat)
    requires Inv(s) && ByCpu(s, c, s') && RunsFollow(s, c, s') && x < |s.cpus| && y < |s.cpus|
    ensures Apart(s', x, y)
  {
    assert Apart(s, x, y);
    var z := if x == c then y else x;
    if z != c && InProcess(s.cpus[z].pc) {
      assert CpuOk(s, z) && LockOk(s, z, s.cpus[z].pc.p) && s'.cpus[z] == s.cpus[z];
    }
  }

  // ---------- the steps ----------

  lemma AcquireNextKeeps(s: State, c: nat, s': State)
    requires Inv(s) && AcquireNext(s, c, s')
    ensures Inv(s')
  {
    assert CpuOk(s, c);
    assert LockOk(s, c, s.cpus[c].pc.k);
    Frame(s, c, s');
  }

  lemma NewChampionKeeps(s: State, c: nat, s': State)
    requires Inv(s) && NewChampion(s, c, s')
    ensures Inv(s')
  {
    assert CpuOk(s, c);
    assert LockOk(s, c, s.cpus[c].pc.k);
    assert s.cpus[c].pc.h < |s.procs| ==> LockOk(s, c, s.cpus[c].pc.h);
    Frame(s, c, s');
  }

  lemma PassOverKeeps(s: State, c: nat, s': State)
    requires Inv(s) && PassOver(s, c, s')
    ensures Inv(s')
  {
    assert CpuOk(s, c);
    assert LockOk(s, c, s.cpus[c].pc.k);
    Frame(s, c, s');
  }

  lemma StartOverKeeps(s: State, c: nat, s': State)
    requires Inv(s) && StartOver(s, c, s')
    ensures Inv(s')
  {
    assert CpuOk(s, c);
    Frame(s, c, s');
  }

  lemma SwitchInKeeps(s: State, c: nat, s': State)
    requires Inv(s) && SwitchIn(s, c, s')
    ensures Inv(s')
  {
    assert CpuOk(s, c);
    assert LockOk(s, c, s.cpus[c].pc.h);
    Frame(s, c, s');
  }

  lemma GetGoingKeeps(s: State, c: nat, s': State)
    requires Inv(s) && GetGoing(s, c, s')
    ensures Inv(s')
  {
    assert CpuOk(s, c);
    assert LockOk(s, c, s.cpus[c].pc.p);
    Frame(s, c, s');
  }

  lemma WantLockKeeps(s: State, c: nat, j: nat, s': State)
    requires Inv(s) && WantLock(s, c, j, s')
    ensures Inv(s')
  {
    assert CpuOk(s, c);
    Frame(s, c, s');
  }

  lemma TakeLockKeeps(s: State, c: nat, s': State)
    requires Inv(s) && TakeLock(s, c, s')
    ensures Inv(s')
  {
    assert CpuOk(s, c);
    assert LockOk(s, c, s.cpus[c].pc.j);
    Frame(s, c, s');
  }

  lemma InterruptKeeps(s: State, c: nat, j: nat, s': State)
    requires Inv(s) && Interrupt(s, c, j, s')
    ensures Inv(s')
  {
    assert CpuOk(s, c);
    Frame(s, c, s');
  }

  lemma IntrTakeKeeps(s: State, c: nat, s': State)
    requires Inv(s) && IntrTake(s, c, s')
    ensures Inv(s')
  {
    assert CpuOk(s, c);
    assert LockOk(s, c, s.cpus[c].pc.j);
    Frame(s, c, s');
  }

  lemma IntrDropKeeps(s: State, c: nat, s': State)
    requires Inv(s) && IntrDrop(s, c, s')
    ensures Inv(s')
  {
    assert CpuOk(s, c);
    assert LockOk(s, c, s.cpus[c].pc.j);
    Frame(s, c, s');
  }

  lemma ChangeOtherKeeps(s: State, c: nat, mode: Mode, priority: int, s': State)
    requires Inv(s) && ChangeOther(s, c, mode, priority, s')
    ensures Inv(s')
  {
    assert CpuOk(s, c);
    assert LockOk(s, c, s.cpus[c].pc.j);
    Frame(s, c, s');
  }

  lemma DropLockKeeps(s: State, c: nat, s': State)
    requires Inv(s) && DropLock(s, c, s')
    ensures Inv(s')
  {
    assert CpuOk(s, c);
    assert LockOk(s, c, s.cpus[c].pc.j);
    Frame(s, c, s');
  }

  lemma SwitchOutKeeps(s: State, c: nat, mode: Mode, s': State)
    requires Inv(s) && SwitchOut(s, c, mode, s')
    ensures Inv(s')
  {
    assert CpuOk(s, c);
    assert LockOk(s, c, s.cpus[c].pc.p);
    Frame(s, c, s');
  }

  lemma ScanAgainKeeps(s: State, c: nat, s': State)
    requires Inv(s) && ScanAgain(s, c, s')
    ensures Inv(s')
  {
    assert CpuOk(s, c);
    assert LockOk(s, c, s.cpus[c].pc.p);
    Frame(s, c, s');
  }

  // ---------- runs ----------

  datatype Action =
    | DoAcquireNext(c: nat) | DoNewChampion(c: nat) | DoPassOver(c: nat) | DoStartOver(c: nat)
    | DoSwitchIn(c: nat) | DoGetGoing(c: nat) | DoWantLock(c: nat, j: nat) | DoTakeLock(c: nat)
    | DoInterrupt(c: nat, j: nat) | DoIntrTake(c: nat) | DoIntrDrop(c: nat)
    | DoChangeOther(c: nat, mode: Mode, priority: int) | DoDropLock(c: nat)
    | DoSwitchOut(c: nat, mode: Mode) | DoScanAgain(c: nat)

  ghost predicate Next(s: State, a: Action, s': State) {
    match a
    case DoAcquireNext(c) => AcquireNext(s, c, s')
    case DoNewChampion(c) => NewChampion(s, c, s')
    case DoPassOver(c) => PassOver(s, c, s')
    case DoStartOver(c) => StartOver(s, c, s')
    case DoSwitchIn(c) => SwitchIn(s, c, s')
    case DoGetGoing(c) => GetGoing(s, c, s')
    case DoWantLock(c, j) => WantLock(s, c, j, s')
    case DoTakeLock(c) => TakeLock(s, c, s')
    case DoInterrupt(c, j) => Interrupt(s, c, j, s')
    case DoIntrTake(c) => IntrTake(s, c, s')
    case DoIntrDrop(c) => IntrDrop(s, c, s')
    case DoChangeOther(c, mode, priority) => ChangeOther(s, c, mode, priority, s')
    case DoDropLock(c) => DropLock(s, c, s')
    case DoSwitchOut(c, mode) => SwitchOut(s, c, mode, s')
    case DoScanAgain(c) => ScanAgain(s, c, s')
  }

  lemma NextKeeps(s: State, a: Action, s': State)
    requires Inv(s) && Next(s, a, s')
    ensures Inv(s')
  {
    match a
    case DoAcquireNext(c) => AcquireNextKeeps(s, c, s');
    case DoNewChampion(c) => NewChampionKeeps(s, c, s');
    case DoPassOver(c) => PassOverKeeps(s, c, s');
    case DoStartOver(c) => StartOverKeeps(s, c, s');
    case DoSwitchIn(c) => SwitchInKeeps(s, c, s');
    case DoGetGoing(c) => GetGoingKeeps(s, c, s');
    case DoWantLock(c, j) => WantLockKeeps(s, c, j, s');
    case DoTakeLock(c) => TakeLockKeeps(s, c, s');
    case DoInterrupt(c, j) => InterruptKeeps(s, c, j, s');
    case DoIntrTake(c) => IntrTakeKeeps(s, c, s');
    case DoIntrDrop(c) => IntrDropKeeps(s, c, s');
    case DoChangeOther(c, mode, priority) => ChangeOtherKeeps(s, c, mode, priority, s');
    case DoDropLock(c) => DropLockKeeps(s, c, s');
    case DoSwitchOut(c, mode) => SwitchOutKeeps(s, c, mode, s');
    case DoScanAgain(c) => ScanAgainKeeps(s, c, s');
  }

  /** All CPUs begin to scan; nothing runs, no lock is held. */
  ghost predicate Boot(s: State) {
    && (forall c {:trigger s.cpus[c]} :: 0 <= c < |s.cpus| ==> s.cpus[c] == Cpu(Scan(0, |s.procs|), 0))
    && (forall j {:trigger s.procs[j]} :: 0 <= j < |s.procs| ==> s.procs[j].lock >= |s.cpus|)
  }

  lemma BootIsOk(s: State)
    requires Boot(s)
    ensures Inv(s)
  {
    forall c: nat | c < |s.cpus|
      ensures CpuOk(s, c)
    {
      assert s.cpus[c].pc == Scan(0, |s.procs|);
    }
    forall c: nat, j: nat | c < |s.cpus| && j < |s.procs|
      ensures LockOk(s, c, j)
    {
      assert s.cpus[c].pc == Scan(0, |s.procs|) && s.procs[j].lock >= |s.cpus|;
    }
    forall c: nat, d: nat | c < |s.cpus| && d < |s.cpus|
      ensures Apart(s, c, d)
    {
      assert s.cpus[c].pc == Scan(0, |s.procs|);
    }
  }

  ghost predicate IsRun(states: seq<State>, acts: seq<Action>) {
    && |states| == |acts| + 1 && Boot(states[0])
    && forall t, u {:trigger states[t], states[u]} :: 0 <= t < |acts| && u == t + 1 ==>
         Next(states[t], acts[t], states[u])
  }

  lemma {:induction false} RunKeeps(states: seq<State>, acts: seq<Action>, t: nat)
    requires IsRun(states, acts) && t < |states|
    ensures Inv(states[t])
  {
    if t == 0 {
      BootIsOk(states[0]);
    } else {
      var b := t - 1;
      RunKeeps(states, acts, b);
      NextKeeps(states[b], acts[b], states[t]);
    }
  }

  lemma OnOneCpu(states: seq<State>, acts: seq<Action>, t: nat, c: nat, d: nat)
    requires IsRun(states, acts) && t < |states| && c < |states[t].cpus| && d < |states[t].cpus| && c != d
    requires InProcess(states[t].cpus[c].pc) && InProcess(states[t].cpus[d].pc)
    ensures states[t].cpus[c].pc.p != states[t].cpus[d].pc.p
  {
    RunKeeps(states, acts, t);
    assert Apart(states[t], c, d);
  }

  // ---------- no deadlock on p->lock ----------

  /** CPU c is waiting for the lock of slot j. */
  predicate Wants(s: State, c: nat, j: nat) {
    c < |s.cpus| && j < |s.procs| &&
    match s.cpus[c].pc
    case Scan(k, _) => j == k
    case Want(_, x) => j == x
    case IntrWant(_, x) => j == x
    case _ => false
  }

  /** CPU c waits for a lock that CPU d holds. */
  ghost predicate WaitsFor(s: State, c: nat, d: nat) {
    c < |s.cpus| && d < |s.cpus| && exists j: nat {:trigger Wants(s, c, j)} :: Wants(s, c, j) && s.procs[j].lock == d
  }

  function WantedSlot(s: State, c: nat): nat
    requires c < |s.cpus|
  {
    match s.cpus[c].pc
    case Scan(k, _) => k
    case Want(_, j) => j
    case IntrWant(_, j) => j
    case _ => 0
  }

  /** Whoever is waited for and itself waits, waits for a later slot. */
  lemma WaitsUpward(s: State, c: nat, d: nat, e: nat)
    requires Inv(s) && WaitsFor(s, c, d) && WaitsFor(s, d, e)
    ensures WantedSlot(s, c) < WantedSlot(s, d)
  {
    var j: nat :| Wants(s, c, j) && s.procs[j].lock == d;
    assert CpuOk(s, d) && LockOk(s, d, j);
  }

  ghost predicate WaitsPath(s: State, path: seq<nat>) {
    forall t, u {:trigger path[t], path[u]} :: 0 <= t < |path| && u == t + 1 < |path| ==> WaitsFor(s, path[t], path[u])
  }

  lemma {:induction false} PathGoesUp(s: State, path: seq<nat>, t: nat, u: nat)
    requires Inv(s) && WaitsPath(s, path) && t < u && u + 1 < |path|
    ensures path[t] < |s.cpus| && path[u] < |s.cpus| && WantedSlot(s, path[t]) < WantedSlot(s, path[u])
    decreases u
  {
    var b, v := u - 1, u + 1;
    assert WaitsFor(s, path[b], path[u]) && WaitsFor(s, path[u], path[v]);
    WaitsUpward(s, path[b], path[u], path[v]);
    if t < b {
      PathGoesUp(s, path, t, b);
    }
  }

  /** In every run, a path of CPUs each waiting for the next never comes back to its start. */
  lemma NoDeadlock(states: seq<State>, acts: seq<Action>, t: nat, path: seq<nat>)
    requires IsRun(states, acts) && t < |states| && |path| >= 2 && WaitsPath(states[t], path)
    ensures path[0] != path[|path| - 1]
  {
    RunKeeps(states, acts, t);
    if path[0] == path[|path| - 1] {
      var first := path[1];
      var longer := path + [first];
      var last := |path| - 1;
      assert WaitsFor(states[t], path[0], first);
      forall v, w | 0 <= v < |longer| && w == v + 1 < |longer|
        ensures WaitsFor(states[t], longer[v], longer[w])
      {
        if w < |path| {
          assert WaitsFor(states[t], path[v], path[w]);
        }
      }
      PathGoesUp(states[t], longer, 0, last);
    }
  }
}
