/** Every step of fork, exit and wait keeps the invariant. */
module ExitWaitProof {
  import opened ExitWait
  import opened Seals

  // ---------- steps that change one process ----------

  /** Only process i changes, and wait_lock only between it and nobody. */
  ghost predicate OnlyProc(s: State, i: nat, s': State) {
    && i < |s.procs| == |s'.procs| && s' == s.(procs := s'.procs, wl := s'.wl)
    && (s'.wl == s.wl || (s.wl in {i, |s.procs|} && s'.wl in {i, |s.procs|}))
    && (forall x {:trigger s'.procs[x]} :: 0 <= x < |s.procs| && x != i ==> s'.procs[x] == s.procs[x])
  }

  /** Then it is enough to look at process i, alone and with any one other process. */
  lemma Frame(s: State, i: nat, s': State)
    requires Inv(s) && OnlyProc(s, i, s') && One(s', i) && (InitWillWake(s) ==> InitWillWake(s'))
    requires forall x: nat {:trigger Two(s', i, x)} {:trigger Two(s', x, i)} ::
               x < |s.procs| && One(s, x) && Two(s, i, x) && Two(s, x, i) ==> Two(s', i, x) && Two(s', x, i)
    ensures Inv(s')
  {
    forall x: nat | x < |s.procs|
      ensures One(s', x)
    {
      assert One(s, x);
    }
    forall x: nat, y: nat | x < |s.procs| && y < |s.procs|
      ensures Two(s', x, y)
    {
      if x == i || y == i {
        var z := if x == i then y else x;
        assert One(s, z) && Two(s, i, z) && Two(s, z, i);
        assert Two(s', i, z) && Two(s', z, i);
      } else {
        OthersTwo(s, i, s', x, y);
      }
    }
  }

  lemma OthersTwo(s: State, i: nat, s': State, x: nat, y: nat)
    requires Inv(s) && OnlyProc(s, i, s') && (InitWillWake(s) ==> InitWillWake(s'))
    requires x < |s.procs| && y < |s.procs| && x != i && y != i
    ensures Two(s', x, y)
  {
    assert Two(s, x, y) && s'.procs[x] == s.procs[x] && s'.procs[y] == s.procs[y];
  }

  lemma BeginExitKeeps(s: State, i: nat, status: int, s': State)
    requires Inv(s) && BeginExit(s, i, status, s')
    ensures Inv(s')
  {
    assert One(s, i);
    Frame(s, i, s');
  }

  lemma LockForExitKeeps(s: State, i: nat, s': State)
    requires Inv(s) && LockForExit(s, i, s')
    ensures Inv(s')
  {
    assert One(s, i);
    Frame(s, i, s');
  }

  lemma PassSlotKeeps(s: State, i: nat, s': State)
    requires Inv(s) && PassSlot(s, i, s')
    ensures Inv(s')
  {
    assert One(s, i);
    Frame(s, i, s');
  }

  lemma ReWakePassKeeps(s: State, i: nat, s': State)
    requires Inv(s) && ReWakePass(s, i, s')
    ensures Inv(s')
  {
    assert One(s, i);
    Frame(s, i, s');
  }

  lemma WakePassKeeps(s: State, i: nat, s': State)
    requires Inv(s) && WakePass(s, i, s')
    ensures Inv(s')
  {
    assert One(s, i);
    Frame(s, i, s');
  }

  lemma BeginWaitKeeps(s: State, i: nat, s': State)
    requires Inv(s) && BeginWait(s, i, s')
    ensures Inv(s')
  {
    assert One(s, i);
    Frame(s, i, s');
  }

  lemma ScanSlotKeeps(s: State, i: nat, s': State)
    requires Inv(s) && ScanSlot(s, i, s')
    ensures Inv(s')
  {
    assert One(s, i);
    Frame(s, i, s');
  }

  lemma GivenUpKeeps(s: State, i: nat, s': State)
    requires Inv(s) && (CopyFails(s, i, s') || NoChildren(s, i, s') || WaitKilled(s, i, s'))
    ensures Inv(s')
  {
    assert One(s, i);
    Frame(s, i, s');
  }

  lemma ScanEndKeeps(s: State, i: nat, s': State)
    requires Inv(s) && ScanEnd(s, i, s')
    ensures Inv(s')
  {
    assert One(s, i);
    Frame(s, i, s');
  }

  lemma SleepLockKeeps(s: State, i: nat, s': State)
    requires Inv(s) && SleepLock(s, i, s')
    ensures Inv(s')
  {
    assert One(s, i);
    Frame(s, i, s');
  }

  lemma SleepUnlockKeeps(s: State, i: nat, s': State)
    requires Inv(s) && SleepUnlock(s, i, s')
    ensures Inv(s')
  {
    assert One(s, i);
    Frame(s, i, s');
  }

  lemma FallAsleepKeeps(s: State, i: nat, s': State)
    requires Inv(s) && FallAsleep(s, i, s')
    ensures Inv(s')
  {
    assert One(s, i);
    Frame(s, i, s');
  }

  lemma SwitchOutKeeps(s: State, i: nat, s': State)
    requires Inv(s) && SwitchOut(s, i, s')
    ensures Inv(s')
  {
    assert One(s, i);
    Frame(s, i, s');
  }

  lemma DispatchKeeps(s: State, i: nat, s': State)
    requires Inv(s) && Dispatch(s, i, s')
    ensures Inv(s')
  {
    assert One(s, i);
    Frame(s, i, s');
  }

  lemma YieldKeeps(s: State, i: nat, s': State)
    requires Inv(s) && Yield(s, i, s')
    ensures Inv(s')
  {
    assert One(s, i);
    Frame(s, i, s');
  }

  lemma SleepElsewhereKeeps(s: State, i: nat, s': State)
    requires Inv(s) && SleepElsewhere(s, i, s')
    ensures Inv(s')
  {
    assert One(s, i);
    Frame(s, i, s');
  }

  lemma WakeElsewhereKeeps(s: State, i: nat, s': State)
    requires Inv(s) && WakeElsewhere(s, i, s')
    ensures Inv(s')
  {
    assert One(s, i);
    Frame(s, i, s');
  }

  lemma KillKeeps(s: State, i: nat, pid: nat, s': State)
    requires Inv(s) && Kill(s, i, pid, s')
    ensures Inv(s')
  {
    assert One(s, i);
    Frame(s, i, s');
  }

  lemma BecomeZombieKeeps(s: State, i: nat, s': State)
    requires Inv(s) && BecomeZombie(s, i, s')
    ensures Inv(s')
  {
    forall x: nat | x < |s.procs|
      ensures One(s', x)
    {
      assert One(s, x) && One(s, i) && Two(s, x, i);
    }
    forall x: nat, y: nat | x < |s.procs| && y < |s.procs|
      ensures Two(s', x, y)
    {
      assert One(s, x) && One(s, y) && One(s, i) && Two(s, x, y);
    }
  }

  // ---------- steps that change another process too ----------

  lemma TakeSlotTwo(s: State, i: nat, c: nat, s': State, x: nat, y: nat)
    requires Inv(s) && TakeSlot(s, i, c, s') && x < |s.procs| && y < |s.procs|
    ensures Two(s', x, y)
  {
    if x == c || y == c {
      TakenTwo(s, i, c, s', x, y);
    } else {
      BesideTaken(s, i, c, s', x, y);
    }
  }

  lemma BesideTaken(s: State, i: nat, c: nat, s': State, x: nat, y: nat)
    requires Inv(s) && TakeSlot(s, i, c, s') && x < |s.procs| && y < |s.procs| && x != c && y != c
    ensures Two(s', x, y)
  {
    assert Two(s, x, y) && Two(s, x, c) && Two(s, y, c) && One(s, i);
    assert s'.procs[x] == s.procs[x].(pc := s'.procs[x].pc) && s'.procs[y] == s.procs[y].(pc := s'.procs[y].pc);
  }

  lemma TakenTwo(s: State, i: nat, c: nat, s': State, x: nat, y: nat)
    requires Inv(s) && TakeSlot(s, i, c, s') && x < |s.procs| && y < |s.procs| && (x == c || y == c)
    ensures Two(s', x, y)
  {
    assert One(s, x) && One(s, y) && One(s, c) && Two(s, x, y);
  }

  lemma TakeSlotKeeps(s: State, i: nat, c: nat, s': State)
    requires Inv(s) && TakeSlot(s, i, c, s')
    ensures Inv(s')
  {
    forall x: nat | x < |s.procs|
      ensures One(s', x)
    {
      assert One(s, x) && One(s, i) && One(s, c);
    }
    forall x: nat, y: nat | x < |s.procs| && y < |s.procs|
      ensures Two(s', x, y)
    {
      TakeSlotTwo(s, i, c, s', x, y);
    }
  }

  lemma FailForkTwo(s: State, i: nat, s': State, x: nat, y: nat)
    requires Inv(s) && FailFork(s, i, s') && x < |s.procs| && y < |s.procs|
    ensures Two(s', x, y)
  {
    var c := s.procs[i].pc.c;
    assert One(s, x) && One(s, y) && One(s, i) && One(s, c) && Two(s, x, y) && Two(s, x, c) && Two(s, y, c);
    assert Two(s, i, c) && Two(s, x, i) && Two(s, y, i) && Two(s, c, x) && Two(s, c, y);
  }

  lemma FailForkKeeps(s: State, i: nat, s': State)
    requires Inv(s) && FailFork(s, i, s')
    ensures Inv(s')
  {
    var c := s.procs[i].pc.c;
    forall x: nat | x < |s.procs|
      ensures One(s', x)
    {
      assert One(s, x) && One(s, i) && One(s, c) && Two(s, i, c);
    }
    forall x: nat, y: nat | x < |s.procs| && y < |s.procs|
      ensures Two(s', x, y)
    {
      FailForkTwo(s, i, s', x, y);
    }
  }

  lemma SetParentTwo(s: State, i: nat, s': State, x: nat, y: nat)
    requires Inv(s) && SetParent(s, i, s') && x < |s.procs| && y < |s.procs|
    ensures Two(s', x, y)
  {
    var c := s.procs[i].pc.c;
    assert One(s, x) && One(s, y) && One(s, i) && One(s, c) && Two(s, x, y) && Two(s, x, c) && Two(s, x, i) &&
           Two(s, y, i) && Two(s, i, c);
  }

  lemma SetParentKeeps(s: State, i: nat, s': State)
    requires Inv(s) && SetParent(s, i, s')
    ensures Inv(s')
  {
    var c := s.procs[i].pc.c;
    forall x: nat | x < |s.procs|
      ensures One(s', x)
    {
      assert One(s, x) && One(s, i) && One(s, c) && Two(s, i, c);
    }
    forall x: nat, y: nat | x < |s.procs| && y < |s.procs|
      ensures Two(s', x, y)
    {
      SetParentTwo(s, i, s', x, y);
    }
  }

  lemma StartChildTwo(s: State, i: nat, s': State, x: nat, y: nat)
    requires Inv(s) && StartChild(s, i, s') && x < |s.procs| && y < |s.procs|
    ensures Two(s', x, y)
  {
    var c := s.procs[i].pc.c;
    assert One(s, x) && One(s, y) && One(s, i) && One(s, c) && Two(s, x, y) && Two(s, x, i) && Two(s, i, c) &&
           Two(s, y, i);
  }

  lemma StartChildKeeps(s: State, i: nat, s': State)
    requires Inv(s) && StartChild(s, i, s')
    ensures Inv(s')
  {
    var c := s.procs[i].pc.c;
    forall x: nat | x < |s.procs|
      ensures One(s', x)
    {
      assert One(s, x) && One(s, i) && One(s, c) && Two(s, i, c);
    }
    forall x: nat, y: nat | x < |s.procs| && y < |s.procs|
      ensures Two(s', x, y)
    {
      StartChildTwo(s, i, s', x, y);
    }
  }

  lemma GiveToInitTwo(s: State, i: nat, s': State, x: nat, y: nat)
    requires Inv(s) && GiveToInit(s, i, s') && x < |s.procs| && y < |s.procs|
    ensures Two(s', x, y)
  {
    var c := s.procs[i].pc.k;
    assert One(s, i) && One(s, c) && One(s, s.init);
    assert i != c && i != s.init && c != s.init && s.wl == i;
    if y == c {
      GivenChild(s, i, s', x);
    } else {
      GivenOther(s, i, s', x, y);
    }
  }

  lemma GivenChild(s: State, i: nat, s': State, x: nat)
    requires Inv(s) && GiveToInit(s, i, s') && x < |s.procs| && i != s.init && s.procs[i].pc.k != i && s.wl == i
    ensures Two(s', x, s.procs[i].pc.k)
  {
    var c := s.procs[i].pc.k;
    assert One(s, x) && One(s, i) && One(s, c) && Two(s, x, c) && One(s, s.init);
    assert InitWillWake(s') && s'.procs[c].parent == Parent(s.init);
  }

  lemma GivenOther(s: State, i: nat, s': State, x: nat, y: nat)
    requires Inv(s) && GiveToInit(s, i, s') && x < |s.procs| && y < |s.procs| && y != s.procs[i].pc.k && s.wl == i
    ensures Two(s', x, y)
  {
    assert One(s, x) && One(s, y) && One(s, i) && Two(s, x, y);
    assert s'.procs[y].parent == s.procs[y].parent;
  }

  lemma GiveToInitKeeps(s: State, i: nat, s': State)
    requires Inv(s) && GiveToInit(s, i, s')
    ensures Inv(s')
  {
    var c := s.procs[i].pc.k;
    forall x: nat | x < |s.procs|
      ensures One(s', x)
    {
      assert One(s, x) && One(s, i) && One(s, c);
    }
    forall x: nat, y: nat | x < |s.procs| && y < |s.procs|
      ensures Two(s', x, y)
    {
      GiveToInitTwo(s, i, s', x, y);
    }
  }

  lemma ReapTwo(s: State, i: nat, pid: nat, status: int, s': State, x: nat, y: nat)
    requires Inv(s) && Reap(s, i, pid, status, s') && x < |s.procs| && y < |s.procs|
    ensures Two(s', x, y)
  {
    var c := s.procs[i].pc.k;
    assert One(s, x) && One(s, y) && One(s, i) && One(s, c) && Two(s, x, y);
  }

  lemma ReapKeeps(s: State, i: nat, pid: nat, status: int, s': State)
    requires Inv(s) && Reap(s, i, pid, status, s')
    ensures Inv(s')
  {
    var c := s.procs[i].pc.k;
    forall x: nat | x < |s.procs|
      ensures One(s', x)
    {
      assert One(s, x) && One(s, i) && One(s, c) && Two(s, x, c);
    }
    forall x: nat, y: nat | x < |s.procs| && y < |s.procs|
      ensures Two(s', x, y)
    {
      ReapTwo(s, i, pid, status, s', x, y);
    }
    assert One(s, c);
  }

  lemma ReWakeVisitTwo(s: State, i: nat, s': State, x: nat, y: nat)
    requires Inv(s) && ReWakeVisit(s, i, s') && x < |s.procs| && y < |s.procs|
    ensures Two(s', x, y)
  {
    if x == i || y == i {
      OwnReWakeVisitTwo(s, i, s', x, y);
    } else {
      assert One(s, x) && One(s, y) && One(s, i) && Two(s, x, y);
    }
  }

  lemma OwnReWakeVisitTwo(s: State, i: nat, s': State, x: nat, y: nat)
    requires Inv(s) && ReWakeVisit(s, i, s') && x < |s.procs| && y < |s.procs| && (x == i || y == i)
    ensures Two(s', x, y)
  {
    assert One(s, x) && One(s, y) && Two(s, x, y);
  }

  lemma ReWakeVisitKeeps(s: State, i: nat, s': State)
    requires Inv(s) && ReWakeVisit(s, i, s')
    ensures Inv(s')
  {
    var c := s.procs[i].pc.t;
    forall x: nat | x < |s.procs|
      ensures One(s', x)
    {
      assert One(s, x) && One(s, i) && One(s, c);
    }
    forall x: nat, y: nat | x < |s.procs| && y < |s.procs|
      ensures Two(s', x, y)
    {
      ReWakeVisitTwo(s, i, s', x, y);
    }
  }

  lemma WakeVisitTwo(s: State, i: nat, s': State, x: nat, y: nat)
    requires Inv(s) && WakeVisit(s, i, s') && x < |s.procs| && y < |s.procs|
    ensures Two(s', x, y)
  {
    if x == i || y == i {
      OwnWakeVisitTwo(s, i, s', x, y);
    } else {
      assert One(s, x) && One(s, y) && One(s, i) && Two(s, x, y);
    }
  }

  lemma OwnWakeVisitTwo(s: State, i: nat, s': State, x: nat, y: nat)
    requires Inv(s) && WakeVisit(s, i, s') && x < |s.procs| && y < |s.procs| && (x == i || y == i)
    ensures Two(s', x, y)
  {
    assert One(s, x) && One(s, y) && Two(s, x, y);
  }

  lemma WakeVisitKeeps(s: State, i: nat, s': State)
    requires Inv(s) && WakeVisit(s, i, s')
    ensures Inv(s')
  {
    var c := s.procs[i].pc.t;
    forall x: nat | x < |s.procs|
      ensures One(s', x)
    {
      assert One(s, x) && One(s, i) && One(s, c);
    }
    forall x: nat, y: nat | x < |s.procs| && y < |s.procs|
      ensures Two(s', x, y)
    {
      WakeVisitTwo(s, i, s', x, y);
    }
  }

  // ---------- runs ----------

  datatype Action =
    | DoTakeSlot(i: nat, c: nat) | DoFailFork(i: nat) | DoSetParent(i: nat) | DoStartChild(i: nat)
    | DoBeginExit(i: nat, status: int) | DoLockForExit(i: nat) | DoPassSlot(i: nat) | DoGiveToInit(i: nat)
    | DoReWakePass(i: nat) | DoReWakeVisit(i: nat) | DoWakePass(i: nat) | DoWakeVisit(i: nat)
    | DoBecomeZombie(i: nat) | DoBeginWait(i: nat) | DoScanSlot(i: nat) | DoReap(i: nat, pid: nat, status: int)
    | DoCopyFails(i: nat) | DoNoChildren(i: nat) | DoWaitKilled(i: nat) | DoScanEnd(i: nat)
    | DoSleepLock(i: nat) | DoSleepUnlock(i: nat) | DoFallAsleep(i: nat) | DoSwitchOut(i: nat)
    | DoDispatch(i: nat) | DoYield(i: nat) | DoSleepElsewhere(i: nat) | DoWakeElsewhere(i: nat)
    | DoKill(i: nat, pid: nat)

  ghost predicate Next(s: State, a: Action, s': State) {
    match a
    case DoTakeSlot(i, c) => TakeSlot(s, i, c, s')
    case DoFailFork(i) => FailFork(s, i, s')
    case DoSetParent(i) => SetParent(s, i, s')
    case DoStartChild(i) => StartChild(s, i, s')
    case DoBeginExit(i, status) => BeginExit(s, i, status, s')
    case DoLockForExit(i) => LockForExit(s, i, s')
    case DoPassSlot(i) => PassSlot(s, i, s')
    case DoGiveToInit(i) => GiveToInit(s, i, s')
    case DoReWakePass(i) => ReWakePass(s, i, s')
    case DoReWakeVisit(i) => ReWakeVisit(s, i, s')
    case DoWakePass(i) => WakePass(s, i, s')
    case DoWakeVisit(i) => WakeVisit(s, i, s')
    case DoBecomeZombie(i) => BecomeZombie(s, i, s')
    case DoBeginWait(i) => BeginWait(s, i, s')
    case DoScanSlot(i) => ScanSlot(s, i, s')
    case DoReap(i, pid, status) => Reap(s, i, pid, status, s')
    case DoCopyFails(i) => CopyFails(s, i, s')
    case DoNoChildren(i) => NoChildren(s, i, s')
    case DoWaitKilled(i) => WaitKilled(s, i, s')
    case DoScanEnd(i) => ScanEnd(s, i, s')
    case DoSleepLock(i) => SleepLock(s, i, s')
    case DoSleepUnlock(i) => SleepUnlock(s, i, s')
    case DoFallAsleep(i) => FallAsleep(s, i, s')
    case DoSwitchOut(i) => SwitchOut(s, i, s')
    case DoDispatch(i) => Dispatch(s, i, s')
    case DoYield(i) => Yield(s, i, s')
    case DoSleepElsewhere(i) => SleepElsewhere(s, i, s')
    case DoWakeElsewhere(i) => WakeElsewhere(s, i, s')
    case DoKill(i, pid) => Kill(s, i, pid, s')
  }

  /** The same, sealed: see Seals. */
  ghost predicate Step(s: State, a: Action, s': State) {
    forall k: bool {:trigger Shown(k)} :: Shown(k) ==> Next(s, a, s')
  }

  lemma StepKeeps(s: State, a: Action, s': State)
    requires Inv(s) && Step(s, a, s')
    ensures Inv(s')
  {
    assert Shown(true);
    NextKeeps(s, a, s');
  }

  lemma NextKeeps(s: State, a: Action, s': State)
    requires Inv(s) && Next(s, a, s')
    ensures Inv(s')
  {
    match a
    case DoTakeSlot(i, c) => TakeSlotKeeps(s, i, c, s');
    case DoFailFork(i) => FailForkKeeps(s, i, s');
    case DoSetParent(i) => SetParentKeeps(s, i, s');
    case DoStartChild(i) => StartChildKeeps(s, i, s');
    case DoBeginExit(i, status) => BeginExitKeeps(s, i, status, s');
    case DoLockForExit(i) => LockForExitKeeps(s, i, s');
    case DoPassSlot(i) => PassSlotKeeps(s, i, s');
    case DoGiveToInit(i) => GiveToInitKeeps(s, i, s');
    case DoReWakePass(i) => ReWakePassKeeps(s, i, s');
    case DoReWakeVisit(i) => ReWakeVisitKeeps(s, i, s');
    case DoWakePass(i) => WakePassKeeps(s, i, s');
    case DoWakeVisit(i) => WakeVisitKeeps(s, i, s');
    case DoBecomeZombie(i) => BecomeZombieKeeps(s, i, s');
    case DoBeginWait(i) => BeginWaitKeeps(s, i, s');
    case DoScanSlot(i) => ScanSlotKeeps(s, i, s');
    case DoReap(i, pid, status) => ReapKeeps(s, i, pid, status, s');
    case DoCopyFails(i) => GivenUpKeeps(s, i, s');
    case DoNoChildren(i) => GivenUpKeeps(s, i, s');
    case DoWaitKilled(i) => GivenUpKeeps(s, i, s');
    case DoScanEnd(i) => ScanEndKeeps(s, i, s');
    case DoSleepLock(i) => SleepLockKeeps(s, i, s');
    case DoSleepUnlock(i) => SleepUnlockKeeps(s, i, s');
    case DoFallAsleep(i) => FallAsleepKeeps(s, i, s');
    case DoSwitchOut(i) => SwitchOutKeeps(s, i, s');
    case DoDispatch(i) => DispatchKeeps(s, i, s');
    case DoYield(i) => YieldKeeps(s, i, s');
    case DoSleepElsewhere(i) => SleepElsewhereKeeps(s, i, s');
    case DoWakeElsewhere(i) => WakeElsewhereKeeps(s, i, s');
    case DoKill(i, pid) => KillKeeps(s, i, pid, s');
  }

  /** Only the first process exists, ready to run. */
  ghost predicate Boot(s: State) {
    && s.init < |s.procs| && Free(s) && s.exited == map[] && s.reaped == map[]
    && forall i {:trigger s.procs[i]} :: 0 <= i < |s.procs| ==>
         && s.procs[i].parent.NoParent? && s.procs[i].pc.Elsewhere? && !s.procs[i].locked && !s.procs[i].onCpu
         && !s.procs[i].killed
         && (if i == s.init then s.procs[i].mode.RUNNABLE? && 0 < s.procs[i].pid < s.nextpid
             else s.procs[i].mode.UNUSED? && s.procs[i].pid == 0 && s.procs[i].xstate == 0 && s.procs[i].chan.Nothing?)
  }

  lemma BootIsOk(s: State)
    requires Boot(s)
    ensures Inv(s)
  {
    assert s.procs[s.init].pid < s.nextpid;
    forall x: nat | x < |s.procs|
      ensures One(s, x)
    {
      assert s.procs[x].pc.Elsewhere?;
    }
    forall x: nat, y: nat | x < |s.procs| && y < |s.procs|
      ensures Two(s, x, y)
    {
      assert s.procs[x].pc.Elsewhere? && s.procs[y].pc.Elsewhere?;
    }
  }

  ghost predicate IsRun(states: seq<State>, acts: seq<Action>) {
    && |states| == |acts| + 1 && Boot(states[0])
    && forall t, u {:trigger states[t], states[u]} :: 0 <= t < |acts| && u == t + 1 ==>
         Step(states[t], acts[t], states[u])
  }

  lemma {:induction false} RunKeeps(states: seq<State>, acts: seq<Action>, t: nat)
    requires IsRun(states, acts) && t < |states|
    ensures Inv(states[t])
  {
    if t == 0 {
      BootIsOk(states[0]);
    } else {
      var b := t - 1;
      RunKeeps(states, acts, b);
      StepKeeps(states[b], acts[b], states[t]);
    }
  }
}
