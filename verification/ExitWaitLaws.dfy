/** What fork, exit and wait promise over whole runs, told from the actions and the process
    table: what kwait returns and when it sleeps, whose status it hands out, what a fork
    leaves, and that nobody gets stuck. */
module ExitWaitLaws {
  import opened ExitWait
  import opened ExitWaitProof
  import opened ProcModes
  import opened Seals

  ghost predicate ChildOf(s: State, z: nat, w: nat) {
    z < |s.procs| && w < |s.procs| && s.procs[z].parent == Parent(w)
  }

  lemma StepOfRun(states: seq<State>, acts: seq<Action>, t: nat)
    requires IsRun(states, acts) && t < |acts|
    ensures Inv(states[t]) && Step(states[t], acts[t], states[t + 1]) && Inv(states[t + 1])
  {
    var u := t + 1;
    RunKeeps(states, acts, t);
    RunKeeps(states, acts, u);
    assert Step(states[t], acts[t], states[u]);
  }

  predicate ForkAct(a: Action) { a.DoTakeSlot? || a.DoFailFork? || a.DoSetParent? || a.DoStartChild? }

  predicate ExitAct(a: Action) {
    a.DoBeginExit? || a.DoLockForExit? || a.DoPassSlot? || a.DoGiveToInit? || a.DoReWakePass? || a.DoReWakeVisit? ||
    a.DoWakePass? || a.DoWakeVisit? || a.DoBecomeZombie?
  }

  predicate WaitAct(a: Action) {
    a.DoBeginWait? || a.DoScanSlot? || a.DoReap? || a.DoCopyFails? || a.DoNoChildren? || a.DoWaitKilled? ||
    a.DoScanEnd? || a.DoSleepLock? || a.DoSleepUnlock? || a.DoFallAsleep?
  }

  /** What a step may do to a process j: to its place in the code, pid, parent and killed flag. */
  ghost predicate Changes(s: State, a: Action, s': State, j: nat) {
    j < |s.procs| == |s'.procs| && a.i < |s.procs| &&
    var p, p' := s.procs[j], s'.procs[j];
    && (a.i != j ==> || (p'.pc == p.pc && p'.xstate == p.xstate)
                     || (Frees(s, a, j) && p'.pc.Elsewhere?))
    && (p'.pid == p.pid || Renames(s, a, j))
    && (p'.parent == p.parent || a.DoSetParent? || a.DoGiveToInit? || a.DoReap?
        || (a.DoFailFork? && s.procs[a.i].pc.ForkUsed? && s.procs[a.i].pc.c == j))
    && (p'.mode.UNUSED? == p.mode.UNUSED? || Renames(s, a, j) || a.DoStartChild? || a.i == j)
    && p'.killed == ((p.killed && !(a.i != j && Frees(s, a, j))) || (a.DoKill? && a.i == j))
  }

  lemma WhatChanges(s: State, a: Action, s': State, j: nat)
    requires Step(s, a, s') && j < |s.procs|
    ensures Changes(s, a, s', j)
  {
    if ForkAct(a) {
      WhatForkChanges(s, a, s', j);
    } else if ExitAct(a) {
      WhatExitChanges(s, a, s', j);
    } else if WaitAct(a) {
      WhatWaitChanges(s, a, s', j);
    } else {
      WhatElseChanges(s, a, s', j);
    }
  }

  lemma WhatElseChanges(s: State, a: Action, s': State, j: nat)
    requires Step(s, a, s') && j < |s.procs| && !ForkAct(a) && !ExitAct(a) && !WaitAct(a)
    ensures Changes(s, a, s', j)
  {
    assert Shown(true);
  }

  lemma WhatForkChanges(s: State, a: Action, s': State, j: nat)
    requires Step(s, a, s') && j < |s.procs| && ForkAct(a)
    ensures Changes(s, a, s', j)
  {
    assert Shown(true);
  }

  lemma WhatExitChanges(s: State, a: Action, s': State, j: nat)
    requires Step(s, a, s') && j < |s.procs| && ExitAct(a)
    ensures Changes(s, a, s', j)
  {
    assert Shown(true);
  }

  lemma WhatWaitChanges(s: State, a: Action, s': State, j: nat)
    requires Step(s, a, s') && j < |s.procs| && WaitAct(a)
    ensures Changes(s, a, s', j)
  {
    assert Shown(true);
  }

  predicate Renames(s: State, a: Action, j: nat)
    requires a.i < |s.procs|
  {
    (a.DoTakeSlot? && a.c == j) || Frees(s, a, j)
  }

  /** freeproc on slot j. */
  predicate Frees(s: State, a: Action, j: nat)
    requires a.i < |s.procs|
  {
    || (a.DoFailFork? && s.procs[a.i].pc.ForkUsed? && s.procs[a.i].pc.c == j)
    || (a.DoReap? && s.procs[a.i].pc.WaitScan? && s.procs[a.i].pc.k == j)
  }

  // ---------- kwait: -1, or sleep ----------

  /** While i holds wait_lock, nobody else changes a parent. */
  lemma ParentsStay(s: State, a: Action, s': State, i: nat, j: nat)
    requires Inv(s) && Step(s, a, s') && i < |s.procs| && j < |s.procs| && s.wl == i && a.i != i
    ensures |s'.procs| == |s.procs| && s'.procs[j].parent == s.procs[j].parent
    ensures s'.procs[i].pc == s.procs[i].pc
  {
    WhatChanges(s, a, s', i);
    WhatChanges(s, a, s', j);
    ActorHolds(s, a, s');
    assert One(s, i) && One(s, a.i);
    if a.DoFailFork? {
      assert Two(s, a.i, j) && Two(s, a.i, i) && One(s, j);
      FreedSlot(s, a, s', j);
      FreedSlot(s, a, s', i);
    }
  }

  lemma ActorHolds(s: State, a: Action, s': State)
    requires Step(s, a, s')
    ensures a.i < |s.procs|
    ensures a.DoGiveToInit? || a.DoReap? ==> HoldsWaitLock(s.procs[a.i].pc)
    ensures a.DoSetParent? ==> Free(s)
  {
    assert Shown(true);
  }

  lemma FreedSlot(s: State, a: Action, s': State, j: nat)
    requires Step(s, a, s') && a.DoFailFork? && j < |s.procs|
    ensures a.i < |s.procs| == |s'.procs| && s.procs[a.i].pc.ForkUsed?
    ensures a.i != j ==> s'.procs[j] == if s.procs[a.i].pc.c == j then Freed(s.procs[j]) else s.procs[j]
    ensures a.i == j ==> s'.procs[j].parent == s.procs[j].parent
  {
    assert Shown(true);
  }

  ghost predicate SeesChildren(s: State, i: nat)
    requires i < |s.procs|
  {
    s.procs[i].pc.WaitScan? ==>
      (s.procs[i].pc.kids <==> exists j: nat {:trigger ChildOf(s, j, i)} :: j < s.procs[i].pc.k && ChildOf(s, j, i))
  }

  lemma SeesStep(s: State, a: Action, s': State, i: nat)
    requires Inv(s) && Step(s, a, s') && i < |s.procs| && SeesChildren(s, i)
    ensures i < |s'.procs| && SeesChildren(s', i)
  {
    assert One(s, i);
    if a.i != i {
      if s.procs[i].pc.WaitScan? {
        OtherSees(s, a, s', i);
      } else {
        StaysOut(s, a, s', i);
      }
    } else if a.DoScanSlot? {
      assert Shown(true);
      ScanSees(s, s', i);
    } else {
      SelfSees(s, a, s', i);
    }
  }

  lemma SelfSees(s: State, a: Action, s': State, i: nat)
    requires Inv(s) && Step(s, a, s') && i < |s.procs| && SeesChildren(s, i) && a.i == i && !a.DoScanSlot?
    ensures i < |s'.procs| && SeesChildren(s', i)
  {
    assert Shown(true);
    assert One(s, i);
    assert s'.procs[i].pc.WaitScan? ==> a.DoBeginWait? || a.DoKill?;
    if a.DoKill? {
      forall j: nat | j < |s.procs|
        ensures ChildOf(s', j, i) <==> ChildOf(s, j, i)
      {
      }
    }
  }

  lemma OtherSees(s: State, a: Action, s': State, i: nat)
    requires Inv(s) && Step(s, a, s') && i < |s.procs| && SeesChildren(s, i) && s.wl == i && a.i != i
    ensures i < |s'.procs| && SeesChildren(s', i)
  {
    ParentsStay(s, a, s', i, i);
    forall j: nat | j < |s.procs|
      ensures ChildOf(s', j, i) <==> ChildOf(s, j, i)
    {
      ParentsStay(s, a, s', i, j);
    }
  }

  lemma StaysOut(s: State, a: Action, s': State, i: nat)
    requires Inv(s) && Step(s, a, s') && i < |s.procs| && a.i != i && !s.procs[i].pc.WaitScan?
    ensures i < |s'.procs| && !s'.procs[i].pc.WaitScan?
  {
    assert Shown(true);
  }

  lemma ScanSees(s: State, s': State, i: nat)
    requires ScanSlot(s, i, s') && SeesChildren(s, i)
    ensures SeesChildren(s', i)
  {
    var k := s.procs[i].pc.k;
    forall j: nat | j < |s.procs|
      ensures ChildOf(s', j, i) <==> ChildOf(s, j, i)
    {
    }
    assert ChildOf(s, k, i) <==> s.procs[k].parent == Parent(i);
  }

  /** While i scans, kids holds exactly if a slot that it has passed is its child. */
  lemma {:induction false} ScanFollows(states: seq<State>, acts: seq<Action>, t: nat, i: nat)
    requires IsRun(states, acts) && t < |states| && i < |states[t].procs|
    ensures SeesChildren(states[t], i)
  {
    if t == 0 {
      assert states[0].procs[i].pc.Elsewhere?;
    } else {
      StepOfRun(states, acts, t - 1);
      SameTable(states[t - 1], acts[t - 1], states[t]);
      ScanFollows(states, acts, t - 1, i);
      SeesStep(states[t - 1], acts[t - 1], states[t], i);
    }
  }

  lemma SameTable(s: State, a: Action, s': State)
    requires Step(s, a, s')
    ensures |s'.procs| == |s.procs|
  {
    assert Shown(true);
  }

  lemma ActorIsThere(s: State, a: Action, s': State)
    requires Step(s, a, s') && a.i < |s.procs| && One(s, a.i) && !a.DoKill?
    ensures !s.procs[a.i].mode.UNUSED?
  {
    assert Shown(true);
  }

  lemma StartedSlot(s: State, a: Action, s': State, i: nat)
    requires Inv(s) && Step(s, a, s') && i < |s.procs| && (a.DoSetParent? || a.DoStartChild?)
    ensures i < |s'.procs| && (s.procs[i].mode.UNUSED? ==> s'.procs[i].mode.UNUSED?)
  {
    assert Shown(true);
    assert One(s, a.i) && Two(s, a.i, s.procs[a.i].pc.c);
  }

  /** kwait returns -1 for want of children only if there is no child. */
  lemma NoChildrenIsTrue(states: seq<State>, acts: seq<Action>, t: nat, i: nat, z: nat)
    requires IsRun(states, acts) && t < |acts| && acts[t] == DoNoChildren(i)
    ensures !ChildOf(states[t], z, i)
  {
    StepOfRun(states, acts, t);
    assert Shown(true);
    ScanFollows(states, acts, t, i);
  }

  /** It goes to sleep only with a child to wait for, none of them a ZOMBIE. */
  lemma SleepsForAChild(states: seq<State>, acts: seq<Action>, t: nat, i: nat) returns (z: nat)
    requires IsRun(states, acts) && t < |acts| && acts[t] == DoScanEnd(i)
    ensures ChildOf(states[t], z, i)
    ensures forall y: nat {:trigger ChildOf(states[t], y, i)} :: ChildOf(states[t], y, i) ==>
              !states[t].procs[y].mode.ZOMBIE?
  {
    StepOfRun(states, acts, t);
    assert Shown(true);
    var s := states[t];
    ScanFollows(states, acts, t, i);
    assert One(s, i);
    z :| z < s.procs[i].pc.k && ChildOf(s, z, i);
    forall y: nat | ChildOf(s, y, i)
      ensures !s.procs[y].mode.ZOMBIE?
    {
      assert Two(s, i, y);
    }
  }

  /** In every run, whenever wait_lock is free, no process asleep in kwait has a ZOMBIE child. */
  lemma NoChildIsLost(states: seq<State>, acts: seq<Action>, t: nat, w: nat, z: nat)
    requires IsRun(states, acts) && t < |states| && Free(states[t]) && ChildOf(states[t], z, w)
    requires states[t].procs[w].pc.WaitAsleep? && states[t].procs[w].mode.SLEEPING?
    ensures !states[t].procs[z].mode.ZOMBIE?
  {
    RunKeeps(states, acts, t);
    assert Two(states[t], w, z);
  }

  /** In every run each process but init that has started has a parent that has not exited. */
  lemma ParentsAreLive(states: seq<State>, acts: seq<Action>, t: nat, i: nat)
    requires IsRun(states, acts) && t < |states| && i < |states[t].procs| && i != states[t].init &&
             Started(states[t].procs[i].mode)
    ensures states[t].procs[i].parent.Parent?
    ensures var w := states[t].procs[i].parent.p; w < |states[t].procs| && Live(states[t].procs[w].mode)
  {
    RunKeeps(states, acts, t);
    assert One(states[t], i);
    assert Two(states[t], states[t].procs[i].parent.p, i);
  }

  lemma NobodyForks(s: State, i: nat)
    requires Boot(s) && i < |s.procs|
    ensures s.procs[i].pc.Elsewhere?
  {
  }

  // ---------- the status that kwait hands out ----------

  datatype Status = NotExiting | Exits(value: int)

  /** The status with which a process is exiting or has exited. */
  function StatusOf(p: Proc): Status {
    match p.pc
    case ExitStart(v) => Exits(v)
    case Reparent(_, v) => Exits(v)
    case ReWake(_, _, v) => Exits(v)
    case WakeParent(_, v) => Exits(v)
    case ExitFinal(v) => Exits(v)
    case Gone => Exits(p.xstate)
    case _ => NotExiting
  }

  /** A status comes from kexit and stays with the pid. */
  lemma StatusStep(s: State, a: Action, s': State, i: nat)
    requires Inv(s) && Step(s, a, s') && i < |s.procs|
    ensures i < |s'.procs|
    ensures StatusOf(s'.procs[i]).Exits? ==> s'.procs[i].pid == s.procs[i].pid
    ensures StatusOf(s'.procs[i]).Exits? ==>
              StatusOf(s'.procs[i]) == StatusOf(s.procs[i]) || a == DoBeginExit(i, StatusOf(s'.procs[i]).value)
  {
    WhatChanges(s, a, s', i);
    if a.i == i {
      OwnStatus(s, a, s');
    } else if Renames(s, a, i) {
      assert One(s, i) && One(s, a.i);
      RenamedIsOut(s, a, s', i);
    }
  }

  lemma OwnStatus(s: State, a: Action, s': State)
    requires a.i < |s.procs| && One(s, a.i) && Step(s, a, s') && |s'.procs| == |s.procs|
    ensures StatusOf(s'.procs[a.i]).Exits? ==>
              && s'.procs[a.i].pid == s.procs[a.i].pid
              && (StatusOf(s'.procs[a.i]) == StatusOf(s.procs[a.i]) ||
                  a == DoBeginExit(a.i, StatusOf(s'.procs[a.i]).value))
  {
    if ExitAct(a) {
      OwnExit(s, a, s');
    } else {
      OwnOther(s, a, s');
    }
  }

  lemma OwnExit(s: State, a: Action, s': State)
    requires a.i < |s.procs| && One(s, a.i) && Step(s, a, s') && |s'.procs| == |s.procs| && ExitAct(a)
    ensures StatusOf(s'.procs[a.i]).Exits? ==>
              && s'.procs[a.i].pid == s.procs[a.i].pid
              && (StatusOf(s'.procs[a.i]) == StatusOf(s.procs[a.i]) ||
                  a == DoBeginExit(a.i, StatusOf(s'.procs[a.i]).value))
  {
    assert Shown(true);
  }

  lemma OwnOther(s: State, a: Action, s': State)
    requires a.i < |s.procs| && One(s, a.i) && Step(s, a, s') && |s'.procs| == |s.procs| && !ExitAct(a)
    ensures StatusOf(s'.procs[a.i]).Exits? ==>
              s'.procs[a.i].pid == s.procs[a.i].pid && StatusOf(s'.procs[a.i]) == StatusOf(s.procs[a.i])
  {
    assert Shown(true);
  }

  lemma RenamedIsOut(s: State, a: Action, s': State, i: nat)
    requires i < |s.procs| == |s'.procs| && One(s, i) && Step(s, a, s') && a.i < |s.procs| && a.i != i
    requires Renames(s, a, i)
    ensures s'.procs[i].pc.Elsewhere?
  {
    assert Shown(true);
  }

  lemma {:induction false} ExitBegan(states: seq<State>, acts: seq<Action>, t: nat, i: nat) returns (u: nat)
    requires IsRun(states, acts) && t < |states| && i < |states[t].procs| && StatusOf(states[t].procs[i]).Exits?
    ensures u < t && acts[u] == DoBeginExit(i, StatusOf(states[t].procs[i]).value)
    ensures i < |states[u].procs| && states[u].procs[i].pid == states[t].procs[i].pid
  {
    if t == 0 {
      NobodyForks(states[0], i);
    } else {
      var b := t - 1;
      StepOfRun(states, acts, b);
      SameTable(states[b], acts[b], states[t]);
      StatusStep(states[b], acts[b], states[t], i);
      if StatusOf(states[t].procs[i]) == StatusOf(states[b].procs[i]) {
        u := ExitBegan(states, acts, b, i);
      } else {
        u := b;
      }
    }
  }

  /** kwait returns the pid of a child, which no CPU runs any more, and the status that this
      child gave to kexit. */
  lemma ReapsTheStatus(states: seq<State>, acts: seq<Action>, t: nat, i: nat, pid: nat, status: int)
    returns (z: nat, u: nat)
    requires IsRun(states, acts) && t < |acts| && acts[t] == DoReap(i, pid, status)
    ensures ChildOf(states[t], z, i) && states[t].procs[z].pid == pid && !states[t].procs[z].onCpu
    ensures u < t && acts[u] == DoBeginExit(z, status) && z < |states[u].procs| && states[u].procs[z].pid == pid
    ensures z < |states[t + 1].procs| && states[t + 1].procs[z].mode.UNUSED?
  {
    StepOfRun(states, acts, t);
    assert Shown(true);
    z := states[t].procs[i].pc.k;
    assert One(states[t], z) && One(states[t], i);
    u := ExitBegan(states, acts, t, z);
  }

  lemma ReapRecords(s: State, a: Action, s': State)
    requires Inv(s) && Step(s, a, s')
    ensures if a.DoReap? then a.pid !in s.reaped && s'.reaped == s.reaped[a.pid := a.status] else s'.reaped == s.reaped
  {
    if a.DoReap? {
      ReapRecord(s, a, s');
    } else {
      KeepsReaped(s, a, s');
    }
  }

  lemma ReapRecord(s: State, a: Action, s': State)
    requires Inv(s) && Step(s, a, s') && a.DoReap?
    ensures a.pid !in s.reaped && s'.reaped == s.reaped[a.pid := a.status]
  {
    assert Shown(true);
    assert One(s, s.procs[a.i].pc.k);
  }

  lemma KeepsReaped(s: State, a: Action, s': State)
    requires Step(s, a, s') && !a.DoReap?
    ensures s'.reaped == s.reaped
  {
    assert Shown(true);
  }

  lemma {:induction false} ReapingsStay(states: seq<State>, acts: seq<Action>, t: nat, u: nat, pid: nat)
    requires IsRun(states, acts) && t <= u < |states| && pid in states[t].reaped
    ensures pid in states[u].reaped
    decreases u
  {
    if t < u {
      ReapingsStay(states, acts, t, u - 1, pid);
      StepOfRun(states, acts, u - 1);
      ReapRecords(states[u - 1], acts[u - 1], states[u]);
    }
  }

  /** No exit is reaped twice. */
  lemma ReapedOnce(states: seq<State>, acts: seq<Action>, t: nat, u: nat)
    requires IsRun(states, acts) && t < u < |acts| && acts[t].DoReap? && acts[u].DoReap?
    ensures acts[t].pid != acts[u].pid
  {
    StepOfRun(states, acts, t);
    StepOfRun(states, acts, u);
    ReapRecords(states[t], acts[t], states[t + 1]);
    ReapRecords(states[u], acts[u], states[u + 1]);
    ReapingsStay(states, acts, t + 1, u, acts[t].pid);
  }

  // ---------- fork ----------

  lemma ForkStep(s: State, a: Action, s': State, i: nat)
    requires Inv(s) && Step(s, a, s') && i < |s.procs|
    ensures i < |s'.procs|
    ensures s'.procs[i].pc.ForkUsed? || s'.procs[i].pc.ForkParent? ==>
              if a.i == i && a.DoTakeSlot? then s'.procs[i].pc.c == a.c && a.c < |s.procs|
              else (s.procs[i].pc.ForkUsed? || s.procs[i].pc.ForkParent?) && s'.procs[i].pc.c == s.procs[i].pc.c
  {
    WhatChanges(s, a, s', i);
    if a.i == i {
      OwnFork(s, a, s');
    }
  }

  lemma OwnFork(s: State, a: Action, s': State)
    requires Step(s, a, s') && a.i < |s.procs| == |s'.procs|
    ensures s'.procs[a.i].pc.ForkUsed? || s'.procs[a.i].pc.ForkParent? ==>
              if a.DoTakeSlot? then s'.procs[a.i].pc.c == a.c && a.c < |s.procs|
              else (s.procs[a.i].pc.ForkUsed? || s.procs[a.i].pc.ForkParent?) &&
                   s'.procs[a.i].pc.c == s.procs[a.i].pc.c
  {
    assert Shown(true);
  }

  /** A slot that a fork has taken keeps its pid until the child starts. */
  lemma SlotStep(s: State, a: Action, s': State, i: nat)
    requires Inv(s) && Step(s, a, s') && i < |s.procs|
    requires (s.procs[i].pc.ForkUsed? || s.procs[i].pc.ForkParent?)
    requires i < |s'.procs| && (s'.procs[i].pc.ForkUsed? || s'.procs[i].pc.ForkParent?)
    requires s'.procs[i].pc.c == s.procs[i].pc.c && !(a.i == i && a.DoTakeSlot?)
    ensures var c := s.procs[i].pc.c; c < |s.procs| && c < |s'.procs| ==> s'.procs[c].pid == s.procs[c].pid
  {
    var c := s.procs[i].pc.c;
    assert One(s, i) && Two(s, i, c);
    WhatChanges(s, a, s', c);
    if Renames(s, a, c) {
      NotRenamed(s, a, s', i, c);
    }
  }

  lemma NotRenamed(s: State, a: Action, s': State, i: nat, c: nat)
    requires Inv(s) && Step(s, a, s') && i < |s.procs| == |s'.procs| && c < |s.procs| && a.i < |s.procs|
    requires (s.procs[i].pc.ForkUsed? || s.procs[i].pc.ForkParent?) && s.procs[i].pc.c == c
    requires s'.procs[i].pc.ForkUsed? || s'.procs[i].pc.ForkParent?
    requires !(a.i == i && a.DoTakeSlot?)
    ensures !Renames(s, a, c)
  {
    assert Shown(true);
    assert Two(s, i, c) && Two(s, a.i, i);
  }

  lemma NewSlot(s: State, a: Action, s': State)
    requires Step(s, a, s') && a.DoTakeSlot?
    ensures a.c < |s.procs| == |s'.procs| && s.procs[a.c].mode.UNUSED? && a.i != a.c
    ensures s'.procs[a.c].pid == s.nextpid
  {
    assert Shown(true);
  }

  lemma {:induction false} ForkBegan(states: seq<State>, acts: seq<Action>, t: nat, i: nat) returns (u: nat)
    requires IsRun(states, acts) && t < |states| && i < |states[t].procs|
    requires states[t].procs[i].pc.ForkUsed? || states[t].procs[i].pc.ForkParent?
    ensures var c := states[t].procs[i].pc.c;
            && u < t && acts[u] == DoTakeSlot(i, c) && c < |states[u].procs| && c < |states[t].procs|
            && states[u].procs[c].mode.UNUSED? && states[t].procs[c].pid == states[u].nextpid
  {
    if t == 0 {
      NobodyForks(states[0], i);
    } else {
      var b := t - 1;
      StepOfRun(states, acts, b);
      SameTable(states[b], acts[b], states[t]);
      ForkStep(states[b], acts[b], states[t], i);
      if acts[b].i == i && acts[b].DoTakeSlot? {
        u := b;
        NewSlot(states[b], acts[b], states[t]);
      } else {
        u := ForkBegan(states, acts, b, i);
        SlotStep(states[b], acts[b], states[t], i);
      }
    }
  }

  /** A fork that succeeds leaves the slot that it took as a RUNNABLE child of the caller, under
      the pid that was next when it was taken. */
  lemma ForkedChildIsReady(states: seq<State>, acts: seq<Action>, t: nat, i: nat) returns (c: nat, u: nat)
    requires IsRun(states, acts) && t < |acts| && acts[t] == DoStartChild(i)
    ensures u < t && acts[u] == DoTakeSlot(i, c) && c < |states[u].procs| && states[u].procs[c].mode.UNUSED?
    ensures ChildOf(states[t + 1], c, i) && states[t + 1].procs[c].mode.RUNNABLE?
    ensures states[t + 1].procs[c].pid == states[u].nextpid
  {
    StepOfRun(states, acts, t);
    assert Shown(true);
    c := states[t].procs[i].pc.c;
    u := ForkBegan(states, acts, t, i);
    assert Two(states[t], i, c);
  }

  // ---------- nobody gets stuck ----------

  /** On a CPU, inside fork, exit or wait. */
  predicate Busy(p: Proc) {
    p.mode.RUNNING? && !p.pc.Elsewhere?
  }

  /** At an acquire(&wait_lock) while another holds it. */
  predicate WaitsForLock(s: State, i: nat)
    requires i < |s.procs|
  {
    (s.procs[i].pc.ForkUsed? || s.procs[i].pc.ExitStart? || s.procs[i].pc.WaitWoken?) && !Free(s)
  }

  /** At an acquire(&p->lock) of slot j while it is held. */
  predicate WaitsForSlot(s: State, i: nat, j: nat)
    requires i < |s.procs| && j < |s.procs|
  {
    var pc := s.procs[i].pc;
    s.procs[j].locked && j != i &&
    ((pc.ReWake? && pc.t == j) || (pc.WakeParent? && pc.t == j)
     || (pc.WaitScan? && pc.k == j && s.procs[j].parent == Parent(i)))
  }

  /** Who waits for no lock can take a step. */
  lemma GoesOn(s: State, i: nat) returns (a: Action, s': State)
    requires Inv(s) && i < |s.procs| && Busy(s.procs[i]) && !WaitsForLock(s, i)
    requires forall j: nat {:trigger WaitsForSlot(s, i, j)} :: j < |s.procs| ==> !WaitsForSlot(s, i, j)
    ensures Next(s, a, s') && a.i == i
  {
    var p := s.procs[i];
    assert One(s, i);
    match p.pc
    case ForkUsed(c) =>
      assert Two(s, i, c);
      a, s' := DoSetParent(i), Put(Put(s, c, s.procs[c].(parent := Parent(i))), i, p.(pc := ForkParent(c)));
    case ForkParent(c) =>
      assert Two(s, i, c) && One(s, c);
      a, s' := DoStartChild(i), Put(Put(s, c, s.procs[c].(mode := RUNNABLE)), i, p.(pc := Elsewhere));
    case ExitStart(status) =>
      a, s' := DoLockForExit(i), Put(s, i, p.(pc := Reparent(0, status))).(wl := i);
    case Reparent(k, status) =>
      a, s' := ReparentsOn(s, i);
    case ReWake(k, t, status) =>
      a, s' := RewakesOn(s, i);
    case WakeParent(t, status) =>
      a, s' := WakesOn(s, i);
    case ExitFinal(status) =>
      a := DoBecomeZombie(i);
      s' := Put(s, i, p.(mode := ZOMBIE, xstate := status, pc := Gone,
                         locked := true)).(wl := |s.procs|, exited := s.exited[p.pid := status]);
    case WaitScan(k, kids) =>
      a, s' := ScansOn(s, i);
    case WaitSleep =>
      a, s' := DoSleepLock(i), Put(s, i, p.(pc := WaitSleepB, locked := true));
    case WaitSleepB =>
      a, s' := DoSleepUnlock(i), Put(s, i, p.(pc := WaitSleepC)).(wl := |s.procs|);
    case WaitSleepC =>
      a, s' := DoFallAsleep(i), Put(s, i, p.(mode := SLEEPING, chan := WaitChan(i), pc := WaitAsleep));
    case WaitWoken =>
      a, s' := DoBeginWait(i), Put(s, i, p.(pc := WaitScan(0, false))).(wl := i);
  }

  lemma ReparentsOn(s: State, i: nat) returns (a: Action, s': State)
    requires At(s, i) && s.procs[i].pc.Reparent? && s.init < |s.procs|
    ensures Next(s, a, s') && a.i == i
  {
    var p := s.procs[i];
    var k, status := p.pc.k, p.pc.status;
    if k < |s.procs| && s.procs[k].parent == Parent(i) {
      a := DoGiveToInit(i);
      s' := Put(Put(s, k, s.procs[k].(parent := Parent(s.init))), i, p.(pc := ReWake(k, 0, status)));
    } else {
      a := DoPassSlot(i);
      s' := Put(s, i, p.(pc := if k < |s.procs| then Reparent(k + 1, status) else WakeParent(0, status)));
    }
  }

  lemma RewakesOn(s: State, i: nat) returns (a: Action, s': State)
    requires At(s, i) && s.procs[i].pc.ReWake?
    requires forall j: nat {:trigger WaitsForSlot(s, i, j)} :: j < |s.procs| ==> !WaitsForSlot(s, i, j)
    ensures Next(s, a, s') && a.i == i
  {
    var p := s.procs[i];
    var k, t, status := p.pc.k, p.pc.t, p.pc.status;
    if t >= |s.procs| || t == i {
      a := DoReWakePass(i);
      s' := Put(s, i, p.(pc := if t == i then ReWake(k, t + 1, status) else Reparent(k + 1, status)));
    } else {
      assert !WaitsForSlot(s, i, t);
      a := DoReWakeVisit(i);
      s' := Put(Put(s, t, Woken(s.procs[t], WaitChan(s.init))), i, p.(pc := ReWake(k, t + 1, status)));
    }
  }

  lemma WakesOn(s: State, i: nat) returns (a: Action, s': State)
    requires At(s, i) && s.procs[i].pc.WakeParent? && s.procs[i].parent.Parent?
    requires forall j: nat {:trigger WaitsForSlot(s, i, j)} :: j < |s.procs| ==> !WaitsForSlot(s, i, j)
    ensures Next(s, a, s') && a.i == i
  {
    var p := s.procs[i];
    var t, status := p.pc.t, p.pc.status;
    if t >= |s.procs| || t == i {
      a := DoWakePass(i);
      s' := Put(s, i, p.(pc := if t == i then WakeParent(t + 1, status) else ExitFinal(status)));
    } else {
      assert !WaitsForSlot(s, i, t);
      a := DoWakeVisit(i);
      s' := Put(Put(s, t, Woken(s.procs[t], WaitChan(p.parent.p))), i, p.(pc := WakeParent(t + 1, status)));
    }
  }

  lemma ScansOn(s: State, i: nat) returns (a: Action, s': State)
    requires At(s, i) && One(s, i) && s.procs[i].pc.WaitScan?
    requires forall j: nat {:trigger WaitsForSlot(s, i, j)} :: j < |s.procs| ==> !WaitsForSlot(s, i, j)
    ensures Next(s, a, s') && a.i == i
  {
    var p := s.procs[i];
    var k, kids := p.pc.k, p.pc.kids;
    if k < |s.procs| {
      assert !WaitsForSlot(s, i, k);
      var q := s.procs[k];
      var child := q.parent == Parent(i);
      if child && q.mode.ZOMBIE? {
        a := DoReap(i, q.pid, q.xstate);
        s' := Put(Put(s, k, Freed(q)), i, p.(pc := Elsewhere)).(wl := |s.procs|, reaped := s.reaped[q.pid := q.xstate]);
      } else {
        a, s' := DoScanSlot(i), Put(s, i, p.(pc := WaitScan(k + 1, kids || child)));
      }
    } else if !kids {
      a, s' := DoNoChildren(i), GivenUp(s, i);
    } else if p.killed {
      a, s' := DoWaitKilled(i), GivenUp(s, i);
    } else {
      a, s' := DoScanEnd(i), Put(s, i, p.(pc := WaitSleep));
    }
  }

  /** Whose p->lock is held, by itself, can take a step. */
  lemma LockedGoesOn(s: State, j: nat) returns (a: Action, s': State)
    requires Inv(s) && j < |s.procs| && s.procs[j].locked && s.wl != j
    ensures Next(s, a, s') && a.i == j
  {
    var p := s.procs[j];
    assert One(s, j);
    if p.mode.RUNNING? {
      a, s' := DoFallAsleep(j), Put(s, j, p.(mode := SLEEPING, chan := WaitChan(j), pc := WaitAsleep));
    } else {
      a, s' := DoSwitchOut(j), Put(s, j, p.(locked := false, onCpu := false));
    }
  }

  /** In every run, a process on a CPU inside fork, exit or wait can take a step, or the one
      that it waits for can, or the one that this one waits for. */
  lemma NobodyIsStuck(states: seq<State>, acts: seq<Action>, t: nat, i: nat) returns (a: Action, s': State)
    requires IsRun(states, acts) && t < |states| && i < |states[t].procs| && Busy(states[t].procs[i])
    ensures Next(states[t], a, s')
    ensures var s := states[t];
            || a.i == i || (WaitsForLock(s, i) && a.i == s.wl)
            || (a.i < |s.procs| && s.wl < |s.procs| && WaitsForSlot(s, s.wl, a.i) && (s.wl == i || WaitsForLock(s, i)))
  {
    RunKeeps(states, acts, t);
    var s := states[t];
    var w := if WaitsForLock(s, i) then s.wl else i;
    assert One(s, w) && One(s, i);
    if j: nat :| j < |s.procs| && WaitsForSlot(s, w, j) {
      assert One(s, j);
      a, s' := LockedGoesOn(s, j);
    } else {
      a, s' := GoesOn(s, w);
    }
  }
}
